# clawk: a verified model of its policy engine and lifecycle protocols

clawk runs coding agents in microVMs. This project models, in Dafny, the parts
of it that decide what a sandbox may reach and that keep a sandbox's state
consistent across crashes, retries and concurrent activity:

- **Network policy.** `blocks.dfy` and `chain.dfy` compile layers of allow and
  deny rules and decide names and addresses; `policy.dfy` normalises a stored
  policy and layers named policies, namespace and sandbox blocks into a chain;
  `acl.dfy` is the runtime filter on top of a chain; `ledger.dfy` the bounded
  record of refusals; `gate.dfy` the protocol that holds a connection until a
  human decides.
- **Lifecycle protocols.** `suspend.dfy` (suspend to disk and restore across
  daemon crashes), `fence.dfy` (the accept fence before an idle stop),
  `streams.dfy` (published sets over coalesced wake-ups), `oncreate.dfy`
  (run-once hooks across failing attempts), `idle.dfy` (the idle tracker) and
  `admission.dfy` (memory admission).
- **Text and data.** `envspec.dfy` (the environment-entry language, whose
  operators follow section 2.6.2 of the POSIX.1-2017 Shell Command Language)
  and `migrate.dfy` with `store.dfy` (schema migrations over a store with three
  generations of layout). `text.dfy` holds the string operations they share.

Where the source mutates an object, the model is a class whose methods are
proved equal to a step function on a value state; the theorems are about that
step function, over every run. A region the source runs under one lock is one
step. `dafny verify dfyconfig.toml` checks everything.

Findings about the code, each stated as a theorem:

- The remark that a missing layer can only block more
  (`internal/cli/netpolicy.go:25-26`) holds for exactly the layers whose deny
  entries name nothing, or are address prefixes that allows of the same layer
  outrank at every address a connection can have
  (`Chains.SafeToDropSyntactically`).
- "exact beats wildcard of equal depth" (`internal/netfilter/blocks.go:107`)
  never decides anything (`Blocks.EqualDepthSamePattern`).
- The documented round trip of environment entries fails for exactly the
  literals printed bare whose ends are white space (`EnvSpec.ParseInvertsPrintIff`).
- A deletion or rename that fails during a boot and leaves a suspend state
  behind is logged and followed by a cold boot; it always opens a way to restore
  a memory image onto a foreign disk. Other failing deletions open none. A run
  is secure exactly while no such fault occurs (`Suspend.SecureIff`).
- A field migration edits every listed record in its own file if and only if
  each record it changes has a key that resolves to that file
  (`Stores.FieldStepInPlaceIff`); with a shared key it destroys a record
  (`Stores.SharedKeyOverwrites`).
- A move cut short between writing the new record and removing the old one is
  not finished on the next pass, contrary to `internal/config/migrate.go:247-249`:
  the old file is there, unchanged, after any number of later runs
  (`Migrations.InterruptedMoveStays`, `Stores.Store.Reopen`). The "target taken"
  deferral is never reached (`Stores.TakenTargetIsOwn`).
- Nesting rewrites the interim worktree path of a sandbox named like its
  namespace to a wrong place, because the flat prefix is tried first
  (`Migrations.RelocatesWorktree`, `Migrations.NamesakeIsMisplaced`).
- The idle tracker holds the latest activity at every moment if and only if no
  reset or busy sample is stamped before an activity it follows
  (`Idle.TracksEverywhereIff`).
- Admission arithmetic below 2^63 can still wrap, when reserve and commitments
  exceed the host by more than 2^63 (`Admission.AdmitsExactly`); it never does
  in a run that admitted what is running (`Admission.NeverOvercommitted`).

## Model

| member | source | states |
|---|---|---|
| `Blocks.MatchIsSpeaking` | internal/netfilter/blocks.go:108-121 | A rule matches a name exactly when its pattern is a dot-suffix of the name that its shape covers: the whole name for exact and subtree rules, a proper suffix for wildcard and subtree rules. |
| `Blocks.EqualDepthSamePattern` | internal/netfilter/blocks.go:273-283 | Two rules of equal label count that match one name have the same pattern and the same exactness, so the exactness tie-break cannot separate them. |
| `Blocks.BestDecides` | internal/netfilter/blocks.go:254-283 | A matching rule no other match outranks carries the verdict of the longest-suffix-first walk. |
| `Blocks.DecideBlockName` | internal/netfilter/blocks.go:254-271 | The one-pass scan returns the verdict of walking the name's dot-suffixes from longest to shortest, first rule deciding, deny on a tie; its attribution names a best rule. |
| `Blocks.DecideBlockIP` | internal/netfilter/blocks.go:340-374 | The scan over address rules returns the verdict of the top-ranked containing rules (exact over longer prefix over shorter), deny on a tie; its attribution names such a rule. |
| `Blocks.NameOrderIrrelevant` | internal/netfilter/blocks.go:254-283 | A block's opinion on a name depends only on which rules it holds, not on order or repetition. |
| `Blocks.IPOrderIrrelevant` | internal/netfilter/blocks.go:340-374 | The same for addresses. |
| `Blocks.AddNameRule` | internal/netfilter/blocks.go:254-283 | One more name rule, anywhere, leaves a block's opinion alone or makes it that rule's verdict. |
| `Blocks.AddIPRule` | internal/netfilter/blocks.go:340-374 | The same for one more address rule. |
| `Blocks.UnbeatenNameDecides` | internal/netfilter/blocks.go:254-283 | A matching rule that no rule of the other kind beats decides the name; a deny may tie. |
| `Blocks.UnbeatenIPDecides` | internal/netfilter/blocks.go:340-374 | The same for addresses. |
| `Blocks.UnmapInvertsMapped` | internal/netfilter/blocks.go:228 | Unmapping undoes the 4-in-6 form, loses no bit, and leaves every other address alone. |
| `Blocks.PrefixIsLeadingBits` | internal/netfilter/blocks.go:132-137 | A prefix contains the addresses of its family that agree on its leading bits; at full length, one address. |
| `Chains.NewChain` | internal/netfilter/blocks.go:151-177 | Compilation succeeds exactly when every address entry parses, keeps the blocks and compiles each; otherwise it names the first offending block and its first offending entry, allows read before denies. |
| `Chains.CompiledNames` | internal/netfilter/blocks.go:194-209 | The compiled name rules are exactly those of the entries, and their depth and shape are consistent. |
| `Chains.NormalizeLaws` | internal/netfilter/blocks.go:187-192 | Normal form is lower case; normalising strips surrounding white space and one trailing dot and nothing else. |
| `Chains.CompiledMatches` | internal/netfilter/blocks.go:194-209 | "*.x" is about the names below x, a bare deny about x and below, a bare allow about x alone. |
| `Chains.CompilesToOne` | internal/netfilter/blocks.go:194-209 | Every entry gives one rule, unless it names nothing. |
| `Chains.CompiledIPMatches` | internal/netfilter/blocks.go:211-233 | An address entry is about that address in either form, a prefix entry about its prefix. |
| `Chains.DecideName` | internal/netfilter/blocks.go:241-252 | Highest block first, the first opinion decides, no opinion on an empty name; the attribution names the highest opinionated block and a best rule of it. |
| `Chains.DecideIP` | internal/netfilter/blocks.go:330-338 | The same for addresses, with 4-in-6 addresses unmapped and a top rule named. |
| `Chains.DecideAddr` | internal/netfilter/blocks.go:300-325 | One walk over both rule spaces; in a block a deny of either overrides an allow of the other. The flag tells which space spoke, and the attribution names a best rule of that space in the highest opinionated block. |
| `Chains.BlockAddrExactly` | internal/netfilter/blocks.go:285-325 | A block denies a destination if and only if either space denies it, allows if and only if neither denies and one allows, is silent if and only if both are; the name is credited exactly when it says what the block says. |
| `Chains.ChainAddrExactly` | internal/netfilter/blocks.go:285-325 | The chain's verdict is deny if and only if the highest block that speaks in either space denies in either. |
| `Chains.ChainAddrSilent` | internal/netfilter/blocks.go:324 | It has no opinion if and only if every block is silent in both. |
| `Chains.AddrAround` | internal/netfilter/blocks.go:285-325 | A chain's verdict is that of the blocks above any chosen block, else that block's, else that of the blocks below. |
| `Chains.EditIsMonotone` | internal/netfilter/blocks.go:194-233 | Adding a deny entry to any block leaves every destination's verdict alone or makes it deny; adding an allow entry, alone or allow. |
| `Chains.SafeToDropIff` | internal/cli/netpolicy.go:21-27 | Leaving a layer out can never let through what was not allowed, in any chain and for any name and address a connection can have, if and only if the layer denies no such destination. |
| `Chains.DenyRuleDenies` | internal/netfilter/blocks.go:194-209 | Every deny rule for names denies some name, whatever else its block lists. |
| `Chains.CoveredIff` | internal/netfilter/blocks.go:340-374 | The recursive cover test on a prefix holds if and only if every address in it, except the 4-in-6 ones that are never looked up, is in an allow rule that outranks the prefix. |
| `Chains.NoIPDenyIff` | internal/netfilter/blocks.go:330-374 | A block's address rules deny no destination if and only if every deny among them is a prefix so covered. |
| `Chains.MappedPrefixIneffective` | internal/netfilter/blocks.go:300-302 | A deny of a prefix inside the 4-in-6 range never takes effect. |
| `Chains.SafeToDropSyntactically` | internal/cli/netpolicy.go:21-27 | For every layer: it is safe to leave out if and only if its deny domains name nothing and each deny of addresses is a covered prefix. |
| `Chains.SubtreeDeny` | internal/netfilter/blocks.go:199-206 | A bare deny of a domain denies every name at or below it unless an allow of the same block matches strictly deeper. |
| `Chains.AllowDomainPatterns` | internal/netfilter/blocks.go:382-414 | The list holds, once each, exactly the patterns some block allows whose apex no first opinion above denies, lowest block first. |
| `Chains.OfferedExactIsAllowed` | internal/netfilter/blocks.go:376-414 | A listed exact pattern in normal form is allowed by name, unless its own block also denies that name and no block above allows it. |
| `Policies.StableSort` | internal/config/types.go:169-171 | The result is ordered by origin rank and, for every rank, lists that rank's blocks in their original order. |
| `Policies.StableSortUnique` | internal/config/types.go:144-171 | Only one list meets that description. |
| `Policies.OriginOrder` | internal/config/types.go:144-156 | Namespace, MCP, mod, custom, in rising order; every other origin below them. |
| `Policies.HigherOriginAbove` | internal/config/types.go:159-172 | In normal form a block stands above every block of a lower origin. |
| `Policies.NetworkPolicy.Normalize` | internal/config/types.go:161-172 | Flat lists are appended to the first custom block, created if absent, then blocks are stably sorted. |
| `Policies.NetworkPolicy.CustomBlock` | internal/config/types.go:177-185 | Finds the first custom block or appends an empty one. |
| `Policies.NormalizeIdempotent` | internal/config/types.go:159-172 | Normalising a normalised policy changes nothing. |
| `Policies.NormalizeKeepsEntries` | internal/config/types.go:161-172 | For each of the four lists, the multiset of entries afterwards is that of blocks and flat lists before: none lost, none invented. |
| `Policies.EffectiveUse` | internal/cli/netpolicy.go:100-115 | Unwritten lists inherit the default; written ones concatenate, namespace first, in order of first mention. |
| `Policies.MentionedOnce` | internal/cli/netpolicy.go:106-114 | Order of first mention repeats no name, loses none, adds none, and extends the result for any prefix. |
| `Policies.ResolveChain` | internal/cli/netpolicy.go:27-93 | The chain is policies, then namespace, then own blocks, absent policies left out; if an entry does not parse it is empty. It warns exactly when a policy is missing, a blocklist was never fetched, or the chain did not compile. |
| `Policies.LayerPrecedence` | internal/cli/netpolicy.go:21-85 | A destination's verdict is that of the sandbox's own blocks, else the namespace's, else the policies'. |
| `Policies.LaterPolicyWins` | internal/cli/netpolicy.go:37-62 | A policy mentioned later outranks those before it; a missing one changes no verdict. |
| `Policies.PolicyDenies` | internal/cli/netpolicy.go:295-311 | A domain listed as denied by a policy or its fetched blocklist is denied by its layer, whatever the policy allows. |
| `Policies.NamespaceRules` | internal/cli/netpolicy.go:62-71 | A namespace with any entry has one layer, whose allow rules are those of its allow lists and whose deny rules those of its deny lists. |
| `Policies.PolicyRules` | internal/cli/netpolicy.go:295-311 | The same for a policy, fetched entries included, with its origin label. |
| `Policies.NamespaceNameDecides` | internal/cli/netpolicy.go:62-71 | What a namespace lists as denied it denies, as allowed it allows, for every name the entry is about where the other list does not beat it. |
| `Policies.NamespaceIPDecides` | internal/cli/netpolicy.go:62-71 | The same for addresses. |
| `Policies.PolicyNameDecides` | internal/cli/netpolicy.go:295-311 | The same for a policy's names, fetched ones included. |
| `Policies.PolicyIPDecides` | internal/cli/netpolicy.go:295-311 | The same for a policy's addresses. |
| `Policies.ResolvedCustomOnTop` | internal/cli/netpolicy.go:37-85 | Above the custom block of a normalised record there is no layer, whatever else is layered. |
| `Policies.CustomDecides` | internal/config/types.go:100-104 | In any such chain an opinion of the custom block decides every destination. |
| `Acl.RunKeepsInv` | internal/netfilter/acl.go:193-270 | Over every run of policy changes, grants, refreshes, DNS answers and bypasses: the chain is the compilation of its blocks, every observed address carries a name the current chain allows, and the attribution map holds at most 4096 entries. |
| `Acl.DeniedDomainStaysDenied` | internal/netfilter/acl.go:401-412 | With the custom block on top, once a domain is denied no later run admits a connection attributed at or below it, whatever was granted, observed, resolved, held or newly allowed, unless the chain or the denied domains were replaced, the bypass is on, or a strictly deeper allow then in the custom block matches. |
| `Acl.PinDecides` | internal/netfilter/acl.go:226-251 | The deny listed in the topmost custom block decides the whole chain, by name. |
| `Acl.AdmitsExactly` | internal/netfilter/acl.go:309-363 | Without a bypass: a verdict by name is final, then a grant admits, then a verdict by address decides, and only without an opinion do observed and resolved addresses and the gate count. |
| `Acl.DeniedAddressStaysDenied` | internal/netfilter/acl.go:333-344 | An address the topmost custom block denies stays refused over every run without a new chain or a grant of it, unless the bypass is on or an allow of that block outranks the deny. |
| `Acl.AllowedAnswerAdmits` | internal/netfilter/acl.go:610-644 | After a DNS answer for an allowed name the guest can connect, unless the chain denies that destination. |
| `Acl.AttributesLastAnswer` | internal/netfilter/acl.go:622-640 | Over every run an address is attributed to the last name answered for it, if to any, and right after an answer to that one. |
| `Acl.AttributionOrder` | internal/netfilter/acl.go:299-303 | An answered name wins over pre-resolution, which names the rest. |
| `Acl.BypassIsTimed` | internal/netfilter/acl.go:454-462 | The bypass is on exactly until a positive duration has passed. |
| `Acl.EditChanges` | internal/netfilter/acl.go:226-251 | An edit changes the named lists of the highest custom block and nothing else. |
| `Acl.CleanedMembers` | internal/netfilter/acl.go:385-391 | A cleaned list has the cleaned entries that name something. |
| `Acl.CleanKeepsDomain` | internal/netfilter/acl.go:388 | Cleaning keeps the domain an entry names. |
| `Acl.GrantStands` | internal/netfilter/acl.go:475-483 | After a grant, for the rest of any run, the address is admitted if and only if the bypass is on or no deny by its attributed name decides. |
| `Acl.EditParses` | internal/netfilter/acl.go:392-411 | Edits of denied domains always compile, so those operations cannot fail. |
| `Acl.PruneObserved` | internal/netfilter/acl.go:205-212 | Exactly the observed addresses whose name the new chain allows are kept. |
| `Acl.AllowList.SetChain` | internal/netfilter/acl.go:193-212 | Installs the chain and keeps exactly the observed addresses whose name it allows; keeps the invariant. |
| `Acl.AllowList.MutateCustom` | internal/netfilter/acl.go:226-251 | Edits the highest custom block, created on top if absent; fails exactly when the result does not compile, and then changes nothing. |
| `Acl.AllowList.SetPolicy` | internal/netfilter/acl.go:258-270 | Replaces the highest custom block's allowed domains and addresses; its denies and every other block stay. On failure nothing changes. |
| `Acl.AllowList.SetDeniedDomains` | internal/netfilter/acl.go:385-397 | Replaces its denied domains by the cleaned non-empty ones; its allows and every other block stay. Cannot fail. |
| `Acl.AllowList.DenyDomain` | internal/netfilter/acl.go:401-412 | Adds one cleaned domain to its denied domains unless present; everything else stays. Ignores an empty one, cannot fail. |
| `Acl.AllowList.ObserveDNSAnswer` | internal/netfilter/acl.go:622-644 | Records the attribution, resetting a full map first, and the observation only if the chain allows the name. |
| `Acl.AllowList.GrantIP` | internal/netfilter/acl.go:479-483 | Adds the address to the grants and nothing else; keeps the invariant. |
| `Acl.AllowList.ReplaceResolved` | internal/netfilter/acl.go:577-579 | Replaces the resolved set as a whole; keeps the invariant. |
| `Acl.AllowList.OpenBypass` | internal/netfilter/acl.go:454-462 | A positive duration opens the bypass until then, another clears it; keeps the invariant. |
| `Acl.AllowList.Admit` | internal/netfilter/acl.go:284-363 | Bypass, name verdict, grant, address verdict, automatic justification, gate: in that order of strength. |
| `Acl.RefreshDomains` | internal/netfilter/acl.go:557-580 | The resolved set is exactly the addresses of apexes the chain stands behind, each with an apex that justifies it. |
| `Ledger.WindowStep` | internal/netfilter/acl.go:488-529 | A refusal of a host among the last 256 keeps that set; another goes in front and pushes the oldest out of a full one. |
| `Ledger.RecentIsNewestFirst` | internal/netfilter/acl.go:488-517 | In the reversed, de-duplicated trace, earlier means last refused later. |
| `Ledger.NewHostEvicts` | internal/netfilter/acl.go:496-529 | Evicting the record seen longest ago and adding the new host gives the ledger of the extended trace. |
| `Ledger.CountsSinceEntry` | internal/netfilter/acl.go:496-508 | A record counts the refusals since its host entered the ledger and dates from that entry: counts restart only after eviction. |
| `Ledger.TellsOfTheLast` | internal/netfilter/acl.go:504-508 | A record carries address, port, rule and time of its host's last refusal. |
| `Ledger.LexFirstDifference` | internal/netfilter/acl.go:540-546 | Ties are ordered by the first differing character, a prefix first. |
| `Ledger.LedgerSize` | internal/netfilter/acl.go:497-500 | The ledger has as many records as the window has hosts, at most 256. |
| `Ledger.FindOldest` | internal/netfilter/acl.go:519-529 | Returns a host whose record was seen longest ago. |
| `Ledger.DenialLedger.Record` | internal/netfilter/acl.go:488-517 | Under any clock: at most 256 records; a known host is folded, a new one starts afresh and in a full ledger replaces one seen longest ago, all others stay. Under a clock that never repeats, the ledger is exactly that of the trace. |
| `Ledger.ListingUnique` | internal/netfilter/acl.go:540-546 | Two newest-first listings of the same records are one listing. |
| `Ledger.DenialLedger.Denials` | internal/netfilter/acl.go:532-548 | Lists every record once, most recent first, ties by host; under a clock that never repeats this is: reverse the trace, de-duplicate, take 256. |
| `Gates.ApplyKeepsInv` | internal/netfilter/gate.go:239-471 | Every step keeps: byKey and byID index the same holds, exactly the undecided ones, at most 16; every attached stream fits its buffer, is orderly and folds to the outstanding ids; every released caller got its hold's decision; holds count their callers. |
| `Gates.ReplayFits` | internal/netfilter/gate.go:189-201 | The replay to a new subscriber is at most 16 events, so sending it under the lock into a buffer of 64 never blocks. |
| `GateRuns.RunKeepsInv` | internal/netfilter/gate.go:239-471 | All of that after every run. |
| `GateRuns.DecisionsStand` | internal/netfilter/gate.go:366-379 | No step of any run changes a decision once made. |
| `GateRuns.FirstToSpeakDecides` | internal/netfilter/gate.go:282-379 | An undecided hold becomes decided by exactly the first resolve, expiry, allow-all or close that concerns it, with what that step says; no other step decides it. |
| `GateRuns.DecidedByFirstWord` | internal/netfilter/gate.go:239-471 | Over any run a hold's decision is that of the first step taken that concerns it, and it is undecided exactly as long as there is none. |
| `GateRuns.CoalescedCallersAgree` | internal/netfilter/gate.go:265-277 | Callers coalesced on one hold that have returned got the same decision. |
| `GateRuns.DecideExactly` | internal/netfilter/gate.go:239-269 | The exact conditions of refusal, and the hold joined or opened, with its host, port and deadline. |
| `GateRuns.RefusedRun` | internal/netfilter/gate.go:241-250 | Over every run a caller that returned without joining a hold was denied. |
| `GateRuns.DecisionHasCause` | internal/netfilter/gate.go:282-379 | Every decision was made by a step of the run that says so. |
| `GateRuns.AllowedBySomebody` | internal/netfilter/gate.go:239-349 | A caller is let through only because the hold it joined was resolved as allowed, or by an allow-all. |
| `GateRuns.WakeReturns` | internal/netfilter/gate.go:271-276 | A blocked caller whose hold is decided returns with that decision. |
| `GateRuns.AfterClose` | internal/netfilter/gate.go:451-471 | After a close, whatever follows: nothing is outstanding, a blocked caller is released by its next step, a new caller is denied at once. |
| `GateRuns.SubscriberSeesOutstanding` | internal/netfilter/gate.go:381-426 | For every subscriber still attached after any run, folding its stream gives exactly the undecided holds. |
| `GateRuns.SubscribersAreToldTheTruth` | internal/netfilter/gate.go:239-426 | Over every run each pending event describes its hold and each resolved event carries that hold's decision. |
| `GateRuns.RoomyStays` | internal/netfilter/gate.go:414-426 | A subscriber with room for what a step sends stays attached and loses nothing; only cancelling or closing detaches it. |
| `GateRuns.ResolvedAfterPending` | internal/netfilter/gate.go:366-426 | In an orderly stream a resolved event follows the pending event of its id. |
| `GateRuns.AtMostOnce` | internal/netfilter/gate.go:366-426 | In an orderly stream no id is announced twice nor resolved twice. |
| `GateRuns.Gate.Decide` | internal/netfilter/gate.go:239-269 | Refuses, with a denial, exactly when closed, unwatched, or full with the destination not held; otherwise the caller joins an undecided hold on that destination. |
| `GateRuns.Gate.ReadDecision` | internal/netfilter/gate.go:271-276 | A released caller returns its hold's decision. |
| `GateRuns.Gate.Resolve` | internal/netfilter/gate.go:282-291 | Decides that hold as told and no other; unknown exactly when no undecided hold has the id. |
| `GateRuns.Gate.Expire` | internal/netfilter/gate.go:356-362 | Denies that hold if still outstanding, and no other. |
| `GateRuns.Gate.AllowAll` | internal/netfilter/gate.go:337-349 | Releases every outstanding hold as allowed once; none is left. |
| `GateRuns.Gate.Subscribe` | internal/netfilter/gate.go:384-412 | Opens a stream primed with every outstanding hold, soonest deadline first. |
| `GateRuns.Gate.Cancel` | internal/netfilter/gate.go:401-410 | Removes one stream, once. |
| `GateRuns.BroadcastTo` | internal/netfilter/gate.go:417-426 | Every stream with room gets the event; a full one is dropped. |
| `GateRuns.Gate.FinishLocked` | internal/netfilter/gate.go:366-379 | Decides an undecided hold, unindexes it and announces it; a decided one is left alone. |
| `GateRuns.Gate.Close` | internal/netfilter/gate.go:451-471 | Every hold is decided, the undecided ones as denied; no index entry or stream is left. |
| `Suspend.StepKeepsInv` | internal/cli/daemon.go:52-142 | Every step of boot, restore, guest writes, save, stop, discard, loss of the disk and crash, and every failing file operation that leaves no suspend state behind, keeps the pairing of a waiting image with its disk. |
| `Suspend.SafeFromTheStart` | internal/cli/daemon.go:52-142 | From an empty VM directory, while no fault leaves a suspend state behind, no interleaving restores an image twice or onto a changed disk. |
| `Suspend.RunsAreSafe` | internal/cli/daemon.go:52-142 | In every interleaving, with a crash possible anywhere, no memory image is restored twice or onto a disk changed since the save. |
| `Suspend.BootRestores` | internal/cli/vzd.go:137-192 | An undisturbed boot of a suspended sandbox whose disk is there restores its image onto it. |
| `Suspend.GuestHasDisk` | internal/cli/vzd.go:137-192 | In every run, faults included, a guest runs on a disk. |
| `Suspend.FreshDisk` | internal/cli/daemon.go:52-67 | A boot with nothing to restore, or no disk to restore onto, starts on a disk no disk or image of the whole past had. |
| `Suspend.FaultLosesSafety` | internal/cli/daemon.go:58-132 | After any failing rename or removal that leaves a suspend state behind, some fault-free continuation restores it onto the wrong disk. |
| `Suspend.SecureIff` | internal/cli/daemon.go:52-142 | At every moment of a run all fault-free continuations are safe, if and only if no such fault occurs in the run. |
| `Suspend.VMDir.SuspendBootRootFS` | internal/cli/daemon.go:52-72 | Reuses the disk if and only if a suspend state and the disk exist; otherwise no state is left. |
| `Suspend.VMDir.CreateMachine` | internal/cli/vzd.go:137-192 | A reused disk is left alone; otherwise it becomes a fresh clone. |
| `Suspend.VMDir.RestoreOrStart` | internal/cli/daemon.go:78-142 | Takes the protocol's steps in order; restores exactly when a usable state exists and the restore succeeds; afterwards no state, used or stale, is left. |
| `Suspend.VMDir.Suspend` | internal/cli/daemon.go:303-353 | Saves an image paired with the disk as it is and leaves the guest down. |
| `Fence.RunKeepsInv` | internal/cli/agent_proxy_darwin.go:179-264 | In every interleaving of accept loop, handlers and watchdog the counter covers every counted session, and a closed fence means the accept loop has exited. |
| `Fence.FenceHolds` | internal/cli/agent_proxy_darwin.go:179-194 | From SuspendAccept's return until ResumeAccept the counter is the number of live sessions and no step adds one. |
| `Fence.SignalOnlyWhenUnused` | internal/cli/idle_watchdog_darwin.go:98-173 | The idle stop is signalled, and the park recorded, only when no session is live. |
| `Fence.SignalIsFinal` | internal/cli/idle_watchdog_darwin.go:142-173 | After the signal no session can appear. |
| `Fence.AbortRestores` | internal/cli/idle_watchdog_darwin.go:119-153 | An aborted attempt leaves no park in the record; a successful resume leaves the proxy accepting, a failed one leaves it closed. |
| `Fence.CheckIsExact` | internal/cli/idle_watchdog_darwin.go:116-126 | Behind the fence the check passes exactly a sandbox in no use. |
| `Fence.PermittedFirst` | internal/cli/idle_watchdog_darwin.go:98-114 | An attempt begins only after the record permitted a stop. |
| `Fence.UnusedGetsSignalled` | internal/cli/idle_watchdog_darwin.go:98-173 | A sandbox in no use, whose record permits it, can be parked and signalled. |
| `Fence.SessionsComeAndGo` | internal/cli/agent_proxy_darwin.go:222-264 | In front of the fence a client is accepted and counted; an ended session is live no more. |
| `Fence.AgentProxy.BeginSuspend` | internal/cli/agent_proxy_darwin.go:179-191 | Closes the listener unless already suspended; only then may the caller skip waiting. |
| `Fence.AgentProxy.ResumeAccept` | internal/cli/agent_proxy_darwin.go:196-220 | Accepts again when suspended and the socket could be reopened. |
| `Fence.AgentProxy.CountSession` | internal/cli/agent_proxy_darwin.go:222-253 | The accept loop counts a session before it can accept another. |
| `Fence.AgentProxy.Release` | internal/cli/agent_proxy_darwin.go:255-264 | A finished handler uncounts exactly its session. |
| `Streams.NoLostUpdate` | internal/cli/reverse_forward.go:166-194 | In every interleaving a guest waiting with an empty wake-up channel was last sent the current set, and no guest gets an older set after a newer one. |
| `Streams.Converges` | internal/cli/serial_proxy.go:175-202 | From any reachable state a connected guest reaches the current set in at most five of its own steps. |
| `Streams.StepsAreOwn` | internal/cli/reverse_forward.go:166-194 | A guest's steps touch no other guest and no published set; publishing only wakes. |
| `Streams.SnapshotProxy.Set` | internal/cli/reverse_forward.go:52-62 | Publishes the set and leaves a wake-up with every guest, without blocking. |
| `Streams.SnapshotProxy.Subscribe` | internal/cli/reverse_forward.go:304-314 | A new guest starts with an empty channel, before its first snapshot. |
| `Streams.SnapshotProxy.TakeSnapshot` | internal/cli/reverse_forward.go:278-291 | The snapshot is the complete current set. |
| `Streams.SnapshotProxy.Unsubscribe` | internal/cli/reverse_forward.go:304-314 | A guest that leaves takes only its own channel with it. |
| `Streams.OneAttachmentPerDevice` | internal/cli/serial_proxy.go:399-413 | In every run no device name has two attachments in flight, and a name is busy only while one is. |
| `Streams.ClaimsAreExact` | internal/cli/serial_proxy.go:221-258 | A claim succeeds exactly while no attachment of that name is in flight; a release frees it. |
| `Streams.BusyPorts.Claim` | internal/cli/serial_proxy.go:399-407 | Succeeds exactly on a free name, which is then busy; no other name changes. |
| `Streams.BusyPorts.Release` | internal/cli/serial_proxy.go:409-413 | Frees the name and no other. |
| `EnvSpec.UnquoteInvertsQuote` | internal/envspec/envspec.go:258-312 | Unquote inverts Quote on every string. |
| `EnvSpec.ParseInvertsPrintIff` | internal/envspec/envspec.go:70-256 | On valid specs of all six operators, Parse inverts String if and only if the spec is not a literal printed bare that starts or ends with white space. |
| `EnvSpec.RoundTripCounterexample` | internal/envspec/envspec.go:172-198 | A literal of one vertical tab does not survive. |
| `EnvSpec.ParsedIsValid` | internal/envspec/envspec.go:70-125 | Everything the parser accepts is a valid spec. |
| `EnvSpec.CanonicalFormReparses` | internal/envspec/envspec.go:70-198 | An accepted entry reparses from its canonical text to the same spec, unless it was a quoted literal that loses space. |
| `EnvSpec.ParseIgnoresSpace` | internal/envspec/envspec.go:70-82 | White space around name and value does not matter. |
| `EnvSpec.OperatorTable` | internal/envspec/envspec.go:100-125 | Which text is which of the four operators. |
| `EnvSpec.EscapeTable` | internal/envspec/envspec.go:258-280 | Which characters are escaped and how. |
| `EnvSpec.BareIsPlain` | internal/envspec/envspec.go:238-256 | What is printed bare is non-empty, starts no reference and holds no special character. |
| `EnvSpec.ScanName` | internal/envspec/envspec.go:221-236 | Splits off the longest run of name characters. |
| `EnvSpec.ValidateName` | internal/envspec/envspec.go:200-219 | Accepts exactly non-empty names of letters, digits and underscores that do not start with a digit. |
| `EnvSpec.QuoteLoop` | internal/envspec/envspec.go:260-280 | The loop computes the quoting that Unquote inverts. |
| `EnvSpec.UnquoteLoop` | internal/envspec/envspec.go:284-312 | The loop computes the unquoting, with the same refusals. |
| `OnCreate.Sandbox.RunPhaseOnCreate` | internal/cli/up.go:288-361 | One attempt: the workspace block, then each phase in order, skipping finished and empty ones, stopping at the first failure. |
| `OnCreate.AttemptsAreSafe` | internal/cli/up.go:277-381 | Over any attempts with any failures: the box is create-pending exactly after a failed attempt, and after a successful one every block is complete. |
| `OnCreate.MarkedAfterAll` | internal/cli/up.go:319-352 | A block is recorded complete only right after all its commands succeeded, in order, in one attempt. |
| `OnCreate.NothingRerun` | internal/cli/up.go:277-352 | No command of a completed block runs again, nothing runs after a failure until the next attempt, and blocks complete in order: the workspace block, then phase by phase. |
| `Idle.Tracker.Observe` | internal/cli/idle.go:88-116 | Folds one sample by the step function and reports expiry against the timeout. |
| `Idle.Tracker.Restart` | internal/cli/idle.go:118-119 | Restarts the idle window and keeps the network baseline. |
| `Idle.BusyLaws` | internal/cli/idle.go:88-104 | What counts as activity, and that a counter going backwards or an old agent does not. |
| `Idle.TracksEverywhereIff` | internal/cli/idle.go:88-119 | The tracker holds the latest of start, resets, busy samples and session stamps at every moment if and only if every reset and busy sample is stamped no earlier than all activity up to and including it. |
| `Idle.ForwardClockIsSteady` | internal/cli/idle_watchdog_darwin.go:44-60 | A clock that does not run backwards meets that condition, even with session stamps later than their tick, as long as no reset or busy sample is earlier than one. |
| `Idle.TracksLatest` | internal/cli/idle.go:88-119 | Under that condition the tracker holds the latest activity of any kind. |
| `Idle.ExactIff` | internal/cli/idle.go:114-115 | Reported expiry means "every activity lies at least one timeout back", for every timeout, if and only if the tracker holds the latest activity. |
| `Idle.ExpiresExactlyWhenQuiet` | internal/cli/idle.go:84-116 | Hence, under the same condition, a sample reports expiry if and only if every activity of any kind lies at least one timeout back. |
| `Idle.NeverExpiresWhenBusy` | internal/cli/idle.go:88-116 | Whatever the clock did, a busy sample never expires a positive timeout. |
| `Admission.AdmitGuestMemory` | internal/cli/admission.go:57-76 | Computes the test with the machine's wrap-around. |
| `Admission.AdmitsExactly` | internal/cli/admission.go:50-76 | Below 2^63 the test is exactly that want, commitments and reserve fit the host, or want is zero, unless reserve and commitments exceed the host by more than 2^63; then it is off by 2^64. |
| `Admission.OvercommitWraps` | internal/cli/admission.go:62-68 | An input on which a host with nothing free admits a box. |
| `Admission.NeverOvercommitted` | internal/cli/admission.go:50-76 | Over every run of starts and stops either nothing runs or all ceilings plus the reserve fit the host, and no box runs twice. |
| `Admission.StartsWhenItFits` | internal/cli/admission.go:57-95 | In such a run a box is let in if and only if it fits beside the others and the reserve. |
| `Admission.StepsConcernOne` | internal/cli/admission.go:97-116 | A start or stop leaves every other box running as it was. |
| `Admission.SpecMemory` | internal/cli/resources.go:34-54 | Validated memory yields 64 <= baseline <= ceiling; what was written is kept and the rest are the defaults, a default baseline clamped to the ceiling. |
| `Admission.HostReserve` | internal/cli/admission.go:38-48 | An override is taken as it is; else the reserve is the larger of the floor and a quarter of the host, rounded down. |
| `Migrations.SplitInvertsKey` | internal/config/store.go:78-83 | Splitting a key text gives back namespace and name when the namespace has no slash. |
| `Migrations.SplitBareName` | internal/config/store.go:76-83 | A bare name is in the default namespace. |
| `Migrations.ScanIdIsKey` | internal/config/store.go:235-293 | The id a scan derives from a path is what its key splits into. |
| `Migrations.UniqueKeysAreHome` | internal/config/store.go:85-111 | If files are placed as their records say and no two share a key, every listed record is the one found under its own key. |
| `Migrations.ListedIffFound` | internal/config/store.go:204-295 | Then listing and lookup by key show the same records. |
| `Stores.FieldStepInPlaceIff` | internal/config/migrate.go:134-212 | In whatever order records are listed, a field step leaves every listed record edited in its own file and all else alone, if and only if each record it changes has a key that resolves to that file. |
| `Stores.SharedKeyOverwrites` | internal/config/migrate.go:134-151 | With two listed records under a key that resolves to the second, a step that changes only the first saves it over the second, which is lost. |
| `Migrations.RewrittenKeepsHome` | internal/config/migrate.go:134-212 | A field step edits each listed record in place and leaves every key finding its own record. |
| `Migrations.NestedKeepsHome` | internal/config/migrate.go:215-316 | After nesting every listed record is still found under its own key. |
| `Migrations.NestedFound` | internal/config/migrate.go:215-316 | Nesting shows the same record under each key, with only the worktrees of moved sandboxes rewritten. |
| `Migrations.RelocationKeepsAnchor` | internal/config/migrate.go:268-291 | Rewriting worktree paths keeps the directory a sandbox is bound to. |
| `Migrations.LegacyAnchorIsFirst` | internal/config/migrate.go:318-328 | The anchor is the worktree of the first phase bound in place, or none. |
| `Migrations.RelocatesWorktree` | internal/config/migrate.go:272-291 | Worktrees in place or elsewhere stay; those under the flat directory move along; those under the interim one do if and only if the path does not also start like the flat one. |
| `Migrations.NamesakeIsMisplaced` | internal/config/migrate.go:272-291 | For a sandbox named like its namespace the interim worktree is rewritten to a wrong place. |
| `Migrations.RecordFollows` | internal/config/migrate.go:268-291 | A moved record's flat worktrees point into its new directory. |
| `Migrations.MigrationsKeepListing` | internal/config/migrate.go:97-131 | Whatever is deferred, every listed record is still listed under the same key as the same sandbox: in-place directories untouched, and anchor, namespace and provider as they were or as a step sets them. No other record appears. |
| `Migrations.VersionReached` | internal/config/migrate.go:97-131 | The recorded version never decreases; it stops before the nesting step if and only if a listed running sandbox still had to move, else reaches the current one. |
| `Migrations.RunEnds` | internal/config/migrate.go:97-131 | A run completes the log, or stops at the nesting step with everything movable in place. |
| `Migrations.SecondRunChangesNothing` | internal/config/migrate.go:97-131 | A second run changes neither disk nor version, deferral or not. |
| `Migrations.FullyMigrated` | internal/config/migrate.go:47-52 | After a run every listed record has what the steps it went through fix (provider, namespace, anchor), and is in the current layout unless it runs and was deferred. |
| `Migrations.HiddenFileStays` | internal/config/migrate.go:102-131 | With every listed record found under its own key, a file that no listing shows is unchanged by any run. |
| `Migrations.InterruptedMoveStays` | internal/config/migrate.go:247-307 | After a move cut short the record is found and the old file is one no movable record resolves to; if scans know it by the same id every run leaves it there, else the sandbox is listed twice. |
| `Stores.NestKeepsStray` | internal/config/migrate.go:215-244 | On any disk the nesting step leaves a legacy file that no movable record resolves to unchanged, and it stays so. |
| `Stores.EditKeepsStray` | internal/config/migrate.go:134-212 | So does a field step. |
| `Stores.Store.Reopen` | internal/config/store.go:33-41 | So does any number of openings of the store. |
| `Stores.TakenTargetIsOwn` | internal/config/migrate.go:226-231 | A taken destination is what the record's key resolves to, so the conflict deferral is never reached. |
| `Stores.Store.List` | internal/config/store.go:235-295 | Lists every readable record that its scan id resolves to, once each, and nothing else. |
| `Stores.Store.Save` | internal/config/store.go:187-202 | What is saved is what its key then loads; no key resolves elsewhere than before and no other file changes. |
| `Stores.Store.MigNormalizeProviders` | internal/config/migrate.go:134-151 | Saves the listed records with a retired provider, renamed, in listing order; the result is each edited in place if and only if their keys resolve to their own files. |
| `Stores.Store.MigBackfillFields` | internal/config/migrate.go:182-209 | The same for records lacking an anchor they can derive, or a namespace. |
| `Stores.Store.MigNestNamespaces` | internal/config/migrate.go:215-244 | Moves listed stopped records in listing order; defers only running ones. With every listed record found under its own key: moves every stopped one to the current layout and defers exactly when a running one is elsewhere. |
| `Stores.Store.MigNetworkBlocks` | internal/config/migrate.go:159-177 | Changes nothing on disk, since loading already folded the lists it looks for. |
| `Stores.Store.RunMigrations` | internal/config/migrate.go:102-131 | Applies pending steps strictly in order, recording each; a deferral stops the run. On any disk the version never decreases and a legacy file no movable record resolves to is untouched. |

## Left out

- Strings are sequences of Unicode scalar values: invalid UTF-8 is not modelled, and lower-casing covers ASCII only.
- Address text: an entry carries what the address parser makes of it (blank, address, prefix or malformed) beside its text; zones are not modelled.
- Acl.AllowList.Admit: models one snapshot; in the source a policy edit can fall between the snapshot and the gate's answer. Recording the refusal is the ledger's step. Unparsable destinations are not modelled.
- Acl.RefreshDomains: DNS answers are an input; the refresh goroutine and its kicks are the arbitrary moment at which the result is installed.
- Ledger.DenialLedger.Record: the host is non-empty, which the source ensures by falling back to the address; callbacks are left out.
- GateRuns.Gate.Resolve: the grant, the domain deny and the persistence callbacks that follow are steps of the allow list, not of the gate; the registrable-domain lookup is left out.
- GateRuns.Gate.Expire: timers are expiry steps that may happen at any time; hold ids are pairs of address and counter.
- GateRuns.Gate.Subscribe: sorting is an insertion sort, so holds with equal deadlines may be replayed in another order.
- Suspend.RunsAreSafe: assumes one daemon at a time, a failed save that leaves no state and a failed restore that leaves the disk alone; covers the vz sequence, not firecracker.
- Suspend.VMDir.Suspend: the record's stop reason and its revert, pausing, the metadata compared before a restore, and a save that fails are left out.
- Fence.SignalOnlyWhenUnused: the watchdog is the only caller of SuspendAccept; saving the record succeeds; the wedge counter and the forced exit are left out.
- Streams.SnapshotProxy.Set: sockets, byte pumps and host-port checks are left out; a failed write is a guest that leaves.
- OnCreate.Sandbox.RunPhaseOnCreate: saving the record always succeeds; the failure text is left out; the commands of a block do not change between attempts.
- Idle.Tracker.Observe: times are unbounded integers, so the saturation of very long durations is not modelled.
- Admission.NeverOvercommitted: the running boxes are those admitted and not stopped; the pid probe, a failing host-memory probe and a ceiling edited while running are left out.
- Migrations.MigrationsKeepListing: file operations succeed; the three directory families and git's repair are left out; the network policy of a record is only whether legacy lists are set, its contents being the subject of `Policies.NormalizeKeepsEntries`. Namespaces contain no slash.
- Policies.ResolveChain: loading errors other than an absent policy, and the warning texts, are left out.
- Environment resolution, composing policies from template files, merging resource directives and validating disks are left out: each is a short branch or a maximum.
- The command line, progress output, real sockets and DNS, subprocesses, JSON, the hypervisor backends and the guest agent are not part of this model.
