/** The env-entry language: NAME, NAME=${HOST<op>arg}, NAME=literal and
    NAME="quoted literal", with the operators of POSIX parameter expansion. */
module EnvSpec {
  import opened Text

  datatype Op = Passthrough | DefaultUnset | DefaultEmpty | RequiredUnset | RequiredEmpty | Literal

  datatype Spec = Spec(name: string, host: string, arg: string, op: Op)

  datatype Problem = BadName | EmptyHost | BadOperator | BadQuoting

  datatype Parsed = Ok(spec: Spec) | Bad(why: Problem)

  // ---------- names ----------

  predicate IsDigit(c: char) { '0' <= c <= '9' }

  predicate IsNameChar(c: char) {
    c == '_' || 'a' <= c <= 'z' || 'A' <= c <= 'Z' || IsDigit(c)
  }

  predicate ValidName(s: string) {
    s != "" && !IsDigit(s[0]) && forall i :: 0 <= i < |s| ==> IsNameChar(s[i])
  }

  /** Length of the leading run of name characters. */
  function NameRun(s: string): (n: nat)
    ensures n <= |s|
    ensures forall i :: 0 <= i < n ==> IsNameChar(s[i])
    ensures n < |s| ==> !IsNameChar(s[n])
  {
    if s == "" || !IsNameChar(s[0]) then 0 else 1 + NameRun(s[1..])
  }

  method ScanName(s: string) returns (name: string, rest: string)
    ensures name == s[..NameRun(s)] && rest == s[NameRun(s)..]
  {
    var i := 0;
    while i < |s| && IsNameChar(s[i])
      invariant 0 <= i <= |s| && forall k :: 0 <= k < i ==> IsNameChar(s[k])
    {
      i := i + 1;
    }
    assert i == NameRun(s);
    return s[..i], s[i..];
  }

  method ValidateName(s: string) returns (ok: bool)
    ensures ok == ValidName(s)
  {
    if s == "" {
      return false;
    }
    for i := 0 to |s|
      invariant i > 0 ==> !IsDigit(s[0])
      invariant forall k :: 0 <= k < i ==> IsNameChar(s[k])
    {
      if !IsNameChar(s[i]) || (IsDigit(s[i]) && i == 0) {
        return false;
      }
    }
    return true;
  }

  // ---------- quoting ----------

  function EscapeChar(c: char): string {
    if c == '"' then "\\\"" else if c == '\\' then "\\\\" else if c == '\n' then "\\n"
    else if c == '\t' then "\\t" else [c]
  }

  function Escape(v: string): string {
    if v == "" then "" else EscapeChar(v[0]) + Escape(v[1..])
  }

  function Quote(v: string): string {
    "\"" + Escape(v) + "\""
  }

  /** What the escape \c stands for. */
  function UnescapeChar(c: char): Option<char> {
    if c == '"' then Some('"') else if c == '\\' then Some('\\') else if c == 'n' then Some('\n')
    else if c == 't' then Some('\t') else None
  }

  /** A backslash in last position stands for itself. */
  function Unescape(s: string): Option<string>
    decreases |s|
  {
    if s == "" then Some("")
    else if s[0] == '\\' && |s| > 1 then
      match UnescapeChar(s[1])
      case None => None
      case Some(c) => Prepend(c, Unescape(s[2..]))
    else Prepend(s[0], Unescape(s[1..]))
  }

  function Prepend(c: char, rest: Option<string>): Option<string> {
    match rest
    case None => None
    case Some(r) => Some([c] + r)
  }

  predicate Quoted(s: string) {
    |s| >= 2 && s[0] == '"' && s[|s| - 1] == '"'
  }

  function Unquote(s: string): Option<string> {
    if Quoted(s) then Unescape(s[1..|s| - 1]) else None
  }

  method QuoteLoop(v: string) returns (out: string)
    ensures out == Quote(v)
  {
    out := "\"";
    for i := 0 to |v|
      invariant out + Escape(v[i..]) == "\"" + Escape(v)
    {
      assert v[i..][1..] == v[i + 1..];
      assert out + (EscapeChar(v[i]) + Escape(v[i + 1..])) == (out + EscapeChar(v[i])) + Escape(v[i + 1..]);
      out := out + EscapeChar(v[i]);
    }
    assert v[|v|..] == "";
    out := out + "\"";
  }

  method UnquoteLoop(s: string) returns (r: Option<string>)
    ensures r == Unquote(s)
  {
    if !Quoted(s) {
      return None;
    }
    var inner := s[1..|s| - 1];
    var out := "";
    var i := 0;
    assert inner[0..] == inner;
    AppendEmpty(Unescape(inner));
    while i < |inner|
      invariant 0 <= i <= |inner|
      invariant Unescape(inner) == Append(out, Unescape(inner[i..]))
    {
      var c := inner[i];
      if c == '\\' && i + 1 < |inner| {
        var u := UnescapeChar(inner[i + 1]);
        if u.None? {
          return None;
        }
        assert inner[i..][2..] == inner[i + 2..];
        AppendPrepend(out, u.value, Unescape(inner[i + 2..]));
        out := out + [u.value];
        i := i + 2;
      } else {
        assert inner[i..][1..] == inner[i + 1..];
        AppendPrepend(out, c, Unescape(inner[i + 1..]));
        out := out + [c];
        i := i + 1;
      }
    }
    assert inner[|inner|..] == "" && out + "" == out;
    return Some(out);
  }

  function Append(out: string, rest: Option<string>): Option<string> {
    match rest
    case None => None
    case Some(r) => Some(out + r)
  }

  lemma AppendEmpty(rest: Option<string>)
    ensures Append("", rest) == rest
  {
    match rest
    case None =>
    case Some(r) => assert "" + r == r;
  }

  lemma AppendPrepend(out: string, c: char, rest: Option<string>)
    ensures Append(out, Prepend(c, rest)) == Append(out + [c], rest)
  {
    match rest
    case None =>
    case Some(r) => assert out + ([c] + r) == (out + [c]) + r;
  }

  lemma {:induction false} UnescapeEscape(v: string)
    ensures Unescape(Escape(v)) == Some(v)
  {
    if v != "" {
      var e, rest := EscapeChar(v[0]), Escape(v[1..]);
      UnescapeEscape(v[1..]);
      assert (e + rest)[|e|..] == rest;
      assert v == [v[0]] + v[1..];
    }
  }

  /** Unquote inverts Quote on every string. */
  lemma UnquoteInvertsQuote(v: string)
    ensures Unquote(Quote(v)) == Some(v)
  {
    var q := Quote(v);
    assert q[1..|q| - 1] == Escape(v);
    UnescapeEscape(v);
  }

  // ---------- parsing ----------

  /** Index of the first '=', or the length when there is none. */
  function CutAt(s: string): (n: nat)
    ensures n <= |s| && (n < |s| ==> s[n] == '=')
    ensures forall i :: 0 <= i < n ==> s[i] != '='
  {
    if s == "" || s[0] == '=' then 0 else 1 + CutAt(s[1..])
  }

  function Parse(entry: string): Parsed {
    var n := CutAt(entry);
    var name := TrimSpace(entry[..n]);
    if !ValidName(name) then Bad(BadName)
    else if n == |entry| then Ok(Spec(name, name, "", Passthrough))
    else ParseValue(name, TrimSpace(entry[n + 1..]))
  }

  function ParseValue(name: string, rhs: string): Parsed {
    if HasPrefix(rhs, "\"") then
      match Unquote(rhs)
      case None => Bad(BadQuoting)
      case Some(v) => Ok(Spec(name, "", v, Literal))
    else if HasPrefix(rhs, "${") && HasSuffix(rhs, "}") then
      assert rhs[1] == rhs[..2][1] == '{' && rhs[|rhs| - 1] == rhs[|rhs| - 1..][0] == '}';
      ParseRef(name, rhs[2..|rhs| - 1])
    else Ok(Spec(name, "", rhs, Literal))
  }

  function ParseRef(name: string, inner: string): Parsed {
    var n := NameRun(inner);
    var host, rest := inner[..n], inner[n..];
    if host == "" then Bad(EmptyHost)
    else if !ValidName(host) then Bad(BadName)
    else ParseOperator(name, host, rest)
  }

  function ParseOperator(name: string, host: string, rest: string): Parsed {
    if rest == "" then Ok(Spec(name, host, "", Passthrough))
    else if HasPrefix(rest, ":-") then Ok(Spec(name, host, rest[2..], DefaultEmpty))
    else if HasPrefix(rest, ":?") then Ok(Spec(name, host, rest[2..], RequiredEmpty))
    else if HasPrefix(rest, "-") then Ok(Spec(name, host, rest[1..], DefaultUnset))
    else if HasPrefix(rest, "?") then Ok(Spec(name, host, rest[1..], RequiredUnset))
    else Bad(BadOperator)
  }

  // ---------- printing ----------

  predicate Unsafe(c: char) {
    c == ' ' || c == '\t' || c == '\n' || c == '\r' || c == '(' || c == ')' || c == '#' || c == '"' || c == '='
  }

  predicate SafeBare(v: string) {
    v != "" && v[0] != '"' && !HasPrefix(v, "${") && forall i :: 0 <= i < |v| ==> !Unsafe(v[i])
  }

  /** What is printed bare holds nothing an entry list would read otherwise. */
  lemma BareIsPlain(v: string)
    requires SafeBare(v)
    ensures v != "" && !HasPrefix(v, "${")
    ensures forall c :: c in v ==> c !in {' ', '\t', '\n', '\r', '(', ')', '#', '"', '='}
  {
  }

  function Symbol(op: Op): string {
    match op
    case DefaultUnset => "-"
    case DefaultEmpty => ":-"
    case RequiredUnset => "?"
    case RequiredEmpty => ":?"
    case _ => ""
  }

  function Print(s: Spec): string {
    match s.op
    case Literal => s.name + "=" + (if SafeBare(s.arg) then s.arg else Quote(s.arg))
    case Passthrough => if s.host == s.name then s.name else s.name + "=${" + s.host + "}"
    case _ => s.name + "=${" + s.host + Symbol(s.op) + s.arg + "}"
  }

  predicate ValidSpec(s: Spec) {
    && ValidName(s.name)
    && (if s.op == Literal then s.host == "" else ValidName(s.host))
    && (s.op == Passthrough ==> s.arg == "")
  }

  // ---------- round trips ----------

  lemma CutHere(name: string, tail: string)
    requires forall i :: 0 <= i < |name| ==> name[i] != '='
    ensures CutAt(name) == |name|
    ensures CutAt(name + "=" + tail) == |name|
  {
    var e := name + "=" + tail;
    assert forall i :: 0 <= i < |name| ==> e[i] == name[i];
    assert e[|name|] == '=';
  }

  lemma ValidNameIsPlain(s: string)
    requires ValidName(s)
    ensures Trimmed(s) && TrimSpace(s) == s && forall i :: 0 <= i < |s| ==> s[i] != '='
  {
    TrimSpaceFixes(s);
  }

  /** Parsing "name=value" parses the trimmed value. */
  lemma ParseAssignment(name: string, value: string)
    requires ValidName(name)
    ensures Parse(name + "=" + value) == ParseValue(name, TrimSpace(value))
  {
    var e := name + "=" + value;
    ValidNameIsPlain(name);
    CutHere(name, value);
    assert e[..|name|] == name && e[|name| + 1..] == value;
  }

  lemma ParseSplit(name: string, value: string)
    requires forall i :: 0 <= i < |name| ==> name[i] != '='
    ensures Parse(name + "=" + value) ==
            if ValidName(TrimSpace(name)) then ParseValue(TrimSpace(name), TrimSpace(value)) else Bad(BadName)
    ensures Parse(name) ==
            var n := TrimSpace(name); if ValidName(n) then Ok(Spec(n, n, "", Passthrough)) else Bad(BadName)
  {
    hide ParseValue, ValidName, TrimSpace;
    CutHere(name, value);
    var e := name + "=" + value;
    assert e[..|name|] == name && e[|name| + 1..] == value && name[..|name|] == name;
  }

  /** White space around the name and around the value does not matter. */
  lemma ParseIgnoresSpace(name: string, value: string)
    requires forall i :: 0 <= i < |name| ==> name[i] != '='
    ensures Parse(name + "=" + value) == Parse(TrimSpace(name) + "=" + TrimSpace(value))
    ensures Parse(name) == Parse(TrimSpace(name))
  {
    hide Parse, ParseValue, ValidName, TrimSpace, Trimmed;
    TrimSpaceFixes(name);
    TrimSpaceFixes(value);
    NoCutInside(name);
    ParseSplit(name, value);
    ParseSplit(TrimSpace(name), TrimSpace(value));
  }

  lemma NoCutInside(s: string)
    requires forall i :: 0 <= i < |s| ==> s[i] != '='
    ensures forall i :: 0 <= i < |TrimSpace(s)| ==> TrimSpace(s)[i] != '='
  {
    TrimLeftShape(s);
    TrimRightShape(TrimLeft(s));
  }

  lemma RunOf(host: string, rest: string)
    requires ValidName(host) && (rest == "" || !IsNameChar(rest[0]))
    ensures NameRun(host + rest) == |host|
  {
    var s := host + rest;
    assert forall i :: 0 <= i < |host| ==> s[i] == host[i];
    assert rest != "" ==> s[|host|] == rest[0];
  }

  lemma ParseOperatorInverts(name: string, host: string, op: Op, arg: string)
    requires op != Literal && (op == Passthrough ==> arg == "")
    ensures ParseOperator(name, host, Symbol(op) + arg) == Ok(Spec(name, host, arg, op))
  {
    var sym := Symbol(op);
    var rest := sym + arg;
    assert rest[..|sym|] == sym && rest[|sym|..] == arg;
    assert forall i :: 0 <= i < |sym| ==> rest[i] == sym[i];
    assert |rest| >= 2 ==> rest[..2][0] == rest[0] && rest[..2][1] == rest[1];
    assert |rest| >= 1 ==> rest[..1][0] == rest[0];
  }

  /** Reading back what stands between the braces. */
  lemma ParseRefInverts(name: string, host: string, op: Op, arg: string)
    requires ValidName(host) && op != Literal && (op == Passthrough ==> arg == "")
    ensures ParseRef(name, host + Symbol(op) + arg) == Ok(Spec(name, host, arg, op))
  {
    hide ParseOperator;
    var rest := Symbol(op) + arg;
    var inner := host + rest;
    assert host + Symbol(op) + arg == inner;
    assert rest == "" || !IsNameChar(rest[0]);
    RunOf(host, rest);
    assert inner[..|host|] == host && inner[|host|..] == rest;
    ParseOperatorInverts(name, host, op, arg);
  }

  /** Reading back a whole reference. */
  lemma ParseRefValue(name: string, host: string, op: Op, arg: string)
    requires ValidName(host) && op != Literal && (op == Passthrough ==> arg == "")
    ensures ParseValue(name, TrimSpace("${" + (host + Symbol(op) + arg) + "}")) == Ok(Spec(name, host, arg, op))
  {
    var inner := host + Symbol(op) + arg;
    var rhs := "${" + inner + "}";
    assert rhs[0] == '$' && rhs[1] == '{' && rhs[|rhs| - 1] == '}';
    TrimSpaceFixes(rhs);
    assert rhs[..1] == "$" && rhs[..2] == "${" && rhs[|rhs| - 1..] == "}";
    assert rhs[2..|rhs| - 1] == inner;
    ParseRefInverts(name, host, op, arg);
  }

  /** The four operators of parameter expansion, as they are written. */
  lemma OperatorTable(name: string, host: string, arg: string)
    requires ValidName(name) && ValidName(host)
    ensures Parse(name + "=" + ("${" + (host + "-" + arg) + "}")) == Ok(Spec(name, host, arg, DefaultUnset))
    ensures Parse(name + "=" + ("${" + (host + ":-" + arg) + "}")) == Ok(Spec(name, host, arg, DefaultEmpty))
    ensures Parse(name + "=" + ("${" + (host + "?" + arg) + "}")) == Ok(Spec(name, host, arg, RequiredUnset))
    ensures Parse(name + "=" + ("${" + (host + ":?" + arg) + "}")) == Ok(Spec(name, host, arg, RequiredEmpty))
  {
    hide Parse, ParseValue;
    ParseAssignment(name, "${" + (host + "-" + arg) + "}");
    ParseAssignment(name, "${" + (host + ":-" + arg) + "}");
    ParseAssignment(name, "${" + (host + "?" + arg) + "}");
    ParseAssignment(name, "${" + (host + ":?" + arg) + "}");
    ParseRefValue(name, host, DefaultUnset, arg);
    ParseRefValue(name, host, DefaultEmpty, arg);
    ParseRefValue(name, host, RequiredUnset, arg);
    ParseRefValue(name, host, RequiredEmpty, arg);
  }

  /** The escapes, as they are written; every other character stands for itself. */
  lemma EscapeTable(c: char)
    ensures Escape("\"") == "\\\"" && Escape("\\") == "\\\\" && Escape("\n") == "\\n" && Escape("\t") == "\\t"
    ensures c !in {'"', '\\', '\n', '\t'} ==> Escape([c]) == [c]
  {
  }

  lemma ParseQuoted(name: string, v: string)
    ensures ParseValue(name, TrimSpace(Quote(v))) == Ok(Spec(name, "", v, Literal))
  {
    var q := Quote(v);
    assert q[0] == '"' && q[|q| - 1] == '"';
    TrimSpaceFixes(q);
    assert q[..1] == "\"";
    UnquoteInvertsQuote(v);
  }

  lemma ParseBare(name: string, v: string)
    requires SafeBare(v)
    ensures ParseValue(name, TrimSpace(v)) == Ok(Spec(name, "", v, Literal)) <==> Trimmed(v)
  {
    TrimSpaceFixes(v);
    var t := TrimSpace(v);
    if t != "" {
      assert t[0] in v;
      assert t[..1] == [t[0]];
    }
  }

  /** The one family of valid specs that does not survive: a literal printed
      bare whose ends are white space the printer considers safe. */
  predicate LosesSpace(s: Spec) {
    s.op == Literal && SafeBare(s.arg) && !Trimmed(s.arg)
  }

  lemma PrintedLiteral(s: Spec)
    requires ValidSpec(s) && s.op == Literal
    ensures Parse(Print(s)) == Ok(s) <==> !LosesSpace(s)
  {
    hide Parse, ParseValue, Quote, Trimmed;
    ParseAssignment(s.name, if SafeBare(s.arg) then s.arg else Quote(s.arg));
    if SafeBare(s.arg) {
      ParseBare(s.name, s.arg);
    } else {
      ParseQuoted(s.name, s.arg);
    }
  }

  lemma PrintedName(s: Spec)
    requires ValidSpec(s) && s.op == Passthrough && s.host == s.name
    ensures Parse(Print(s)) == Ok(s)
  {
    ValidNameIsPlain(s.name);
    CutHere(s.name, "");
    assert s.name[..|s.name|] == s.name;
  }

  lemma PrintedRef(s: Spec)
    requires ValidSpec(s) && s.op != Literal && (s.op == Passthrough ==> s.host != s.name)
    ensures Parse(Print(s)) == Ok(s)
  {
    hide Parse, ParseValue;
    var inner := s.host + Symbol(s.op) + s.arg;
    assert Print(s) == s.name + "=" + ("${" + inner + "}");
    ParseAssignment(s.name, "${" + inner + "}");
    ParseRefValue(s.name, s.host, s.op, s.arg);
  }

  /** Parse inverts Print on exactly the valid specs outside that family. */
  lemma ParseInvertsPrintIff(s: Spec)
    requires ValidSpec(s)
    ensures Parse(Print(s)) == Ok(s) <==> !LosesSpace(s)
  {
    hide Parse, Print;
    if s.op == Literal {
      PrintedLiteral(s);
    } else if s.op == Passthrough && s.host == s.name {
      PrintedName(s);
    } else {
      PrintedRef(s);
    }
  }

  /** The documented round trip fails on a literal of one vertical tab. */
  lemma RoundTripCounterexample()
    ensures ValidSpec(Spec("A", "", "\U{0B}", Literal))
    ensures Parse(Print(Spec("A", "", "\U{0B}", Literal))) != Ok(Spec("A", "", "\U{0B}", Literal))
  {
    var s := Spec("A", "", "\U{0B}", Literal);
    assert LosesSpace(s);
    ParseInvertsPrintIff(s);
  }

  /** Everything the parser accepts is a valid spec. */
  lemma ParsedIsValid(entry: string)
    requires Parse(entry).Ok?
    ensures ValidSpec(Parse(entry).spec)
  {
  }

  /** The right-hand side of an entry, if it has one. */
  function Value(entry: string): string {
    var n := CutAt(entry);
    if n == |entry| then "" else TrimSpace(entry[n + 1..])
  }

  lemma ValueLiteral(name: string, rhs: string)
    requires ParseValue(name, rhs).Ok? && !HasPrefix(rhs, "\"") && ParseValue(name, rhs).spec.op == Literal
    ensures ParseValue(name, rhs).spec.arg == rhs
  {
  }

  lemma UnquotedIsTrimmed(entry: string)
    requires Parse(entry).Ok? && !HasPrefix(Value(entry), "\"") && Parse(entry).spec.op == Literal
    ensures Trimmed(Parse(entry).spec.arg)
  {
    hide ParseValue, Trimmed;
    var n := CutAt(entry);
    TrimSpaceFixes(entry[n + 1..]);
    ValueLiteral(TrimSpace(entry[..n]), Value(entry));
  }

  /** Every accepted entry that is not a quoted literal reparses, from its
      canonical text, to the same spec; a quoted one does exactly when its
      literal does not lose space. */
  lemma CanonicalFormReparses(entry: string)
    requires Parse(entry).Ok?
    ensures var s := Parse(entry).spec;
            Parse(Print(s)) == Ok(s) <==> !(HasPrefix(Value(entry), "\"") && LosesSpace(s))
  {
    hide Parse, Print, Value;
    var s := Parse(entry).spec;
    ParsedIsValid(entry);
    ParseInvertsPrintIff(s);
    if s.op == Literal && !HasPrefix(Value(entry), "\"") {
      UnquotedIsTrimmed(entry);
    }
  }
}
