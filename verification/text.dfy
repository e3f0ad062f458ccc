/** The handful of string operations the policy engine and the env-entry
    grammar rely on. A string is a sequence of Unicode scalar values. */
module Text {

  datatype Option<+T> = None | Some(value: T)

  /** The characters with the Unicode White_Space property, which is what
      the trimming operations strip. */
  predicate IsSpace(c: char) {
    || '\t' <= c <= '\r'
    || c == ' '
    || c == '\U{85}' || c == '\U{A0}' || c == '\U{1680}'
    || '\U{2000}' <= c <= '\U{200A}'
    || c == '\U{2028}' || c == '\U{2029}' || c == '\U{202F}'
    || c == '\U{205F}' || c == '\U{3000}'
  }

  function TrimLeft(s: string): string {
    if s != "" && IsSpace(s[0]) then TrimLeft(s[1..]) else s
  }

  function TrimRight(s: string): string {
    if s != "" && IsSpace(s[|s| - 1]) then TrimRight(s[..|s| - 1]) else s
  }

  function TrimSpace(s: string): string {
    TrimRight(TrimLeft(s))
  }

  /** A text whose two ends are not white space. */
  predicate Trimmed(s: string) {
    s == "" || (!IsSpace(s[0]) && !IsSpace(s[|s| - 1]))
  }

  lemma {:induction false} TrimLeftShape(s: string)
    ensures |TrimLeft(s)| <= |s|
    ensures TrimLeft(s) == s[|s| - |TrimLeft(s)|..]
    ensures TrimLeft(s) != "" ==> !IsSpace(TrimLeft(s)[0])
    ensures TrimLeft(s) == s <==> s == "" || !IsSpace(s[0])
  {
    if s != "" && IsSpace(s[0]) {
      TrimLeftShape(s[1..]);
      var t := TrimLeft(s);
      assert s[1..][|s[1..]| - |t|..] == s[|s| - |t|..];
    }
  }

  lemma {:induction false} TrimRightShape(s: string)
    ensures |TrimRight(s)| <= |s|
    ensures TrimRight(s) == s[..|TrimRight(s)|]
    ensures TrimRight(s) != "" ==> !IsSpace(TrimRight(s)[|TrimRight(s)| - 1])
    ensures TrimRight(s) == s <==> s == "" || !IsSpace(s[|s| - 1])
  {
    if s != "" && IsSpace(s[|s| - 1]) {
      TrimRightShape(s[..|s| - 1]);
      var t := TrimRight(s);
      assert s[..|s| - 1][..|t|] == s[..|t|];
    }
  }

  /** Trimming yields a trimmed text, and changes nothing exactly when the
      text was trimmed already. */
  lemma TrimSpaceFixes(s: string)
    ensures Trimmed(TrimSpace(s))
    ensures TrimSpace(s) == s <==> Trimmed(s)
    ensures TrimSpace(TrimSpace(s)) == TrimSpace(s)
    ensures TrimSpace(s) != "" ==> TrimSpace(s)[0] in s
  {
    TrimLeftShape(s);
    TrimRightShape(TrimLeft(s));
    var t := TrimSpace(s);
    if t != "" {
      assert t[0] == TrimLeft(s)[0];
    }
    TrimLeftShape(t);
    TrimRightShape(TrimLeft(t));
    if t == s {
      assert |TrimLeft(s)| == |s|;
      assert TrimLeft(s) == s;
    }
  }

  predicate HasPrefix(s: string, p: string) {
    |p| <= |s| && s[..|p|] == p
  }

  predicate HasSuffix(s: string, t: string) {
    |t| <= |s| && s[|s| - |t|..] == t
  }

  function TrimSuffix(s: string, t: string): string {
    if HasSuffix(s, t) then s[..|s| - |t|] else s
  }

  /** Number of dots in s. */
  function Dots(s: string): nat {
    if s == "" then 0 else (if s[0] == '.' then 1 else 0) + Dots(s[1..])
  }

  lemma {:induction false} DotsConcat(a: string, b: string)
    ensures Dots(a + b) == Dots(a) + Dots(b)
  {
    if a == "" {
      assert a + b == b;
    } else {
      assert (a + b)[1..] == a[1..] + b;
      DotsConcat(a[1..], b);
    }
  }

  function LowerChar(c: char): char {
    if 'A' <= c <= 'Z' then c - 'A' + 'a' else c
  }

  function ToLower(s: string): string {
    if s == "" then "" else [LowerChar(s[0])] + ToLower(s[1..])
  }

  lemma {:induction false} LowerAt(s: string)
    ensures |ToLower(s)| == |s| && forall i :: 0 <= i < |s| ==> ToLower(s)[i] == LowerChar(s[i])
  {
    if s != "" {
      LowerAt(s[1..]);
    }
  }
}
