// String helpers shared by the handlers and the poller: Go's strings.TrimSpace
// on strings seen as sequences of code points.
module Text {

  // unicode.IsSpace
  predicate IsSpace(c: char) {
    || c == ' ' || '\t' <= c <= '\r' || c == '\U{85}' || c == '\U{A0}' || c == '\U{1680}'
    || '\U{2000}' <= c <= '\U{200A}' || c == '\U{2028}' || c == '\U{2029}' || c == '\U{202F}'
    || c == '\U{205F}' || c == '\U{3000}'
  }

  predicate Trimmed(s: string) {
    s == "" || (!IsSpace(s[0]) && !IsSpace(s[|s| - 1]))
  }

  function TrimLeft(s: string): string {
    if s != "" && IsSpace(s[0]) then TrimLeft(s[1..]) else s
  }

  function TrimRight(s: string): string {
    if s != "" && IsSpace(s[|s| - 1]) then TrimRight(s[..|s| - 1]) else s
  }

  function TrimSpace(s: string): string {
    TrimRight(TrimLeft(s))
  }

  lemma {:induction false} TrimLeftFacts(s: string)
    ensures TrimLeft(s) == "" || !IsSpace(TrimLeft(s)[0])
    ensures |TrimLeft(s)| <= |s| && (|TrimLeft(s)| == |s| <==> TrimLeft(s) == s)
    ensures forall c :: c in s && !IsSpace(c) ==> c in TrimLeft(s)
  {
    if s != "" && IsSpace(s[0]) {
      TrimLeftFacts(s[1..]);
    }
  }

  lemma {:induction false} TrimRightFacts(s: string)
    ensures TrimRight(s) <= s
    ensures TrimRight(s) == "" || !IsSpace(TrimRight(s)[|TrimRight(s)| - 1])
    ensures forall c :: c in s && !IsSpace(c) ==> c in TrimRight(s)
  {
    if s != "" && IsSpace(s[|s| - 1]) {
      TrimRightFacts(s[..|s| - 1]);
    }
  }

  // The result is trimmed, and exactly the trimmed strings are left alone.
  lemma TrimSpaceTrims(s: string)
    ensures Trimmed(TrimSpace(s))
    ensures TrimSpace(s) == s <==> Trimmed(s)
  {
    TrimLeftFacts(s);
    TrimRightFacts(TrimLeft(s));
  }

  lemma TrimSpaceKeeps(s: string, c: char)
    requires c in s && !IsSpace(c)
    ensures c in TrimSpace(s)
  {
    TrimLeftFacts(s);
    TrimRightFacts(TrimLeft(s));
  }
}
