/** The string operations of the source. Whitespace is what `str.strip` removes in the Latin-1 range. */
module Text {

  predicate IsSpace(c: char) {
    c == ' ' || ('\t' <= c <= '\r') || ('\U{1C}' <= c <= '\U{1F}') || c == '\U{85}' || c == '\U{A0}'
  }

  function StripLeft(s: string): string {
    if s != "" && IsSpace(s[0]) then StripLeft(s[1..]) else s
  }

  function StripRight(s: string): string {
    if s != "" && IsSpace(s[|s| - 1]) then StripRight(s[..|s| - 1]) else s
  }

  function Strip(s: string): string {
    StripRight(StripLeft(s))
  }

  /** Nothing to strip at either end. */
  predicate Trimmed(s: string) {
    s == "" || (!IsSpace(s[0]) && !IsSpace(s[|s| - 1]))
  }

  lemma TrimmedStays(s: string)
    requires Trimmed(s)
    ensures Strip(s) == s
  {
  }

  /** Where a separator first occurs. */
  function FirstOf(s: string, sep: char): (i: nat)
    ensures i <= |s|
    ensures i < |s| <==> sep in s
  {
    if s == "" || s[0] == sep then 0 else 1 + FirstOf(s[1..], sep)
  }

  lemma {:induction false} FirstAfter(a: string, sep: char, rest: string)
    requires sep !in a
    ensures FirstOf(a + [sep] + rest, sep) == |a|
  {
    if a != "" {
      FirstAfter(a[1..], sep, rest);
      assert (a + [sep] + rest)[1..] == a[1..] + [sep] + rest;
    }
  }

  /** A text splits in one way only at the first separator. */
  lemma SplitsOnce(a: string, x: string, b: string, y: string, sep: char)
    requires sep !in a && sep !in b && a + [sep] + x == b + [sep] + y
    ensures a == b && x == y
  {
    var l, r := a + [sep] + x, b + [sep] + y;
    FirstAfter(a, sep, x);
    FirstAfter(b, sep, y);
    assert l[..|a|] == a && r[..|a|] == b;
    assert l[|a| + 1..] == x && r[|a| + 1..] == y;
  }
}
