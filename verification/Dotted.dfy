/** Dotted names: keys joined by dots, and the values that they stand for in a document. */
module Dotted {
  import opened Wrappers
  import opened Json
  import opened Text

  /** The part of a dotted key before its first dot. */
  function Head(d: string): string {
    d[..FirstOf(d, '.')]
  }

  /** The value a dotted key stands for. */
  function Lookup(v: Json, d: string): Option<Json>
    decreases |d|
  {
    if !v.Obj? || Head(d) !in v.fields then None
    else if '.' !in d then Some(v.fields[Head(d)])
    else Lookup(v.fields[Head(d)], d[|Head(d)| + 1..])
  }

  /** No key at any depth contains a dot. */
  ghost predicate Dotless(v: Json) {
    v.Obj? ==> forall k | k in v.fields :: '.' !in k && Dotless(v.fields[k])
  }

  /** The keys of the object itself contain no dot. */
  predicate PlainKeys(v: Json) {
    v.Obj? && forall k | k in v.fields :: '.' !in k
  }

  /** The same, with null for a miss. */
  function ValueAt(v: Json, d: string): Json {
    if Lookup(v, d).Some? then Lookup(v, d).value else Null
  }

  lemma HeadOfJoin(k: string, rest: string)
    requires '.' !in k
    ensures Head(k) == k && Head(k + ['.'] + rest) == k && (k + ['.'] + rest)[|k| + 1..] == rest && '.' in k + ['.'] + rest
  {
    FirstAfter(k, '.', rest);
    assert (k + ['.'] + rest)[..|k|] == k;
    assert (k + ['.'] + rest)[|k|] == '.';
  }

  lemma JoinOfHead(d: string)
    requires '.' in d
    ensures d == Head(d) + ['.'] + d[|Head(d)| + 1..] && '.' !in Head(d)
  {
    SepAtFirst(d);
  }

  lemma {:induction false} SepAtFirst(d: string)
    requires '.' in d
    ensures FirstOf(d, '.') < |d| && d[FirstOf(d, '.')] == '.' && '.' !in d[..FirstOf(d, '.')]
  {
    if d[0] != '.' {
      SepAtFirst(d[1..]);
      assert d[..FirstOf(d, '.')] == [d[0]] + d[1..][..FirstOf(d[1..], '.')];
    }
  }

  lemma LookupBelow(v: Json, k: string, rest: string)
    requires v.Obj? && k in v.fields && '.' !in k
    ensures Head(k) == k && Lookup(v, k) == Some(v.fields[k])
    ensures Head(k + ['.'] + rest) == k && Lookup(v, k + ['.'] + rest) == Lookup(v.fields[k], rest)
  {
    HeadOfJoin(k, rest);
  }

  lemma LookupByHead(v: Json, w: Json, d: string)
    requires v.Obj? && w.Obj? && v.fields.Keys == w.fields.Keys
    requires Head(d) in v.fields ==> v.fields[Head(d)] == w.fields[Head(d)]
    ensures Lookup(v, d) == Lookup(w, d)
  {
  }

  lemma NoDeeper(v: Json, d: string)
    requires v.Obj? && Lookup(v, d).Some? && forall k | k in v.fields :: !v.fields[k].Obj?
    ensures d in v.fields
  {
    assert '.' !in d ==> Head(d) == d;
  }
}
