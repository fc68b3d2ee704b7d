/**
 Template changes: templates/registry.py compares two resolved templates through their
 flattened dumps and decides whether the change may be made in place.
 */
module TemplateChange {
  import opened Wrappers
  import opened Json
  import opened Dotted
  import opened Routing

  type Flat = map<string, Json>

  const TERMINAL_FIELDS: set<string> :=
    {"success", "failure", "expired", "internal_terminal_rewrite", "internal_terminal_error_code", "error_field"}

  /** The top-level fields that hold judging and extraction rules only. */
  const JUDGING: set<string> := {"status_field", "terminal", "id_location", "result_location", "notes"}

  /** The fields whose change is listed as needing two reviewers, and the beginnings of names that also do. */
  const REVIEWED: set<string> :=
    {"base_url", "create_path", "create_method", "get_method", "cancel_method", "get_path_template",
     "cancel_path_template", "callback_param", "extra_headers", "request_body_template", "id_location",
     "result_location", "status_field", "status_source", "pool", "terminal", "normalize", "namespace"}

  predicate ReviewedPrefix(d: string) {
    "capabilities" <= d || "result_policy" <= d || "strategy" <= d
  }

  /** The keys that may change in place: judging fields, and the known fields below `terminal`. */
  predicate Ephemeral(d: string) {
    if '.' in d then Head(d) == "terminal" && d[|Head(d)| + 1..] in TERMINAL_FIELDS else d in JUDGING
  }

  // ---------------------------------------------------------------- flattening

  /** Every key stands in the dump under its prefix, and nothing else does. */
  predicate Rooted(out: Flat, v: Json, prefix: string, done: set<string>)
    requires v.Obj? && done <= v.fields.Keys
  {
    && Holds(out, v, prefix, done)
    && (forall d | d in out :: exists k :: k in done && Extends(prefix + k, d))
  }

  predicate Holds(out: Flat, v: Json, prefix: string, done: set<string>)
    requires v.Obj? && done <= v.fields.Keys
  {
    forall k | k in done && '.' !in k :: prefix + k in out && out[prefix + k] == v.fields[k]
  }

  /** The key itself or one below it. */
  predicate Extends(k: string, d: string) {
    d == k || k + ['.'] <= d
  }

  lemma SubIsBelow(sub: Flat, value: Json, prefix: string, k: string)
    requires value.Obj? && Rooted(sub, value, prefix + k + ['.'], value.fields.Keys)
    ensures forall d | d in sub :: (prefix + k) + ['.'] <= d
  {
    forall d | d in sub ensures (prefix + k) + ['.'] <= d {
      var j :| j in value.fields.Keys && Extends(prefix + k + ['.'] + j, d);
      assert (prefix + k + ['.'] + j)[..|prefix + k| + 1] == prefix + k + ['.'];
    }
  }

  lemma BelowHasDot(prefix: string, k: string, d: string)
    requires (prefix + k) + ['.'] <= d
    ensures |prefix| < |d| && '.' in d[|prefix|..]
  {
    assert d[|prefix + k|] == '.';
    assert d[|prefix|..][|k|] == '.';
  }

  lemma AddRooted(out: Flat, v: Json, prefix: string, done: set<string>, k: string, sub: Flat)
    requires v.Obj? && done <= v.fields.Keys && k in v.fields && k !in done
    requires Rooted(out, v, prefix, done)
    requires forall d | d in sub :: (prefix + k) + ['.'] <= d
    ensures Rooted(out[prefix + k := v.fields[k]] + sub, v, prefix, done + {k})
  {
    var out' := out[prefix + k := v.fields[k]] + sub;
    forall j | j in done + {k} && '.' !in j ensures prefix + j in out' && out'[prefix + j] == v.fields[j] {
      if prefix + j in sub {
        BelowHasDot(prefix, k, prefix + j);
      }
      assert prefix + j == prefix + k ==> (prefix + j)[|prefix|..] == (prefix + k)[|prefix|..];
      assert (prefix + j)[|prefix|..] == j && (prefix + k)[|prefix|..] == k;
    }
    forall d | d in out' ensures exists j :: j in done + {k} && Extends(prefix + j, d) {
      if d in sub || d == prefix + k {
        assert Extends(prefix + k, d);
      } else {
        var j :| j in done && Extends(prefix + j, d);
        assert j in done + {k};
      }
    }
  }

  /** Without dots in keys the dump is exact: it holds every key at every depth, with its value. */
  ghost predicate Exact(out: Flat, v: Json, prefix: string, done: set<string>) {
    forall d ::
      && (d in out <==> Stands(v, prefix, done, d))
      && (d in out ==> out[d] == Lookup(v, d[|prefix|..]).value)
  }

  predicate Stands(v: Json, prefix: string, done: set<string>, d: string) {
    prefix <= d && Head(d[|prefix|..]) in done && Lookup(v, d[|prefix|..]).Some?
  }

  lemma AddExact(out: Flat, v: Json, prefix: string, done: set<string>, k: string, sub: Flat)
    requires v.Obj? && k in v.fields && k !in done && '.' !in k && Exact(out, v, prefix, done)
    requires if v.fields[k].Obj? then Exact(sub, v.fields[k], prefix + k + ['.'], v.fields[k].fields.Keys) else sub == map[]
    ensures Exact(out[prefix + k := v.fields[k]] + sub, v, prefix, done + {k})
  {
    var out' := out[prefix + k := v.fields[k]] + sub;
    forall d
      ensures d in out' <==> Stands(v, prefix, done + {k}, d)
      ensures d in out' ==> out'[d] == Lookup(v, d[|prefix|..]).value
    {
      AddExactAt(out, v, prefix, done, k, sub, d);
    }
  }

  lemma AddExactAt(out: Flat, v: Json, prefix: string, done: set<string>, k: string, sub: Flat, d: string)
    requires v.Obj? && k in v.fields && k !in done && '.' !in k && Exact(out, v, prefix, done)
    requires if v.fields[k].Obj? then Exact(sub, v.fields[k], prefix + k + ['.'], v.fields[k].fields.Keys) else sub == map[]
    ensures var out' := out[prefix + k := v.fields[k]] + sub;
            && (d in out' <==> Stands(v, prefix, done + {k}, d))
            && (d in out' ==> out'[d] == Lookup(v, d[|prefix|..]).value)
  {
    var below := prefix + k + ['.'];
    LookupBelow(v, k, "");
    assert (prefix + k)[|prefix|..] == k;
    if below <= d {
      var rest := d[|below|..];
      assert d[|prefix|..] == k + ['.'] + rest;
      LookupBelow(v, k, rest);
      assert d != prefix + k;
    } else if prefix <= d && Head(d[|prefix|..]) == k {
      NotBelow(prefix, k, d);
    }
  }

  lemma JoinBelow(prefix: string, r: string)
    requires '.' in r
    ensures prefix + Head(r) + ['.'] <= prefix + r
  {
    JoinOfHead(r);
    assert prefix + r == (prefix + Head(r) + ['.']) + r[|Head(r)| + 1..];
  }

  /** A key whose head is `k` is `k` itself or stands below it. */
  lemma NotBelow(prefix: string, k: string, d: string)
    requires prefix <= d && Head(d[|prefix|..]) == k && !(prefix + k + ['.'] <= d)
    ensures d == prefix + k
  {
    var r := d[|prefix|..];
    assert d == prefix + r;
    if '.' in r {
      JoinBelow(prefix, r);
      assert false;
    }
    assert r == k;
  }

  // ---------------------------------------------------------------- the dump

  /** What the flattened entries say about the object they come from. */
  ghost predicate Dumps(out: Flat, v: Json, prefix: string, done: set<string>) {
    && v.Obj? && done <= v.fields.Keys
    && Rooted(out, v, prefix, done)
    && (Dotless(v) ==> Exact(out, v, prefix, done))
  }

  lemma AddEntry(out: Flat, v: Json, prefix: string, done: set<string>, k: string, sub: Flat)
    requires Dumps(out, v, prefix, done) && k in v.fields && k !in done
    requires if v.fields[k].Obj? then Dumps(sub, v.fields[k], prefix + k + ['.'], v.fields[k].fields.Keys) else sub == map[]
    ensures Dumps(out[prefix + k := v.fields[k]] + sub, v, prefix, done + {k})
  {
    if v.fields[k].Obj? {
      SubIsBelow(sub, v.fields[k], prefix, k);
    }
    AddRooted(out, v, prefix, done, k, sub);
    if Dotless(v) {
      AddExact(out, v, prefix, done, k, sub);
    }
  }

  /** `_flatten` */
  method Flatten(v: Json, prefix: string) returns (out: Flat)
    requires v.Obj?
    ensures Dumps(out, v, prefix, v.fields.Keys)
    decreases v
  {
    out := map[];
    var todo, done := v.fields.Keys, {};
    assert Dumps(out, v, prefix, done);
    while todo != {}
      invariant todo !! done && todo + done == v.fields.Keys
      invariant Dumps(out, v, prefix, done)
      decreases |todo|
    {
      var k :| k in todo;
      var sub: Flat := map[];
      if v.fields[k].Obj? {
        sub := Flatten(v.fields[k], prefix + k + ['.']);
      }
      AddEntry(out, v, prefix, done, k, sub);
      out := out[prefix + k := v.fields[k]] + sub;
      todo, done := todo - {k}, done + {k};
    }
    assert done == v.fields.Keys;
  }

  // ---------------------------------------------------------------- classification

  /** `dict.get`: an absent key reads as null. */
  function Get(flat: Flat, d: string): Json {
    if d in flat then flat[d] else Null
  }

  function Changed(a: Flat, b: Flat): set<string> {
    set d | d in a.Keys + b.Keys && Get(a, d) != Get(b, d)
  }

  /** Changed keys without the containers of other changed keys. */
  function Leaves(changed: set<string>): set<string> {
    set d | d in changed && !exists o :: o in changed && d + ['.'] <= o
  }

  function Longer(changed: set<string>, n: nat): set<string> {
    set d | d in changed && |d| > n
  }

  /** Every changed key survives the filter itself or through a key below it. */
  lemma {:induction false} LeafBelow(changed: set<string>, d: string) returns (leaf: string)
    requires d in changed
    ensures leaf in Leaves(changed) && Extends(d, leaf)
    decreases Longer(changed, |d|)
  {
    if d in Leaves(changed) {
      leaf := d;
    } else {
      var o :| o in changed && d + ['.'] <= o;
      assert o in Longer(changed, |d|) && o !in Longer(changed, |o|);
      assert Longer(changed, |o|) < Longer(changed, |d|);
      leaf := LeafBelow(changed, o);
      assert d + ['.'] <= leaf;
    }
  }

  /** The configuration dumps compared: one object each, with the same fields, none of them dotted. */
  predicate SameShape(before: Json, after: Json) {
    PlainKeys(before) && PlainKeys(after) && before.fields.Keys == after.fields.Keys
  }

  /** What the classification uses of a dump: the fields themselves, and every value by its dotted key. */
  predicate ShowsFields(flat: Flat, v: Json) {
    v.Obj? && forall f | f in v.fields :: Get(flat, f) == v.fields[f]
  }

  ghost predicate ShowsAll(flat: Flat, v: Json) {
    forall d :: Get(flat, d) == ValueAt(v, d)
  }

  lemma DumpShowsFields(flat: Flat, v: Json)
    requires PlainKeys(v) && Holds(flat, v, "", v.fields.Keys)
    ensures ShowsFields(flat, v)
  {
    forall f | f in v.fields ensures Get(flat, f) == v.fields[f] {
      assert "" + f == f;
    }
  }

  lemma DumpShowsAll(flat: Flat, v: Json)
    requires v.Obj? && Exact(flat, v, "", v.fields.Keys)
    ensures ShowsAll(flat, v)
  {
    forall d ensures Get(flat, d) == ValueAt(v, d) {
      assert d[|""|..] == d;
      assert d in flat <==> Stands(v, "", v.fields.Keys, d);
    }
  }

  method FlattenAll(v: Json) returns (flat: Flat)
    requires PlainKeys(v)
    ensures ShowsFields(flat, v)
    ensures Dotless(v) ==> ShowsAll(flat, v)
  {
    flat := Flatten(v, "");
    DumpShowsFields(flat, v);
    if Dotless(v) {
      DumpShowsAll(flat, v);
    }
  }

  lemma FieldChanges(a: Flat, b: Flat, before: Json, after: Json, f: string)
    requires SameShape(before, after) && f in before.fields
    requires ShowsFields(a, before) && ShowsFields(b, after)
    ensures before.fields[f] != after.fields[f] ==> f in Changed(a, b)
  {
    assert f !in a && f !in b ==> before.fields[f] == after.fields[f];
  }

  /** Nothing left after the filter means that nothing changed. */
  lemma NoLeavesMeansSame(a: Flat, b: Flat, before: Json, after: Json)
    requires SameShape(before, after)
    requires ShowsFields(a, before) && ShowsFields(b, after)
    requires Leaves(Changed(a, b)) == {}
    ensures before == after
  {
    forall f | f in before.fields ensures before.fields[f] == after.fields[f] {
      FieldChanges(a, b, before, after, f);
      if f in Changed(a, b) {
        var leaf := LeafBelow(Changed(a, b), f);
        assert false;
      }
    }
    assert before.fields == after.fields;
  }

  lemma SameMeansNoLeaves(a: Flat, b: Flat, v: Json)
    requires ShowsAll(a, v) && ShowsAll(b, v)
    ensures Leaves(Changed(a, b)) == {}
  {
    forall d ensures Get(a, d) == Get(b, d) {
      assert Get(a, d) == ValueAt(v, d);
    }
  }

  predicate SameOutside(before: Json, after: Json)
    requires SameShape(before, after)
  {
    forall f | f in before.fields && f !in JUDGING :: before.fields[f] == after.fields[f]
  }

  /** A leaf that may change in place stands in a judging field. */
  lemma EphemeralHeads(f: string, leaf: string)
    requires '.' !in f && Ephemeral(leaf) && Extends(f, leaf)
    ensures f in JUDGING
  {
    if leaf != f {
      HeadOfJoin(f, leaf[|f| + 1..]);
      assert leaf == f + ['.'] + leaf[|f| + 1..];
    }
  }

  /** A change that may be made in place leaves every field outside the judging rules as it was. */
  lemma InPlaceMeansSame(a: Flat, b: Flat, before: Json, after: Json)
    requires SameShape(before, after)
    requires ShowsFields(a, before) && ShowsFields(b, after)
    requires AllEphemeral(Leaves(Changed(a, b)))
    ensures SameOutside(before, after)
  {
    forall f | f in before.fields && f !in JUDGING ensures before.fields[f] == after.fields[f] {
      FieldChanges(a, b, before, after, f);
      if f in Changed(a, b) {
        var leaf := LeafBelow(Changed(a, b), f);
        EphemeralHeads(f, leaf);
        assert false;
      }
    }
  }

  /** The judging fields as a resolved template has them: texts, and a flat object under `terminal`. */
  ghost predicate Resolved(v: Json) {
    && v.Obj? && Dotless(v)
    && (forall f | f in JUDGING && f in v.fields && f != "terminal" :: !v.fields[f].Obj?)
    && ("terminal" in v.fields ==>
          && v.fields["terminal"].Obj? && v.fields["terminal"].fields.Keys <= TERMINAL_FIELDS
          && forall k | k in v.fields["terminal"].fields :: !v.fields["terminal"].fields[k].Obj?)
  }

  /** Where a dotted key below a judging field of a resolved template has a value, it is one that may change. */
  lemma JudgingKeys(v: Json, d: string)
    requires Resolved(v) && Head(d) in JUDGING && Lookup(v, d).Some?
    ensures Ephemeral(d)
  {
    if '.' in d {
      JoinOfHead(d);
      var rest := d[|Head(d)| + 1..];
      var inner := v.fields[Head(d)];
      assert Lookup(v, d) == Lookup(inner, rest);
      assert inner.Obj?;
      NoDeeper(inner, rest);
    } else {
      assert Head(d) == d;
    }
  }

  /** Conversely, a change confined to the judging rules is always classified in place. */
  lemma SameMeansInPlace(a: Flat, b: Flat, before: Json, after: Json)
    requires SameShape(before, after) && Resolved(before) && Resolved(after)
    requires ShowsAll(a, before) && ShowsAll(b, after)
    requires SameOutside(before, after)
    ensures AllEphemeral(Leaves(Changed(a, b)))
  {
    forall d | d in Leaves(Changed(a, b)) ensures Ephemeral(d) {
      assert Get(a, d) == ValueAt(before, d) && Get(b, d) == ValueAt(after, d);
      ChangedKey(before, after, d);
    }
  }

  lemma ChangedKey(before: Json, after: Json, d: string)
    requires SameShape(before, after) && Resolved(before) && Resolved(after) && SameOutside(before, after)
    requires Lookup(before, d) != Lookup(after, d)
    ensures Ephemeral(d)
  {
    if Head(d) !in JUDGING {
      LookupByHead(before, after, d);
      assert false;
    }
    if Lookup(before, d).Some? {
      JudgingKeys(before, d);
    } else {
      JudgingKeys(after, d);
    }
  }

  // ---------------------------------------------------------------- review

  predicate Forces(leaves: set<string>) {
    exists d :: d in leaves && (d in REVIEWED || ReviewedPrefix(d))
  }

  /** No dotted key below the field reads differently. */
  ghost predicate SameBelow(before: Json, after: Json, f: string)
    requires SameShape(before, after) && f in before.fields
  {
    forall rest :: ValueAt(before.fields[f], rest) == ValueAt(after.fields[f], rest)
  }

  /** A changed field needs two reviewers. */
  ghost predicate NeedsTwo(before: Json, after: Json, f: string)
    requires SameShape(before, after) && f in before.fields
  {
    before.fields[f] != after.fields[f] && (ReviewedPrefix(f) || (f in REVIEWED && SameBelow(before, after, f)))
  }

  lemma ListedNamesArePlain(d: string)
    requires d in REVIEWED
    ensures '.' !in d
  {
  }

  lemma PrefixOfHead(p: string, d: string)
    requires '.' !in p && p <= d
    ensures p <= Head(d)
  {
    if '.' in d {
      JoinOfHead(d);
      assert d[|Head(d)|] == '.';
      assert forall i | 0 <= i < |p| :: d[i] == p[i] && p[i] in p;
    }
  }

  lemma PrefixesOfHead(d: string)
    requires ReviewedPrefix(d)
    ensures ReviewedPrefix(Head(d))
  {
    if "capabilities" <= d {
      PrefixOfHead("capabilities", d);
    } else if "result_policy" <= d {
      PrefixOfHead("result_policy", d);
    } else {
      PrefixOfHead("strategy", d);
    }
  }

  lemma ReadBelow(flat: Flat, v: Json, f: string, o: string)
    requires PlainKeys(v) && f in v.fields && f + ['.'] <= o && ShowsAll(flat, v)
    ensures Get(flat, o) == ValueAt(v.fields[f], o[|f| + 1..])
  {
    assert o == f + ['.'] + o[|f| + 1..];
    LookupBelow(v, f, o[|f| + 1..]);
  }

  /** A changed field survives the filter itself exactly when nothing below it reads differently. */
  lemma LeafIff(a: Flat, b: Flat, before: Json, after: Json, f: string)
    requires SameShape(before, after) && f in before.fields
    requires ShowsFields(a, before) && ShowsFields(b, after) && ShowsAll(a, before) && ShowsAll(b, after)
    ensures f in Leaves(Changed(a, b)) <==> before.fields[f] != after.fields[f] && SameBelow(before, after, f)
  {
    FieldChanges(a, b, before, after, f);
    assert Get(a, f) == before.fields[f] && Get(b, f) == after.fields[f];
    if f in Leaves(Changed(a, b)) {
      forall rest ensures ValueAt(before.fields[f], rest) == ValueAt(after.fields[f], rest) {
        var o := f + ['.'] + rest;
        assert o[|f| + 1..] == rest;
        ReadBelow(a, before, f, o);
        ReadBelow(b, after, f, o);
        assert o !in Changed(a, b);
      }
    } else if SameBelow(before, after, f) {
      NothingBelow(a, b, before, after, f);
    }
  }

  lemma NothingBelow(a: Flat, b: Flat, before: Json, after: Json, f: string)
    requires SameShape(before, after) && f in before.fields && SameBelow(before, after, f)
    requires ShowsAll(a, before) && ShowsAll(b, after)
    ensures forall o | o in Changed(a, b) :: !(f + ['.'] <= o)
  {
    forall o | f + ['.'] <= o ensures o !in Changed(a, b) {
      ReadBelow(a, before, f, o);
      ReadBelow(b, after, f, o);
    }
  }

  lemma ChangedHead(a: Flat, b: Flat, before: Json, after: Json, d: string)
    requires SameShape(before, after) && ShowsAll(a, before) && ShowsAll(b, after) && d in Changed(a, b)
    ensures Head(d) in before.fields && before.fields[Head(d)] != after.fields[Head(d)]
  {
    assert Get(a, d) == ValueAt(before, d) && Get(b, d) == ValueAt(after, d);
    if Head(d) !in before.fields || before.fields[Head(d)] == after.fields[Head(d)] {
      LookupByHead(before, after, d);
      assert false;
    }
  }

  lemma PlainHead(d: string)
    requires d in REVIEWED
    ensures Head(d) == d
  {
    ListedNamesArePlain(d);
  }

  /** A forced review comes from a field that changed. */
  lemma ForcedByField(a: Flat, b: Flat, before: Json, after: Json, d: string)
    requires SameShape(before, after)
    requires ShowsFields(a, before) && ShowsFields(b, after) && ShowsAll(a, before) && ShowsAll(b, after)
    requires d in Leaves(Changed(a, b)) && (d in REVIEWED || ReviewedPrefix(d))
    ensures Head(d) in before.fields && NeedsTwo(before, after, Head(d))
  {
    ChangedHead(a, b, before, after, d);
    if ReviewedPrefix(d) {
      PrefixesOfHead(d);
    } else {
      PlainHead(d);
      LeafIff(a, b, before, after, d);
    }
  }

  lemma FieldForces(a: Flat, b: Flat, before: Json, after: Json, f: string)
    requires SameShape(before, after) && f in before.fields && NeedsTwo(before, after, f)
    requires ShowsFields(a, before) && ShowsFields(b, after) && ShowsAll(a, before) && ShowsAll(b, after)
    ensures Forces(Leaves(Changed(a, b)))
  {
    FieldChanges(a, b, before, after, f);
    if ReviewedPrefix(f) {
      var leaf := LeafBelow(Changed(a, b), f);
      assert f <= leaf;
    } else {
      LeafIff(a, b, before, after, f);
    }
  }

  /**
   Two reviewers are asked for exactly when a field changed whose name has a listed
   beginning, or a listed field changed and no key below it did.
   */
  lemma ReviewIff(a: Flat, b: Flat, before: Json, after: Json)
    requires SameShape(before, after)
    requires ShowsFields(a, before) && ShowsFields(b, after) && ShowsAll(a, before) && ShowsAll(b, after)
    ensures Forces(Leaves(Changed(a, b))) <==> exists f :: f in before.fields && NeedsTwo(before, after, f)
  {
    if Forces(Leaves(Changed(a, b))) {
      var d :| d in Leaves(Changed(a, b)) && (d in REVIEWED || ReviewedPrefix(d));
      ForcedByField(a, b, before, after, d);
    }
    if f :| f in before.fields && NeedsTwo(before, after, f) {
      FieldForces(a, b, before, after, f);
    }
  }

  /** So the listed fields that are objects escape: a change of headers alone, or of success values, asks for none. */
  lemma EditBelowEscapes(before: Json, after: Json, f: string, rest: string)
    requires SameShape(before, after) && f in before.fields && !ReviewedPrefix(f)
    requires forall g | g in before.fields && g != f :: before.fields[g] == after.fields[g]
    requires ValueAt(before.fields[f], rest) != ValueAt(after.fields[f], rest)
    ensures !exists g :: g in before.fields && NeedsTwo(before, after, g)
  {
    assert !SameBelow(before, after, f);
  }

  /** A template whose success values change: `terminal` is listed, and nobody has to look. */
  lemma SuccessValuesEscape(x: Json, y: Json)
    requires x != y && !x.Obj? && !y.Obj?
    ensures var before := Obj(map["terminal" := Obj(map["success" := x])]);
            var after := Obj(map["terminal" := Obj(map["success" := y])]);
            && SameShape(before, after) && "terminal" in REVIEWED
            && !exists g :: g in before.fields && NeedsTwo(before, after, g)
  {
    var f, rest := "terminal", "success";
    var inner, inner' := Obj(map[rest := x]), Obj(map[rest := y]);
    var before, after := Obj(map[f := inner]), Obj(map[f := inner']);
    assert '.' !in f && '.' !in rest && !ReviewedPrefix(f) by {
      assert f[0] == 't';
    }
    LookupBelow(inner, rest, "");
    LookupBelow(inner', rest, "");
    EditBelowEscapes(before, after, f, rest);
  }

  /** What the surviving keys decide. */
  lemma Outcome(a: Flat, b: Flat, before: Json, after: Json, leaves: set<string>)
    requires SameShape(before, after) && leaves == Leaves(Changed(a, b))
    requires ShowsFields(a, before) && ShowsFields(b, after)
    requires Dotless(before) ==> ShowsAll(a, before)
    requires Dotless(after) ==> ShowsAll(b, after)
    ensures leaves == {} ==> before == after
    ensures before == after && Dotless(before) ==> leaves == {}
    ensures AllEphemeral(leaves) ==> SameOutside(before, after) && SameRequests(before, after)
    ensures Resolved(before) && Resolved(after) && SameOutside(before, after) ==> AllEphemeral(leaves)
  {
    if leaves == {} {
      NoLeavesMeansSame(a, b, before, after);
    }
    if before == after && Dotless(before) {
      SameMeansNoLeaves(a, b, before);
    }
    if AllEphemeral(leaves) {
      InPlaceMeansSame(a, b, before, after);
      SameFieldsSameRequests(before, after);
    }
    if Resolved(before) && Resolved(after) && SameOutside(before, after) {
      SameMeansInPlace(a, b, before, after);
    }
  }

  ghost predicate ValueChanged(before: Json, after: Json, d: string) {
    ValueAt(before, d) != ValueAt(after, d)
  }

  /** The value at this dotted name changed, and at none below it. */
  ghost predicate LeafChanged(before: Json, after: Json, d: string) {
    ValueChanged(before, after, d) && forall o | d + ['.'] <= o :: !ValueChanged(before, after, o)
  }

  lemma LeavesAreChanges(a: Flat, b: Flat, before: Json, after: Json)
    requires ShowsAll(a, before) && ShowsAll(b, after)
    ensures forall d :: d in Leaves(Changed(a, b)) <==> LeafChanged(before, after, d)
  {
    forall d ensures d in Changed(a, b) <==> ValueChanged(before, after, d) {
      assert Get(a, d) == ValueAt(before, d) && Get(b, d) == ValueAt(after, d);
    }
  }

  predicate AllEphemeral(leaves: set<string>) {
    forall d | d in leaves :: Ephemeral(d)
  }

  /** `classify_change` */
  method ClassifyChange(before: Json, after: Json) returns (changed: set<string>, inPlace: bool, twoReviewers: bool, noop: bool)
    requires SameShape(before, after)
    ensures Dotless(before) && Dotless(after) ==> forall d :: d in changed <==> LeafChanged(before, after, d)
    ensures noop ==> before == after && inPlace
    ensures before == after && Dotless(before) ==> noop
    ensures inPlace ==> SameOutside(before, after) && SameRequests(before, after)
    ensures Resolved(before) && Resolved(after) && SameOutside(before, after) ==> inPlace
    ensures Dotless(before) && Dotless(after) ==>
              (twoReviewers <==> exists f :: f in before.fields && NeedsTwo(before, after, f))
  {
    var a := FlattenAll(before);
    var b := FlattenAll(after);
    var all := set d | d in a.Keys + b.Keys && Get(a, d) != Get(b, d);
    changed := set d | d in all && forall o | o in all :: !(d + ['.'] <= o);
    assert changed == Leaves(Changed(a, b));
    Outcome(a, b, before, after, changed);
    noop := changed == {};
    inPlace := AllEphemeral(changed);
    twoReviewers := exists d | d in changed :: d in REVIEWED || ReviewedPrefix(d);
    assert twoReviewers == Forces(changed);
    if Dotless(before) && Dotless(after) {
      ReviewIff(a, b, before, after);
      LeavesAreChanges(a, b, before, after);
    }
  }

  // ---------------------------------------------------------------- requests

  function Field(c: Json, name: string): Json {
    if c.Obj? && name in c.fields then c.fields[name] else Null
  }

  function TextField(c: Json, name: string): string {
    if Field(c, name).Str? then Field(c, name).s else ""
  }

  function Flag(c: Json, name: string): bool {
    Field(Field(c, "capabilities"), name) == Bool(true)
  }

  /** What is sent upstream, before the base address and the path are joined. */
  datatype HttpRequest = HttpRequest(verb: Json, baseUrl: Json, path: Rendered, headers: Json, body: Option<Json>)

  /** `render_create` */
  function RenderCreate(c: Json, body: map<string, Json>, callbackUrl: string): HttpRequest {
    var payload := if callbackUrl != "" && Flag(c, "callback")
                   then body[TextField(c, "callback_param") := Str(callbackUrl)] else body;
    HttpRequest(Field(c, "create_method"), Field(c, "base_url"), Path(TextField(c, "create_path")),
            Field(c, "extra_headers"), Some(Obj(payload)))
  }

  /** `render_get` */
  function RenderGet(c: Json, id: string): HttpRequest {
    HttpRequest(Field(c, "get_method"), Field(c, "base_url"), RenderText(TextField(c, "get_path_template"), id),
            Field(c, "extra_headers"), None)
  }

  /** `render_cancel` */
  function RenderCancel(c: Json, id: string): Option<HttpRequest> {
    if !Flag(c, "cancel") then None
    else Some(HttpRequest(Field(c, "cancel_method"), Field(c, "base_url"), RenderText(TextField(c, "cancel_path_template"), id),
                      Field(c, "extra_headers"), None))
  }

  /** Both templates send the same requests, for every body, callback address and id. */
  ghost predicate SameRequests(c: Json, d: Json) {
    && (forall body, url :: RenderCreate(c, body, url) == RenderCreate(d, body, url))
    && (forall id :: RenderGet(c, id) == RenderGet(d, id))
    && (forall id :: RenderCancel(c, id) == RenderCancel(d, id))
  }

  lemma SameField(c: Json, d: Json, name: string)
    requires SameShape(c, d) && SameOutside(c, d) && name !in JUDGING
    ensures Field(c, name) == Field(d, name)
  {
  }

  lemma SameFieldsSameRequests(c: Json, d: Json)
    requires SameShape(c, d) && SameOutside(c, d)
    ensures SameRequests(c, d)
  {
    SameField(c, d, "base_url");
    SameField(c, d, "extra_headers");
    SameField(c, d, "capabilities");
    SameField(c, d, "callback_param");
    SameField(c, d, "create_method");
    SameField(c, d, "create_path");
    SameField(c, d, "get_method");
    SameField(c, d, "get_path_template");
    SameField(c, d, "cancel_method");
    SameField(c, d, "cancel_path_template");
  }
}
