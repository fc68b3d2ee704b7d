/** The canonical form of a request body in gateway/idempotency.py, from which keys and digests are made. */
module CanonicalBody {
  import opened Json
  import opened Text
  import opened Dotted

  datatype Rules = Rules(fields: seq<string>, trim: bool, caseInsensitive: seq<string>)

  function LowerChar(c: char): char {
    if 'A' <= c <= 'Z' then (c as int - 'A' as int + 'a' as int) as char else c
  }

  function Lower(s: string): (r: string)
    ensures |r| == |s|
  {
    if s == "" then "" else [LowerChar(s[0])] + Lower(s[1..])
  }

  lemma {:induction false} LowerTwice(s: string)
    ensures Lower(Lower(s)) == Lower(s)
  {
    if s != "" {
      LowerTwice(s[1..]);
      assert Lower(s)[1..] == Lower(s[1..]);
    }
  }

  /** The code folds a field when its name, as written, is among the lowered names. */
  predicate Folds(rules: Rules, field: string) {
    exists i | 0 <= i < |rules.caseInsensitive| :: Lower(rules.caseInsensitive[i]) == field
  }

  function Normal(rules: Rules, field: string, v: Json): Json {
    if !v.Str? then v
    else
      var s := if rules.trim then Strip(v.s) else v.s;
      Str(if Folds(rules, field) then Lower(s) else s)
  }

  /** The fields that count: those declared, or else every top-level key. */
  function Fields(body: Json, rules: Rules): set<string>
    requires body.Obj?
  {
    if rules.fields != [] then set f | f in rules.fields else body.fields.Keys
  }

  /** What `canonical_body` serializes. */
  function Canonical(body: Json, rules: Rules): map<string, Json>
    requires body.Obj?
  {
    map f | f in Fields(body, rules) :: Normal(rules, f, ValueAt(body, f))
  }

  /** `_get_dotted`: walks the parts of a dotted name; nothing there reads as null. */
  method GetDotted(body: Json, dotted: string) returns (v: Json)
    ensures v == ValueAt(body, dotted)
  {
    var node, rest := body, dotted;
    while '.' in rest
      invariant Lookup(body, dotted) == Lookup(node, rest)
      decreases |rest|
    {
      JoinOfHead(rest);
      var part := Head(rest);
      if !node.Obj? || part !in node.fields {
        return Null;
      }
      node, rest := node.fields[part], rest[|part| + 1..];
    }
    assert Head(rest) == rest;
    v := if node.Obj? && rest in node.fields then node.fields[rest] else Null;
  }

  /** `canonical_body`, up to the serialization. */
  method CanonicalOf(body: Json, rules: Rules) returns (payload: map<string, Json>)
    requires body.Obj?
    ensures payload == Canonical(body, rules)
  {
    var fields := if rules.fields != [] then set f | f in rules.fields else body.fields.Keys;
    assert fields == Fields(body, rules);
    payload := Collect(body, rules, fields);
  }

  method Collect(body: Json, rules: Rules, fields: set<string>) returns (payload: map<string, Json>)
    ensures payload == map f | f in fields :: Normal(rules, f, ValueAt(body, f))
  {
    var todo := fields;
    payload := map[];
    while todo != {}
      invariant todo <= fields && payload.Keys == fields - todo
      invariant forall f | f in payload :: payload[f] == Normal(rules, f, ValueAt(body, f))
      decreases |todo|
    {
      var field :| field in todo;
      var value := GetDotted(body, field);
      payload := payload[field := Normal(rules, field, value)];
      todo := todo - {field};
    }
  }

  predicate Blank(s: string) {
    forall c | c in s :: IsSpace(c)
  }

  lemma {:induction false} LeftBlanksGo(a: string, x: string)
    requires Blank(a)
    ensures StripLeft(a + x) == StripLeft(x)
  {
    if a == "" {
      assert a + x == x;
    } else {
      assert (a + x)[1..] == a[1..] + x && a[0] in a;
      assert forall c | c in a[1..] :: c in a;
      LeftBlanksGo(a[1..], x);
    }
  }

  lemma {:induction false} RightBlanksGo(x: string, b: string)
    requires Blank(b)
    ensures StripRight(x + b) == StripRight(x)
    decreases |b|
  {
    if b == "" {
      assert x + b == x;
    } else {
      var front := b[..|b| - 1];
      assert (x + b)[..|x + b| - 1] == x + front && b[|b| - 1] in b;
      assert forall c | c in front :: c in b;
      RightBlanksGo(x, front);
    }
  }

  lemma BlanksGo(a: string, x: string, b: string)
    requires Blank(a) && Blank(b) && Trimmed(x) && x != ""
    ensures Strip(a + x + b) == x
  {
    assert a + x + b == a + (x + b);
    LeftBlanksGo(a, x + b);
    assert (x + b)[0] == x[0];
    RightBlanksGo(x, b);
  }

  /**
   What counts of a text: under trimming, the blanks around it do not; in a folded field the
   case of its letters does not; and nothing else is overlooked.
   */
  lemma TextsCountAlikeIff(rules: Rules, f: string, a: string, x: string, b: string, y: string)
    requires Trimmed(x) && x != "" && Trimmed(y) && Blank(a) && Blank(b)
    requires rules.trim || (a == "" && b == "")
    ensures Normal(rules, f, Str(a + x + b)) == Normal(rules, f, Str(y)) <==> if Folds(rules, f) then Lower(x) == Lower(y) else x == y
  {
    if rules.trim {
      BlanksGo(a, x, b);
      TrimmedStays(y);
    } else {
      assert a + x + b == x;
    }
  }

  /** A dotted name is read through its first part, so a key that holds a dot is never read. */
  lemma DottedKeyIsNotRead(body: map<string, Json>, k: string, v: Json, f: string)
    requires '.' in k
    ensures ValueAt(Obj(body[k := v]), f) == ValueAt(Obj(body), f)
  {
    if '.' in f {
      JoinOfHead(f);
    } else {
      assert Head(f) == f;
    }
    assert Head(f) != k;
  }

  /** Such a key can hold anything: the canonical form, and with it the derived key and the digest, is the same. */
  lemma DottedKeyIsIgnored(body: map<string, Json>, rules: Rules, k: string, v: Json)
    requires '.' in k && k in body
    ensures Canonical(Obj(body[k := v]), rules) == Canonical(Obj(body), rules)
  {
    assert body[k := v].Keys == body.Keys;
    forall f ensures ValueAt(Obj(body[k := v]), f) == ValueAt(Obj(body), f) {
      DottedKeyIsNotRead(body, k, v, f);
    }
  }

  /** Two bodies that differ and are taken for one. */
  lemma DottedBodiesCollide(rules: Rules)
    ensures var a, b := Obj(map["a.b" := Num("1")]), Obj(map["a.b" := Num("2")]);
            a != b && Canonical(a, rules) == Canonical(b, rules)
  {
    var k := "a.b";
    assert k[1] == '.';
    var one, two := map[k := Num("1")], map[k := Num("2")];
    assert one[k := Num("2")] == two;
    DottedKeyIsIgnored(one, rules, k, Num("2"));
    assert Num("1") != Num("2") by { assert "1"[0] != "2"[0]; }
    assert one[k] != two[k];
  }

  /** The bodies agree on their keys, and on the values of those without a dot. */
  predicate SamePlain(a: Json, b: Json)
    requires a.Obj? && b.Obj?
  {
    a.fields.Keys == b.fields.Keys && forall k | k in a.fields && '.' !in k :: a.fields[k] == b.fields[k]
  }

  lemma SamePlainReads(a: Json, b: Json, f: string)
    requires a.Obj? && b.Obj? && SamePlain(a, b)
    ensures ValueAt(a, f) == ValueAt(b, f)
  {
    if '.' in f {
      JoinOfHead(f);
    } else {
      assert Head(f) == f;
    }
  }

  /** With no fields declared and no normalization, bodies have one canonical form exactly when they differ under dotted keys alone. */
  lemma CanonicalSameIff(a: Json, b: Json, rules: Rules)
    requires a.Obj? && b.Obj? && rules.fields == [] && !rules.trim && rules.caseInsensitive == []
    ensures Canonical(a, rules) == Canonical(b, rules) <==> SamePlain(a, b)
  {
    if SamePlain(a, b) {
      forall f ensures ValueAt(a, f) == ValueAt(b, f) {
        SamePlainReads(a, b, f);
      }
    }
    if Canonical(a, rules) == Canonical(b, rules) {
      assert Canonical(a, rules).Keys == a.fields.Keys && Canonical(b, rules).Keys == b.fields.Keys;
      forall k | k in a.fields && '.' !in k ensures a.fields[k] == b.fields[k] {
        assert Head(k) == k;
        assert Canonical(a, rules)[k] == Canonical(b, rules)[k];
      }
    }
  }

  /** With fields declared, exactly those count, whatever else the bodies hold. */
  lemma DeclaredFieldsCountIff(a: Json, b: Json, rules: Rules)
    requires a.Obj? && b.Obj? && rules.fields != [] && !rules.trim && rules.caseInsensitive == []
    ensures Canonical(a, rules) == Canonical(b, rules) <==> forall f | f in rules.fields :: ValueAt(a, f) == ValueAt(b, f)
  {
    if Canonical(a, rules) == Canonical(b, rules) {
      forall f | f in rules.fields ensures ValueAt(a, f) == ValueAt(b, f) {
        assert Canonical(a, rules)[f] == Canonical(b, rules)[f];
      }
    }
  }

  /** A field declared case-insensitive is compared that way exactly when its name has no capital letter. */
  lemma FoldsIffLowerName(rules: Rules, field: string)
    requires field in rules.caseInsensitive
    ensures Folds(rules, field) <==> Lower(field) == field
  {
    var i :| 0 <= i < |rules.caseInsensitive| && rules.caseInsensitive[i] == field;
    if Folds(rules, field) {
      var j :| 0 <= j < |rules.caseInsensitive| && Lower(rules.caseInsensitive[j]) == field;
      LowerTwice(rules.caseInsensitive[j]);
    } else {
      assert Lower(rules.caseInsensitive[i]) != field;
    }
  }
}
