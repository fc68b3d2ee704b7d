/**
 JSON documents, path steps, and the reader and writer that the templates use on
 upstream responses. A path step is an object key or an array index; negative
 indexes count from the end. The path language is the name and index selectors of
 RFC 9535, sections 2.3.1 and 2.3.3.
 */
module Json {
  import opened Wrappers

  /** `Num` carries the text Python prints for the number. */
  datatype Json = Null | Bool(b: bool) | Num(text: string) | Str(s: string) | Arr(items: seq<Json>) | Obj(fields: map<string, Json>)

  datatype Step = Key(name: string) | Index(i: int)
  type Path = seq<Step>

  predicate KeyOnly(p: Path) {
    forall i | 0 <= i < |p| :: p[i].Key?
  }

  /** `str(value)` for scalars; containers never equal a declared status value. */
  function PyStr(j: Json): string {
    match j
    case Null => "None"
    case Bool(b) => if b then "True" else "False"
    case Num(t) => t
    case Str(s) => s
    case Arr(_) => "[...]"
    case Obj(_) => "{...}"
  }

  /** `value or {}` */
  function OrEmpty(j: Json): Json {
    if j == Null || j == Bool(false) || j == Num("0") || j == Num("0.0") || j == Str("") || j == Arr([]) then Obj(map[]) else j
  }

  /** One step of a reader: the child the step names, if there is one. */
  function Child(node: Json, s: Step): Option<Json> {
    match s
    case Key(k) => if node.Obj? && k in node.fields then Some(node.fields[k]) else None
    case Index(i) =>
      if node.Arr? && -|node.items| <= i < |node.items|
      then Some(node.items[if i < 0 then i + |node.items| else i])
      else None
  }

  /** What a path reads: the specification of `extract` and `try_extract`. */
  function Extract(doc: Json, p: Path): Option<Json>
    decreases |p|
  {
    if p == [] then Some(doc)
    else
      var child := Child(doc, p[0]);
      if child.None? then None else Extract(child.value, p[1..])
  }

  /** An element of an array is read by its place from the front, or from the end with a negative index; no other index reads anything. */
  lemma IndexReads(before: seq<Json>, v: Json, after: seq<Json>, i: int)
    ensures var doc := Arr(before + [v] + after);
            && Extract(doc, [Index(|before|)]) == Some(v) && Extract(doc, [Index(-|after| - 1)]) == Some(v)
            && (Extract(doc, [Index(i)]).Some? <==> -|before| - |after| - 1 <= i <= |before| + |after|)
  {
    var doc := Arr(before + [v] + after);
    assert forall k :: [Index(k)][1..] == [];
    assert doc.items[|before|] == v;
  }

  lemma {:induction false} ExtractAppend(doc: Json, p: Path, s: Step)
    ensures Extract(doc, p + [s]) ==
            (var node := Extract(doc, p); if node.None? then None else Child(node.value, s))
    decreases |p|
  {
    if p == [] {
      assert (p + [s])[1..] == [];
    } else {
      assert (p + [s])[1..] == p[1..] + [s];
      if Child(doc, p[0]).Some? {
        ExtractAppend(Child(doc, p[0]).value, p[1..], s);
      }
    }
  }

  lemma {:induction false} ExtractPrefixMissing(doc: Json, p: Path, n: nat)
    requires n <= |p| && Extract(doc, p[..n]).None?
    ensures Extract(doc, p).None?
    decreases |p|
  {
    if n > 0 && Child(doc, p[0]).Some? {
      assert p[..n][1..] == p[1..][..n - 1];
      ExtractPrefixMissing(Child(doc, p[0]).value, p[1..], n - 1);
    }
  }

  /** `try_extract`: the loop walks the steps with one current node. */
  method TryExtract(doc: Json, p: Path) returns (found: bool, value: Json)
    ensures found <==> Extract(doc, p).Some?
    ensures found ==> value == Extract(doc, p).value
  {
    value := doc;
    for n := 0 to |p|
      invariant Extract(doc, p[..n]) == Some(value)
    {
      assert p[..n + 1] == p[..n] + [p[n]];
      ExtractAppend(doc, p[..n], p[n]);
      var child := Child(value, p[n]);
      if child.None? {
        ExtractPrefixMissing(doc, p, n + 1);
        return false, Null;
      }
      value := child.value;
    }
    assert p[..|p|] == p;
    found := true;
  }

  /** A document after a write; `done` is false when the writer raised "skipped". */
  datatype Edit = Edit(doc: Json, done: bool)

  /**
   `set_path_on_doc`: walk down the keys, putting an empty object wherever the walk
   meets something that is not an object, and write the last key. An index step
   raises, but whatever was replaced on the way stays replaced.
   */
  function SetPath(doc: Json, p: Path, v: Json): (w: Edit)
    requires doc.Obj?
    ensures w.doc.Obj?
    decreases |p|
  {
    if p == [] || p[0].Index? then Edit(doc, false)
    else if |p| == 1 then Edit(Obj(doc.fields[p[0].name := v]), true)
    else
      var k := p[0].name;
      var child := if k in doc.fields && doc.fields[k].Obj? then doc.fields[k] else Obj(map[]);
      var inner := SetPath(child, p[1..], v);
      Edit(Obj(doc.fields[k := inner.doc]), inner.done)
  }

  /** The write goes through exactly on non-empty key-only paths, and then reads back. */
  lemma {:induction false} WriteThenRead(doc: Json, p: Path, v: Json)
    requires doc.Obj?
    ensures SetPath(doc, p, v).done <==> p != [] && KeyOnly(p)
    ensures SetPath(doc, p, v).done ==> Extract(SetPath(doc, p, v).doc, p) == Some(v)
    decreases |p|
  {
    if p != [] && p[0].Key? && |p| > 1 {
      var k := p[0].name;
      var child := if k in doc.fields && doc.fields[k].Obj? then doc.fields[k] else Obj(map[]);
      WriteThenRead(child, p[1..], v);
      KeyOnlyTail(p);
    }
  }

  /** The second of two writes to one path wins. */
  lemma {:induction false} WriteTwice(doc: Json, p: Path, v: Json, w: Json)
    requires doc.Obj? && KeyOnly(p) && p != []
    ensures SetPath(SetPath(doc, p, v).doc, p, w).doc == SetPath(doc, p, w).doc
    decreases |p|
  {
    var k := p[0].name;
    if |p| == 1 {
      assert doc.fields[k := v][k := w] == doc.fields[k := w];
    } else {
      var child := if k in doc.fields && doc.fields[k].Obj? then doc.fields[k] else Obj(map[]);
      WriteTwice(child, p[1..], v, w);
      var a := SetPath(child, p[1..], v).doc;
      var b := SetPath(child, p[1..], w).doc;
      assert doc.fields[k := a][k := b] == doc.fields[k := b];
    }
  }

  /** Writing back what a path already reads changes nothing. */
  lemma {:induction false} WriteWhatIsThere(doc: Json, p: Path, v: Json)
    requires doc.Obj? && KeyOnly(p) && p != [] && Extract(doc, p) == Some(v)
    ensures SetPath(doc, p, v).doc == doc
    decreases |p|
  {
    var k := p[0].name;
    if |p| == 1 {
      assert p[1..] == [];
      assert doc.fields[k := v] == doc.fields;
    } else {
      var child := doc.fields[k];
      assert Extract(child, p[1..]) == Some(v);
      assert p[1..][0].Key?;
      WriteWhatIsThere(child, p[1..], v);
      assert doc.fields[k := child] == doc.fields;
    }
  }

  /** The read path leaves the walk of a write to `q` before either path ends. */
  predicate Apart(p: Path, q: Path)
    decreases |p|
  {
    p != [] && q != [] && (p[0] != q[0] || q[0].Index? || Apart(p[1..], q[1..]))
  }

  /** The first step of `p` that the walk of a write to `q` does not follow. */
  function StepAtSplit(p: Path, q: Path): Step
    requires Apart(p, q)
    decreases |p|
  {
    if p[0] != q[0] || q[0].Index? then p[0] else StepAtSplit(p[1..], q[1..])
  }

  /**
   What a write to `q`, completed or skipped, does to every other path: a path that
   leaves the walk by a key reads exactly as before; one that leaves it by an index
   reads nothing afterwards, because the array it needed has become an object.
   */
  lemma {:induction false} WriteFrame(doc: Json, q: Path, v: Json, p: Path)
    requires doc.Obj? && Apart(p, q)
    ensures Extract(SetPath(doc, q, v).doc, p) == if StepAtSplit(p, q).Key? then Extract(doc, p) else None
    decreases |p|
  {
    if p[0] == q[0] && q[0].Key? {
      var k := q[0].name;
      var child := if k in doc.fields && doc.fields[k].Obj? then doc.fields[k] else Obj(map[]);
      WriteFrame(child, q[1..], v, p[1..]);
      if k !in doc.fields || !doc.fields[k].Obj? {
        assert Extract(Obj(map[]), p[1..]).None?;
      }
    }
  }

  /** On key-only reads, every write off the path is invisible. */
  lemma {:induction false} KeyReadsSurvive(doc: Json, q: Path, v: Json, p: Path)
    requires doc.Obj? && Apart(p, q) && KeyOnly(p)
    ensures Extract(SetPath(doc, q, v).doc, p) == Extract(doc, p)
  {
    WriteFrame(doc, q, v, p);
    SplitIsAStep(p, q);
  }

  lemma {:induction false} SplitIsAStep(p: Path, q: Path)
    requires Apart(p, q)
    ensures StepAtSplit(p, q) in p
    decreases |p|
  {
    if p[0] == q[0] && q[0].Key? {
      SplitIsAStep(p[1..], q[1..]);
    }
  }

  /** A key-only read needs an object at the root, and it is found only there. */
  lemma KeyReadNeedsObject(doc: Json, p: Path)
    requires p != [] && KeyOnly(p) && Extract(doc, p).Some?
    ensures doc.Obj?
  {
    assert p[0].Key?;
  }

  /** A write at `q` reaches what is read at `p`. */
  predicate Touches(q: Path, p: Path) {
    q != [] && !(Apart(p, q) && StepAtSplit(p, q).Key?)
  }

  /** Any other write, completed or refused, leaves the read as it was. */
  lemma UntouchedRead(doc: Json, q: Path, v: Json, p: Path)
    requires doc.Obj? && !Touches(q, p)
    ensures Extract(SetPath(doc, q, v).doc, p) == Extract(doc, p)
  {
    if q != [] {
      WriteFrame(doc, q, v, p);
    }
  }

  /** What is read where a write of a scalar reached: the scalar, an object on the way to it, or nothing. */
  lemma {:induction false} TouchedRead(doc: Json, q: Path, v: Json, p: Path)
    requires doc.Obj? && Touches(q, p) && !v.Obj? && !v.Arr?
    ensures var read := Extract(SetPath(doc, q, v).doc, p);
            if !KeyOnly(p) then read.None?
            else if p == q then read == Some(v)
            else if p < q then read.Some? && read.value.Obj?
            else read.None?
    decreases |p|
  {
    if p != [] && q[0].Key? && p[0] == q[0] {
      KeyOnlyTail(p);
      if |q| > 1 {
        var k := q[0].name;
        var child := if k in doc.fields && doc.fields[k].Obj? then doc.fields[k] else Obj(map[]);
        TouchedRead(child, q[1..], v, p[1..]);
        SamePrefix(p, q);
      } else if |p| > 1 {
        assert !(p < q);
      }
    }
  }

  lemma KeyOnlyTail(p: Path)
    requires p != [] && p[0].Key?
    ensures KeyOnly(p) <==> KeyOnly(p[1..])
  {
    if KeyOnly(p[1..]) {
      forall i | 0 <= i < |p| ensures p[i].Key? { if i > 0 { assert p[i] == p[1..][i - 1]; } }
    }
  }

  lemma SamePrefix(p: Path, q: Path)
    requires p != [] && q != [] && p[0] == q[0]
    ensures p == q <==> p[1..] == q[1..]
    ensures p < q <==> p[1..] < q[1..]
  {
    assert p == [p[0]] + p[1..] && q == [q[0]] + q[1..];
  }

  /** A refused write is not harmless: whatever its path read before, it reads nothing afterwards. */
  lemma {:induction false} RefusedWriteDestroys(doc: Json, p: Path, v: Json)
    requires doc.Obj? && p != [] && !KeyOnly(p)
    ensures !SetPath(doc, p, v).done && Extract(SetPath(doc, p, v).doc, p) == None
    decreases |p|
  {
    if p[0].Key? && |p| > 1 {
      var k := p[0].name;
      var child := if k in doc.fields && doc.fields[k].Obj? then doc.fields[k] else Obj(map[]);
      KeyOnlyTail(p);
      RefusedWriteDestroys(child, p[1..], v);
    }
  }
}
