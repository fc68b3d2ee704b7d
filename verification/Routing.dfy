/**
 Paths both ways: render.py prints an upstream path from a template and an id, routing.py
 reads a caller's path back. For routing, a template path is the text around its one `{id}`.
 */
module Routing {
  import opened Wrappers
  import opened Text

  datatype Method = GET | POST | PUT | DELETE

  /** The path `pre{id}post`. */
  datatype PathTemplate = PathTemplate(pre: string, post: string)

  datatype Routes = Routes(
    createPath: string, createMethod: Method,
    get: PathTemplate,
    cancel: PathTemplate, cancelMethod: Method)

  /** What `match_route` says: a route, no route, or the error of reading a group that is not there. */
  datatype Route = Create | Query(id: string) | Cancel(id: string) | NotRouted | IndexError

  function TextOf(p: PathTemplate): string {
    p.pre + "{id}" + p.post
  }

  // ---------------------------------------------------------------- normal form

  function BeforeQuery(path: string): string {
    if path == "" || path[0] == '?' then "" else [path[0]] + BeforeQuery(path[1..])
  }

  /** `rstrip("/")` */
  function DropSlashes(path: string): (r: string)
    ensures r <= path
  {
    if path != "" && path[|path| - 1] == '/' then DropSlashes(path[..|path| - 1]) else path
  }

  /** `_normalize` */
  function Normalize(path: string): string {
    var p := Strip(BeforeQuery(path));
    var q := if p != "" && p[0] == '/' then p else "/" + p;
    var r := DropSlashes(q);
    if r == "" then "/" else r
  }

  lemma {:induction false} NoQuery(path: string)
    requires '?' !in path
    ensures BeforeQuery(path) == path
  {
    if path != "" {
      NoQuery(path[1..]);
    }
  }

  /** Trailing slashes are dropped from what follows a text that does not end in one. */
  lemma {:induction false} DropSlashesAfter(a: string, b: string)
    requires a != "" && a[|a| - 1] != '/'
    ensures DropSlashes(a + b) == a + DropSlashes(b)
  {
    if b == "" {
      assert a + b == a;
    } else {
      assert (a + b)[..|a + b| - 1] == a + b[..|b| - 1];
      if b[|b| - 1] == '/' {
        DropSlashesAfter(a, b[..|b| - 1]);
      }
    }
  }

  /** What follows the first question mark is not looked at. */
  lemma {:induction false} QueryEnds(path: string, rest: string)
    requires '?' in path
    ensures BeforeQuery(path + rest) == BeforeQuery(path)
  {
    if path[0] != '?' {
      assert (path + rest)[1..] == path[1..] + rest;
      QueryEnds(path[1..], rest);
    }
  }

  lemma {:induction false} BeforeQueryAfter(a: string, b: string)
    requires '?' !in a
    ensures BeforeQuery(a + b) == a + BeforeQuery(b)
  {
    if a == "" {
      assert a + b == b;
    } else {
      assert (a + b)[1..] == a[1..] + b;
      BeforeQueryAfter(a[1..], b);
    }
  }

  lemma {:induction false} StripRightAfter(a: string, b: string)
    requires a != "" && !IsSpace(a[|a| - 1])
    ensures StripRight(a + b) == a + StripRight(b)
  {
    if b == "" {
      assert a + b == a;
    } else {
      assert (a + b)[..|a + b| - 1] == a + b[..|b| - 1];
      if IsSpace(b[|b| - 1]) {
        StripRightAfter(a, b[..|b| - 1]);
      }
    }
  }

  /** What is left of a text that follows a plain one: no query part, no blanks, no slashes at its end. */
  function Ending(post: string): string {
    DropSlashes(StripRight(BeforeQuery(post)))
  }

  lemma NormalizePlain(a: string, b: string)
    requires a != "" && a[0] == '/' && a[|a| - 1] != '/' && !IsSpace(a[|a| - 1]) && '?' !in a
    ensures Normalize(a + b) == a + Ending(b)
  {
    BeforeQueryAfter(a, b);
    StripRightAfter(a, BeforeQuery(b));
    DropSlashesAfter(a, StripRight(BeforeQuery(b)));
  }

  // ---------------------------------------------------------------- rendering

  predicate Unreserved(c: char) {
    'A' <= c <= 'Z' || 'a' <= c <= 'z' || '0' <= c <= '9' || c == '.' || c == '_' || c == '~' || c == '-'
  }

  predicate HasDots(s: string) {
    exists i | 0 <= i < |s| - 1 :: s[i] == '.' && s[i + 1] == '.'
  }

  /** What `sanitize_interpolation_value` lets through. */
  predicate Safe(id: string) {
    1 <= |id| <= 256 && (forall c | c in id :: Unreserved(c)) && !HasDots(id)
  }

  datatype RenderError = UnsafeValue | Unresolved | Traversal
  datatype Rendered = Path(path: string) | Error(error: RenderError)

  /** The placeholder stands at the front. */
  predicate AtId(s: string) {
    |s| >= 4 && s[0] == '{' && s[1] == 'i' && s[2] == 'd' && s[3] == '}'
  }

  /** `"{id}" in s` */
  predicate HasId(s: string)
    decreases |s|
  {
    |s| >= 4 && (AtId(s) || HasId(s[1..]))
  }

  /** `s.replace("{id}", v)` */
  function ReplaceId(s: string, v: string): string
    decreases |s|
  {
    if s == "" then ""
    else if AtId(s) then v + ReplaceId(s[4..], v)
    else [s[0]] + ReplaceId(s[1..], v)
  }

  /** `render_path` */
  function RenderText(template: string, id: string): Rendered {
    if HasId(template) && !Safe(id) then Error(UnsafeValue)
    else
      var out := ReplaceId(template, id);
      if '{' in out || '}' in out then Error(Unresolved)
      else if HasDots(out) then Error(Traversal)
      else Path(out)
  }

  function RenderPath(p: PathTemplate, id: string): Rendered {
    RenderText(TextOf(p), id)
  }

  lemma {:induction false} ReplaceNone(s: string, v: string)
    requires '{' !in s
    ensures ReplaceId(s, v) == s
  {
    if s != "" {
      ReplaceNone(s[1..], v);
    }
  }

  lemma ReplaceHere(post: string, v: string)
    requires '{' !in post
    ensures ReplaceId("{id}" + post, v) == v + post && HasId("{id}" + post)
  {
    var s := "{id}" + post;
    assert s[4..] == post;
    ReplaceNone(post, v);
  }

  lemma ReplaceLater(c: char, s: string, v: string)
    requires c != '{'
    ensures ReplaceId([c] + s, v) == [c] + ReplaceId(s, v) && (HasId(s) ==> HasId([c] + s))
  {
    var t := [c] + s;
    assert t[1..] == s && t[0] == c;
  }

  lemma {:induction false} ReplacePast(pre: string, rest: string, v: string)
    requires '{' !in pre
    ensures ReplaceId(pre + rest, v) == pre + ReplaceId(rest, v) && (HasId(rest) ==> HasId(pre + rest))
    decreases |pre|
  {
    if pre == "" {
      assert pre + rest == rest;
    } else {
      ReplacePast(pre[1..], rest, v);
      ReplaceLater(pre[0], pre[1..] + rest, v);
      assert pre + rest == [pre[0]] + (pre[1..] + rest);
      assert [pre[0]] + (pre[1..] + ReplaceId(rest, v)) == pre + ReplaceId(rest, v);
    }
  }

  lemma ReplaceOne(pre: string, post: string, v: string)
    requires '{' !in pre && '{' !in post
    ensures ReplaceId(pre + "{id}" + post, v) == pre + v + post && HasId(pre + "{id}" + post)
  {
    ReplaceHere(post, v);
    ReplacePast(pre, "{id}" + post, v);
    assert pre + "{id}" + post == pre + ("{id}" + post);
  }

  // ---------------------------------------------------------------- routing

  /** Template paths as the schema admits them, with one `{id}`. */
  predicate WellFormed(p: PathTemplate) {
    && p.pre != "" && p.pre[0] == '/'
    && (p.post != "" ==> !IsSpace(p.post[|p.post| - 1]))
    && '{' !in p.pre && '{' !in p.post
  }

  /** A compiled path: with the group that stands for the id, or, when normalizing cut the id off, without. */
  datatype Pattern = Grouped(pre: string, post: string) | Plain(text: string)

  /** `_pattern` */
  function PatternOf(p: PathTemplate): Pattern {
    if '?' in p.pre then Plain(Normalize(p.pre)) else Grouped(p.pre, Ending(p.post))
  }

  function TextOfPattern(r: Pattern): string {
    match r
    case Grouped(pre, post) => TextOf(PathTemplate(pre, post))
    case Plain(text) => text
  }

  /** The pattern is the normal form of the template's own text. */
  lemma PatternIsNormalForm(p: PathTemplate)
    requires WellFormed(p)
    ensures Normalize(TextOf(p)) == TextOfPattern(PatternOf(p))
  {
    if '?' in p.pre {
      assert TextOf(p) == p.pre + ("{id}" + p.post);
      QueryEnds(p.pre, "{id}" + p.post);
    } else {
      var a := p.pre + "{id}";
      assert TextOf(p) == a + p.post;
      assert TextOf(PathTemplate(p.pre, Ending(p.post))) == a + Ending(p.post);
      NormalizePlain(a, p.post);
    }
  }

  /** A path read as prefix, capture and one given ending. */
  function Capture(pre: string, ending: string, path: string): Option<string> {
    if |pre| + |ending| < |path| && pre <= path && path[|path| - |ending|..] == ending
       && '/' !in path[|pre|..|path| - |ending|]
    then Some(path[|pre|..|path| - |ending|])
    else None
  }

  /** The regular expression `^pre([^/]+)post/?$`: the longest capture wins, and `$` allows one final newline. */
  function MatchGroup(pre: string, post: string, path: string): Option<string> {
    var c0 := Capture(pre, post, path);
    var c1 := Capture(pre, post + "\n", path);
    var c2 := Capture(pre, post + "/", path);
    var c3 := Capture(pre, post + "/\n", path);
    if c0.Some? then c0 else if c1.Some? then c1 else if c2.Some? then c2 else c3
  }

  datatype Matched = NoMatch | Captured(id: string) | NoGroup

  /** Matching a pattern and reading its group 1. */
  function MatchPattern(r: Pattern, path: string): Matched {
    match r
    case Grouped(pre, post) =>
      var c := MatchGroup(pre, post, path);
      if c.Some? then Captured(c.value) else NoMatch
    case Plain(text) =>
      if path in [text, text + "\n", text + "/", text + "/\n"] then NoGroup else NoMatch
  }

  /** `match_route`; queries use GET, which the other two operations never do. */
  function MatchRoute(t: Routes, raw: string, m: Method): Route {
    var path := Normalize(raw);
    if m == t.createMethod && path == Normalize(t.createPath) then Create
    else
      var cancelled := if m == t.cancelMethod then MatchPattern(PatternOf(t.cancel), path) else NoMatch;
      match cancelled
      case Captured(id) => Cancel(id)
      case NoGroup => IndexError
      case NoMatch =>
        var queried := if m == GET then MatchPattern(PatternOf(t.get), path) else NoMatch;
        match queried
        case Captured(id) => Query(id)
        case NoGroup => IndexError
        case NoMatch => NotRouted
  }

  predicate ValidTemplate(t: Routes) {
    && WellFormed(t.get) && WellFormed(t.cancel)
    && t.createMethod in {POST, PUT} && t.cancelMethod in {DELETE, POST}
  }

  lemma SafeIsPlain(id: string)
    requires Safe(id)
    ensures '/' !in id && '?' !in id && !IsSpace(id[|id| - 1]) && id[|id| - 1] != '/'
  {
    assert id[|id| - 1] in id;
  }

  /** What a well-formed template prints, when it prints anything. */
  lemma RenderedIs(p: PathTemplate, id: string)
    requires WellFormed(p) && RenderPath(p, id).Path?
    ensures Safe(id) && RenderPath(p, id).path == p.pre + id + p.post
  {
    ReplaceOne(p.pre, p.post, id);
    assert TextOf(p) == p.pre + "{id}" + p.post;
  }

  /** Where no dot touches the id, every safe id renders. */
  lemma SafeIdsRender(p: PathTemplate, id: string)
    requires WellFormed(p) && Safe(id) && '}' !in p.pre && '}' !in p.post
    requires p.pre[|p.pre| - 1] != '.' && (p.post == "" || p.post[0] != '.')
    requires !HasDots(p.pre) && !HasDots(p.post)
    ensures RenderPath(p, id) == Path(p.pre + id + p.post)
  {
    ReplaceOne(p.pre, p.post, id);
    assert TextOf(p) == p.pre + "{id}" + p.post;
    NoDotsBetween(p.pre, id, p.post);
    assert '{' !in p.pre + id + p.post && '}' !in p.pre + id + p.post;
  }

  lemma NoDotsBetween(a: string, b: string, c: string)
    requires !HasDots(a) && !HasDots(b) && !HasDots(c)
    requires a != "" && a[|a| - 1] != '.' && (c == "" || c[0] != '.')
    ensures !HasDots(a + b + c)
  {
    var s := a + b + c;
    forall i | 0 <= i < |s| - 1 ensures !(s[i] == '.' && s[i + 1] == '.') {
      if i + 1 < |a| {
        assert s[i] == a[i] && s[i + 1] == a[i + 1];
      } else if |a| <= i && i + 1 < |a + b| {
        assert s[i] == b[i - |a|] && s[i + 1] == b[i + 1 - |a|];
      } else if |a + b| <= i {
        assert s[i] == c[i - |a + b|] && s[i + 1] == c[i + 1 - |a + b|];
      }
    }
  }

  lemma RenderedNormalForm(p: PathTemplate, id: string)
    requires WellFormed(p) && Safe(id)
    ensures Normalize(p.pre + id + p.post) == if '?' in p.pre then Normalize(p.pre) else p.pre + id + Ending(p.post)
  {
    SafeIsPlain(id);
    if '?' in p.pre {
      assert p.pre + id + p.post == p.pre + (id + p.post);
      QueryEnds(p.pre, id + p.post);
    } else {
      NormalizePlain(p.pre + id, p.post);
    }
  }

  lemma MatchOwn(pre: string, post: string, id: string)
    requires Safe(id)
    ensures MatchGroup(pre, post, pre + id + post) == Some(id)
  {
    SafeIsPlain(id);
    var path := pre + id + post;
    assert path[|pre|..|path| - |post|] == id;
    assert path[|path| - |post|..] == post;
    assert path[..|pre|] == pre;
  }

  /**
   What a template prints for an id, its pattern reads back as that id, unless the id
   stands in the query part: then the pattern matches and has no group to read.
   */
  lemma RenderThenMatch(p: PathTemplate, id: string)
    requires WellFormed(p) && RenderPath(p, id).Path?
    ensures MatchPattern(PatternOf(p), Normalize(RenderPath(p, id).path))
         == if '?' in p.pre then NoGroup else Captured(id)
  {
    RenderedIs(p, id);
    RenderedNormalForm(p, id);
    if '?' !in p.pre {
      MatchOwn(p.pre, Ending(p.post), id);
    }
  }

  /** The rendered query path is routed to the query of its id exactly when no query part begins before the id. */
  lemma GetRoundTripIff(t: Routes, id: string)
    requires ValidTemplate(t) && RenderPath(t.get, id).Path?
    ensures var r := MatchRoute(t, RenderPath(t.get, id).path, GET);
            && (r == Query(id) <==> '?' !in t.get.pre)
            && (r == IndexError <==> '?' in t.get.pre)
  {
    RenderThenMatch(t.get, id);
  }

  /** A template that is accepted, renders every id, and raises on each query it rendered. */
  lemma QueryParameterRaises(t: Routes, id: string)
    requires ValidTemplate(t) && t.get == PathTemplate("/query?task_id=", "") && Safe(id)
    ensures RenderPath(t.get, id) == Path("/query?task_id=" + id)
    ensures MatchRoute(t, "/query?task_id=" + id, GET) == IndexError
  {
    var pre := "/query?task_id=";
    assert pre + id + "" == pre + id;
    assert !HasDots(pre) && pre[|pre| - 1] == '=' && pre[6] == '?';
    SafeIdsRender(t.get, id);
    GetRoundTripIff(t, id);
  }

  /**
   The rendered cancel path is routed to the cancellation of its id exactly when no query
   part begins before the id and the two operations differ in method or in normalized
   path. It creates a task when they do not differ, and raises otherwise.
   */
  lemma CancelRoundTripIff(t: Routes, id: string)
    requires ValidTemplate(t) && RenderPath(t.cancel, id).Path?
    ensures var p := RenderPath(t.cancel, id).path;
            var clash := t.cancelMethod == t.createMethod && Normalize(p) == Normalize(t.createPath);
            var r := MatchRoute(t, p, t.cancelMethod);
            && (r == Create <==> clash)
            && (r == Cancel(id) <==> !clash && '?' !in t.cancel.pre)
            && (r == IndexError <==> !clash && '?' in t.cancel.pre)
  {
    RenderThenMatch(t.cancel, id);
  }

  /** The clash is possible: a cancel sent with POST can reach the create branch. */
  lemma CancelCanCreate()
    ensures var t := Routes("/t/run", POST, PathTemplate("/t/", ""), PathTemplate("/t/", ""), POST);
            && ValidTemplate(t) && RenderPath(t.cancel, "run") == Path("/t/run")
            && MatchRoute(t, "/t/run", POST) == Create
  {
    ReplaceOne("/t/", "", "run");
    var out := "/t/" + "run" + "";
    assert out == "/t/run";
    assert forall c | c in "run" :: Unreserved(c);
    assert !HasDots("run") && !HasDots(out);
  }

  /** The cancel path that is derived: the create path followed by the id. */
  predicate DerivesCancel(t: Routes) {
    t.cancel == PathTemplate(t.createPath + "/", "") && Trimmed(t.createPath) && t.createPath != ""
  }

  lemma {:induction false} NormalizeShrinks(path: string)
    requires path != "" && path[0] == '/' && Trimmed(path) && '?' !in path
    ensures |Normalize(path)| <= |path|
  {
    NoQuery(path);
    TrimmedStays(path);
  }

  lemma QueryStays(path: string, c: char)
    requires c != '?'
    ensures '?' in path + [c] <==> '?' in path
  {
    if '?' in path {
      var i :| 0 <= i < |path| && path[i] == '?';
      assert (path + [c])[i] == '?';
    }
  }

  lemma DerivedIsCut(t: Routes, id: string)
    requires ValidTemplate(t) && RenderPath(t.cancel, id).Path? && DerivesCancel(t) && '?' in t.createPath
    ensures Normalize(RenderPath(t.cancel, id).path) == Normalize(t.createPath)
  {
    RenderedIs(t.cancel, id);
    assert RenderPath(t.cancel, id).path == t.createPath + ("/" + id);
    QueryEnds(t.createPath, "/" + id);
  }

  lemma DerivedStaysApart(t: Routes, id: string)
    requires ValidTemplate(t) && RenderPath(t.cancel, id).Path? && DerivesCancel(t) && '?' !in t.createPath
    ensures Normalize(RenderPath(t.cancel, id).path) != Normalize(t.createPath)
  {
    RenderedIs(t.cancel, id);
    RenderedNormalForm(t.cancel, id);
    assert t.createPath[0] == t.cancel.pre[0];
    QueryStays(t.createPath, '/');
    NormalizeShrinks(t.createPath);
  }

  /**
   A rendered derived cancel path is routed to the cancellation of its id exactly when the
   create path has no query part. With one it creates a task when the two methods agree,
   and raises when they do not.
   */
  lemma DerivedCancelIsSafeIff(t: Routes, id: string)
    requires ValidTemplate(t) && RenderPath(t.cancel, id).Path? && DerivesCancel(t)
    ensures MatchRoute(t, RenderPath(t.cancel, id).path, t.cancelMethod)
         == if '?' !in t.createPath then Cancel(id)
            else if t.cancelMethod == t.createMethod then Create
            else IndexError
  {
    CancelRoundTripIff(t, id);
    QueryStays(t.createPath, '/');
    if '?' in t.createPath {
      DerivedIsCut(t, id);
    } else {
      DerivedStaysApart(t, id);
    }
  }

  /** Such a create path: the derived cancel path, sent with POST, creates a task for every id. */
  lemma DerivedCancelCanCreate(t: Routes, id: string)
    requires ValidTemplate(t) && DerivesCancel(t) && Safe(id)
    requires t.createPath == "/run?m=1" && t.createMethod == t.cancelMethod == POST
    ensures RenderPath(t.cancel, id) == Path("/run?m=1/" + id)
    ensures MatchRoute(t, "/run?m=1/" + id, POST) == Create
  {
    var pre := "/run?m=1/";
    assert t.cancel.pre == pre && pre + id + "" == pre + id;
    assert !HasDots(pre) && pre[|pre| - 1] == '/' && t.createPath[4] == '?';
    SafeIdsRender(t.cancel, id);
    DerivedCancelIsSafeIff(t, id);
  }

  // ---------------------------------------------------------------- the other way round

  /** A normalized path never ends in a slash, unless it is nothing else. */
  lemma {:induction false} NoTrailingSlash(path: string)
    ensures DropSlashes(path) != "" ==> DropSlashes(path)[|DropSlashes(path)| - 1] != '/'
  {
    if path != "" && path[|path| - 1] == '/' {
      NoTrailingSlash(path[..|path| - 1]);
    }
  }

  /**
   A path that was routed to an id, and does not end in a newline, is the path that the
   template prints for that id, up to normal form.
   */
  lemma MatchThenRender(p: PathTemplate, raw: string)
    requires WellFormed(p) && MatchPattern(PatternOf(p), Normalize(raw)).Captured?
    requires Normalize(raw)[|Normalize(raw)| - 1] != '\n'
    ensures var id := MatchPattern(PatternOf(p), Normalize(raw)).id;
            RenderPath(p, id).Path? ==> Normalize(RenderPath(p, id).path) == Normalize(raw)
  {
    var id := MatchPattern(PatternOf(p), Normalize(raw)).id;
    var post := Ending(p.post);
    EndingIsExact(p.pre, post, raw);
    CaptureSplits(p.pre, post, Normalize(raw));
    if RenderPath(p, id).Path? {
      RenderedIs(p, id);
      RenderedNormalForm(p, id);
    }
  }

  /** The normal form of a path: it begins with a slash, has no query part, and ends in a slash only when it is one. */
  lemma NormalForm(path: string)
    ensures var n := Normalize(path);
            n != "" && n[0] == '/' && '?' !in n && (|n| > 1 ==> n[|n| - 1] != '/')
  {
    var b := BeforeQuery(path);
    NoMarkBefore(path);
    StripIsPart(b);
    var q := if Strip(b) != "" && Strip(b)[0] == '/' then Strip(b) else "/" + Strip(b);
    NoTrailingSlash(q);
    assert forall c | c in q :: c == '/' || c in b;
  }

  lemma {:induction false} NoMarkBefore(path: string)
    ensures '?' !in BeforeQuery(path)
  {
    if path != "" {
      NoMarkBefore(path[1..]);
    }
  }

  lemma {:induction false} LeftIsPart(s: string)
    ensures forall c | c in StripLeft(s) :: c in s
    decreases |s|
  {
    if s != "" && IsSpace(s[0]) {
      LeftIsPart(s[1..]);
    }
  }

  lemma {:induction false} RightIsPart(s: string)
    ensures forall c | c in StripRight(s) :: c in s
    decreases |s|
  {
    if s != "" && IsSpace(s[|s| - 1]) {
      RightIsPart(s[..|s| - 1]);
    }
  }

  lemma StripIsPart(s: string)
    ensures forall c | c in Strip(s) :: c in s
  {
    LeftIsPart(s);
    RightIsPart(StripLeft(s));
  }

  /** Some segment stands where the pattern has its group. */
  predicate Segment(id: string) {
    id != "" && '/' !in id
  }

  lemma MatchSegment(pre: string, post: string, id: string)
    requires Segment(id)
    ensures MatchGroup(pre, post, pre + id + post) == Some(id)
  {
    var path := pre + id + post;
    assert path[|pre|..|path| - |post|] == id;
    assert path[|path| - |post|..] == post;
    assert path[..|pre|] == pre;
  }

  /** What a grouped pattern reads: the one segment that completes the path, unless the path ends in a newline. */
  lemma GroupIsSegment(pre: string, post: string, raw: string, id: string)
    requires pre != "" && Normalize(raw)[|Normalize(raw)| - 1] != '\n'
    ensures MatchGroup(pre, post, Normalize(raw)) == Some(id) <==> Segment(id) && Normalize(raw) == pre + id + post
  {
    if MatchGroup(pre, post, Normalize(raw)) == Some(id) {
      EndingIsExact(pre, post, raw);
      CaptureSplits(pre, post, Normalize(raw));
    }
    if Segment(id) && Normalize(raw) == pre + id + post {
      MatchSegment(pre, post, id);
    }
  }

  /**
   What the three routes mean, for paths without a newline at their end and templates whose ids
   stand before any query part: a create is the create method on the create path; a query is GET
   on the query path around some segment; a cancel is the cancel method on the cancel path
   around some segment, unless it is a create.
   */
  lemma RouteMeans(t: Routes, raw: string, m: Method, id: string)
    requires ValidTemplate(t) && '?' !in t.get.pre && '?' !in t.cancel.pre
    requires Normalize(raw)[|Normalize(raw)| - 1] != '\n'
    ensures var r, path := MatchRoute(t, raw, m), Normalize(raw);
            && (r == Create <==> m == t.createMethod && path == Normalize(t.createPath))
            && (r == Query(id) <==> m == GET && Segment(id) && path == t.get.pre + id + Ending(t.get.post))
            && (r == Cancel(id) <==> r != Create && m == t.cancelMethod && Segment(id) && path == t.cancel.pre + id + Ending(t.cancel.post))
            && r != IndexError
  {
    GroupIsSegment(t.get.pre, Ending(t.get.post), raw, id);
    GroupIsSegment(t.cancel.pre, Ending(t.cancel.post), raw, id);
  }

  /** No other method reaches a route. */
  lemma OtherMethodsAreNotRouted(t: Routes, raw: string, m: Method)
    requires m != GET && m != t.createMethod && m != t.cancelMethod
    ensures MatchRoute(t, raw, m) == NotRouted
  {
  }

  /** Exactly the ids of 1 to 256 unreserved characters without two dots in a row are rendered; any other is refused as unsafe. */
  lemma RendersIff(p: PathTemplate, id: string)
    requires WellFormed(p) && '}' !in p.pre && '}' !in p.post
    requires p.pre[|p.pre| - 1] != '.' && (p.post == "" || p.post[0] != '.') && !HasDots(p.pre) && !HasDots(p.post)
    ensures var plain := 1 <= |id| <= 256
                         && (forall c | c in id :: ('A' <= c <= 'Z') || ('a' <= c <= 'z') || ('0' <= c <= '9') || c in ".-_~")
                         && (forall i | 0 <= i < |id| - 1 :: !(id[i] == '.' && id[i + 1] == '.'));
            RenderPath(p, id) == if plain then Path(p.pre + id + p.post) else Error(UnsafeValue)
  {
    if Safe(id) {
      SafeIdsRender(p, id);
    } else {
      ReplaceOne(p.pre, p.post, id);
      assert TextOf(p) == p.pre + "{id}" + p.post;
    }
  }

  lemma CaptureSplits(pre: string, ending: string, path: string)
    requires Capture(pre, ending, path).Some?
    ensures path == pre + Capture(pre, ending, path).value + ending
  {
  }

  lemma EndingIsExact(pre: string, post: string, raw: string)
    requires MatchGroup(pre, post, Normalize(raw)).Some? && pre != ""
    requires Normalize(raw)[|Normalize(raw)| - 1] != '\n'
    ensures MatchGroup(pre, post, Normalize(raw)) == Capture(pre, post, Normalize(raw))
  {
    var path := Normalize(raw);
    var s := Strip(BeforeQuery(raw));
    var q := if s != "" && s[0] == '/' then s else "/" + s;
    NoTrailingSlash(q);
    NotEnding(pre, post, "\n", path);
    NotEnding(pre, post, "/", path);
    NotEnding(pre, post + "/", "\n", path);
    assert post + "/\n" == post + "/" + "\n";
  }

  lemma NotEnding(pre: string, post: string, end: string, path: string)
    requires |end| == 1 && path != "" && pre != "" && (|path| > 1 ==> path[|path| - 1] != end[0])
    ensures Capture(pre, post + end, path).None?
  {
  }
}
