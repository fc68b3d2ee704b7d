/** What a query shows: the native response, and the status a caller reads back from it. */
module Output {
  import opened Wrappers
  import opened Json
  import opened StateMachine
  import opened TaskRow
  import opened Templates
  import opened Text

  // ---------------------------------------------------------------- the response

  /** `_effective_status_value`: the native value to show, and whether it must be written. */
  function EffectiveStatus(t: Template, r: Row): (string, bool) {
    var raw := r.rawStatus;
    if r.status == Succeeded then
      if raw.Some? && raw.value in t.success then (raw.value, false)
      else (if t.success != [] then t.success[0] else "succeeded", true)
    else if r.status == Cancelled then
      if raw.Some? && FailureValue(t, raw.value) then (raw.value, false) else (FailureStatus(t), true)
    else if InternalTerminal(r.status) then
      if raw.Some? && r.status == Timeout && raw.value in t.expired then (raw.value, false) else (FailureStatus(t), true)
    else if raw.None? then ("queued", true)
    else (raw.value, false)
  }

  function StatusWritten(t: Template, r: Row, doc: Json): Json
    requires doc.Obj?
  {
    var (value, rewrite) := EffectiveStatus(t, r);
    if rewrite || Extract(doc, t.statusPath).None? then SetPath(doc, t.statusPath, Str(value)).doc else doc
  }

  /** `setdefault("_result_hint", ...)` */
  function WithHint(doc: Json): Json
    requires doc.Obj?
  {
    if "_result_hint" in doc.fields then doc else Obj(doc.fields["_result_hint" := Str("unavailable_or_pending")])
  }

  /** The failure reason: the row's own message, or the declared error code. */
  function FailureDetail(t: Template, r: Row): string {
    var own := if r.errorMessage.Some? then Strip(r.errorMessage.value) else "";
    if own != "" then own
    else if t.errorCode.Some? && t.errorCode.value != "" then t.errorCode.value
    else FailureStatus(t)
  }

  function Base(r: Row): Json {
    if r.snapshot.Some? then r.snapshot.value else Obj(map[])
  }

  /** The fields that are written after the status. */
  function Dressed(t: Template, r: Row, url: Option<string>, doc: Json): (d: Json)
    requires doc.Obj?
    ensures d.Obj?
  {
    if r.status == Succeeded then
      if t.storesResult && t.storeConfigured then
        var d := SetPath(doc, t.resultPath, if url.Some? then Str(url.value) else Null).doc;
        if url.None? then WithHint(d) else d
      else doc
    else if InternalTerminal(r.status) || r.status == Cancelled then
      var d := if t.errorPath.Some? then SetPath(doc, t.errorPath.value, Str(FailureDetail(t, r))).doc else doc;
      if t.storesResult then SetPath(d, t.resultPath, Null).doc else d
    else doc
  }

  /** `build_native_query_response`, as a value. */
  function NativeResponse(t: Template, r: Row, url: Option<string>): Json {
    if !Base(r).Obj? then Base(r) else Dressed(t, r, url, StatusWritten(t, r, Base(r)))
  }

  /** The same, field by field on one working copy, as the source does it. */
  method BuildNativeQueryResponse(t: Template, r: Row, url: Option<string>) returns (doc: Json)
    ensures doc == NativeResponse(t, r, url)
  {
    doc := Base(r);
    if !doc.Obj? { return; }
    var (value, rewrite) := EffectiveStatus(t, r);
    var present, _ := TryExtract(doc, t.statusPath);
    if rewrite || !present {
      doc := SetPath(doc, t.statusPath, Str(value)).doc;
    }
    if r.status == Succeeded {
      if t.storesResult && t.storeConfigured {
        doc := SetPath(doc, t.resultPath, if url.Some? then Str(url.value) else Null).doc;
        if url.None? {
          doc := WithHint(doc);
        }
      }
    } else if InternalTerminal(r.status) || r.status == Cancelled {
      if t.errorPath.Some? {
        doc := SetPath(doc, t.errorPath.value, Str(FailureDetail(t, r))).doc;
      }
      if t.storesResult {
        doc := SetPath(doc, t.resultPath, Null).doc;
      }
    }
  }

  // ---------------------------------------------------------------- reading it back

  /** What a caller concludes from a response. */
  function ReadBack(t: Template, doc: Json): Option<TaskStatus> {
    var native := NativeStatus(t, doc);
    if native.Some? then MapsStatus(t, native.value) else None
  }

  /** The status text says how the task ended: success for a success, a failure class for anything else. */
  predicate Tells(t: Template, status: TaskStatus, native: Option<string>) {
    var m := if native.Some? then MapsStatus(t, native.value) else None;
    if status == Succeeded then m == Some(Succeeded) else m == Some(Failed) || m == Some(Timeout)
  }

  /** Success is read exactly when the task succeeded, and a failure class otherwise. */
  predicate Honoured(t: Template, r: Row, doc: Json) {
    Tells(t, r.status, NativeStatus(t, doc))
  }

  // ---------------------------------------------------------------- what is shown

  /** The status text after a scalar is written at `q`: the same, unless the write reaches it. */
  function StatusAfter(t: Template, was: Option<string>, q: Path, w: Json): Option<string> {
    var p := t.statusPath;
    if !Touches(q, p) then was
    else if !KeyOnly(p) then None
    else if p == q then Some(PyStr(w))
    else if p < q then Some(PyStr(Obj(map[])))
    else None
  }

  lemma StatusAfterWrite(t: Template, doc: Json, q: Path, w: Json)
    requires doc.Obj? && !w.Obj? && !w.Arr?
    ensures NativeStatus(t, SetPath(doc, q, w).doc) == StatusAfter(t, NativeStatus(t, doc), q, w)
  {
    if Touches(q, t.statusPath) {
      TouchedRead(doc, q, w, t.statusPath);
    } else {
      UntouchedRead(doc, q, w, t.statusPath);
    }
  }

  /** The status field is to be written: rewritten, or supplied where the snapshot has none. */
  predicate Restated(t: Template, r: Row) {
    EffectiveStatus(t, r).1 || NativeStatus(t, Base(r)).None?
  }

  /** The status text before the result and the error are written. */
  function StatusFirst(t: Template, r: Row): Option<string> {
    if !Base(r).Obj? || !Restated(t, r) || t.statusPath == [] then NativeStatus(t, Base(r))
    else if KeyOnly(t.statusPath) then Some(EffectiveStatus(t, r).0)
    else None
  }

  function ErrorShown(t: Template, r: Row, was: Option<string>): Option<string> {
    if t.errorPath.Some? then StatusAfter(t, was, t.errorPath.value, Str(FailureDetail(t, r))) else was
  }

  function ResultValue(url: Option<string>): Json {
    if url.Some? then Str(url.value) else Null
  }

  /** The status text of the response, from the columns and the paths alone. */
  function Shown(t: Template, r: Row, url: Option<string>): Option<string> {
    var first := StatusFirst(t, r);
    if !Base(r).Obj? then first
    else if r.status == Succeeded then
      if t.storesResult && t.storeConfigured then StatusAfter(t, first, t.resultPath, ResultValue(url)) else first
    else if InternalTerminal(r.status) || r.status == Cancelled then
      var second := ErrorShown(t, r, first);
      if t.storesResult then StatusAfter(t, second, t.resultPath, Null) else second
    else first
  }

  lemma StatusWrittenShows(t: Template, r: Row)
    requires Base(r).Obj?
    ensures NativeStatus(t, StatusWritten(t, r, Base(r))) == StatusFirst(t, r)
    ensures t.statusPath != [] && t.statusPath[0].Key? ==> t.statusPath[0].name in StatusWritten(t, r, Base(r)).fields
  {
    var p, doc, v := t.statusPath, Base(r), Str(EffectiveStatus(t, r).0);
    if Restated(t, r) && p != [] {
      if KeyOnly(p) {
        WriteThenRead(doc, p, v);
      } else {
        RefusedWriteDestroys(doc, p, v);
      }
    }
  }

  /** The hint goes to a key of its own, which the status path, written before, does not begin with. */
  lemma HintKeepsStatus(t: Template, doc: Json)
    requires doc.Obj? && (t.statusPath != [] && t.statusPath[0].Key? ==> t.statusPath[0].name in doc.fields)
    ensures NativeStatus(t, WithHint(doc)) == NativeStatus(t, doc)
  {
  }

  lemma DressedShows(t: Template, r: Row, url: Option<string>, doc: Json)
    requires doc.Obj? && NativeStatus(t, doc) == StatusFirst(t, r) && Base(r).Obj?
    requires t.statusPath != [] && t.statusPath[0].Key? ==> t.statusPath[0].name in doc.fields
    ensures NativeStatus(t, Dressed(t, r, url, doc)) == Shown(t, r, url)
  {
    if r.status == Succeeded {
      if t.storesResult && t.storeConfigured {
        StatusAfterWrite(t, doc, t.resultPath, ResultValue(url));
        HintKeepsStatus(t, SetPath(doc, t.resultPath, ResultValue(url)).doc);
      }
    } else if InternalTerminal(r.status) || r.status == Cancelled {
      var d := doc;
      if t.errorPath.Some? {
        StatusAfterWrite(t, doc, t.errorPath.value, Str(FailureDetail(t, r)));
        d := SetPath(doc, t.errorPath.value, Str(FailureDetail(t, r))).doc;
      }
      StatusAfterWrite(t, d, t.resultPath, Null);
    }
  }

  /** For every template and every row: what a response reads as is what the columns and the paths say. */
  lemma ShownExactly(t: Template, r: Row, url: Option<string>)
    ensures NativeStatus(t, NativeResponse(t, r, url)) == Shown(t, r, url)
  {
    if Base(r).Obj? {
      StatusWrittenShows(t, r);
      DressedShows(t, r, url, StatusWritten(t, r, Base(r)));
    }
  }

  // ---------------------------------------------------------------- what callers read, in their own terms

  /** A task that has not ended and has no upstream status yet reads as "queued". */
  lemma PendingReadsQueued(t: Template, r: Row, url: Option<string>)
    requires Readable(t) && ObjectSnapshot(r) && !BusinessTerminal(r.status) && r.rawStatus.None?
    ensures NativeStatus(t, NativeResponse(t, r, url)) == Some("queued")
  {
    ClearShows(t, r, url);
  }

  /** Once its snapshot shows a status, the caller gets the upstream's own document, unchanged. */
  lemma RunningShowsSnapshot(t: Template, r: Row, url: Option<string>)
    requires !BusinessTerminal(r.status) && r.rawStatus.Some? && r.snapshot.Some? && r.snapshot.value.Obj?
    requires NativeStatus(t, r.snapshot.value).Some?
    ensures NativeResponse(t, r, url) == r.snapshot.value
  {
  }

  /** Until then the raw status is put where the template looks for it. */
  lemma RunningReadsRaw(t: Template, r: Row, url: Option<string>)
    requires Readable(t) && ObjectSnapshot(r) && !BusinessTerminal(r.status) && r.rawStatus.Some?
    requires r.snapshot.Some? ==> NativeStatus(t, r.snapshot.value) in {None, r.rawStatus}
    ensures NativeStatus(t, NativeResponse(t, r, url)) == r.rawStatus
  {
    ClearShows(t, r, url);
    EmptyShowsNothing(t);
  }

  /** A success reads as the upstream's own success value, or as the first declared one. */
  lemma SuccessReads(t: Template, r: Row, url: Option<string>)
    requires Readable(t) && ObjectSnapshot(r) && r.status == Succeeded && t.success != []
    requires RowShows(t, r, false)
    ensures var shown := NativeStatus(t, NativeResponse(t, r, url));
            if r.rawStatus.Some? && r.rawStatus.value in t.success then shown == r.rawStatus else shown == Some(t.success[0])
  {
    ClearShows(t, r, url);
    EmptyShowsNothing(t);
  }

  /** Any other end reads as the rewrite value or, without one, the first declared failure; a declared expiry stays for a timeout. */
  lemma FailureReadsAs(t: Template, r: Row, url: Option<string>)
    requires Readable(t) && ObjectSnapshot(r) && BusinessTerminal(r.status) && r.status != Succeeded && t.failure != []
    requires r.rawStatus.Some? ==> !FailureValue(t, r.rawStatus.value)
    ensures NativeStatus(t, NativeResponse(t, r, url)) ==
            Some(if t.rewrite.Some? && t.rewrite.value != "" then t.rewrite.value else t.failure[0])
  {
    ClearShows(t, r, url);
  }

  /** The result field of a stored success: the link, or null with a hint beside it. */
  lemma ResultReads(t: Template, r: Row, url: Option<string>)
    requires Base(r).Obj? && r.status == Succeeded && t.storesResult && t.storeConfigured
    requires t.resultPath != [] && KeyOnly(t.resultPath)
    ensures var doc := NativeResponse(t, r, url);
            && Extract(doc, t.resultPath) == Some(if url.Some? then Str(url.value) else Null)
            && (url.None? ==> doc.Obj? && "_result_hint" in doc.fields)
  {
    var v := if url.Some? then Str(url.value) else Null;
    var doc := StatusWritten(t, r, Base(r));
    WriteThenRead(doc, t.resultPath, v);
    assert t.resultPath[0].name in SetPath(doc, t.resultPath, v).doc.fields;
  }

  /** A result that is passed through is left where the upstream put it. */
  lemma PassedThroughResultReads(t: Template, r: Row, url: Option<string>)
    requires Base(r).Obj? && r.status == Succeeded && !(t.storesResult && t.storeConfigured)
    requires !Touches(t.statusPath, t.resultPath)
    ensures Extract(NativeResponse(t, r, url), t.resultPath) == Extract(Base(r), t.resultPath)
  {
    UntouchedRead(Base(r), t.statusPath, Str(EffectiveStatus(t, r).0), t.resultPath);
  }

  /** A task that ended otherwise shows no result, and its error field gives the reason: its own message, or the declared code. */
  lemma FailureFieldsRead(t: Template, r: Row, url: Option<string>)
    requires Base(r).Obj? && BusinessTerminal(r.status) && r.status != Succeeded
    ensures var doc := NativeResponse(t, r, url);
            && (t.storesResult && t.resultPath != [] && KeyOnly(t.resultPath) ==> Extract(doc, t.resultPath) == Some(Null))
            && (t.errorPath.Some? && t.errorPath.value != [] && KeyOnly(t.errorPath.value)
                && (t.storesResult ==> !Touches(t.resultPath, t.errorPath.value)) ==>
                  var read := Extract(doc, t.errorPath.value);
                  && (r.errorMessage.Some? && r.errorMessage.value != "" && Trimmed(r.errorMessage.value) ==> read == Some(Str(r.errorMessage.value)))
                  && (r.errorMessage.None? && t.errorCode.Some? && t.errorCode.value != "" ==> read == Some(Str(t.errorCode.value))))
  {
    var doc := StatusWritten(t, r, Base(r));
    var e := Str(FailureDetail(t, r));
    if r.errorMessage.Some? && Trimmed(r.errorMessage.value) {
      TrimmedStays(r.errorMessage.value);
    }
    if t.errorPath.Some? {
      WriteThenRead(doc, t.errorPath.value, e);
    }
    var d := if t.errorPath.Some? then SetPath(doc, t.errorPath.value, e).doc else doc;
    WriteThenRead(d, t.resultPath, Null);
    if t.errorPath.Some? && t.storesResult && !Touches(t.resultPath, t.errorPath.value) {
      UntouchedRead(d, t.resultPath, Null, t.errorPath.value);
    }
  }

  // ---------------------------------------------------------------- when the answer is right

  /** The row's columns tell one story: the raw status is the one the snapshot shows, unless a cancel at the upstream wrote it. */
  predicate RowShows(t: Template, r: Row, cancels: bool) {
    r.rawStatus.Some? && r.snapshot.Some? && NativeStatus(t, r.snapshot.value).Some? ==>
      || NativeStatus(t, r.snapshot.value) == r.rawStatus
      || (cancels && r.status == Cancelled && r.rawStatus == Some("cancelled"))
  }

  predicate ObjectSnapshot(r: Row) {
    r.snapshot.Some? ==> r.snapshot.value.Obj?
  }

  /** Cancelling overwrote the raw status with a declared failure value, over a snapshot that shows no failure. */
  predicate StaleCancel(t: Template, r: Row) {
    && r.status == Cancelled && r.rawStatus == Some("cancelled") && FailureValue(t, "cancelled")
    && (var shown := NativeStatus(t, Base(r)); shown.Some? && !FailureClass(t, shown.value))
  }

  /** None of the row's other fields is written where the status is read. */
  predicate Spared(t: Template, r: Row) {
    if r.status == Succeeded then
      t.storesResult && t.storeConfigured ==> !Touches(t.resultPath, t.statusPath)
    else
      && (t.errorPath.Some? ==> !Touches(t.errorPath.value, t.statusPath))
      && (t.storesResult ==> !Touches(t.resultPath, t.statusPath))
  }

  /** The value that stands for the failure reads as one: the rewrite value, or the raw status where it is what is shown. */
  predicate FailureReads(t: Template, r: Row) {
    if EffectiveStatus(t, r).1 then FailureClass(t, FailureStatus(t))
    else
      var shown := NativeStatus(t, Base(r));
      r.rawStatus.Some? && (r.rawStatus.value in t.success ==> shown.Some? && shown != r.rawStatus)
  }

  /**
   For every template that passes validation, and every ended row, the response reads back
   as success exactly when the task succeeded and as a failure class otherwise, if and only
   if: the snapshot is an object, or shows the right status by itself; where the status is to
   be written, its path has no index; no other field is written over it; the value that
   stands for a failure is no success value, and one of the declared failures when it is
   rewritten; and the row is not a stale cancel.
   */
  lemma ContractHoldsIff(t: Template, r: Row, url: Option<string>)
    requires Validated(t) && RowShows(t, r, true) && BusinessTerminal(r.status)
    requires t.statusPath != [] && t.statusPath != t.resultPath && t.errorPath != Some(t.statusPath)
    requires MapsStatus(t, PyStr(Obj(map[]))).None?
    ensures Honoured(t, r, NativeResponse(t, r, url)) <==>
            if !ObjectSnapshot(r) then Tells(t, r.status, NativeStatus(t, r.snapshot.value))
            else
              && (Restated(t, r) ==> KeyOnly(t.statusPath))
              && Spared(t, r)
              && (r.status != Succeeded ==> FailureReads(t, r) && !StaleCancel(t, r))
  {
    ShownExactly(t, r, url);
    if ObjectSnapshot(r) {
      if Spared(t, r) {
        assert Shown(t, r, url) == StatusFirst(t, r);
        FirstTellsIff(t, r);
      } else {
        UnsparedIsLost(t, r, url);
      }
    }
  }

  lemma FirstTellsIff(t: Template, r: Row)
    requires Validated(t) && RowShows(t, r, true) && BusinessTerminal(r.status) && t.statusPath != [] && Base(r).Obj?
    ensures Tells(t, r.status, StatusFirst(t, r)) <==>
              && (Restated(t, r) ==> KeyOnly(t.statusPath))
              && (r.status != Succeeded ==> FailureReads(t, r) && !StaleCancel(t, r))
  {
    EmptyShowsNothing(t);
  }

  lemma EmptyShowsNothing(t: Template)
    requires t.statusPath != []
    ensures NativeStatus(t, Obj(map[])).None?
  {
    assert Child(Obj(map[]), t.statusPath[0]).None?;
  }

  lemma UnsparedIsLost(t: Template, r: Row, url: Option<string>)
    requires BusinessTerminal(r.status) && Base(r).Obj? && !Spared(t, r)
    requires t.statusPath != t.resultPath && t.errorPath != Some(t.statusPath)
    requires MapsStatus(t, PyStr(Obj(map[]))).None?
    ensures Shown(t, r, url).None? || Shown(t, r, url) == Some(PyStr(Obj(map[])))
  {
  }

  /** Where the result path is the status path, the result is what is read as the status. */
  lemma ResultOverStatus(t: Template, r: Row, url: Option<string>)
    requires BusinessTerminal(r.status) && Base(r).Obj? && t.storesResult && t.storeConfigured
    requires t.statusPath == t.resultPath != [] && KeyOnly(t.statusPath)
    ensures NativeStatus(t, NativeResponse(t, r, url)) == Some(PyStr(if r.status == Succeeded then ResultValue(url) else Null))
  {
    ShownExactly(t, r, url);
    NeverApart(t.statusPath);
  }

  /** Where the error path is, the failure reason is: read as a failure only if it is declared one. */
  lemma ErrorOverStatus(t: Template, r: Row, url: Option<string>)
    requires BusinessTerminal(r.status) && r.status != Succeeded && Base(r).Obj?
    requires t.errorPath == Some(t.statusPath) && t.statusPath != [] && KeyOnly(t.statusPath)
    requires !t.storesResult || !Touches(t.resultPath, t.statusPath)
    ensures NativeStatus(t, NativeResponse(t, r, url)) == Some(FailureDetail(t, r))
    ensures Honoured(t, r, NativeResponse(t, r, url)) <==> FailureClass(t, FailureDetail(t, r))
  {
    ShownExactly(t, r, url);
    NeverApart(t.statusPath);
  }

  lemma {:induction false} NeverApart(p: Path)
    requires KeyOnly(p)
    ensures !Apart(p, p)
    decreases |p|
  {
    if p != [] {
      KeyOnlyTail(p);
      NeverApart(p[1..]);
    }
  }

  lemma {:induction false} ReachesItself(p: Path)
    requires p != []
    ensures Touches(p, p)
    decreases |p|
  {
    if p[0].Key? && |p| > 1 {
      ReachesItself(p[1..]);
    }
  }

  /** For templates whose status can be written and whose values are coherent, two exceptions are left. */
  lemma CoherentContractIff(t: Template, r: Row, url: Option<string>)
    requires Readable(t) && Templates.Coherent(t) && RowShows(t, r, true) && BusinessTerminal(r.status)
    ensures Honoured(t, r, NativeResponse(t, r, url)) <==> ObjectSnapshot(r) && !StaleCancel(t, r)
  {
    ShownExactly(t, r, url);
    if Base(r).Obj? {
      EmptyShowsNothing(t);
    } else {
      NoStatusOutsideObjects(t, Base(r));
    }
  }

  lemma NoStatusOutsideObjects(t: Template, doc: Json)
    requires t.statusPath != [] && t.statusPath[0].Key? && !doc.Obj?
    ensures NativeStatus(t, doc).None?
  {
    assert Child(OrEmpty(doc), t.statusPath[0]).None?;
  }

  /** Where no other field is written over the status, the answer depends on the status, raw status and snapshot columns alone. */
  lemma ClearShows(t: Template, r: Row, url: Option<string>)
    requires Clear(t)
    ensures NativeStatus(t, NativeResponse(t, r, url)) == StatusFirst(t, r)
  {
    ShownExactly(t, r, url);
  }
}
