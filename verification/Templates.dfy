/** The parts of a resolved template that the lifecycle and the query face read. */
module Templates {
  import opened Wrappers
  import opened Json
  import opened StateMachine

  datatype ConfirmStrategy = ManualOnly | QueryByClientKey | ListAndMatch

  datatype Template = Template(
    idPath: Path,
    statusPath: Path,
    resultPath: Path,
    errorPath: Option<Path>,
    success: seq<string>,
    failure: seq<string>,
    expired: seq<string>,
    rewrite: Option<string>,
    errorCode: Option<string>,
    storesResult: bool,
    storeConfigured: bool,
    confirm: ConfirmStrategy,
    cancelable: bool,
    callbackPrimary: bool)

  /** `maps_status`: what a native status value means, if it means an end. */
  function MapsStatus(t: Template, native: string): Option<TaskStatus> {
    if native in t.success then Some(Succeeded)
    else if native in t.expired then Some(Timeout)
    else if native in t.failure then Some(Failed)
    else None
  }

  /** `confirm_auto_allowed` */
  predicate ConfirmAutoAllowed(t: Template) {
    t.confirm != ManualOnly
  }

  predicate FailureValue(t: Template, native: string) {
    native in t.failure || native in t.expired
  }

  /** `effective_failure_status`; an empty rewrite counts as absent. */
  function FailureStatus(t: Template): string {
    if t.rewrite.Some? && t.rewrite.value != "" then t.rewrite.value
    else if t.failure != [] then t.failure[0] else "failed"
  }

  /** The native status a response body shows, as text. */
  function NativeStatus(t: Template, body: Json): Option<string> {
    var v := Extract(OrEmpty(body), t.statusPath);
    if v.Some? then Some(PyStr(v.value)) else None
  }

  /** `_snapshot_with_status` */
  function SnapshotWithStatus(t: Template, body: Json, native: string): Json {
    if body.Obj? then SetPath(body, t.statusPath, Str(native)).doc else body
  }

  /** `_restore_raw_result_field` */
  function RestoreRawResult(t: Template, snapshot: Json, raw: Json): Json {
    if !raw.Obj? || !snapshot.Obj? then snapshot
    else
      var v := Extract(raw, t.resultPath);
      if v.None? || v.value == Null then snapshot else SetPath(snapshot, t.resultPath, v.value).doc
  }

  /** A JSON column: null is the absent snapshot. */
  function SnapshotColumn(j: Json): Option<Json> {
    if j == Null then None else Some(j)
  }

  /** A native status that reads as a failure; what is declared a success reads as one whatever else it is. */
  predicate FailureClass(t: Template, native: string) {
    FailureValue(t, native) && native !in t.success
  }

  /** What validation makes sure of. */
  predicate Validated(t: Template) {
    t.success != [] && t.failure != [] && forall v | v in t.success :: v !in t.failure
  }

  /** Writing the result and the error does not reach the status. */
  predicate Clear(t: Template) {
    && t.statusPath != [] && !Touches(t.resultPath, t.statusPath)
    && (t.errorPath.Some? ==> !Touches(t.errorPath.value, t.statusPath))
  }

  /** And the status can be written. */
  predicate Readable(t: Template) {
    Clear(t) && KeyOnly(t.statusPath)
  }

  /** Success and failure values do not overlap, and the rewrite value is a failure. */
  predicate Coherent(t: Template) {
    && t.success != []
    && (forall v | v in t.success :: !FailureValue(t, v))
    && FailureValue(t, FailureStatus(t))
  }

  /** The snapshot is the body with the status as text: it reads there, and everything else is as it was. */
  lemma SnapshotReads(t: Template, body: Json, native: string, p: Path)
    requires body.Obj? && t.statusPath != [] && KeyOnly(t.statusPath)
    ensures var s := SnapshotWithStatus(t, body, native);
            && s.Obj? && Extract(s, t.statusPath) == Some(Str(native))
            && (!Touches(t.statusPath, p) ==> Extract(s, p) == Extract(body, p))
  {
    WriteThenRead(body, t.statusPath, Str(native));
    if !Touches(t.statusPath, p) {
      UntouchedRead(body, t.statusPath, Str(native), p);
    }
  }

  /** Restoring puts the unredacted result back, where there is one, and touches nothing else. */
  lemma RestoredReads(t: Template, snapshot: Json, raw: Json, p: Path)
    requires snapshot.Obj? && t.resultPath != [] && KeyOnly(t.resultPath)
    ensures var s := RestoreRawResult(t, snapshot, raw);
            && (raw.Obj? && Extract(raw, t.resultPath) !in {None, Some(Null)} ==> Extract(s, t.resultPath) == Extract(raw, t.resultPath))
            && (!raw.Obj? || Extract(raw, t.resultPath) in {None, Some(Null)} ==> s == snapshot)
            && (!Touches(t.resultPath, p) ==> Extract(s, p) == Extract(snapshot, p))
  {
    if raw.Obj? && Extract(raw, t.resultPath).Some? {
      var v := Extract(raw, t.resultPath).value;
      WriteThenRead(snapshot, t.resultPath, v);
      if !Touches(t.resultPath, p) {
        UntouchedRead(snapshot, t.resultPath, v, p);
      }
    }
  }
}
