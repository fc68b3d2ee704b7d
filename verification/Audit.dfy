/**
 The audit log of db/audit.py: every record hashes its own fields together with the hash of
 the record before it. The hash function is a parameter; what is needed of it is asked for
 only on the texts that are actually hashed.
 */
module Audit {
  import opened Wrappers
  import opened Text

  datatype Record = Record(
    eventType: string,
    actor: string,
    actorRole: Option<string>,
    subjectType: Option<string>,
    subjectId: Option<string>,
    payloadDigest: Option<string>,
    detail: Option<string>,
    prevHash: Option<string>,
    hash: string,
    createdAt: string)

  type Hash = string -> string
  type Log = seq<Record>

  const GENESIS := "genesis"
  const DASH := "-"

  /** Python's `value or default`. */
  function Or(v: Option<string>, default: string): string {
    if v.Some? && v.value != "" then v.value else default
  }

  /** The text that is hashed for a record after the given one. */
  function Material(r: Record, prev: Option<string>): string {
    Or(prev, GENESIS) + ['|'] + Fields(r)
  }

  function Fields(r: Record): string {
    r.eventType + ['|'] + (r.actor + ['|'] + (Or(r.subjectId, DASH) + ['|'] + (Or(r.payloadDigest, DASH) + ['|'] + r.createdAt)))
  }

  function PrevOf(log: Log, i: nat): Option<string>
    requires i <= |log|
  {
    if i == 0 then None else Some(log[i - 1].hash)
  }

  predicate Linked(h: Hash, log: Log, i: nat)
    requires i < |log|
  {
    log[i].prevHash == PrevOf(log, i) && log[i].hash == h(Material(log[i], PrevOf(log, i)))
  }

  /** The chain is intact. */
  predicate Verifies(h: Hash, log: Log) {
    forall i | 0 <= i < |log| :: Linked(h, log, i)
  }

  class AuditWriter {
    const h: Hash
    var log: Log

    constructor (h: Hash)
      ensures log == [] && this.h == h
    {
      this.h, log := h, [];
    }

    /** Appends one record and keeps the chain intact; nothing that was written changes. */
    method Append(eventType: string, actor: string, actorRole: Option<string>, subjectType: Option<string>,
                  subjectId: Option<string>, payload: Option<string>, detail: Option<string>, createdAt: string)
      modifies this
      ensures |log| == |old(log)| + 1 && log[..|old(log)|] == old(log)
      ensures Verifies(h, old(log)) ==> Verifies(h, log)
      ensures var r := log[|old(log)|];
              && r.eventType == eventType && r.actor == actor && r.createdAt == createdAt
              && r.subjectId == subjectId && r.detail == detail && r.actorRole == actorRole && r.subjectType == subjectType
              && r.payloadDigest == (if payload.Some? then Some(h(payload.value)) else None)
              && Linked(h, log, |old(log)|)
              && r.prevHash == (if old(log) == [] then None else Some(old(log)[|old(log)| - 1].hash))
      ensures var r := log[|old(log)|];
              var last := if old(log) == [] then "" else old(log)[|old(log)| - 1].hash;
              r.hash == h((if last == "" then "genesis" else last) + ['|'] + (r.eventType + ['|'] + (r.actor + ['|']
                + ((if r.subjectId.Some? && r.subjectId.value != "" then r.subjectId.value else "-") + ['|']
                + ((if r.payloadDigest.Some? && r.payloadDigest.value != "" then r.payloadDigest.value else "-") + ['|'] + r.createdAt)))))
    {
      var prev := if log == [] then None else Some(log[|log| - 1].hash);
      var digest := if payload.Some? then Some(h(payload.value)) else None;
      var r := Record(eventType, actor, actorRole, subjectType, subjectId, digest, detail, prev, "", createdAt);
      var hash := h(Material(r, prev));
      ghost var before := log;
      log := log + [r.(hash := hash)];
      assert Fields(log[|before|]) == Fields(r);
      assert Linked(h, log, |before|);
      assert forall i | 0 <= i < |before| :: Linked(h, before, i) ==> Linked(h, log, i);
    }

    /** Walks the first `limit` records and names the first one that breaks the chain. */
    method VerifyChain(limit: nat) returns (broken: Option<nat>)
      ensures broken.None? <==> Verifies(h, log[..Seen(|log|, limit)])
      ensures broken.Some? ==> broken.value < Seen(|log|, limit) && !Linked(h, log, broken.value)
                               && Verifies(h, log[..broken.value])
      ensures broken.None? <==> forall i | 0 <= i < |log| && i < limit :: Linked(h, log, i)
      ensures broken.Some? ==> broken.value < |log| && broken.value < limit && !Linked(h, log, broken.value)
                               && forall i | 0 <= i < broken.value :: Linked(h, log, i)
    {
      var rows := log[..Seen(|log|, limit)];
      var prev := None;
      for i := 0 to |rows|
        invariant prev == PrevOf(rows, i)
        invariant Verifies(h, rows[..i])
      {
        var expected := h(Material(rows[i], prev));
        assert rows[..i] == log[..i];
        if rows[i].prevHash != prev || rows[i].hash != expected {
          assert !Linked(h, rows, i);
          PrefixLinked(h, log, |rows|, i);
          VerifiesPrefix(h, log, i);
          return Some(i);
        }
        VerifiesMore(h, rows, i);
        prev := Some(rows[i].hash);
      }
      assert rows[..|rows|] == rows;
      VerifiesPrefix(h, log, |rows|);
      broken := None;
    }
  }

  lemma PrefixLinked(h: Hash, log: Log, n: nat, i: nat)
    requires i < n <= |log|
    ensures Linked(h, log[..n], i) <==> Linked(h, log, i)
  {
  }

  lemma VerifiesPrefix(h: Hash, log: Log, n: nat)
    requires n <= |log|
    ensures Verifies(h, log[..n]) <==> forall i | 0 <= i < n :: Linked(h, log, i)
  {
    forall i | 0 <= i < n ensures Linked(h, log[..n], i) <==> Linked(h, log, i) {
      PrefixLinked(h, log, n, i);
    }
  }

  lemma VerifiesMore(h: Hash, log: Log, i: nat)
    requires i < |log| && Verifies(h, log[..i]) && Linked(h, log, i)
    ensures Verifies(h, log[..i + 1])
  {
    var more := log[..i + 1];
    forall j | 0 <= j < |more| ensures Linked(h, more, j) {
      PrefixLinked(h, log, i + 1, j);
      if j < i {
        assert Linked(h, log[..i], j);
        PrefixLinked(h, log, i, j);
      }
    }
  }

  function Seen(n: nat, limit: nat): nat {
    if n < limit then n else limit
  }

  // ---------------------------------------------------------------- what the chain pins

  /** The hashed fields of two records agree, an absent or empty one counting as written "-". */
  predicate SameFields(a: Record, b: Record) {
    && a.eventType == b.eventType && a.actor == b.actor && a.createdAt == b.createdAt
    && Or(a.subjectId, DASH) == Or(b.subjectId, DASH)
    && Or(a.payloadDigest, DASH) == Or(b.payloadDigest, DASH)
  }

  /** No field of the record contains the separator. */
  predicate NoBars(r: Record) {
    && '|' !in r.eventType && '|' !in r.actor && '|' !in r.createdAt
    && '|' !in Or(r.subjectId, DASH) && '|' !in Or(r.payloadDigest, DASH)
  }

  /** Hashes look like hashes: no separator, not empty, and never the word that starts a chain. */
  predicate HashesLookRight(log: Log) {
    forall i | 0 <= i < |log| :: '|' !in log[i].hash && log[i].hash != "" && log[i].hash != GENESIS
  }

  /** The hash has no collision among the texts hashed for the two logs. */
  predicate NoCollision(h: Hash, a: Log, b: Log) {
    forall i, j | 0 <= i < |a| && 0 <= j < |b| ::
      h(Material(a[i], PrevOf(a, i))) == h(Material(b[j], PrevOf(b, j))) ==>
        Material(a[i], PrevOf(a, i)) == Material(b[j], PrevOf(b, j))
  }

  lemma FieldsPin(a: Record, b: Record)
    requires NoBars(a) && NoBars(b) && Fields(a) == Fields(b)
    ensures SameFields(a, b)
  {
    var sa, sb := Or(a.subjectId, DASH), Or(b.subjectId, DASH);
    var da, db := Or(a.payloadDigest, DASH), Or(b.payloadDigest, DASH);
    var a3, b3 := da + ['|'] + a.createdAt, db + ['|'] + b.createdAt;
    var a2, b2 := sa + ['|'] + a3, sb + ['|'] + b3;
    SplitsOnce(a.eventType, a.actor + ['|'] + a2, b.eventType, b.actor + ['|'] + b2, '|');
    SplitsOnce(a.actor, a2, b.actor, b2, '|');
    SplitsOnce(sa, a3, sb, b3, '|');
    SplitsOnce(da, a.createdAt, db, b.createdAt, '|');
  }

  lemma MaterialPins(a: Record, pa: Option<string>, b: Record, pb: Option<string>)
    requires NoBars(a) && NoBars(b) && Material(a, pa) == Material(b, pb)
    requires pa.Some? ==> '|' !in pa.value && pa.value != "" && pa.value != GENESIS
    requires pb.Some? ==> '|' !in pb.value && pb.value != "" && pb.value != GENESIS
    ensures SameFields(a, b) && pa == pb
  {
    SplitsOnce(Or(pa, GENESIS), Fields(a), Or(pb, GENESIS), Fields(b), '|');
    FieldsPin(a, b);
  }

  predicate Comparable(h: Hash, a: Log, b: Log) {
    && Verifies(h, a) && Verifies(h, b) && NoCollision(h, a, b)
    && HashesLookRight(a) && HashesLookRight(b)
    && (forall r | r in a :: NoBars(r)) && (forall r | r in b :: NoBars(r))
  }

  /** Equal hashes in two intact logs: the records agree, and so do the hashes before them. */
  lemma HashPins(h: Hash, a: Log, b: Log, i: nat, j: nat)
    requires Comparable(h, a, b) && i < |a| && j < |b| && a[i].hash == b[j].hash
    ensures SameFields(a[i], b[j])
    ensures (i == 0 <==> j == 0) && (i > 0 ==> a[i - 1].hash == b[j - 1].hash)
  {
    assert Linked(h, a, i) && Linked(h, b, j);
    assert a[i] in a && b[j] in b;
    MaterialPins(a[i], PrevOf(a, i), b[j], PrevOf(b, j));
  }

  /** Two logs agree on the hashed fields and hashes of their first records. */
  predicate Agree(a: Log, b: Log, n: nat)
    requires n <= |a| && n <= |b|
  {
    n == 0 || (Agree(a, b, n - 1) && SameFields(a[n - 1], b[n - 1]) && a[n - 1].hash == b[n - 1].hash)
  }

  /**
   The tail hash pins the whole log: two intact logs with the same last hash have the same
   length and agree on every hashed field of every record.
   */
  lemma {:induction false} TailPinsLog(h: Hash, a: Log, b: Log, i: nat, j: nat)
    requires Comparable(h, a, b) && i < |a| && j < |b|
    requires a[i].hash == b[j].hash
    ensures i == j && Agree(a, b, i + 1)
    decreases i
  {
    HashPins(h, a, b, i, j);
    if i > 0 {
      TailPinsLog(h, a, b, i - 1, j - 1);
    }
  }

  /** Changing a hashed field of one record of an intact log, with its hash left as it was, breaks the chain. */
  lemma TamperingShows(h: Hash, log: Log, i: nat, r: Record)
    requires i < |log| && r.hash == log[i].hash && !SameFields(r, log[i])
    requires Verifies(h, log) && HashesLookRight(log) && NoCollision(h, log, log[i := r])
    requires NoBars(r) && NoBars(log[i])
    ensures !Verifies(h, log[i := r])
  {
    var forged := log[i := r];
    if Verifies(h, forged) {
      assert Linked(h, log, i) && Linked(h, forged, i);
      MaterialPins(log[i], PrevOf(log, i), forged[i], PrevOf(forged, i));
      assert false;
    }
  }

  /** What is not hashed is not pinned: role, subject type and detail can be rewritten unseen. */
  lemma UnhashedFieldsAreFree(h: Hash, log: Log, i: nat, role: Option<string>, kind: Option<string>, detail: Option<string>)
    requires i < |log| && Verifies(h, log)
    ensures Verifies(h, log[i := log[i].(actorRole := role, subjectType := kind, detail := detail)])
  {
    var other := log[i := log[i].(actorRole := role, subjectType := kind, detail := detail)];
    forall k | 0 <= k < |other| ensures Linked(h, other, k) {
      assert Linked(h, log, k);
      assert Fields(other[k]) == Fields(log[k]);
    }
  }

  /** A separator inside a field lets two different records hash alike, whatever the hash. */
  lemma BarsBlurFields(h: Hash, prev: Option<string>, createdAt: string)
    ensures var r := Record("e", "a|b", None, None, None, None, None, prev, "", createdAt);
            var s := Record("e|a", "b", None, None, None, None, None, prev, "", createdAt);
            !SameFields(r, s) && h(Material(r, prev)) == h(Material(s, prev))
  {
    var r := Record("e", "a|b", None, None, None, None, None, prev, "", createdAt);
    var s := Record("e|a", "b", None, None, None, None, None, prev, "", createdAt);
    var rest := Or(None, DASH) + ['|'] + (Or(None, DASH) + ['|'] + createdAt);
    assert Fields(r) == "e" + ['|'] + ("a|b" + ['|'] + rest);
    assert Fields(s) == "e|a" + ['|'] + ("b" + ['|'] + rest);
    assert "e" + ['|'] + ("a|b" + ['|'] + rest) == "e|a" + ['|'] + ("b" + ['|'] + rest);
  }
}
