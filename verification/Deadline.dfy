/** The deadline budget: waits that the upstream caused are added back, up to a cap. */
module Deadline {
  import opened Reals

  /** `_deadline_extension`: how much of a wait is still added, given what was added before. */
  function Extension(used: real, want: real, cap: real): real {
    Max(0.0, Min(want, Max(0.0, cap - used)))
  }

  /** A task's budget: the deadline column and the recorded total. */
  datatype Budget = Budget(deadline: real, recorded: real)

  /** One wait; the note of it may be lost to a crash between the two writes. */
  datatype Wait = Wait(seconds: real, noted: bool)

  function AfterWait(b: Budget, w: Wait, cap: real): Budget {
    var e := Extension(b.recorded, w.seconds, cap);
    Budget(b.deadline + e, if w.noted then b.recorded + e else b.recorded)
  }

  function AfterWaits(b: Budget, ws: seq<Wait>, cap: real): Budget
    decreases |ws|
  {
    if ws == [] then b else AfterWait(AfterWaits(b, ws[..|ws| - 1], cap), ws[|ws| - 1], cap)
  }

  /** The same waits, the note of the last one lost. */
  function LastLost(ws: seq<Wait>): seq<Wait>
    requires ws != []
  {
    ws[..|ws| - 1] + [Wait(ws[|ws| - 1].seconds, false)]
  }

  function Total(ws: seq<Wait>): real
    decreases |ws|
  {
    if ws == [] then 0.0 else Total(ws[..|ws| - 1]) + ws[|ws| - 1].seconds
  }

  function LostNotes(ws: seq<Wait>): nat
    decreases |ws|
  {
    if ws == [] then 0 else LostNotes(ws[..|ws| - 1]) + if ws[|ws| - 1].noted then 0 else 1
  }

  predicate NonNegative(ws: seq<Wait>) {
    forall w | w in ws :: w.seconds >= 0.0
  }

  /** No note lost: the deadline moves by exactly min(cap, all waits), and so does the record. */
  lemma {:induction false} DeadlineIsSaturatedSum(original: real, ws: seq<Wait>, cap: real)
    requires cap >= 0.0 && NonNegative(ws) && LostNotes(ws) == 0
    ensures AfterWaits(Budget(original, 0.0), ws, cap)
            == Budget(original + Min(cap, Total(ws)), Min(cap, Total(ws)))
    ensures Total(ws) >= 0.0
    decreases |ws|
  {
    if ws != [] {
      DeadlineIsSaturatedSum(original, ws[..|ws| - 1], cap);
      assert ws[|ws| - 1] in ws;
    }
  }

  /** `n` times the cap. */
  function Caps(n: nat, cap: real): real {
    if n == 0 then 0.0 else Caps(n - 1, cap) + cap
  }

  lemma {:induction false} CapsAreMultiples(n: nat, cap: real)
    ensures Caps(n, cap) == n as real * cap
  {
    if n > 0 {
      CapsAreMultiples(n - 1, cap);
      assert n as real == (n - 1) as real + 1.0;
      assert ((n - 1) as real + 1.0) * cap == (n - 1) as real * cap + cap;
    }
  }

  /** A deadline `n` caps after the first one. */
  function Later(first: real, n: nat, cap: real): real {
    first + Caps(n, cap)
  }

  lemma OneCapLater(first: real, n: nat, cap: real)
    ensures Later(first, n + 1, cap) == Later(first, n, cap) + cap
    ensures Later(first, 0, cap) == first
  {
  }

  /** With lost notes the cap holds per note: each lost note can cost one more cap, and no more. */
  lemma {:induction false} LostNotesWidenTheCap(original: real, ws: seq<Wait>, cap: real)
    requires cap >= 0.0 && NonNegative(ws)
    ensures var b := AfterWaits(Budget(original, 0.0), ws, cap);
            && 0.0 <= b.recorded <= cap
            && original + b.recorded <= b.deadline <= original + b.recorded + Caps(LostNotes(ws), cap)
    decreases |ws|
  {
    if ws != [] {
      LostNotesWidenTheCap(original, ws[..|ws| - 1], cap);
      assert ws[|ws| - 1] in ws;
    }
  }

  /** Waits of a full cap each, all of whose notes are lost. */
  function LostCaps(n: nat, cap: real): seq<Wait> {
    if n == 0 then [] else LostCaps(n - 1, cap) + [Wait(cap, false)]
  }

  lemma {:induction false} LostCapsAdd(original: real, n: nat, cap: real)
    requires cap > 0.0
    ensures AfterWaits(Budget(original, 0.0), LostCaps(n, cap), cap) == Budget(original + Caps(n, cap), 0.0)
    ensures LostNotes(LostCaps(n, cap)) == n
  {
    if n > 0 {
      LostCapsAdd(original, n - 1, cap);
      assert LostCaps(n, cap)[..|LostCaps(n, cap)| - 1] == LostCaps(n - 1, cap);
    }
  }

  /** The widened bound is reached: `n` lost notes and one kept one give `n + 1` caps. */
  lemma LostNotesReachTheBound(original: real, n: nat, cap: real)
    requires cap > 0.0
    ensures var ws := LostCaps(n, cap) + [Wait(cap, true)];
            LostNotes(ws) == n && AfterWaits(Budget(original, 0.0), ws, cap) == Budget(original + Caps(n + 1, cap), cap)
  {
    var ws := LostCaps(n, cap) + [Wait(cap, true)];
    assert ws[..|ws| - 1] == LostCaps(n, cap);
    LostCapsAdd(original, n, cap);
  }
}
