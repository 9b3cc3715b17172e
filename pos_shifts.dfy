/**
 * Worker shifts: `startShift`, `endShift` and `formatDuration`. Times are
 * integer milliseconds, as `Date` subtraction yields them; the clock reading
 * is a parameter.
 */
module PosShifts {
  import opened Wrappers
  import opened JsText

  /** A row of the shift table; its id is its position in the table. */
  datatype Shift = Shift(worker: string, start: int, end: Option<int>, duration: Option<int>, active: bool)

  datatype ShiftOutcome = Started | AlreadyActive | Ended(duration: int) | NoActiveShift | WriteFailed

  predicate ActiveFor(s: Shift, worker: string) {
    s.active && s.worker == worker
  }

  /** Positions of the worker's active shifts, in table order. */
  function ActiveShifts(shifts: seq<Shift>, worker: string): (r: seq<nat>)
    ensures forall k :: 0 <= k < |r| ==> r[k] < |shifts| && ActiveFor(shifts[r[k]], worker)
    ensures forall i :: 0 <= i < |shifts| && ActiveFor(shifts[i], worker) ==> i in r
    ensures forall k, l :: 0 <= k < l < |r| ==> r[k] < r[l]
    decreases |shifts|
  {
    if shifts == [] then []
    else
      var init := ActiveShifts(shifts[..|shifts| - 1], worker);
      if ActiveFor(shifts[|shifts| - 1], worker) then init + [|shifts| - 1] else init
  }

  /**
   * `select('*').eq('worker_id', w).eq('active', true).single()`: the row when
   * exactly one matches; no row (`data` is null) when none or several match,
   * or when the read itself fails.
   */
  function SingleActive(shifts: seq<Shift>, worker: string, readFails: bool): (r: Option<nat>)
    ensures r.Some? ==> r.value < |shifts| && ActiveFor(shifts[r.value], worker)
  {
    var a := ActiveShifts(shifts, worker);
    if !readFails && |a| == 1 then Some(a[0]) else None
  }

  /** No worker has two active shifts. */
  ghost predicate AtMostOneActive(shifts: seq<Shift>) {
    forall i, j :: 0 <= i < j < |shifts| && shifts[i].active && shifts[j].active ==> shifts[i].worker != shifts[j].worker
  }

  /** `startShift()` for `worker` at time `now`: refused while the worker's active shift is visible. */
  function StartShift(shifts: seq<Shift>, worker: string, now: int, readFails: bool, insertFails: bool): (seq<Shift>, ShiftOutcome) {
    if SingleActive(shifts, worker, readFails).Some? then (shifts, AlreadyActive)
    else if insertFails then (shifts, WriteFailed)
    else (shifts + [Shift(worker, now, None, None, true)], Started)
  }

  /** `endShift()` for `worker` at time `now`: closes the visible active shift with duration `now - start`. */
  function EndShift(shifts: seq<Shift>, worker: string, now: int, readFails: bool, updateFails: bool): (seq<Shift>, ShiftOutcome) {
    match SingleActive(shifts, worker, readFails)
    case None => (shifts, NoActiveShift)
    case Some(i) =>
      if updateFails then (shifts, WriteFailed)
      else
        var d := now - shifts[i].start;
        (shifts[i := shifts[i].(end := Some(now), duration := Some(d), active := false)], Ended(d))
  }

  /** Under the invariant, a worker's active shift is visible exactly when the worker has one. */
  lemma {:induction false} SingleActiveIff(shifts: seq<Shift>, worker: string)
    requires AtMostOneActive(shifts)
    ensures SingleActive(shifts, worker, false).Some? <==> exists i :: 0 <= i < |shifts| && ActiveFor(shifts[i], worker)
  {
    var a := ActiveShifts(shifts, worker);
    AtMostOneVisible(shifts, worker);
    if exists i :: 0 <= i < |shifts| && ActiveFor(shifts[i], worker) {
      var i :| 0 <= i < |shifts| && ActiveFor(shifts[i], worker);
      assert i in a;
    }
  }

  /** Under the invariant, a worker has at most one active shift position. */
  lemma {:induction false} AtMostOneVisible(shifts: seq<Shift>, worker: string)
    requires AtMostOneActive(shifts)
    ensures |ActiveShifts(shifts, worker)| <= 1
    decreases |shifts|
  {
    if shifts != [] {
      var init := shifts[..|shifts| - 1];
      assert forall i :: 0 <= i < |init| ==> init[i] == shifts[i];
      AtMostOneVisible(init, worker);
      if ActiveFor(shifts[|shifts| - 1], worker) {
        NoneVisible(init, worker);
      }
    }
  }

  lemma NoneVisible(shifts: seq<Shift>, worker: string)
    requires forall i :: 0 <= i < |shifts| ==> !ActiveFor(shifts[i], worker)
    ensures ActiveShifts(shifts, worker) == []
  {
  }

  /**
   * With a successful read and insert, and no worker holding two active
   * shifts: `startShift` refuses a worker who has an active shift, and
   * otherwise adds one active shift for the worker.
   */
  lemma StartShiftSpec(shifts: seq<Shift>, worker: string, now: int)
    requires AtMostOneActive(shifts)
    ensures var (s', out) := StartShift(shifts, worker, now, false, false);
      && ((exists i :: 0 <= i < |shifts| && ActiveFor(shifts[i], worker)) <==> out == AlreadyActive)
      && (out == AlreadyActive ==> s' == shifts)
      && (out != AlreadyActive ==> out == Started)
      && (out == Started ==> s' == shifts + [Shift(worker, now, None, None, true)])
  {
    SingleActiveIff(shifts, worker);
  }

  /** A successful read keeps every worker at no more than one active shift, whatever the insert does. */
  lemma StartShiftKeepsInvariant(shifts: seq<Shift>, worker: string, now: int, insertFails: bool)
    requires AtMostOneActive(shifts)
    ensures AtMostOneActive(StartShift(shifts, worker, now, false, insertFails).0)
  {
    SingleActiveIff(shifts, worker);
    var s' := StartShift(shifts, worker, now, false, insertFails).0;
    forall i, j | 0 <= i < j < |s'| && s'[i].active && s'[j].active ensures s'[i].worker != s'[j].worker {
      if j == |shifts| {
        assert !ActiveFor(shifts[i], worker);
      }
    }
  }

  /** When the read fails, `startShift` opens a second active shift for a worker who already has one. */
  lemma StartShiftReadFailure()
    ensures var s := [Shift("w", 0, None, None, true)];
            !AtMostOneActive(StartShift(s, "w", 5, true, false).0)
  {
    var s' := StartShift([Shift("w", 0, None, None, true)], "w", 5, true, false).0;
    assert s'[0].active && s'[1].active && s'[0].worker == s'[1].worker;
  }

  /**
   * With a successful read and update, and no worker holding two active
   * shifts: `endShift` refuses a worker with no active shift; otherwise it closes that
   * shift, recording the end time and `end - start` (no clamp), and leaves
   * every other row as it was.
   */
  lemma EndShiftSpec(shifts: seq<Shift>, worker: string, now: int)
    requires AtMostOneActive(shifts)
    ensures var (s', out) := EndShift(shifts, worker, now, false, false);
      && ((forall i :: 0 <= i < |shifts| ==> !ActiveFor(shifts[i], worker)) <==> out == NoActiveShift)
      && (out == NoActiveShift ==> s' == shifts)
      && (out != NoActiveShift ==> out.Ended?)
      && (out.Ended? ==>
            exists i :: (0 <= i < |shifts| && ActiveFor(shifts[i], worker)
              && |s'| == |shifts|
              && s'[i] == shifts[i].(end := Some(now), duration := Some(now - shifts[i].start), active := false)
              && out.duration == now - shifts[i].start
              && (forall j :: 0 <= j < |shifts| && j != i ==> s'[j] == shifts[j])))
      && (forall j :: 0 <= j < |s'| ==> !ActiveFor(s'[j], worker))
  {
    SingleActiveIff(shifts, worker);
  }

  /** `endShift` only ever deactivates, so it keeps the invariant. */
  lemma EndShiftKeepsInvariant(shifts: seq<Shift>, worker: string, now: int, readFails: bool, updateFails: bool)
    requires AtMostOneActive(shifts)
    ensures AtMostOneActive(EndShift(shifts, worker, now, readFails, updateFails).0)
  {
    var s' := EndShift(shifts, worker, now, readFails, updateFails).0;
    assert |s'| == |shifts|;
    assert forall i :: 0 <= i < |s'| && s'[i].active ==> shifts[i].active && s'[i].worker == shifts[i].worker;
  }

  // ---------------------------------------------------------------------------
  // formatDuration
  // ---------------------------------------------------------------------------

  const MsPerHour := 3600000
  const MsPerMinute := 60000

  /** JavaScript's `%` on integers: the remainder takes the sign of the dividend. */
  function JsRem(a: int, b: int): (r: int)
    requires b > 0
    ensures a >= 0 ==> 0 <= r < b
    ensures a < 0 ==> -b < r <= 0
  {
    if a >= 0 then a % b else -((-a) % b)
  }

  /** The hours and minutes `formatDuration(ms)` prints: `Math.floor(ms / 3600000)` and `Math.floor((ms % 3600000) / 60000)`. */
  function DurationParts(ms: int): (hm: (int, int))
    ensures ms >= 0 ==> 0 <= hm.1 < 60 && hm.0 >= 0
    ensures ms >= 0 ==> hm.0 * MsPerHour + hm.1 * MsPerMinute <= ms < hm.0 * MsPerHour + (hm.1 + 1) * MsPerMinute
    ensures ms < 0 ==> hm.0 < 0 && -60 <= hm.1 <= 0
  {
    var h := ms / MsPerHour;
    var m := JsRem(ms, MsPerHour) / MsPerMinute;
    (h, m)
  }

  /** `formatDuration(ms)`: `${hours}h ${minutes}m`. */
  function FormatDuration(ms: int): string {
    var (h, m) := DurationParts(ms);
    IntToString(h) + "h " + IntToString(m) + "m"
  }

  /** The printed text splits at its space into the hour count and the minute count, each read back by `parseInt`. */
  lemma FormatDurationReadsBack(ms: int)
    requires ms >= 0
    ensures var parts := Split(FormatDuration(ms), ' ');
            |parts| == 2 && ParseInt(parts[0]) == Some(DurationParts(ms).0) && ParseInt(parts[1]) == Some(DurationParts(ms).1)
  {
    var (h, m) := DurationParts(ms);
    var hours := Digits(h) + "h";
    var minutes := Digits(m) + "m";
    assert FormatDuration(ms) == hours + [' '] + minutes;
    assert ' ' !in hours;
    assert ' ' !in minutes;
    SplitFirst(hours, ' ', minutes);
    ParseIntDigits(h, "h");
    ParseIntDigits(m, "m");
  }

  /** A negative duration (an end before the start) prints both parts negative. */
  lemma NegativeDurationText()
    ensures FormatDuration(-1) == "-1h -1m"
  {
    assert DurationParts(-1) == (-1, -1);
  }
}
