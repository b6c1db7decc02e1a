/** One employee's punch ledger on the server: the ordered records of
    backend/src/models/clockSummaryModel.ts and the per-ledger steps that
    clockIn, clockOut and the 19:00 sweep of clockSummaryController.ts take. */
module Ledger {
  import opened Wrappers

  /** An absolute instant, in milliseconds since the epoch (a JavaScript Date). */
  type Instant = int

  /** `1000 * 60 * 60`, the divisor the controller turns milliseconds into hours with. */
  const MsPerHour: int := 1000 * 60 * 60

  /** One punch: `clockOutTime` is `None` while the punch is open.
      `totalHours` is kept as an exact real instead of a JavaScript number. */
  datatype Record = Record(clockInTime: Instant, clockOutTime: Option<Instant>, totalHours: real)

  /** The failures the controller throws as a BadRequestError. */
  datatype ClockError = AlreadyClockedIn | NoClockInRecord | AlreadyClockedOut

  /** The message each failure carries to the caller, verbatim. */
  function Message(e: ClockError): (m: string)
    ensures e == AlreadyClockedIn ==> m == "You are already clocked in."
    ensures e == NoClockInRecord ==> m == "No clock-in record found."
    ensures e == AlreadyClockedOut ==> m == "You have already clocked out.."
  {
    match e
    case AlreadyClockedIn => "You are already clocked in."
    case NoClockInRecord => "No clock-in record found."
    case AlreadyClockedOut => "You have already clocked out.."
  }

  predicate IsOpen(r: Record) {
    r.clockOutTime.None?
  }

  /** Hours from `clockIn` to `clockOut`, not rounded. */
  function HoursBetween(clockIn: Instant, clockOut: Instant): real {
    (clockOut - clockIn) as real / MsPerHour as real
  }

  /** The hours, multiplied back by an hour's milliseconds, are the interval's
      length; a forward interval never has negative hours. */
  lemma HoursMeasureTheInterval(clockIn: Instant, clockOut: Instant)
    ensures HoursBetween(clockIn, clockOut) * MsPerHour as real == (clockOut - clockIn) as real
    ensures clockIn <= clockOut ==> HoursBetween(clockIn, clockOut) >= 0.0
    ensures clockOut - clockIn == MsPerHour ==> HoursBetween(clockIn, clockOut) == 1.0
  {
  }

  /** A record's hours agree with its times: an open punch carries 0, a closed
      one the exact length of its interval. */
  predicate HoursAgree(r: Record) {
    match r.clockOutTime
    case None => r.totalHours == 0.0
    case Some(out) => r.totalHours == HoursBetween(r.clockInTime, out)
  }

  function Last(records: seq<Record>): Record
    requires records != []
  {
    records[|records| - 1]
  }

  /** The employee is clocked in: the ledger's last record is open. */
  predicate LastIsOpen(records: seq<Record>) {
    records != [] && IsOpen(Last(records))
  }

  /** Some record of the ledger is open (the sweep's query `clockOutTime: null`). */
  predicate HasOpenRecord(records: seq<Record>) {
    exists i :: 0 <= i < |records| && IsOpen(records[i])
  }

  /** The central invariant: every record except possibly the last is closed. */
  predicate ClosedBeforeLast(records: seq<Record>) {
    forall i :: 0 <= i < |records| - 1 ==> !IsOpen(records[i])
  }

  /** Everything the engine keeps true of a ledger it created: it is never
      empty, only its last record can be open, and every record's hours agree
      with its times. */
  predicate Valid(records: seq<Record>) {
    && records != []
    && ClosedBeforeLast(records)
    && forall i :: 0 <= i < |records| ==> HoursAgree(records[i])
  }

  /** The number of open records, counted from the front. */
  function OpenCount(records: seq<Record>): nat {
    if records == [] then 0
    else OpenCount(records[..|records| - 1]) + (if IsOpen(Last(records)) then 1 else 0)
  }

  lemma {:induction false} NoOpenRecordMeansZeroCount(records: seq<Record>)
    requires forall i :: 0 <= i < |records| ==> !IsOpen(records[i])
    ensures OpenCount(records) == 0
  {
    if records != [] {
      NoOpenRecordMeansZeroCount(records[..|records| - 1]);
    }
  }

  /** At most one open punch: under the invariant the ledger holds exactly one
      open record when the employee is clocked in and none otherwise. */
  lemma {:induction false} AtMostOneOpen(records: seq<Record>)
    requires ClosedBeforeLast(records)
    ensures OpenCount(records) == (if LastIsOpen(records) then 1 else 0)
    ensures OpenCount(records) <= 1
  {
    if records != [] {
      NoOpenRecordMeansZeroCount(records[..|records| - 1]);
    }
  }

  lemma LastOpenIsAnOpenRecord(records: seq<Record>)
    ensures LastIsOpen(records) ==> HasOpenRecord(records)
  {
    if LastIsOpen(records) {
      assert IsOpen(records[|records| - 1]);
    }
  }

  /** The record clockIn pushes: started at `now`, with 0 hours. */
  function NewPunch(now: Instant): (r: Record)
    ensures IsOpen(r) && HoursAgree(r) && r.clockInTime == now
  {
    Record(now, None, 0.0)
  }

  /** The close step clockOut and the sweep share: the in time is kept, the out
      time set, and the hours computed from the two. */
  function Closed(r: Record, at: Instant): (c: Record)
    ensures !IsOpen(c) && HoursAgree(c)
    ensures c.clockInTime == r.clockInTime && c.clockOutTime == Some(at)
  {
    r.(clockOutTime := Some(at), totalHours := HoursBetween(r.clockInTime, at))
  }

  /** clockIn on the employee's ledger, `None` when no ledger exists. The controller
      reads the last record of an existing ledger without checking that there
      is one, so an existing ledger must be non-empty. */
  function ClockInLedger(existing: Option<seq<Record>>, now: Instant): (r: Result<seq<Record>, ClockError>)
    requires existing.Some? ==> existing.value != []
    ensures r.Failure? <==> existing.Some? && LastIsOpen(existing.value)
    ensures r.Failure? ==> r.error == AlreadyClockedIn
    ensures r.Success? ==>
      var before := existing.GetOr([]);
      && |r.value| == |before| + 1
      && r.value[..|before|] == before
      && Last(r.value) == NewPunch(now)
  {
    match existing
    case None => Success([NewPunch(now)])
    case Some(records) =>
      if IsOpen(Last(records)) then Failure(AlreadyClockedIn)
      else Success(records + [NewPunch(now)])
  }

  /** clockOut on the employee's ledger, `None` when no ledger exists. */
  function ClockOutLedger(existing: Option<seq<Record>>, now: Instant): (r: Result<seq<Record>, ClockError>)
    ensures existing.None? ==> r == Failure(NoClockInRecord)
    ensures existing.Some? && !LastIsOpen(existing.value) ==> r == Failure(AlreadyClockedOut)
    ensures r.Success? <==> existing.Some? && LastIsOpen(existing.value)
    ensures r.Success? ==>
      var before := existing.value;
      && |r.value| == |before|
      && r.value[..|before| - 1] == before[..|before| - 1]
      && Last(r.value) == Closed(Last(before), now)
  {
    match existing
    case None => Failure(NoClockInRecord)
    case Some(records) =>
      if records == [] || !IsOpen(Last(records)) then Failure(AlreadyClockedOut)
      else Success(records[|records| - 1 := Closed(Last(records), now)])
  }

  /** The 19:00 sweep on one ledger: an open last record is closed at the cutoff,
      any other ledger is left as it is. */
  function AutoCloseLedger(records: seq<Record>, cutoff: Instant): (r: seq<Record>)
    ensures !LastIsOpen(records) ==> r == records
    ensures LastIsOpen(records) ==>
      && |r| == |records|
      && r[..|r| - 1] == records[..|records| - 1]
      && Last(r) == Closed(Last(records), cutoff)
    ensures !LastIsOpen(r)
  {
    if LastIsOpen(records) then records[|records| - 1 := Closed(Last(records), cutoff)] else records
  }

  /** The sweep closes a punch exactly as a manual clock-out at the cutoff would. */
  lemma AutoCloseIsClockOutAtCutoff(records: seq<Record>, cutoff: Instant)
    requires LastIsOpen(records)
    ensures ClockOutLedger(Some(records), cutoff) == Success(AutoCloseLedger(records, cutoff))
  {
  }

  /** Running the sweep a second time, at any cutoff, changes nothing. */
  lemma AutoCloseIdempotent(records: seq<Record>, cutoff: Instant, later: Instant)
    ensures AutoCloseLedger(AutoCloseLedger(records, cutoff), later) == AutoCloseLedger(records, cutoff)
  {
  }

  lemma ClockInKeepsValid(existing: Option<seq<Record>>, now: Instant)
    requires existing.Some? ==> Valid(existing.value)
    ensures ClockInLedger(existing, now).Success? ==> Valid(ClockInLedger(existing, now).value)
  {
    var r := ClockInLedger(existing, now);
    if r.Success? {
      var before := existing.GetOr([]);
      forall i | 0 <= i < |r.value|
        ensures HoursAgree(r.value[i]) && (i < |r.value| - 1 ==> !IsOpen(r.value[i]))
      {
        if i < |before| {
          assert r.value[i] == r.value[..|before|][i];
        }
      }
    }
  }

  lemma ClockOutKeepsValid(existing: Option<seq<Record>>, now: Instant)
    requires existing.Some? ==> Valid(existing.value)
    ensures ClockOutLedger(existing, now).Success? ==> Valid(ClockOutLedger(existing, now).value)
  {
  }

  lemma AutoCloseKeepsValid(records: seq<Record>, cutoff: Instant)
    requires Valid(records)
    ensures Valid(AutoCloseLedger(records, cutoff))
  {
  }

  /** Clock-out always succeeds right after a successful clock-in. */
  lemma ClockOutFollowsClockIn(existing: Option<seq<Record>>, inAt: Instant, outAt: Instant)
    requires existing.Some? ==> existing.value != []
    requires ClockInLedger(existing, inAt).Success?
    ensures ClockOutLedger(Some(ClockInLedger(existing, inAt).value), outAt).Success?
  {
  }

  /** Clock-in always succeeds right after a successful clock-out. */
  lemma ClockInFollowsClockOut(existing: Option<seq<Record>>, outAt: Instant, inAt: Instant)
    requires ClockOutLedger(existing, outAt).Success?
    ensures ClockInLedger(Some(ClockOutLedger(existing, outAt).value), inAt).Success?
  {
  }

  /** A second clock-in with no clock-out in between fails with
      "You are already clocked in." and the ledger keeps exactly one open punch. */
  lemma {:induction false} SecondClockInFails(existing: Option<seq<Record>>, first: Instant, second: Instant)
    requires existing.Some? ==> Valid(existing.value)
    requires ClockInLedger(existing, first).Success?
    ensures var records := ClockInLedger(existing, first).value;
      && ClockInLedger(Some(records), second) == Failure(AlreadyClockedIn)
      && OpenCount(records) == 1
  {
    ClockInKeepsValid(existing, first);
    AtMostOneOpen(ClockInLedger(existing, first).value);
  }

  /** A clock-out with no ledger fails with "No clock-in record found.". */
  lemma ClockOutWithoutLedgerFails(now: Instant)
    ensures ClockOutLedger(None, now) == Failure(NoClockInRecord)
    ensures Message(NoClockInRecord) == "No clock-in record found."
  {
  }

  /** In at 09:00 and out at 17:30 on any day: one closed punch of 8.5 hours. */
  lemma FullShiftScenario(midnight: Instant)
    ensures var started := ClockInLedger(None, midnight + 9 * MsPerHour);
      && started.Success?
      && (var closed := ClockOutLedger(Some(started.value), midnight + 17 * MsPerHour + 30 * 60 * 1000);
          && closed.Success?
          && |closed.value| == 1
          && closed.value[0].totalHours == 8.5)
  {
    var started := ClockInLedger(None, midnight + 9 * MsPerHour).value;
    var closed := ClockOutLedger(Some(started), midnight + 17 * MsPerHour + 30 * 60 * 1000).value;
    assert closed[0] == Closed(started[0], midnight + 17 * MsPerHour + 30 * 60 * 1000);
  }

  /** In at 08:00 and never out: the 19:00 sweep closes the punch at 19:00 with
      11 hours. */
  lemma ForgottenClockOutScenario(midnight: Instant)
    ensures var started := ClockInLedger(None, midnight + 8 * MsPerHour);
      && started.Success?
      && (var swept := AutoCloseLedger(started.value, midnight + 19 * MsPerHour);
          && |swept| == 1
          && swept[0].clockOutTime == Some(midnight + 19 * MsPerHour)
          && swept[0].totalHours == 11.0)
  {
    var started := ClockInLedger(None, midnight + 8 * MsPerHour).value;
    assert LastIsOpen(started);
    var swept := AutoCloseLedger(started, midnight + 19 * MsPerHour);
    assert swept[0] == Closed(started[0], midnight + 19 * MsPerHour);
  }
}
