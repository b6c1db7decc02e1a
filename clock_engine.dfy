/** The server's clocking store and the three operations of
    backend/src/controllers/clockSummaryController.ts that change it. The
    MongoDB collection becomes an in-memory map from employee id to ledger,
    together with the order in which ledgers were created (the order `find`
    returns them in). */
module ClockEngine {
  import opened Wrappers
  import opened Ledger

  type EmployeeId = string

  /** No employee is listed twice in the creation order. */
  predicate Distinct(order: seq<EmployeeId>) {
    forall i, j :: 0 <= i < j < |order| ==> order[i] != order[j]
  }

  /** Every ledger of the store keeps the ledger invariant. */
  predicate ValidLedgers(ledgers: map<EmployeeId, seq<Record>>) {
    forall id :: id in ledgers ==> Ledger.Valid(ledgers[id])
  }

  /** The whole store after the 19:00 sweep. */
  function SweepAll(ledgers: map<EmployeeId, seq<Record>>, cutoff: Instant): (r: map<EmployeeId, seq<Record>>)
    ensures r.Keys == ledgers.Keys
    ensures forall id :: id in ledgers && !LastIsOpen(ledgers[id]) ==> r[id] == ledgers[id]
    ensures forall id :: id in r ==> !LastIsOpen(r[id])
  {
    map id | id in ledgers :: AutoCloseLedger(ledgers[id], cutoff)
  }

  /** The store part-way through the sweep: the ledgers of `done` swept, the others as they were. */
  function SweptSoFar(ledgers: map<EmployeeId, seq<Record>>, done: set<EmployeeId>, cutoff: Instant): map<EmployeeId, seq<Record>> {
    map id | id in ledgers :: if id in done then AutoCloseLedger(ledgers[id], cutoff) else ledgers[id]
  }

  lemma SweptOneMore(ledgers: map<EmployeeId, seq<Record>>, done: set<EmployeeId>, id: EmployeeId, cutoff: Instant)
    requires id in ledgers && id !in done
    ensures SweptSoFar(ledgers, done, cutoff)[id := AutoCloseLedger(ledgers[id], cutoff)] == SweptSoFar(ledgers, done + {id}, cutoff)
  {
  }

  /** Sweeping only the ledgers that hold an open record is sweeping them all,
      and closes the same ledgers. */
  lemma SweepingCandidatesIsSweepingAll(ledgers: map<EmployeeId, seq<Record>>, candidates: set<EmployeeId>, closed: set<EmployeeId>, cutoff: Instant)
    requires ValidLedgers(ledgers)
    requires candidates == set id | id in ledgers && HasOpenRecord(ledgers[id])
    requires forall id :: id in closed <==> id in candidates && LastIsOpen(ledgers[id])
    ensures SweptSoFar(ledgers, candidates, cutoff) == SweepAll(ledgers, cutoff)
    ensures closed == set id | id in ledgers && LastIsOpen(ledgers[id])
    ensures ValidLedgers(SweepAll(ledgers, cutoff))
  {
    StepKeepsValid(ledgers, Sweep(cutoff));
    forall id | id in ledgers && id !in candidates ensures !LastIsOpen(ledgers[id]) {
      LastOpenIsAnOpenRecord(ledgers[id]);
    }
  }

  /** A request or a sweep, as the store sees it. A punch reads the employee's
      ledger as `Clocking.findOne({ employeeId: id })` finds it. */
  datatype Op = PunchIn(id: EmployeeId, now: Instant) | PunchOut(id: EmployeeId, now: Instant) | Sweep(cutoff: Instant)

  /** The store after one operation; a failed punch leaves it unchanged. */
  function Step(ledgers: map<EmployeeId, seq<Record>>, op: Op): map<EmployeeId, seq<Record>>
    requires ValidLedgers(ledgers)
  {
    match op
    case PunchIn(id, now) =>
      var r := ClockInLedger(Lookup(ledgers, id), now);
      if r.Success? then ledgers[id := r.value] else ledgers
    case PunchOut(id, now) =>
      var r := ClockOutLedger(Lookup(ledgers, id), now);
      if r.Success? then ledgers[id := r.value] else ledgers
    case Sweep(cutoff) => SweepAll(ledgers, cutoff)
  }

  lemma StepKeepsValid(ledgers: map<EmployeeId, seq<Record>>, op: Op)
    requires ValidLedgers(ledgers)
    ensures ValidLedgers(Step(ledgers, op))
  {
    match op
    case PunchIn(id, now) => ClockInKeepsValid(Lookup(ledgers, id), now);
    case PunchOut(id, now) => ClockOutKeepsValid(Lookup(ledgers, id), now);
    case Sweep(cutoff) =>
      forall id | id in ledgers ensures Ledger.Valid(SweepAll(ledgers, cutoff)[id]) {
        AutoCloseKeepsValid(ledgers[id], cutoff);
      }
  }

  /** The store after a sequence of operations, first to last. */
  function Run(ledgers: map<EmployeeId, seq<Record>>, ops: seq<Op>): (r: map<EmployeeId, seq<Record>>)
    requires ValidLedgers(ledgers)
    ensures ValidLedgers(r)
    decreases |ops|
  {
    if ops == [] then ledgers
    else
      StepKeepsValid(ledgers, ops[0]);
      Run(Step(ledgers, ops[0]), ops[1..])
  }

  /** After any sequence of clock-ins, clock-outs and sweeps, every ledger holds
      at most one open punch, and it is the last one. */
  lemma AtMostOneOpenAfterAnyRun(ledgers: map<EmployeeId, seq<Record>>, ops: seq<Op>, id: EmployeeId)
    requires ValidLedgers(ledgers)
    requires id in Run(ledgers, ops)
    ensures OpenCount(Run(ledgers, ops)[id]) <= 1
    ensures ClosedBeforeLast(Run(ledgers, ops)[id])
  {
    AtMostOneOpen(Run(ledgers, ops)[id]);
  }

  /** A second sweep with no punch in between changes nothing, whatever its cutoff. */
  lemma SweepIdempotent(ledgers: map<EmployeeId, seq<Record>>, cutoff: Instant, later: Instant)
    ensures SweepAll(SweepAll(ledgers, cutoff), later) == SweepAll(ledgers, cutoff)
  {
  }

  class ClockStore {
    var ledgers: map<EmployeeId, seq<Record>>
    /** Employee ids in the order their ledgers were created. */
    var order: seq<EmployeeId>

    ghost predicate Valid()
      reads this
    {
      && ValidLedgers(ledgers)
      && (forall id :: id in ledgers <==> id in order)
      && Distinct(order)
    }

    constructor ()
      ensures Valid() && ledgers == map[] && order == []
    {
      ledgers := map[];
      order := [];
    }

    /** clockIn: fails when the last record is still open, otherwise pushes a
        new open record, creating the ledger on the first punch. */
    method ClockIn(id: EmployeeId, now: Instant) returns (res: Result<Record, ClockError>)
      requires Valid()
      modifies this
      ensures Valid()
      ensures ledgers == Step(old(ledgers), PunchIn(id, now))
      ensures var outcome := ClockInLedger(Lookup(old(ledgers), id), now);
        res == if outcome.Success? then Success(NewPunch(now)) else Failure(outcome.error)
      ensures order == if id in old(ledgers) then old(order) else old(order) + [id]
    {
      if id in ledgers {
        var records := ledgers[id];
        var last := records[|records| - 1];
        if last.clockOutTime.None? {
          return Failure(AlreadyClockedIn);
        }
      }
      var punch := Record(now, None, 0.0);
      if id in ledgers {
        ledgers := ledgers[id := ledgers[id] + [punch]];
      } else {
        ledgers := ledgers[id := [punch]];
        order := order + [id];
      }
      ClockInKeepsValid(Lookup(old(ledgers), id), now);
      res := Success(punch);
    }

    /** clockOut: fails when there is no ledger or its last record is closed,
        otherwise closes the last record at `now` and returns it. */
    method ClockOut(id: EmployeeId, now: Instant) returns (res: Result<Record, ClockError>)
      requires Valid()
      modifies this
      ensures Valid()
      ensures ledgers == Step(old(ledgers), PunchOut(id, now))
      ensures var outcome := ClockOutLedger(Lookup(old(ledgers), id), now);
        res == if outcome.Success? then Success(Last(outcome.value)) else Failure(outcome.error)
      ensures order == old(order)
    {
      if id !in ledgers {
        return Failure(NoClockInRecord);
      }
      var records := ledgers[id];
      var last := if |records| > 0 then Some(records[|records| - 1]) else None;
      if last.None? || last.value.clockOutTime.Some? {
        return Failure(AlreadyClockedOut);
      }
      var closed := last.value.(clockOutTime := Some(now));
      closed := closed.(totalHours := (now - closed.clockInTime) as real / MsPerHour as real);
      ledgers := ledgers[id := records[|records| - 1 := closed]];
      ClockOutKeepsValid(Lookup(old(ledgers), id), now);
      res := Success(closed);
    }

    /** One iteration of the sweep: close the ledger's last record at `cutoff`
        when there is one and it is open. */
    method CloseOpenLast(id: EmployeeId, cutoff: Instant) returns (closed: bool)
      requires id in ledgers
      modifies this
      ensures ledgers == old(ledgers)[id := AutoCloseLedger(old(ledgers)[id], cutoff)]
      ensures closed == LastIsOpen(old(ledgers)[id])
      ensures order == old(order)
    {
      var records := ledgers[id];
      closed := |records| > 0 && records[|records| - 1].clockOutTime.None?;
      if closed {
        var last := records[|records| - 1];
        last := last.(clockOutTime := Some(cutoff));
        last := last.(totalHours := (cutoff - last.clockInTime) as real / MsPerHour as real);
        ledgers := ledgers[id := records[|records| - 1 := last]];
      }
    }

    /** The 19:00 sweep: for every ledger holding an open record, an open last
        record is closed at `cutoff`. Returns the employees it clocked out. */
    method AutoCloseSweep(cutoff: Instant) returns (autoClosed: set<EmployeeId>)
      requires Valid()
      modifies this
      ensures Valid()
      ensures ledgers == SweepAll(old(ledgers), cutoff)
      ensures autoClosed == set id | id in old(ledgers) && LastIsOpen(old(ledgers)[id])
      ensures order == old(order)
    {
      var pending := set id | id in ledgers && HasOpenRecord(ledgers[id]);
      ghost var candidates, done, before := pending, {}, ledgers;
      autoClosed := {};
      assert ledgers == SweptSoFar(before, done, cutoff);
      while pending != {}
        invariant pending <= candidates <= before.Keys
        invariant done + pending == candidates && done !! pending
        invariant ledgers == SweptSoFar(before, done, cutoff)
        invariant autoClosed <= done
        invariant forall id :: id in autoClosed <==> id in done && LastIsOpen(before[id])
        invariant order == old(order)
        decreases pending
      {
        var id :| id in pending;
        assert ledgers[id] == before[id];
        var closed := CloseOpenLast(id, cutoff);
        SweptOneMore(before, done, id, cutoff);
        if closed {
          autoClosed := autoClosed + {id};
        }
        done, pending := done + {id}, pending - {id};
      }
      assert done == candidates;
      SweepingCandidatesIsSweepingAll(before, candidates, autoClosed, cutoff);
      assert ledgers.Keys == before.Keys;
    }
  }
}
