/** The two summary reads of backend/src/controllers/clockSummaryController.ts,
    getUserClockSummary and getClockSummary: select the ledgers with a clock-in
    during the day and flatten all of their records, in store order. The day's
    bounds are supplied by the caller; time formatting is not modelled, so each
    entry carries the instants themselves. */
module ClockSummary {
  import opened Wrappers
  import opened Ledger
  import opened ClockEngine

  /** `dayjs().startOf("day")` and `dayjs().endOf("day")`, supplied by the caller. */
  datatype DayWindow = DayWindow(startOfDay: Instant, endOfDay: Instant)

  /** The query's bounds: `$gte: startOfDay, $lt: endOfDay`. */
  predicate InWindow(t: Instant, w: DayWindow) {
    w.startOfDay <= t < w.endOfDay
  }

  /** One line of a summary. `employee` stands for the populated employee document. */
  datatype Entry = Entry(employee: EmployeeId, clockInTime: Instant, clockOutTime: Option<Instant>, totalHours: real)

  function ToEntry(id: EmployeeId, r: Record): Entry {
    Entry(id, r.clockInTime, r.clockOutTime, r.totalHours)
  }

  /** The selection the query is meant to make: one record of the ledger was
      clocked in inside the window. */
  predicate PunchedInWindow(records: seq<Record>, w: DayWindow) {
    exists i :: 0 <= i < |records| && InWindow(records[i].clockInTime, w)
  }

  /** The selection `{ "clockRecords.clockInTime": { $gte, $lt } }` makes as
      written: without `$elemMatch`, MongoDB lets one record meet `$gte` and
      another record meet `$lt`. */
  predicate MatchesQueryAsWritten(records: seq<Record>, w: DayWindow) {
    && (exists i :: 0 <= i < |records| && records[i].clockInTime >= w.startOfDay)
    && (exists j :: 0 <= j < |records| && records[j].clockInTime < w.endOfDay)
  }

  /** One ledger flattened, one entry per record in ledger order. */
  function EntriesOf(id: EmployeeId, records: seq<Record>): (r: seq<Entry>)
    ensures |r| == |records|
    ensures forall i :: 0 <= i < |records| ==> r[i] == ToEntry(id, records[i])
    ensures forall i :: 0 <= i < |r| ==> r[i].employee == id && r[i].totalHours == records[i].totalHours
    decreases |records|
  {
    if records == [] then []
    else EntriesOf(id, records[..|records| - 1]) + [ToEntry(id, Last(records))]
  }

  /** getUserClockSummary, corrected to select the ledger only when one of its
      punches started inside the window. All of the ledger's records are
      returned, including those of other days, as getUserClockSummary does. */
  function UserClockSummary(ledgers: map<EmployeeId, seq<Record>>, id: EmployeeId, w: DayWindow): (r: seq<Entry>)
    ensures r != [] <==> id in ledgers && PunchedInWindow(ledgers[id], w)
    ensures r != [] ==> r == EntriesOf(id, ledgers[id])
  {
    if id in ledgers && PunchedInWindow(ledgers[id], w) then EntriesOf(id, ledgers[id]) else []
  }

  /** getUserClockSummary as written, with the query's selection. */
  function UserClockSummaryAsWritten(ledgers: map<EmployeeId, seq<Record>>, id: EmployeeId, w: DayWindow): (r: seq<Entry>)
    ensures r != [] <==> id in ledgers && MatchesQueryAsWritten(ledgers[id], w)
    ensures r != [] ==> r == EntriesOf(id, ledgers[id])
  {
    if id in ledgers && MatchesQueryAsWritten(ledgers[id], w) then EntriesOf(id, ledgers[id]) else []
  }

  /** A ledger with a punch inside the window is selected as written too: the
      query only ever selects too much. */
  lemma AsWrittenSelectsEveryPunchedLedger(records: seq<Record>, w: DayWindow)
    ensures PunchedInWindow(records, w) ==> MatchesQueryAsWritten(records, w)
  {
  }

  /** When no punch is later than the window (the window is today and no clock-in
      lies in the future), the query as written selects exactly the intended
      ledgers. */
  lemma AsWrittenAgreesWithoutLaterPunches(records: seq<Record>, w: DayWindow)
    requires forall i :: 0 <= i < |records| ==> records[i].clockInTime < w.endOfDay
    ensures MatchesQueryAsWritten(records, w) <==> PunchedInWindow(records, w)
  {
    if MatchesQueryAsWritten(records, w) {
      var i :| 0 <= i < |records| && records[i].clockInTime >= w.startOfDay;
      assert InWindow(records[i].clockInTime, w);
    }
  }

  /** The query as written selects a ledger with no clock-in during the day:
      one punch the day before and one the day after. */
  lemma AsWrittenSelectsLedgerWithoutPunchInWindow()
    ensures var day := DayWindow(0, MsPerHour * 24);
      var records := [Record(-MsPerHour, Some(0), 1.0), Record(MsPerHour * 24, None, 0.0)];
      && MatchesQueryAsWritten(records, day)
      && !PunchedInWindow(records, day)
      && UserClockSummaryAsWritten(map["e" := records], "e", day) != []
      && UserClockSummary(map["e" := records], "e", day) == []
  {
    var day := DayWindow(0, MsPerHour * 24);
    var records := [Record(-MsPerHour, Some(0), 1.0), Record(MsPerHour * 24, None, 0.0)];
    assert records[1].clockInTime >= day.startOfDay;
    assert records[0].clockInTime < day.endOfDay;
  }

  /** Both summaries return every record of a selected ledger: a punch of the
      previous day shows up in today's summary. */
  lemma SummaryIncludesEarlierDays()
    ensures var day := DayWindow(MsPerHour * 24, MsPerHour * 48);
      var records := [Record(MsPerHour * 9, Some(MsPerHour * 17), 8.0), Record(MsPerHour * 33, None, 0.0)];
      var summary := UserClockSummary(map["e" := records], "e", day);
      && |summary| == 2
      && !InWindow(summary[0].clockInTime, day)
  {
    var day := DayWindow(MsPerHour * 24, MsPerHour * 48);
    var records := [Record(MsPerHour * 9, Some(MsPerHour * 17), 8.0), Record(MsPerHour * 33, None, 0.0)];
    assert InWindow(records[1].clockInTime, day);
  }

  /** getClockSummary: the per-employee summaries of every ledger, in store
      order, concatenated. */
  function ClockSummary(ledgers: map<EmployeeId, seq<Record>>, order: seq<EmployeeId>, w: DayWindow): (r: seq<Entry>)
    ensures forall i :: 0 <= i < |r| ==>
      r[i].employee in order && r[i].employee in ledgers && PunchedInWindow(ledgers[r[i].employee], w)
    decreases |order|
  {
    if order == [] then []
    else
      assert order == order[..|order| - 1] + [order[|order| - 1]];
      ClockSummary(ledgers, order[..|order| - 1], w) + UserClockSummary(ledgers, order[|order| - 1], w)
  }

  /** getClockSummary as written: the same concatenation over the query's
      selection, which has the same filter as getUserClockSummary. */
  function ClockSummaryAsWritten(ledgers: map<EmployeeId, seq<Record>>, order: seq<EmployeeId>, w: DayWindow): (r: seq<Entry>)
    ensures forall i :: 0 <= i < |r| ==>
      r[i].employee in order && r[i].employee in ledgers && MatchesQueryAsWritten(ledgers[r[i].employee], w)
    decreases |order|
  {
    if order == [] then []
    else
      assert order == order[..|order| - 1] + [order[|order| - 1]];
      ClockSummaryAsWritten(ledgers, order[..|order| - 1], w) + UserClockSummaryAsWritten(ledgers, order[|order| - 1], w)
  }

  /** An entry is in the organisation summary exactly when it is a record of a
      ledger in the store that has a clock-in inside the window. Ledgers without
      one contribute nothing. */
  lemma {:induction false} ClockSummaryMembership(ledgers: map<EmployeeId, seq<Record>>, order: seq<EmployeeId>, w: DayWindow, e: Entry)
    ensures e in ClockSummary(ledgers, order, w) <==>
      && e.employee in order
      && e.employee in ledgers
      && PunchedInWindow(ledgers[e.employee], w)
      && exists j :: 0 <= j < |ledgers[e.employee]| && e == ToEntry(e.employee, ledgers[e.employee][j])
    decreases |order|
  {
    if order != [] {
      var init, id := order[..|order| - 1], order[|order| - 1];
      ClockSummaryMembership(ledgers, init, w, e);
      assert order == init + [id];
      var own := UserClockSummary(ledgers, id, w);
      if e in own {
        var j :| 0 <= j < |own| && own[j] == e;
        assert e == ToEntry(id, ledgers[id][j]);
      }
      if e.employee == id && id in ledgers && PunchedInWindow(ledgers[id], w) {
        if j :| 0 <= j < |ledgers[id]| && e == ToEntry(id, ledgers[id][j]) {
          assert own[j] == e;
        }
      }
    }
  }

  /** The organisation summary as written holds exactly the records of the
      stored ledgers the query selects. */
  lemma {:induction false} ClockSummaryAsWrittenMembership(ledgers: map<EmployeeId, seq<Record>>, order: seq<EmployeeId>, w: DayWindow, e: Entry)
    ensures e in ClockSummaryAsWritten(ledgers, order, w) <==>
      && e.employee in order
      && e.employee in ledgers
      && MatchesQueryAsWritten(ledgers[e.employee], w)
      && exists j :: 0 <= j < |ledgers[e.employee]| && e == ToEntry(e.employee, ledgers[e.employee][j])
    decreases |order|
  {
    if order != [] {
      var init, id := order[..|order| - 1], order[|order| - 1];
      ClockSummaryAsWrittenMembership(ledgers, init, w, e);
      assert order == init + [id];
      var own := UserClockSummaryAsWritten(ledgers, id, w);
      if e in own {
        var j :| 0 <= j < |own| && own[j] == e;
        assert e == ToEntry(id, ledgers[id][j]);
      }
      if e.employee == id && id in ledgers && MatchesQueryAsWritten(ledgers[id], w) {
        if j :| 0 <= j < |ledgers[id]| && e == ToEntry(id, ledgers[id][j]) {
          assert own[j] == e;
        }
      }
    }
  }

  /** The query as written only ever adds entries to the organisation summary. */
  lemma ClockSummaryIsWithinAsWritten(ledgers: map<EmployeeId, seq<Record>>, order: seq<EmployeeId>, w: DayWindow, e: Entry)
    ensures e in ClockSummary(ledgers, order, w) ==> e in ClockSummaryAsWritten(ledgers, order, w)
  {
    ClockSummaryMembership(ledgers, order, w, e);
    ClockSummaryAsWrittenMembership(ledgers, order, w, e);
    if e.employee in ledgers {
      AsWrittenSelectsEveryPunchedLedger(ledgers[e.employee], w);
    }
  }

  /** The organisation summary as written lists a ledger with no clock-in during
      the day, which the intended selection leaves out. */
  lemma AsWrittenClockSummaryListsLedgerWithoutPunchInWindow()
    ensures var day := DayWindow(0, MsPerHour * 24);
      var records := [Record(-MsPerHour, Some(0), 1.0), Record(MsPerHour * 24, None, 0.0)];
      && ClockSummaryAsWritten(map["e" := records], ["e"], day) != []
      && ClockSummary(map["e" := records], ["e"], day) == []
  {
    AsWrittenSelectsLedgerWithoutPunchInWindow();
    var day := DayWindow(0, MsPerHour * 24);
    var records := [Record(-MsPerHour, Some(0), 1.0), Record(MsPerHour * 24, None, 0.0)];
    assert ["e"][..0] == [];
  }

  /** The entries of one employee, in order. */
  function EntriesFor(entries: seq<Entry>, id: EmployeeId): (r: seq<Entry>)
    ensures forall i :: 0 <= i < |r| ==> r[i].employee == id
    decreases |entries|
  {
    if entries == [] then []
    else EntriesFor(entries[..|entries| - 1], id) + (if entries[|entries| - 1].employee == id then [entries[|entries| - 1]] else [])
  }

  lemma {:induction false} EntriesForAppend(a: seq<Entry>, b: seq<Entry>, id: EmployeeId)
    ensures EntriesFor(a + b, id) == EntriesFor(a, id) + EntriesFor(b, id)
    decreases |b|
  {
    if b == [] {
      assert a + b == a;
    } else {
      var b', x := b[..|b| - 1], b[|b| - 1];
      var tail := if x.employee == id then [x] else [];
      assert (a + b)[..|a + b| - 1] == a + b';
      assert (a + b)[|a + b| - 1] == x;
      assert EntriesFor(a + b, id) == EntriesFor(a + b', id) + tail;
      assert EntriesFor(b, id) == EntriesFor(b', id) + tail;
      EntriesForAppend(a, b', id);
    }
  }

  lemma {:induction false} EntriesForOwn(entries: seq<Entry>, id: EmployeeId)
    requires forall i :: 0 <= i < |entries| ==> entries[i].employee == id
    ensures EntriesFor(entries, id) == entries
    decreases |entries|
  {
    if entries != [] {
      EntriesForOwn(entries[..|entries| - 1], id);
    }
  }

  lemma {:induction false} EntriesForOther(entries: seq<Entry>, id: EmployeeId)
    requires forall i :: 0 <= i < |entries| ==> entries[i].employee != id
    ensures EntriesFor(entries, id) == []
    decreases |entries|
  {
    if entries != [] {
      EntriesForOther(entries[..|entries| - 1], id);
    }
  }

  lemma DistinctSplit(order: seq<EmployeeId>)
    requires Distinct(order) && order != []
    ensures Distinct(order[..|order| - 1])
    ensures order[|order| - 1] !in order[..|order| - 1]
  {
  }

  lemma InInitOrLast(order: seq<EmployeeId>, id: EmployeeId)
    requires order != []
    ensures id in order <==> id in order[..|order| - 1] || id == order[|order| - 1]
  {
    assert order == order[..|order| - 1] + [order[|order| - 1]];
  }

  /** One employee's own summary, filtered by an employee id. */
  lemma EntriesForUserSummary(ledgers: map<EmployeeId, seq<Record>>, owner: EmployeeId, w: DayWindow, id: EmployeeId)
    ensures EntriesFor(UserClockSummary(ledgers, owner, w), id) == if owner == id then UserClockSummary(ledgers, id, w) else []
  {
    if owner == id {
      EntriesForOwn(UserClockSummary(ledgers, owner, w), id);
    } else {
      EntriesForOther(UserClockSummary(ledgers, owner, w), id);
    }
  }

  /** With each employee listed once in the store, the employee's entries in the
      organisation summary are exactly that employee's own summary. */
  lemma {:induction false} UserSummaryIsPartOfClockSummary(ledgers: map<EmployeeId, seq<Record>>, order: seq<EmployeeId>, w: DayWindow, id: EmployeeId)
    requires Distinct(order)
    ensures EntriesFor(ClockSummary(ledgers, order, w), id) ==
      if id in order then UserClockSummary(ledgers, id, w) else []
    decreases |order|
  {
    if order != [] {
      var init, last := order[..|order| - 1], order[|order| - 1];
      var before, own := ClockSummary(ledgers, init, w), UserClockSummary(ledgers, last, w);
      assert ClockSummary(ledgers, order, w) == before + own;
      InInitOrLast(order, id);
      DistinctSplit(order);
      UserSummaryIsPartOfClockSummary(ledgers, init, w, id);
      EntriesForAppend(before, own, id);
      EntriesForUserSummary(ledgers, last, w, id);
      var mine := UserClockSummary(ledgers, id, w);
      if id == last {
        assert EntriesFor(before, id) == [];
        assert EntriesFor(before + own, id) == [] + mine;
      } else if id in init {
        assert EntriesFor(before + own, id) == mine + [];
      } else {
        assert EntriesFor(before + own, id) == [] + [];
      }
    }
  }
}
