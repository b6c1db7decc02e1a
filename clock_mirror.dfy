/** The client's mirror of punch state, frontend/src/features/clockIn/clockIn.ts:
    the `clockIn` slice's per-user map, updateUserClockData and the case reducers
    of the clockIn and clockOut thunks. The thunks' HTTP calls are not modelled;
    their payloads arrive as inputs. */
module ClockMirror {
  import opened Wrappers
  import opened JsValues

  type UserId = string

  /** A record as the client keeps it: times are the strings the server sent. */
  datatype ClientRecord = ClientRecord(clockInTime: string, clockOutTime: Option<string>, totalHours: Option<real>)

  /** One user's entry of `usersClockData`. */
  datatype UserClock = UserClock(isClockedIn: bool, clockInRecord: seq<ClientRecord>)

  predicate LastIsOpen(records: seq<ClientRecord>) {
    records != [] && records[|records| - 1].clockOutTime.None?
  }

  /** The entry updateUserClockData leaves for a user, given the entry it found. */
  function UpdatedUser(existing: Option<UserClock>, newRecord: ClientRecord, isClockedIn: bool): (u: UserClock)
    ensures u.isClockedIn == isClockedIn
    ensures existing.None? ==> u.clockInRecord == [newRecord]
    ensures existing.Some? ==>
      var before := existing.value.clockInRecord;
      && |u.clockInRecord| == |before|
      && (forall i :: 0 <= i < |before| - 1 ==> u.clockInRecord[i] == before[i])
      && (isClockedIn || !LastIsOpen(before) ==> u.clockInRecord == before)
      && (!isClockedIn && LastIsOpen(before) ==>
            var last, now := before[|before| - 1], u.clockInRecord[|before| - 1];
            && now.clockInTime == last.clockInTime
            && now.clockOutTime == newRecord.clockOutTime
            && now.totalHours == newRecord.totalHours)
  {
    match existing
    case None => UserClock(isClockedIn, [newRecord])
    case Some(user) =>
      var records := user.clockInRecord;
      if LastIsOpen(records) && !isClockedIn then
        var last := records[|records| - 1];
        UserClock(isClockedIn, records[|records| - 1 := last.(clockOutTime := newRecord.clockOutTime, totalHours := newRecord.totalHours)])
      else UserClock(isClockedIn, records)
  }

  /** The map after updateUserClockData has run once for every entry of a
      fulfilled payload: payload users are updated, every other user is left as
      it was. */
  function AppliedPayload(data: map<UserId, UserClock>, payload: map<UserId, ClientRecord>, isClockedIn: bool): (r: map<UserId, UserClock>)
    ensures r.Keys == data.Keys + payload.Keys
    ensures forall id :: id in payload ==> r[id] == UpdatedUser(Lookup(data, id), payload[id], isClockedIn)
    ensures forall id :: id in data && id !in payload ==> r[id] == data[id]
  {
    map id | id in data.Keys + payload.Keys ::
      if id in payload then UpdatedUser(Lookup(data, id), payload[id], isClockedIn) else data[id]
  }

  lemma AppliedPayloadOneMore(data: map<UserId, UserClock>, payload: map<UserId, ClientRecord>, id: UserId, rec: ClientRecord, isClockedIn: bool)
    requires id !in payload
    ensures var applied := AppliedPayload(data, payload, isClockedIn);
      applied[id := UpdatedUser(Lookup(applied, id), rec, isClockedIn)] == AppliedPayload(data, payload[id := rec], isClockedIn)
  {
  }

  /** The mirror agrees with itself: the user is shown clocked in exactly when
      their last record is open. */
  predicate Consistent(u: UserClock) {
    u.isClockedIn == LastIsOpen(u.clockInRecord)
  }

  /** A clock-out update with a closed record keeps a consistent entry consistent. */
  lemma ClockOutUpdateKeepsConsistent(existing: Option<UserClock>, newRecord: ClientRecord)
    requires existing.Some? ==> Consistent(existing.value)
    requires newRecord.clockOutTime.Some?
    ensures Consistent(UpdatedUser(existing, newRecord, false))
  {
  }

  /** A clock-in update for a user already in the map appends nothing: after a
      clock-out, the next clock-in marks the user clocked in while the last
      record stays closed, and the clock-out after it finds no open record to
      update, so the second punch never reaches the mirror. */
  lemma SecondPunchNeverReachesMirror()
    ensures var out := ClientRecord("9:00 AM", Some("5:00 PM"), Some(8.0));
      var before := UserClock(false, [out]);
      var afterIn := UpdatedUser(Some(before), ClientRecord("6:00 PM", None, Some(0.0)), true);
      var afterOut := UpdatedUser(Some(afterIn), ClientRecord("6:00 PM", Some("7:00 PM"), Some(1.0)), false);
      && Consistent(before)
      && !Consistent(afterIn)
      && afterOut == before
  {
  }

  class ClockInSlice {
    var usersClockData: map<UserId, UserClock>
    var loading: bool
    var error: Option<string>

    /** initialState */
    constructor ()
      ensures usersClockData == map[] && !loading && error == None
    {
      usersClockData := map[];
      loading := false;
      error := None;
    }

    /** updateUserClockData: a new user gets an entry holding just `newRecord`;
        for a known user an open last record is closed with the new record's
        values on clock-out, and the clocked-in flag is set either way. */
    method UpdateUserClockData(userID: UserId, newRecord: ClientRecord, isClockedIn: bool)
      modifies this
      ensures usersClockData == old(usersClockData)[userID := UpdatedUser(Lookup(old(usersClockData), userID), newRecord, isClockedIn)]
      ensures loading == old(loading) && error == old(error)
    {
      if userID in usersClockData {
        var user := usersClockData[userID];
        var records := user.clockInRecord;
        if |records| > 0 && records[|records| - 1].clockOutTime.None? && !isClockedIn {
          var last := records[|records| - 1];
          last := last.(clockOutTime := newRecord.clockOutTime);
          last := last.(totalHours := newRecord.totalHours);
          records := records[|records| - 1 := last];
        }
        usersClockData := usersClockData[userID := user.(clockInRecord := records, isClockedIn := isClockedIn)];
      } else {
        usersClockData := usersClockData[userID := UserClock(isClockedIn, [newRecord])];
      }
    }

    /** The loop of a fulfilled case: one update per payload entry. */
    method ApplyPayload(payload: map<UserId, ClientRecord>, isClockedIn: bool)
      modifies this
      ensures usersClockData == AppliedPayload(old(usersClockData), payload, isClockedIn)
      ensures loading == old(loading) && error == old(error)
    {
      var pending := payload.Keys;
      ghost var before := usersClockData;
      assert payload - pending == map[];
      while pending != {}
        invariant pending <= payload.Keys
        invariant usersClockData == AppliedPayload(before, payload - pending, isClockedIn)
        invariant loading == old(loading) && error == old(error)
        decreases pending
      {
        var userID :| userID in pending;
        AppliedPayloadOneMore(before, payload - pending, userID, payload[userID], isClockedIn);
        UpdateUserClockData(userID, payload[userID], isClockedIn);
        assert (payload - pending)[userID := payload[userID]] == payload - (pending - {userID});
        pending := pending - {userID};
      }
      assert payload - pending == payload;
    }

    /** clockIn.pending and clockOut.pending. */
    method Pending()
      modifies this
      ensures loading && error == None && usersClockData == old(usersClockData)
    {
      loading := true;
      error := None;
    }

    /** clockIn.fulfilled: every payload user is marked clocked in. */
    method ClockInFulfilled(payload: map<UserId, ClientRecord>)
      modifies this
      ensures !loading && error == old(error)
      ensures usersClockData == AppliedPayload(old(usersClockData), payload, true)
    {
      loading := false;
      ApplyPayload(payload, true);
    }

    /** clockOut.fulfilled: every payload user is marked clocked out. */
    method ClockOutFulfilled(payload: map<UserId, ClientRecord>)
      modifies this
      ensures !loading && error == old(error)
      ensures usersClockData == AppliedPayload(old(usersClockData), payload, false)
    {
      loading := false;
      ApplyPayload(payload, false);
    }

    /** clockIn.rejected: the rejection's message, or "Clock-in error". */
    method ClockInRejected(payload: Option<string>)
      modifies this
      ensures !loading && error == Some(OrElse(payload, "Clock-in error"))
      ensures usersClockData == old(usersClockData)
    {
      loading := false;
      error := Some(OrElse(payload, "Clock-in error"));
    }

    /** clockOut.rejected: the rejection's message, or "Clock-out error". */
    method ClockOutRejected(payload: Option<string>)
      modifies this
      ensures !loading && error == Some(OrElse(payload, "Clock-out error"))
      ensures usersClockData == old(usersClockData)
    {
      loading := false;
      error := Some(OrElse(payload, "Clock-out error"));
    }
  }
}
