# Employee time clock of a1-jeweler, modelled in Dafny

The jeweler's point-of-sale has an employee time clock. Its backend keeps one
clocking document per employee, holding that employee's punch records in order.
Each record has a clock-in time, a clock-out time that stays `null` while the
punch is open, and the hours worked. Staff punch in and out by typing a numeric
user id and PIN on a keypad dialog. A cron job at 19:00 closes every punch that
was left open. Two summary endpoints, one for a single employee and one for
everyone, list every record of each ledger that has a clock-in during the day,
records of earlier days included. The browser keeps a session table of logged-in users.
Its `clockIn` slice is written to mirror each user's punch state, but the store
does not register it, so in the app as shipped that mirror never runs.

This project models that core and proves properties of it:

- `Ledger` (`ledger.dfy`) holds one employee's ledger as a sequence of records. It defines the pure step each server operation takes on it, and the invariant those steps keep: every record but the last is closed, and every record's hours agree with its times.
- `ClockEngine` (`clock_engine.dfy`) holds the clocking collection. It is the class `ClockStore`: a map from employee id to ledger, plus the creation order of the ledgers. Its methods are `ClockIn`, `ClockOut` and the 19:00 sweep `AutoCloseSweep`. `Run` replays any sequence of requests and sweeps, and every ledger's invariant is proved to survive every one of them. The store's own invariant, which adds that the creation order lists each stored employee exactly once, is kept by each `ClockStore` method.
- `ClockSummary` (`clock_summary.dfy`) holds the two summary reads. See "Findings" for the selection the query makes as written.
- `ClockMirror` (`clock_mirror.dfy`) models the reducers of the client `clockIn` slice as written: `updateUserClockData` and the pending, fulfilled and rejected reducers. The store (frontend/src/app/store.ts) does not mount that slice.
- `AuthSlice` (`auth_slice.dfy`) is the client `auth` slice: its reducers and its two selectors.
- `TimeManagement` (`time_management.dfy`) is the time-clock screen's controller hook.
- `LoginDialog` (`login_dialog.dfy`) is the keypad dialog and its handlers, including the numeric gate in front of the login.
- `Wrappers` and `JsValues` (`wrappers.dfy`) hold `Option`/`Result`, and the JavaScript `value || fallback` rule on strings, where the empty string counts as falsy.

Some inputs come from outside the model and are passed in as parameters:

- **Times.** An instant is an integer number of milliseconds. Hours are the exact real `(out - in) / (1000*60*60)`. The current time (`new Date()`), the 19:00 cutoff and the bounds of "today" are supplied by the caller.
- **Network results.** Whatever a network call returns is an input to the handler that receives it: the thunk's fulfilled or rejected payload, the login result, and the ring-sale access check.
- **UI callbacks.** The dialog's callbacks (`onLoginSuccess`, `onClose`) become values its handlers return. The controller's `navigate` and `alert` become an `Effect`.

Points of the code worth knowing:

- **Summaries return every record of a selected ledger.** A selected ledger's records from earlier days are included (`ClockSummary.SummaryIncludesEarlierDays`).
- **The day window is half-open.** The query uses `$gte: startOfDay, $lt: endOfDay`, so `InWindow` includes the start and excludes the end.
- **The summary reports no status.** An entry carries a record's times and hours only; no clocked-in status or latest punch is reported.
- **The ring-sale check cannot succeed as shipped.** The hook passes no token and the store has no `clock` slice, so every ring-sale login ends in an alert (`TimeManagement.ShippedRingSaleCheckAlwaysAlerts`; see "## Findings").
- **The sweep repeats clock-out instead of calling it.** The sweep has its own copy of the close step. `Ledger.AutoCloseIsClockOutAtCutoff` proves the two agree.

## Model

| member | source | states |
|---|---|---|
| Ledger.Message | backend/src/controllers/clockSummaryController.ts:20 | each failure carries the controller's verbatim message: "You are already clocked in.", "No clock-in record found.", "You have already clocked out.." |
| Ledger.NewPunch | backend/src/controllers/clockSummaryController.ts:25-29 | a new punch starts at `now`, is open and has 0 hours |
| Ledger.Closed | backend/src/controllers/clockSummaryController.ts:79-87 | closing keeps the clock-in time, sets the clock-out time, leaves the record closed and its hours equal to its length in hours |
| Ledger.HoursMeasureTheInterval | backend/src/controllers/clockSummaryController.ts:84-85 | the hours `(out - in) / (1000*60*60)`, multiplied back by an hour's milliseconds, give the interval's length; a forward interval has non-negative hours; one hour's interval gives 1.0 |
| Ledger.ClockInLedger | backend/src/controllers/clockSummaryController.ts:13-43 | clock-in fails (AlreadyClockedIn) exactly when a ledger exists whose last record is open; otherwise the ledger, or a new one, gains exactly one new open record at the end and keeps every earlier record |
| Ledger.ClockOutLedger | backend/src/controllers/clockSummaryController.ts:65-87 | no ledger fails with NoClockInRecord; an empty ledger or a closed last record fails with AlreadyClockedOut; otherwise only the last record changes, closed at `now` |
| Ledger.AutoCloseLedger | backend/src/controllers/clockSummaryController.ts:205-222 | the sweep closes an open last record at the cutoff, keeps every other record, leaves a ledger without an open last record unchanged, and never leaves the last record open |
| Ledger.AtMostOneOpen | backend/src/controllers/clockSummaryController.ts:15-21 | under the invariant a ledger holds exactly one open record when its last is open and none otherwise |
| Ledger.AutoCloseIsClockOutAtCutoff | backend/src/controllers/clockSummaryController.ts:205-222 | the sweep on a ledger with an open last record gives exactly what a manual clock-out at the cutoff gives |
| Ledger.AutoCloseIdempotent | backend/src/controllers/clockSummaryController.ts:208 | a second sweep of a ledger, at any cutoff, changes nothing |
| Ledger.ClockInKeepsValid | backend/src/controllers/clockSummaryController.ts:25-43 | a successful clock-in keeps the ledger invariant |
| Ledger.ClockOutKeepsValid | backend/src/controllers/clockSummaryController.ts:71-87 | a successful clock-out keeps the ledger invariant |
| Ledger.AutoCloseKeepsValid | backend/src/controllers/clockSummaryController.ts:205-222 | the sweep keeps the ledger invariant |
| Ledger.ClockOutFollowsClockIn | backend/src/controllers/clockSummaryController.ts:71-76 | clock-out right after a successful clock-in succeeds |
| Ledger.ClockInFollowsClockOut | backend/src/controllers/clockSummaryController.ts:15-21 | clock-in right after a successful clock-out succeeds |
| Ledger.SecondClockInFails | backend/src/controllers/clockSummaryController.ts:15-21 | a second clock-in without a clock-out in between fails with AlreadyClockedIn, and the ledger holds exactly one open record |
| Ledger.ClockOutWithoutLedgerFails | backend/src/controllers/clockSummaryController.ts:67-69 | clock-out for an employee with no ledger fails with "No clock-in record found." |
| Ledger.FullShiftScenario | backend/src/controllers/clockSummaryController.ts:84-87 | in at 09:00 and out at 17:30 gives one closed record of 8.5 hours |
| Ledger.ForgottenClockOutScenario | backend/src/controllers/clockSummaryController.ts:208-222 | in at 08:00 and never out: the 19:00 sweep closes the punch at 19:00 with 11 hours |
| JsValues.OrElse | frontend/src/features/clockIn/clockIn.ts:157 | `value \|\| fallback` gives a non-empty value, and the fallback for a missing or empty one; never empty when the fallback is not |
| ClockEngine.SweepAll | backend/src/controllers/clockSummaryController.ts:198-224 | the swept store has the same employees, leaves every ledger without an open last record as it was, and has no open last record anywhere |
| ClockEngine.SweepingCandidatesIsSweepingAll | backend/src/controllers/clockSummaryController.ts:200-208 | visiting only the ledgers the query `clockOutTime: null` finds, and closing the ones whose last record is open, is the sweep of the whole store; it closes exactly the employees clocked in, and keeps every ledger valid |
| ClockEngine.StepKeepsValid | backend/src/controllers/clockSummaryController.ts:13-90 | every clock-in, clock-out or sweep keeps every ledger of the store valid |
| ClockEngine.Run | backend/src/controllers/clockSummaryController.ts:9-90 | any sequence of clock-ins, clock-outs and sweeps leaves every ledger valid |
| ClockEngine.AtMostOneOpenAfterAnyRun | backend/src/controllers/clockSummaryController.ts:15-21 | after any sequence of operations, each ledger holds at most one open record, and only the last can be open |
| ClockEngine.SweepIdempotent | backend/src/controllers/clockSummaryController.ts:204-224 | a second sweep of the store, at any cutoff, changes nothing |
| ClockEngine.ClockStore.ClockIn | backend/src/controllers/clockSummaryController.ts:9-43 | the store becomes the clock-in step of the old store; the result is the new punch or the AlreadyClockedIn failure; a first punch appends the employee to the creation order; the store invariant is kept |
| ClockEngine.ClockStore.ClockOut | backend/src/controllers/clockSummaryController.ts:61-90 | the store becomes the clock-out step of the old store; the result is the closed record or the failure clock-out gives; the order is unchanged; the store invariant is kept |
| ClockEngine.ClockStore.CloseOpenLast | backend/src/controllers/clockSummaryController.ts:205-224 | one sweep iteration replaces only that employee's ledger with its swept form, and reports whether it closed a punch |
| ClockEngine.ClockStore.AutoCloseSweep | backend/src/controllers/clockSummaryController.ts:198-224 | the store becomes the sweep of the old store; the returned set is exactly the employees whose last record was open; the order and the store invariant are kept |
| ClockSummary.EntriesOf | backend/src/controllers/clockSummaryController.ts:123-143 | one entry per record of the ledger, in ledger order, carrying that record's times and hours and the employee |
| ClockSummary.UserClockSummary | backend/src/controllers/clockSummaryController.ts:107-143 | the employee's summary is non-empty exactly when the employee has a ledger with a clock-in inside the window, and then it is all of that ledger's records |
| ClockSummary.UserClockSummaryAsWritten | backend/src/controllers/clockSummaryController.ts:116-119 | the summary as the query selects as written: non-empty exactly when some record's clock-in is at or after the window's start and some record's clock-in is before its end |
| ClockSummary.AsWrittenSelectsEveryPunchedLedger | backend/src/controllers/clockSummaryController.ts:116-119 | the query as written selects every ledger the intended selection does |
| ClockSummary.AsWrittenAgreesWithoutLaterPunches | backend/src/controllers/clockSummaryController.ts:112-119 | when no clock-in lies at or after the window's end, the query as written and the intended selection agree, both ways |
| ClockSummary.AsWrittenSelectsLedgerWithoutPunchInWindow | backend/src/controllers/clockSummaryController.ts:116-119 | a ledger with one punch the day before and one the day after is selected as written but not by the intended selection |
| ClockSummary.SummaryIncludesEarlierDays | backend/src/controllers/clockSummaryController.ts:123-143 | a selected ledger's record from the previous day appears in today's summary |
| ClockSummary.ClockSummaryMembership | backend/src/controllers/clockSummaryController.ts:154-187 | an entry is in the organisation summary exactly when it is a record of a stored ledger that has a clock-in inside the window |
| ClockSummary.ClockSummary | backend/src/controllers/clockSummaryController.ts:154-187 | every entry of the organisation summary belongs to a stored employee whose ledger has a clock-in inside the window |
| ClockSummary.ClockSummaryAsWritten | backend/src/controllers/clockSummaryController.ts:161-163 | the organisation summary with the query's selection as written: every entry belongs to a stored employee whose ledger the query selects |
| ClockSummary.ClockSummaryAsWrittenMembership | backend/src/controllers/clockSummaryController.ts:161-187 | an entry is in the organisation summary as written exactly when it is a record of a stored ledger the query as written selects |
| ClockSummary.ClockSummaryIsWithinAsWritten | backend/src/controllers/clockSummaryController.ts:161-163 | every entry of the intended organisation summary is also in the one the query gives as written |
| ClockSummary.AsWrittenClockSummaryListsLedgerWithoutPunchInWindow | backend/src/controllers/clockSummaryController.ts:161-163 | the organisation summary as written lists a ledger with punches only the day before and the day after; the intended one lists nothing |
| ClockSummary.UserSummaryIsPartOfClockSummary | backend/src/controllers/clockSummaryController.ts:154-187 | with each employee stored once, an employee's entries in the organisation summary, in order, are the employee's own summary |
| ClockMirror.UpdatedUser | frontend/src/features/clockIn/clockIn.ts:29-50 | the flag is set to the given value; a new user gets just the new record; a known user keeps their records, except that on clock-out an open last record takes the new record's out time and hours |
| ClockMirror.AppliedPayload | frontend/src/features/clockIn/clockIn.ts:148-154 | after a fulfilled payload, every payload user holds the update of their old entry, every other user is untouched, and no user disappears |
| ClockMirror.ClockOutUpdateKeepsConsistent | frontend/src/features/clockIn/clockIn.ts:37-43 | a clock-out update carrying a closed record keeps "clocked in exactly when the last record is open" |
| ClockMirror.SecondPunchNeverReachesMirror | frontend/src/features/clockIn/clockIn.ts:37-43 | after a clock-out, a clock-in update leaves the user flagged clocked in over a closed record, and the following clock-out update restores the earlier entry: the second punch is lost |
| ClockMirror.ClockInSlice.constructor | frontend/src/features/clockIn/clockIn.ts:22-26 | the slice starts with no users, not loading and no error |
| ClockMirror.ClockInSlice.UpdateUserClockData | frontend/src/features/clockIn/clockIn.ts:29-50 | only the given user's entry changes, and it becomes that user's updated entry |
| ClockMirror.ClockInSlice.ApplyPayload | frontend/src/features/clockIn/clockIn.ts:151-153 | the loop over the payload's entries leaves the map the payload applied to the old map |
| ClockMirror.ClockInSlice.Pending | frontend/src/features/clockIn/clockIn.ts:144-147 | loading starts and the error clears; the users are unchanged |
| ClockMirror.ClockInSlice.ClockInFulfilled | frontend/src/features/clockIn/clockIn.ts:148-154 | loading stops, and every payload user is updated as clocked in |
| ClockMirror.ClockInSlice.ClockOutFulfilled | frontend/src/features/clockIn/clockIn.ts:165-171 | loading stops, and every payload user is updated as clocked out |
| ClockMirror.ClockInSlice.ClockInRejected | frontend/src/features/clockIn/clockIn.ts:155-158 | loading stops, and the error is the rejection's message or "Clock-in error" |
| ClockMirror.ClockInSlice.ClockOutRejected | frontend/src/features/clockIn/clockIn.ts:172-175 | loading stops, and the error is the rejection's message or "Clock-out error" |
| AuthSlice.SelectUserById | frontend/src/features/auth/authSlice.ts:111-112 | the stored session's user for the id, and null exactly when no session is stored under it |
| AuthSlice.SelectTokenById | frontend/src/features/auth/authSlice.ts:114-115 | the stored session's token for the id, and null exactly when no session is stored under it |
| AuthSlice.LoginThenSelect | frontend/src/features/auth/authSlice.ts:92-115 | after a login, both selectors give the response's user and token for its id, and what they gave before for every other id |
| AuthSlice.LogoutThenSelect | frontend/src/features/auth/authSlice.ts:82-84 | after a logout, the id selects no user and no token, and every other id selects its old token |
| AuthSlice.AuthState.constructor | frontend/src/features/auth/authSlice.ts:27-31 | no sessions, not loading, no error |
| AuthSlice.AuthState.ClearAuthError | frontend/src/features/auth/authSlice.ts:79-81 | the error clears and nothing else changes |
| AuthSlice.AuthState.LogoutUserById | frontend/src/features/auth/authSlice.ts:82-84 | only the id's session is removed; an absent id changes nothing |
| AuthSlice.AuthState.LoginPending | frontend/src/features/auth/authSlice.ts:88-91 | loading starts and the error clears; the sessions are unchanged |
| AuthSlice.AuthState.LoginFulfilled | frontend/src/features/auth/authSlice.ts:92-99 | loading stops, the response is stored under its user's id (replacing any session there), and the error stays |
| AuthSlice.AuthState.LoginRejected | frontend/src/features/auth/authSlice.ts:100-103 | loading stops, and the error is the rejection's message or "Login failed" |
| TimeManagement.RingSaleEffect | frontend/src/hooks/useTimeManagement.ts:43-55 | navigates to /dashboard exactly when the check resolves to true; every other outcome alerts: "You need to clock in" when the check resolves to false, and the thrown message or "Access denied." when the check throws; an alert is never empty |
| TimeManagement.RingSaleAccess | frontend/src/features/auth/validateRingSaleAccess.ts:19-25 | once the current user is fetched and the `clock` slice is present, the check resolves to true exactly when the user's mirrored flag is true; it never resolves to false, and otherwise throws "You must be clocked in to access Ring Sale." |
| TimeManagement.RingSaleCheck | frontend/src/features/auth/validateRingSaleAccess.ts:16-25 | the whole check under a wiring: true exactly when the token is passed, the `clock` slice is mounted and the flag is true; never false; without a token it throws the current-user request's rejection before the flag is read; with a token but no slice it throws the failed read |
| TimeManagement.ShippedRingSaleCheckAlwaysAlerts | frontend/src/hooks/useTimeManagement.ts:45-52 | as shipped (no token passed, no `clock` slice), every ring-sale login alerts the current-user request's rejection, or "Access denied.", and none reaches /dashboard, clocked in or not |
| TimeManagement.TokenWithoutClockSliceAlwaysAlerts | frontend/src/features/auth/validateRingSaleAccess.ts:17-19 | with the token passed but no `clock` slice, every ring-sale login alerts the failed read |
| TimeManagement.IntendedWiringDecidesByFlag | frontend/src/hooks/useTimeManagement.ts:45-52 | with the token passed and the slice mounted, a clocked-in user reaches /dashboard and anyone else is alerted "You must be clocked in to access Ring Sale." |
| TimeManagement.NotClockedInSeesRefusal | frontend/src/hooks/useTimeManagement.ts:45-52 | once the check gets as far as reading the flag, a clocked-in user is sent to /dashboard and any other user is alerted with the check's refusal; the "You need to clock in" alert is never shown (as shipped the check never gets that far, see `TimeManagement.ShippedRingSaleCheckAlwaysAlerts`) |
| TimeManagement.Controller.constructor | frontend/src/hooks/useTimeManagement.ts:14-17 | no dialog, no purpose, empty user and the summary view |
| TimeManagement.Controller.CloseDialog | frontend/src/hooks/useTimeManagement.ts:19-29 | dialog and purpose clear; the view becomes the fallback when one is given and is kept otherwise |
| TimeManagement.Controller.HandleButtonClick | frontend/src/hooks/useTimeManagement.ts:66-85 | time punch opens the punch dialog over the punch view; ring sale opens its dialog over the current view; the summary button closes any dialog onto the summary; `null` changes nothing; dialog and purpose stay paired |
| TimeManagement.Controller.HandleLoginSuccess | frontend/src/hooks/useTimeManagement.ts:32-61 | a missing id or token resets the user and falls back to the summary; otherwise the user is set, the punch path closes the dialog over the current view, and the ring-sale path closes it onto the summary with the access check's effect |
| LoginDialog.TrimStart | frontend/src/components/forms/login-Dialog.tsx:34 | the result does not start with white space |
| LoginDialog.TrimStartDropsLeadingWhiteSpace | frontend/src/components/forms/login-Dialog.tsx:34 | the left half of trimming removes a leading run of white space and nothing else: the result is a suffix of the input, and what it drops is all white space |
| LoginDialog.TrimEnd | frontend/src/components/forms/login-Dialog.tsx:34 | the result does not end with white space |
| LoginDialog.TrimEndDropsTrailingWhiteSpace | frontend/src/components/forms/login-Dialog.tsx:34 | the right half of trimming removes a trailing run of white space and nothing else: the result is a prefix of the input, and what it drops is all white space |
| LoginDialog.Trim | frontend/src/components/forms/login-Dialog.tsx:34-35 | the trimmed text neither starts nor ends with white space |
| LoginDialog.TrimDropsOnlySurroundingWhiteSpace | frontend/src/components/forms/login-Dialog.tsx:34-35 | `trim` gives a slice of the input with only white space before it and after it, and no white space at either of its ends, so it is exactly the input with the surrounding white space removed |
| LoginDialog.IsNumeric | frontend/src/components/forms/login-Dialog.tsx:34-37 | `!isNaN(Number(x.trim()))`: blank text passes (it reads as 0); passing non-blank text holds a digit, and after its first character only digits and points |
| LoginDialog.DigitsAreNumeric | frontend/src/components/forms/login-Dialog.tsx:34-40 | any text typed with digit keys, the empty text included, passes the numeric gate |
| LoginDialog.LonePointIsNotNumeric | frontend/src/components/forms/login-Dialog.tsx:34-40 | a lone "." fails the numeric gate |
| LoginDialog.SecondPointIsNotNumeric | frontend/src/components/forms/login-Dialog.tsx:34-40 | a text with two "." fails the numeric gate |
| LoginDialog.DecimalsAreNumeric | frontend/src/components/forms/login-Dialog.tsx:34-40 | one "." between digits, and white space around digits, pass the numeric gate |
| LoginDialog.DropLast | frontend/src/components/forms/login-Dialog.tsx:64-70 | `slice(0, -1)` removes exactly the last character and keeps the empty text empty |
| LoginDialog.BackspaceUndoesKey | frontend/src/components/forms/login-Dialog.tsx:23-31 | backspace after a one-character key press restores the field |
| LoginDialog.Dialog.constructor | frontend/src/components/forms/login-Dialog.tsx:17-21 | both fields and the error empty, the user-id field active, not loading |
| LoginDialog.Dialog.Focus | frontend/src/components/forms/login-Dialog.tsx:107 | the focused field becomes the keypad's target and nothing else changes |
| LoginDialog.Dialog.Change | frontend/src/components/forms/login-Dialog.tsx:108 | the edited field takes the typed text and nothing else changes |
| LoginDialog.Dialog.KeypadClick | frontend/src/components/forms/login-Dialog.tsx:23-31 | the error clears; "Tab" types nothing; any other key is appended to the active field only |
| LoginDialog.Dialog.Backspace | frontend/src/components/forms/login-Dialog.tsx:64-70 | the active field loses its last character; nothing else changes |
| LoginDialog.Dialog.Clear | frontend/src/components/forms/login-Dialog.tsx:72-76 | both fields and the error are emptied; the active field and loading are kept |
| LoginDialog.Dialog.Cancel | frontend/src/components/forms/login-Dialog.tsx:78-82 | clears the dialog and reports no user and no token |
| LoginDialog.Dialog.Enter | frontend/src/components/forms/login-Dialog.tsx:33-42 | a field that fails the numeric gate sets "User ID and Password must be numeric." and requests nothing; otherwise loading starts and the trimmed fields are requested |
| LoginDialog.Dialog.FinishEnter | frontend/src/components/forms/login-Dialog.tsx:43-61 | a response with id and token is reported, and the dialog is cleared and closed; a response missing either reports no user and closes with an error; a failure keeps the dialog open and shows the thrown string or "Invalid credentials or login error."; loading stops in every case |

## Left out

- Ledger.ClockInLedger: requires an existing ledger to be non-empty. The clock-in handler reads the last record of an existing document without checking that one exists, so an empty ledger would throw a TypeError and answer 500. Every ledger the store creates is non-empty, and `ClockEngine.ClockStore.Valid` keeps it so.
- ClockEngine.ClockStore.ClockIn: inherits that precondition through the store invariant.
- LoginDialog.IsNumeric: covers the decimal forms of `Number(...)` only: empty, digits with at most one point, and an optional sign. Exponents, hexadecimal, binary, octal and `Infinity` are not modelled, and neither is the full white-space set of `trim`, which also includes the Unicode space separators.
- Floating point: hours are exact reals. JavaScript's double rounding of the division is not modelled.
- Database and HTTP: MongoDB, Mongoose documents, `save`, `populate` and JSON responses are not modelled. The collection is a map, and its `find` order is the creation order.
- Request errors: the summary endpoints' catch blocks (status 500) have nothing to catch in the model, and are not modelled.
- Summary formatting: the `h:mm A` time strings are not modelled. An entry carries the instants themselves and the employee id instead of the populated employee.
- Concurrency: the read-then-save race between two requests for the same employee, and the sweep saving documents one at a time, are not modelled. Each operation runs atomically.
- Time zones: the cron schedule, `dayjs` and time-zone handling are not modelled. The 19:00 cutoff and the day window are parameters.
- Cutoff instant: the cron job sets hour, minute and second of the current time, so the cutoff keeps the current millisecond (19:00:00.xxx). The cutoff parameter stands for that instant; `Ledger.ForgottenClockOutScenario` supplies exactly 19:00:00.000.
- ClockEngine.SweepAll: closes every ledger at one cutoff. The cron job computes the cutoff afresh inside its loop for each ledger, so two ledgers closed in one sweep can differ by the milliseconds that pass between them; that drift is not modelled.
- LoginDialog.DropLast: drops one Unicode character, where `slice(0, -1)` drops one UTF-16 code unit. The two differ for a character outside the Basic Multilingual Plane (an emoji, say) typed into a field through `onChange`; keypad input is digits only and is unaffected.
- TimeManagement.RingSaleAccess: models validateRingSaleAccess.ts:19-25 only for a call that carries a token and a store that mounts the clockIn slice under `clock`. As shipped, neither holds, so the check throws before line 19 for every user (`TimeManagement.ShippedRingSaleCheckAlwaysAlerts`, and "## Findings"). The check never resolves to false, so the hook's "You need to clock in" branch is unreachable; it is kept in `TimeManagement.RingSaleEffect` as the hook is written.
- TimeManagement.RingSaleCheck: the current-user request and the server's refusal of `Bearer undefined` are not modelled. The message they produce, and the TypeError's message for the missing slice, are parameters. With a token, the request is taken to succeed.
- Mirror wiring: the clockIn slice is not registered in the store (frontend/src/app/store.ts:15-18), so none of its reducers runs in the app as shipped. `ClockMirror` models its reducers as written.
- TimeManagement.Controller.HandleLoginSuccess: modelled as one atomic step. On the ring-sale path the hook awaits the access check between setting the user and closing the dialog, and the dialog's `onClose` or a button click can run in that gap; that interleaving is not modelled.
- Thunk network calls: the network calls of the `clockIn`, `clockOut`, `loginUser` and `validateRingSaleAccess` thunks, and the rejection messages they build, are not modelled. Their outcomes are inputs.
- Mirror payload: a fulfilled payload is modelled as the map from user to its first record, `clockInRecord[0]`. A payload entry with no record, which would hand `undefined` to the update, is not modelled.
- Missing session table: the guard `if (!state.loggedInuser)` in the login reducer is not modelled. The session table always exists in the model.
- React rendering: rendering, state batching and re-renders are not modelled. Each handler sees the state its call started from, which is what its closure sees. The two dialog callbacks and `navigate` / `alert` are returned values.
- Other files: frontend/src/components/login/timeSummary.tsx, frontend/src/components/login/timePunch.tsx and the other controllers, slices and pages of the repository are not part of this model.

## Findings

| source | as written | input that shows it | evidently intended | confidence | as-written member | corrected member |
|---|---|---|---|---|---|---|
| backend/src/controllers/clockSummaryController.ts:116-119 | the filter `"clockRecords.clockInTime": { $gte: startOfDay, $lt: endOfDay }` has no `$elemMatch`, so MongoDB selects a ledger when one record is at or after the start and a possibly different record is before the end | a ledger with a punch the day before and a punch the day after the window (`ClockSummary.AsWrittenSelectsLedgerWithoutPunchInWindow`; for the organisation summary, whose filter at lines 161-163 is the same, `ClockSummary.AsWrittenClockSummaryListsLedgerWithoutPunchInWindow`) | select a ledger only when one of its records was clocked in inside the day | low, not executed: the two agree unless a clock-in lies after the window (`ClockSummary.AsWrittenAgreesWithoutLaterPunches`), which for "today" needs a clock-in in the future | ClockSummary.UserClockSummaryAsWritten, ClockSummary.ClockSummaryAsWritten | ClockSummary.UserClockSummary, ClockSummary.ClockSummary |
| frontend/src/hooks/useTimeManagement.ts:45 | the hook dispatches `validateRingSaleAccess({ userID: id })` without the `token` its parameters declare, so the current-user request is sent with `Bearer undefined` and refused; the store (frontend/src/app/store.ts:15-18) also lacks the `clock` slice the check reads | any ring-sale login, even by a clocked-in user (`TimeManagement.ShippedRingSaleCheckAlwaysAlerts`; with the token alone, `TimeManagement.TokenWithoutClockSliceAlwaysAlerts`) | pass the session's token and mount the clockIn slice under `clock`, so a clocked-in user reaches /dashboard and anyone else sees the refusal | medium, not executed: read from the hook, the check, the store and the server's auth middleware | TimeManagement.RingSaleCheck, TimeManagement.ShippedRingSaleCheckAlwaysAlerts | TimeManagement.RingSaleAccess, TimeManagement.IntendedWiringDecidesByFlag |
