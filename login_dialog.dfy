/** The PIN keypad of frontend/src/components/forms/login-Dialog.tsx: two text
    buffers, the field the keypad types into, an error line and a loading flag,
    updated by the dialog's handlers. Rendering is not modelled; the two
    callbacks the dialog is given (onLoginSuccess, onClose) become values the
    handlers return. */
module LoginDialog {
  import opened Wrappers
  import opened JsValues

  datatype Field = UserIDField | PasswordField

  /** The text handed to `Number(...)` for each field once it passed the gate. */
  datatype LoginRequest = LoginRequest(userID: string, password: string)

  /** How the awaited `loginUser(...).unwrap()` ended: with a response whose user
      id and token may be missing, or by throwing; `reason` is the thrown value
      when it is a string. */
  datatype LoginOutcome = LoginSucceeded(userId: Option<string>, token: Option<string>) | LoginFailed(reason: Option<string>)

  /** A call of `onLoginSuccess(id, token)`. */
  datatype Report = Report(id: Option<string>, token: Option<string>)

  const NotNumeric: string := "User ID and Password must be numeric."
  const MissingUserOrToken: string := "Login succeeded but user or token was missing."
  const LoginError: string := "Invalid credentials or login error."

  /** The white space `String.prototype.trim` strips, as far as it is modelled:
      space, tab, line feed, vertical tab, form feed, carriage return, no-break
      space, the line and paragraph separators and the byte-order mark. */
  predicate IsWhiteSpace(c: char) {
    c == ' ' || c == '\t' || c == '\n' || c == '\r' || c == '\U{000B}' || c == '\U{000C}'
    || c == '\U{00A0}' || c == '\U{2028}' || c == '\U{2029}' || c == '\U{FEFF}'
  }

  function TrimStart(s: string): (r: string)
    ensures r != [] ==> !IsWhiteSpace(r[0])
    decreases |s|
  {
    if s != [] && IsWhiteSpace(s[0]) then TrimStart(s[1..]) else s
  }

  function TrimEnd(s: string): (r: string)
    ensures r != [] ==> !IsWhiteSpace(r[|r| - 1]) && |s| > 0 && r[0] == s[0]
    decreases |s|
  {
    if s != [] && IsWhiteSpace(s[|s| - 1]) then TrimEnd(s[..|s| - 1]) else s
  }

  /** `String.prototype.trim`. */
  function Trim(s: string): (r: string)
    ensures r != [] ==> !IsWhiteSpace(r[0]) && !IsWhiteSpace(r[|r| - 1])
  {
    TrimEnd(TrimStart(s))
  }

  predicate AllWhiteSpace(t: string) {
    forall i :: 0 <= i < |t| ==> IsWhiteSpace(t[i])
  }

  /** TrimStart removes a run of leading white space and nothing else. */
  lemma {:induction false} TrimStartDropsLeadingWhiteSpace(s: string)
    ensures exists k :: 0 <= k <= |s| && TrimStart(s) == s[k..] && AllWhiteSpace(s[..k])
    decreases |s|
  {
    if s != [] && IsWhiteSpace(s[0]) {
      TrimStartDropsLeadingWhiteSpace(s[1..]);
      var tail := s[1..];
      var k :| 0 <= k <= |tail| && TrimStart(tail) == tail[k..] && AllWhiteSpace(tail[..k]);
      assert tail[k..] == s[k + 1..];
      var dropped := s[..k + 1];
      forall i | 0 <= i < |dropped|
        ensures IsWhiteSpace(dropped[i])
      {
        if i > 0 {
          assert dropped[i] == tail[..k][i - 1];
        }
      }
    } else {
      assert TrimStart(s) == s[0..] && s[..0] == [];
    }
  }

  /** TrimEnd removes a run of trailing white space and nothing else. */
  lemma {:induction false} TrimEndDropsTrailingWhiteSpace(s: string)
    ensures exists k :: 0 <= k <= |s| && TrimEnd(s) == s[..k] && AllWhiteSpace(s[k..])
    decreases |s|
  {
    if s != [] && IsWhiteSpace(s[|s| - 1]) {
      var init := s[..|s| - 1];
      TrimEndDropsTrailingWhiteSpace(init);
      var k :| 0 <= k <= |init| && TrimEnd(init) == init[..k] && AllWhiteSpace(init[k..]);
      assert init[..k] == s[..k];
      var dropped := s[k..];
      forall i | 0 <= i < |dropped|
        ensures IsWhiteSpace(dropped[i])
      {
        if i < |dropped| - 1 {
          assert dropped[i] == init[k..][i];
        }
      }
    } else {
      assert TrimEnd(s) == s[..|s|] && s[|s|..] == [];
    }
  }

  /** Trim is `String.prototype.trim`: the result is a slice of the input with
      only white space before and after it, and no white space at either end. */
  lemma TrimDropsOnlySurroundingWhiteSpace(s: string)
    ensures exists k, m :: 0 <= k <= m <= |s| && Trim(s) == s[k..m] && AllWhiteSpace(s[..k]) && AllWhiteSpace(s[m..])
    ensures Trim(s) != [] ==> !IsWhiteSpace(Trim(s)[0]) && !IsWhiteSpace(Trim(s)[|Trim(s)| - 1])
  {
    TrimStartDropsLeadingWhiteSpace(s);
    var k :| 0 <= k <= |s| && TrimStart(s) == s[k..] && AllWhiteSpace(s[..k]);
    var t := TrimStart(s);
    TrimEndDropsTrailingWhiteSpace(t);
    var m :| 0 <= m <= |t| && TrimEnd(t) == t[..m] && AllWhiteSpace(t[m..]);
    assert Trim(s) == s[k..k + m];
    assert s[k + m..] == t[m..];
  }

  predicate IsDigit(c: char) {
    '0' <= c <= '9'
  }

  /** An unsigned decimal literal: digits with at most one '.', and at least one digit. */
  predicate IsUnsignedDecimal(t: string) {
    && (forall i :: 0 <= i < |t| ==> IsDigit(t[i]) || t[i] == '.')
    && (forall i, j :: 0 <= i < j < |t| && t[i] == '.' ==> t[j] != '.')
    && (exists i :: 0 <= i < |t| && IsDigit(t[i]))
  }

  /** `!isNaN(Number(s.trim()))` for the decimal forms: the empty string reads
      as 0, and an optional sign may precede the digits. */
  predicate IsNumeric(s: string): (b: bool)
    ensures Trim(s) == "" ==> b
    ensures b && Trim(s) != "" ==> exists i :: 0 <= i < |Trim(s)| && IsDigit(Trim(s)[i])
    ensures b ==> forall i :: 0 < i < |Trim(s)| ==> IsDigit(Trim(s)[i]) || Trim(s)[i] == '.'
  {
    var t := Trim(s);
    t == "" || IsUnsignedDecimal(t) || (t[0] in {'+', '-'} && IsUnsignedDecimal(t[1..]))
  }

  lemma {:induction false} TrimStartKeeps(s: string)
    requires s == [] || !IsWhiteSpace(s[0])
    ensures TrimStart(s) == s
  {
  }

  lemma {:induction false} TrimEndKeeps(s: string)
    requires s == [] || !IsWhiteSpace(s[|s| - 1])
    ensures TrimEnd(s) == s
  {
  }

  /** Whatever the digit keys typed is numeric, the empty buffer included. */
  lemma DigitsAreNumeric(s: string)
    requires forall i :: 0 <= i < |s| ==> IsDigit(s[i])
    ensures IsNumeric(s)
  {
    if s != [] {
      TrimStartKeeps(s);
      TrimEndKeeps(s);
      assert Trim(s) == s;
      assert IsDigit(s[0]);
    }
  }

  /** A lone '.' fails the gate. */
  lemma LonePointIsNotNumeric()
    ensures !IsNumeric(".")
  {
    TrimStartKeeps(".");
    TrimEndKeeps(".");
    assert Trim(".") == ".";
  }

  /** A second '.' fails the gate. */
  lemma SecondPointIsNotNumeric()
    ensures !IsNumeric("1.2.3")
  {
    TrimStartKeeps("1.2.3");
    TrimEndKeeps("1.2.3");
    assert Trim("1.2.3") == "1.2.3";
    assert "1.2.3"[1] == '.' && "1.2.3"[3] == '.';
  }

  /** One '.' between digits, and white space around digits, pass the gate. */
  lemma DecimalsAreNumeric()
    ensures IsNumeric("1.5") && IsNumeric(" 42 ")
  {
    TrimStartKeeps("1.5");
    TrimEndKeeps("1.5");
    assert Trim("1.5") == "1.5";
    assert IsDigit("1.5"[0]);
    assert TrimStart(" 42 ") == TrimStart("42 ");
    TrimStartKeeps("42 ");
    assert TrimEnd("42 ") == TrimEnd("42");
    TrimEndKeeps("42");
    assert Trim(" 42 ") == "42";
    assert IsDigit("42"[0]);
  }

  /** `prev.slice(0, -1)`: the last character dropped, the empty string kept. */
  function DropLast(s: string): (r: string)
    ensures s == [] ==> r == []
    ensures s != [] ==> r + [s[|s| - 1]] == s
  {
    if s == [] then s else s[..|s| - 1]
  }

  /** Backspace undoes a one-character key press. */
  lemma BackspaceUndoesKey(s: string, key: string)
    requires |key| == 1
    ensures DropLast(s + key) == s
  {
    assert (s + key)[..|s|] == s;
  }

  class Dialog {
    var userID: string
    var password: string
    var activeField: Field
    var error: string
    var loading: bool

    /** The initial state of the dialog. */
    constructor ()
      ensures userID == "" && password == "" && activeField == UserIDField && error == "" && !loading
    {
      userID := "";
      password := "";
      activeField := UserIDField;
      error := "";
      loading := false;
    }

    /** onFocus of either input: the keypad now types into that field. */
    method Focus(field: Field)
      modifies this
      ensures activeField == field
      ensures userID == old(userID) && password == old(password) && error == old(error) && loading == old(loading)
    {
      activeField := field;
    }

    /** onChange of either input: the field takes the typed text. */
    method Change(field: Field, value: string)
      modifies this
      ensures field == UserIDField ==> userID == value && password == old(password)
      ensures field == PasswordField ==> password == value && userID == old(userID)
      ensures activeField == old(activeField) && error == old(error) && loading == old(loading)
    {
      if field == UserIDField {
        userID := value;
      } else {
        password := value;
      }
    }

    /** handleKeypadClick: clears the error, then appends the key to the active
        field unless it is "Tab". */
    method KeypadClick(key: string)
      modifies this
      ensures error == ""
      ensures key == "Tab" ==> userID == old(userID) && password == old(password)
      ensures key != "Tab" && old(activeField) == UserIDField ==> userID == old(userID) + key && password == old(password)
      ensures key != "Tab" && old(activeField) == PasswordField ==> password == old(password) + key && userID == old(userID)
      ensures activeField == old(activeField) && loading == old(loading)
    {
      if error != "" {
        error := "";
      }
      if key == "Tab" {
        return;
      }
      if activeField == UserIDField {
        userID := userID + key;
      } else {
        password := password + key;
      }
    }

    /** handleBackspace: drops the last character of the active field. */
    method Backspace()
      modifies this
      ensures activeField == UserIDField ==> userID == DropLast(old(userID)) && password == old(password)
      ensures activeField == PasswordField ==> password == DropLast(old(password)) && userID == old(userID)
      ensures activeField == old(activeField) && error == old(error) && loading == old(loading)
    {
      if activeField == UserIDField {
        userID := if userID == [] then userID else userID[..|userID| - 1];
      } else {
        password := if password == [] then password else password[..|password| - 1];
      }
    }

    /** handleClear: both fields and the error emptied. */
    method Clear()
      modifies this
      ensures userID == "" && password == "" && error == ""
      ensures activeField == old(activeField) && loading == old(loading)
    {
      userID := "";
      password := "";
      error := "";
    }

    /** handleCancel: clears, then reports `(null, null)` and closes. */
    method Cancel() returns (report: Report)
      modifies this
      ensures userID == "" && password == "" && error == ""
      ensures activeField == old(activeField) && loading == old(loading)
      ensures report == Report(None, None)
    {
      Clear();
      report := Report(None, None);
    }

    /** handleEnter up to the dispatch: a field that is not numeric sets the
        error and stops; otherwise loading starts and the login is requested. */
    method Enter() returns (request: Option<LoginRequest>)
      modifies this
      ensures !(IsNumeric(old(userID)) && IsNumeric(old(password))) ==>
        && request == None && error == NotNumeric && loading == old(loading)
      ensures IsNumeric(old(userID)) && IsNumeric(old(password)) ==>
        && request == Some(LoginRequest(Trim(old(userID)), Trim(old(password))))
        && loading && error == old(error)
      ensures userID == old(userID) && password == old(password) && activeField == old(activeField)
    {
      var numeric := IsNumeric(userID) && IsNumeric(password);
      if !numeric {
        error := NotNumeric;
        return None;
      }
      loading := true;
      request := Some(LoginRequest(Trim(userID), Trim(password)));
    }

    /** handleEnter after the awaited login: a response with both an id and a
        token is reported and the dialog cleared and closed; a response missing
        either reports `(null, null)` and closes with an error; a failure shows
        the thrown string, or a generic message. Loading stops in every case. */
    method FinishEnter(outcome: LoginOutcome) returns (report: Option<Report>, closes: bool)
      modifies this
      ensures !loading && activeField == old(activeField)
      ensures match outcome
        case LoginSucceeded(id, token) =>
          closes && (if Truthy(id) && Truthy(token)
            then report == Some(Report(id, token)) && userID == "" && password == "" && error == ""
            else report == Some(Report(None, None)) && error == MissingUserOrToken
                 && userID == old(userID) && password == old(password))
        case LoginFailed(reason) =>
          && !closes && report == None
          && error == reason.GetOr(LoginError)
          && userID == old(userID) && password == old(password)
    {
      match outcome {
        case LoginSucceeded(id, token) =>
          if Truthy(id) && Truthy(token) {
            report := Some(Report(id, token));
            Clear();
            error := "";
          } else {
            error := MissingUserOrToken;
            report := Some(Report(None, None));
          }
          closes := true;
        case LoginFailed(reason) =>
          error := if reason.Some? then reason.value else LoginError;
          report := None;
          closes := false;
      }
      loading := false;
    }
  }
}
