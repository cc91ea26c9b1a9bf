/**
 * Business rules of the add-on's REST routes (`odhr_api/controllers/api.py`) once a request is
 * authenticated: request-body decoding, the paging parameters, the profile-update whitelist, the
 * one-open-attendance rule, leave-application validation, and the authorisation gates of the
 * leave and payslip routes. ORM look-ups and group checks are inputs.
 */
module ServerApi {
  import opened Wrappers
  import opened Text
  import opened JsonData
  import Utf8
  import Base64

  /** How a route ends when it does not answer normally: an `_error` answer, or an exception that
    * escapes the route (the framework then answers with a server error). */
  datatype Failure = Refused(status: nat, message: string) | Raised

  const NoEmployee: string := "No employee linked to current user"

  /** `json.loads(request.httprequest.data.decode('utf-8') or '{}')` inside `try`: a body that is
    * not UTF-8 or not JSON gives `{}`, as does an empty body. */
  function RequestPayload(body: seq<byte>, jsonParse: string -> Option<Json>): (p: Json)
    ensures Utf8.Decode(body).None? ==> p == Obj(map[])
    ensures body == [] ==> p == Obj(map[])
    ensures p != Obj(map[]) ==> exists t :: Utf8.Decode(body) == Some(t) && jsonParse(t) == Some(p)
    ensures Utf8.Decode(body).Some? && Utf8.Decode(body).value != "" ==>
              p == if jsonParse(Utf8.Decode(body).value).Some? then jsonParse(Utf8.Decode(body).value).value else Obj(map[])
  {
    match Utf8.Decode(body)
    case None => Obj(map[])
    case Some(text) =>
      if text == "" then Obj(map[])
      else match jsonParse(text)
        case None => Obj(map[])
        case Some(v) => v
  }

  predicate IsDigit(c: char) {
    '0' <= c <= '9'
  }

  /** The digits of a Python integer literal: digits, with single underscores between them. */
  predicate IsNumeral(t: string) {
    && t != []
    && IsDigit(t[0]) && IsDigit(t[|t| - 1])
    && (forall i :: 0 <= i < |t| ==> IsDigit(t[i]) || t[i] == '_')
    && NoDoubleUnderscore(t)
  }

  predicate NoDoubleUnderscore(t: string)
    decreases |t|
  {
    |t| < 2 || (!(t[0] == '_' && t[1] == '_') && NoDoubleUnderscore(t[1..]))
  }

  lemma {:induction false} DigitsHaveNoDoubleUnderscore(t: string)
    requires forall i :: 0 <= i < |t| ==> IsDigit(t[i])
    ensures NoDoubleUnderscore(t)
    decreases |t|
  {
    if |t| >= 2 {
      DigitsHaveNoDoubleUnderscore(t[1..]);
    }
  }

  /** The value of a numeral, underscores ignored. */
  function NumeralValue(t: string): nat
    requires forall i :: 0 <= i < |t| ==> IsDigit(t[i]) || t[i] == '_'
  {
    if t == [] then 0
    else
      var last := t[|t| - 1];
      if last == '_' then NumeralValue(t[..|t| - 1])
      else assert IsDigit(last); NumeralValue(t[..|t| - 1]) * 10 + (last as int - '0' as int)
  }

  /** Python's `int(text)`: surrounding white space is ignored, one optional sign, then a numeral. */
  function ParseIntText(s: string): Option<int> {
    ParseSigned(PyStrip(s))
  }

  /** An optionally signed numeral. */
  function ParseSigned(t: string): (r: Option<int>)
    ensures r.Some? ==> t != []
    ensures r.Some? <==> IsNumeral(t) || (|t| > 0 && (t[0] == '+' || t[0] == '-') && IsNumeral(t[1..]))
    ensures IsNumeral(t) ==> r == Some(NumeralValue(t))
    ensures |t| > 0 && t[0] == '+' && IsNumeral(t[1..]) ==> r == Some(NumeralValue(t[1..]))
    ensures |t| > 0 && t[0] == '-' && IsNumeral(t[1..]) ==> r == Some(-(NumeralValue(t[1..]) as int))
  {
    if t != [] && (t[0] == '+' || t[0] == '-') then
      if IsNumeral(t[1..]) then
        var v: int := NumeralValue(t[1..]);
        Some(if t[0] == '-' then -v else v)
      else None
    else if IsNumeral(t) then Some(NumeralValue(t))
    else None
  }

  lemma {:induction false} NumeralValueDecimal(n: nat)
    ensures forall i :: 0 <= i < |Decimal(n)| ==> IsDigit(Decimal(n)[i])
    ensures NumeralValue(Decimal(n)) == n
  {
    var d := Decimal(n);
    if n >= 10 {
      NumeralValueDecimal(n / 10);
      assert d[..|d| - 1] == Decimal(n / 10);
    }
  }

  lemma DecimalIsNumeral(n: nat)
    ensures IsNumeral(Decimal(n)) && PyStrip(Decimal(n)) == Decimal(n)
    ensures NumeralValue(Decimal(n)) == n
  {
    var d := Decimal(n);
    NumeralValueDecimal(n);
    DigitsHaveNoDoubleUnderscore(d);
    assert forall i :: 0 <= i < |d| ==> !IsPySpace(d[i]);
  }

  /** `int` reads back the decimal rendering of any natural number. */
  lemma ParseIntTextDecimal(n: nat)
    ensures ParseIntText(Decimal(n)) == Some(n)
  {
    DecimalIsNumeral(n);
  }

  /** A minus sign in front of a numeral negates its value. */
  lemma NegatedText(d: string)
    requires IsNumeral(d) && PyStrip(d) == d
    ensures ParseIntText("-" + d) == Some(-(NumeralValue(d) as int))
  {
    var m := "-" + d;
    assert m[1..] == d;
    assert forall i :: 0 <= i < |m| ==> !IsPySpace(m[i]) by {
      assert forall i :: 1 <= i < |m| ==> m[i] == d[i - 1];
    }
    assert PyStrip(m) == m;
    NegatedNumeral(d);
  }

  lemma NegatedNumeral(t: string)
    requires IsNumeral(t)
    ensures ParseSigned("-" + t) == Some(-(NumeralValue(t) as int))
  {
    var m := "-" + t;
    assert m[1..] == t;
    assert !IsDigit(m[0]);
  }

  /** Python's `int(v)` on a decoded JSON value: a number is truncated toward zero, a boolean is 0 or
    * 1, text is parsed; None stands for the exception raised on null, lists, dicts and bad text. */
  function PyInt(v: Json): (r: Option<int>)
    ensures v.Null? || v.Arr? || v.Obj? ==> r.None?
    ensures v.Bool? ==> r == Some(if v.b then 1 else 0)
    ensures v.Num? && v.n >= 0.0 ==> r.Some? && r.value >= 0 && r.value as real <= v.n < r.value as real + 1.0
    ensures v.Num? && v.n < 0.0 ==> r.Some? && r.value <= 0 && r.value as real - 1.0 < v.n <= r.value as real
    ensures v.Str? ==> r == ParseIntText(v.s)
  {
    match v
    case Bool(b) => Some(if b then 1 else 0)
    case Num(n) => Some(if n >= 0.0 then n.Floor else -((-n).Floor))
    case Str(s) => ParseIntText(s)
    case _ => None
  }

  /** `int(payload.get(key) or default)`, as the REST routes read `limit` and `offset`: a missing or
    * falsy value (0, '', null, [] or {}) gives the default; a payload that is not a dict raises. */
  function PageParam(payload: Json, key: string, default: nat): (r: Result<int, Failure>)
    ensures !payload.Obj? ==> r == Err(Raised)
    ensures payload.Obj? && !PyTruthy(Get(payload.fields, key)) ==> r == Ok(default)
    ensures payload.Obj? && PyTruthy(Get(payload.fields, key)) ==>
              (r.Ok? <==> PyInt(Get(payload.fields, key)).Some?)
              && (r.Ok? ==> Some(r.value) == PyInt(Get(payload.fields, key)))
    ensures r.Err? ==> r == Err(Raised)
  {
    if !payload.Obj? then Err(Raised)
    else match PyInt(PyOr(Get(payload.fields, key), Num(default as real)))
      case None => Err(Raised)
      case Some(n) => Ok(n)
  }

  /** The routes' defaults: `limit` 20 for employee search, leaves, announcements and payslips, 50 for
    * departments and attendance history; `offset` 0 everywhere. */
  const SearchLimit: nat := 20
  const DepartmentsLimit: nat := 50
  const HistoryLimit: nat := 50
  const OffsetDefault: nat := 0

  /** A zero limit is falsy and so becomes the default. */
  lemma ZeroLimitMeansDefault(default: nat)
    ensures PageParam(Obj(map["limit" := Num(0.0)]), "limit", default) == Ok(default)
    ensures PageParam(Obj(map["limit" := Null]), "limit", default) == Ok(default)
    ensures PageParam(Obj(map[]), "limit", default) == Ok(default)
  {
  }

  const EditableFields: set<string> :=
    {"work_email", "work_phone", "mobile_phone", "job_title", "department_id", "work_location_id", "image_1920"}
  const HrOnlyFields: set<string> := {"department_id", "work_location_id"}

  /** `employees_me_update`: what it writes on the user's employee. Only editable keys are kept; the
    * department and work location only for HR users; nothing is written when nothing remains. */
  method MeUpdateFields(payload: Json, employeeLinked: bool, isHrUser: bool) returns (r: Result<Option<map<string, Json>>, Failure>)
    ensures !employeeLinked ==> r == Err(Refused(404, NoEmployee))
    ensures employeeLinked && !payload.Obj? ==> r == Err(Raised)
    ensures employeeLinked && payload.Obj? ==> r.Ok?
    ensures r.Ok? && r.value.Some? ==>
              forall k :: k in r.value.value <==> k in payload.fields && k in EditableFields && (k in HrOnlyFields ==> isHrUser)
    ensures r.Ok? && r.value.Some? ==> forall k :: k in r.value.value ==> r.value.value[k] == payload.fields[k]
    ensures r.Ok? ==> (r.value.None? <==> forall k :: k in payload.fields && k in EditableFields ==> k in HrOnlyFields && !isHrUser)
  {
    if !employeeLinked {
      return Err(Refused(404, NoEmployee));
    }
    if !payload.Obj? {
      return Err(Raised);
    }
    var allowed := map k | k in payload.fields && k in EditableFields :: payload.fields[k];
    if "department_id" in allowed && !isHrUser {
      allowed := allowed - {"department_id"};
    }
    if "work_location_id" in allowed && !isHrUser {
      allowed := allowed - {"work_location_id"};
    }
    if allowed != map[] {
      r := Ok(Some(allowed));
    } else {
      assert forall k :: k in payload.fields && k in EditableFields ==> k in HrOnlyFields && !isHrUser by {
        forall k | k in payload.fields && k in EditableFields
          ensures k in HrOnlyFields && !isHrUser
        {
          assert k !in allowed;
        }
      }
      r := Ok(None);
    }
  }

  /** An attendance record: employee, check-in time, and check-out time once closed. */
  datatype Attendance = Attendance(employee: int, checkIn: int, checkOut: Option<int>)

  predicate IsOpenFor(a: Attendance, e: int) {
    a.employee == e && a.checkOut.None?
  }

  /** The number of open records of an employee. */
  function OpenCount(rs: seq<Attendance>, e: int): nat {
    if rs == [] then 0
    else OpenCount(rs[..|rs| - 1], e) + (if IsOpenFor(rs[|rs| - 1], e) then 1 else 0)
  }

  /** The open record the search with `limit=1` finds. */
  function FirstOpen(rs: seq<Attendance>, e: int, from: nat): (r: Option<nat>)
    requires from <= |rs|
    ensures r.Some? ==> from <= r.value < |rs| && IsOpenFor(rs[r.value], e)
    ensures r.None? ==> forall i :: from <= i < |rs| ==> !IsOpenFor(rs[i], e)
    decreases |rs| - from
  {
    if from == |rs| then None
    else if IsOpenFor(rs[from], e) then Some(from)
    else FirstOpen(rs, e, from + 1)
  }

  lemma {:induction false} OpenCountZero(rs: seq<Attendance>, e: int)
    requires forall i :: 0 <= i < |rs| ==> !IsOpenFor(rs[i], e)
    ensures OpenCount(rs, e) == 0
  {
    if rs != [] {
      OpenCountZero(rs[..|rs| - 1], e);
    }
  }

  lemma {:induction false} OpenCountAppend(rs: seq<Attendance>, a: Attendance, e: int)
    ensures OpenCount(rs + [a], e) == OpenCount(rs, e) + (if IsOpenFor(a, e) then 1 else 0)
  {
    assert (rs + [a])[..|rs|] == rs;
  }

  /** Replacing one record changes an employee's open count by the difference that record makes. */
  lemma {:induction false} OpenCountUpdate(rs: seq<Attendance>, i: nat, x: Attendance, e: int)
    requires i < |rs|
    ensures OpenCount(rs[i := x], e) + (if IsOpenFor(rs[i], e) then 1 else 0)
            == OpenCount(rs, e) + (if IsOpenFor(x, e) then 1 else 0)
    decreases |rs|
  {
    var n := |rs| - 1;
    if i == n {
      assert rs[i := x][..n] == rs[..n];
    } else {
      assert rs[i := x][..n] == rs[..n][i := x];
      OpenCountUpdate(rs[..n], i, x, e);
    }
  }

  /** The records after a check-in: the open record found (if any) closed at `now`, then a new open
    * record appended. */
  function CheckedIn(rs: seq<Attendance>, e: int, now: int): seq<Attendance> {
    var closed := match FirstOpen(rs, e, 0)
      case None => rs
      case Some(i) => rs[i := rs[i].(checkOut := Some(now))];
    closed + [Attendance(e, now, None)]
  }

  /** The records after a check-out, or None when the employee has no open record. */
  function CheckedOut(rs: seq<Attendance>, e: int, now: int): Option<seq<Attendance>> {
    match FirstOpen(rs, e, 0)
    case None => None
    case Some(i) => Some(rs[i := rs[i].(checkOut := Some(now))])
  }

  lemma CloseOne(rs: seq<Attendance>, e: int, now: int, e2: int)
    requires FirstOpen(rs, e, 0).Some?
    ensures var i := FirstOpen(rs, e, 0).value;
            OpenCount(rs[i := rs[i].(checkOut := Some(now))], e2) == OpenCount(rs, e2) - (if e2 == e then 1 else 0)
  {
    var i := FirstOpen(rs, e, 0).value;
    OpenCountUpdate(rs, i, rs[i].(checkOut := Some(now)), e2);
  }

  /** After a check-in the employee has exactly one open record, the new last one, provided there was
    * at most one before; every other employee's open count is unchanged. */
  lemma CheckInLeavesOneOpen(rs: seq<Attendance>, e: int, now: int, e2: int)
    requires OpenCount(rs, e) <= 1
    ensures OpenCount(CheckedIn(rs, e, now), e) == 1
    ensures IsOpenFor(CheckedIn(rs, e, now)[|CheckedIn(rs, e, now)| - 1], e)
    ensures e2 != e ==> OpenCount(CheckedIn(rs, e, now), e2) == OpenCount(rs, e2)
  {
    var a := Attendance(e, now, None);
    match FirstOpen(rs, e, 0)
    case None =>
      OpenCountZero(rs, e);
      OpenCountAppend(rs, a, e);
      OpenCountAppend(rs, a, e2);
    case Some(i) =>
      var closed := rs[i := rs[i].(checkOut := Some(now))];
      CloseOne(rs, e, now, e);
      CloseOne(rs, e, now, e2);
      OpenCountAppend(closed, a, e);
      OpenCountAppend(closed, a, e2);
  }

  /** After a check-out the employee has no open record left, provided there was at most one;
    * every other employee's open count is unchanged. */
  lemma CheckOutLeavesNoneOpen(rs: seq<Attendance>, e: int, now: int, e2: int)
    requires OpenCount(rs, e) <= 1
    requires CheckedOut(rs, e, now).Some?
    ensures OpenCount(CheckedOut(rs, e, now).value, e) == 0
    ensures e2 != e ==> OpenCount(CheckedOut(rs, e, now).value, e2) == OpenCount(rs, e2)
  {
    CloseOne(rs, e, now, e);
    CloseOne(rs, e, now, e2);
  }

  /** The attendance table as the check-in and check-out routes change it. */
  class AttendanceBook {
    var records: seq<Attendance>

    /** Every employee has at most one open record. */
    ghost predicate Valid()
      reads this
    {
      forall e :: OpenCount(records, e) <= 1
    }

    constructor ()
      ensures records == [] && Valid()
    {
      records := [];
    }

    /** `attendance_checkin`: close the open record found, if any, then open a new one. */
    method CheckIn(employee: Option<int>, now: int) returns (r: Result<Attendance, Failure>)
      requires Valid()
      modifies this
      ensures Valid()
      ensures employee.None? ==> r == Err(Refused(404, NoEmployee)) && records == old(records)
      ensures employee.Some? ==> records == CheckedIn(old(records), employee.value, now)
                                 && r == Ok(Attendance(employee.value, now, None))
      ensures employee.Some? ==> OpenCount(records, employee.value) == 1
    {
      if employee.None? {
        return Err(Refused(404, NoEmployee));
      }
      var e := employee.value;
      var open := FirstOpen(records, e, 0);
      if open.Some? {
        records := records[open.value := records[open.value].(checkOut := Some(now))];
      }
      var att := Attendance(e, now, None);
      records := records + [att];
      r := Ok(att);
      forall e2
        ensures OpenCount(records, e2) <= 1
      {
        CheckInLeavesOneOpen(old(records), e, now, e2);
      }
      CheckInLeavesOneOpen(old(records), e, now, e);
    }

    /** `attendance_checkout`: close the open record found; 400 when there is none. */
    method CheckOut(employee: Option<int>, now: int) returns (r: Result<Attendance, Failure>)
      requires Valid()
      modifies this
      ensures Valid()
      ensures employee.None? ==> r == Err(Refused(404, NoEmployee)) && records == old(records)
      ensures employee.Some? && CheckedOut(old(records), employee.value, now).None? ==>
                r == Err(Refused(400, "No open attendance to checkout")) && records == old(records)
      ensures employee.Some? && CheckedOut(old(records), employee.value, now).Some? ==>
                records == CheckedOut(old(records), employee.value, now).value
                && OpenCount(records, employee.value) == 0
                && r.Ok? && r.value.employee == employee.value && r.value.checkOut == Some(now)
      ensures employee.Some? && CheckedOut(old(records), employee.value, now).Some? ==>
                FirstOpen(old(records), employee.value, 0).Some?
                && r == Ok(old(records)[FirstOpen(old(records), employee.value, 0).value].(checkOut := Some(now)))
    {
      if employee.None? {
        return Err(Refused(404, NoEmployee));
      }
      var e := employee.value;
      var open := FirstOpen(records, e, 0);
      if open.None? {
        return Err(Refused(400, "No open attendance to checkout"));
      }
      var i := open.value;
      records := records[i := records[i].(checkOut := Some(now))];
      r := Ok(records[i]);
      forall e2
        ensures OpenCount(records, e2) <= 1
      {
        CheckOutLeavesNoneOpen(old(records), e, now, e2);
      }
      CheckOutLeavesNoneOpen(old(records), e, now, e);
    }
  }

  /** The values `leave_apply` creates a leave with. */
  datatype LeaveVals = LeaveVals(employee: int, typeId: int, dateFrom: Json, dateTo: Json, name: Option<Json>)

  const LeaveFieldsRequired: string := "type_id, date_from, date_to are required"

  /** `leave_apply`'s validation: `type_id` must be a non-zero integer and both dates truthy, each
    * date falling back to its `request_date_*` key; the reason, falling back to `name`, is set only
    * when truthy. `int()` runs before the check, so a non-numeric `type_id` raises. */
  function LeaveApply(payload: Json, employee: Option<int>): (r: Result<LeaveVals, Failure>)
    ensures employee.None? ==> r == Err(Refused(404, NoEmployee))
    ensures employee.Some? && !payload.Obj? ==> r == Err(Raised)
    ensures r.Ok? ==> payload.Obj? && employee == Some(r.value.employee)
    ensures r.Ok? ==> r.value.typeId != 0 && PyInt(PyOr(Get(payload.fields, "type_id"), Num(0.0))) == Some(r.value.typeId)
    ensures r.Ok? ==> PyTruthy(r.value.dateFrom) && PyTruthy(r.value.dateTo)
    ensures r.Ok? ==> r.value.dateFrom == PyOr(Get(payload.fields, "date_from"), Get(payload.fields, "request_date_from"))
    ensures r.Ok? ==> r.value.dateTo == PyOr(Get(payload.fields, "date_to"), Get(payload.fields, "request_date_to"))
    ensures r.Ok? ==> (r.value.name.Some? <==> PyTruthy(PyOr(Get(payload.fields, "reason"), Get(payload.fields, "name"))))
    ensures r.Ok? && r.value.name.Some? ==> r.value.name.value == PyOr(Get(payload.fields, "reason"), Get(payload.fields, "name"))
    ensures r == Err(Refused(400, LeaveFieldsRequired)) <==>
              employee.Some? && payload.Obj? && PyInt(PyOr(Get(payload.fields, "type_id"), Num(0.0))).Some?
              && (PyInt(PyOr(Get(payload.fields, "type_id"), Num(0.0))).value == 0
                  || (!PyTruthy(Get(payload.fields, "date_from")) && !PyTruthy(Get(payload.fields, "request_date_from")))
                  || (!PyTruthy(Get(payload.fields, "date_to")) && !PyTruthy(Get(payload.fields, "request_date_to"))))
  {
    if employee.None? then Err(Refused(404, NoEmployee))
    else if !payload.Obj? then Err(Raised)
    else
      var f := payload.fields;
      match PyInt(PyOr(Get(f, "type_id"), Num(0.0)))
      case None => Err(Raised)
      case Some(typeId) =>
        var dateFrom := PyOr(Get(f, "date_from"), Get(f, "request_date_from"));
        var dateTo := PyOr(Get(f, "date_to"), Get(f, "request_date_to"));
        var reason := PyOr(Get(f, "reason"), Get(f, "name"));
        if typeId == 0 || !PyTruthy(dateFrom) || !PyTruthy(dateTo) then Err(Refused(400, LeaveFieldsRequired))
        else Ok(LeaveVals(employee.value, typeId, dateFrom, dateTo, if PyTruthy(reason) then Some(reason) else None))
  }

  /** A `type_id` that is not a number makes the route raise instead of answering 400, even when the
    * dates are missing too. */
  lemma NonNumericTypeIdRaises(e: int)
    ensures LeaveApply(Obj(map["type_id" := Str("x")]), Some(e)) == Err(Raised)
  {
    assert ParseIntText("x") == None by {
      assert !IsPySpace('x');
      assert PyStrip("x") == "x";
      assert ParseSigned("x") == None;
    }
  }

  /** Is the user an HR user or HR manager, as the leave routes demand. */
  predicate HrStaff(isHrUser: bool, isHrManager: bool) {
    isHrUser || isHrManager
  }

  /** `leave_approve` after authentication: 403 for a user outside HR whether or not the leave exists,
    * then 404 for a missing leave, then 400 when the approval raises. */
  function LeaveApproveReply(isHrUser: bool, isHrManager: bool, leaveExists: bool, approveRaises: bool)
    : (r: Result<(), Failure>)
    ensures !HrStaff(isHrUser, isHrManager) ==> r == Err(Refused(403, "Forbidden"))
    ensures HrStaff(isHrUser, isHrManager) && !leaveExists ==> r == Err(Refused(404, "Leave not found"))
    ensures r.Ok? <==> HrStaff(isHrUser, isHrManager) && leaveExists && !approveRaises
    ensures r.Err? ==> r.error.Refused? && r.error.status in {400, 403, 404}
  {
    if !HrStaff(isHrUser, isHrManager) then Err(Refused(403, "Forbidden"))
    else if !leaveExists then Err(Refused(404, "Leave not found"))
    else if approveRaises then Err(Refused(400, "Unable to approve leave"))
    else Ok(())
  }

  /** `leave_reject` after authentication: 403 first; then the body's `reason` is read, which raises
    * when the body is not a dict, before the 404 for a missing leave; 400 when posting the reason
    * or refusing raises. The reason is posted as a note only when truthy. */
  function LeaveRejectReply(isHrUser: bool, isHrManager: bool, payload: Json, leaveExists: bool, rejectRaises: bool)
    : (r: Result<Option<Json>, Failure>)
    ensures !HrStaff(isHrUser, isHrManager) ==> r == Err(Refused(403, "Forbidden"))
    ensures HrStaff(isHrUser, isHrManager) && !payload.Obj? ==> r == Err(Raised)
    ensures HrStaff(isHrUser, isHrManager) && payload.Obj? && !leaveExists ==> r == Err(Refused(404, "Leave not found"))
    ensures r.Ok? <==> HrStaff(isHrUser, isHrManager) && payload.Obj? && leaveExists && !rejectRaises
    ensures r.Ok? ==> (r.value.Some? <==> PyTruthy(Get(payload.fields, "reason")))
                      && (r.value.Some? ==> r.value.value == Get(payload.fields, "reason"))
  {
    if !HrStaff(isHrUser, isHrManager) then Err(Refused(403, "Forbidden"))
    else if !payload.Obj? then Err(Raised)
    else
      var reason := Get(payload.fields, "reason");
      if !leaveExists then Err(Refused(404, "Leave not found"))
      else if rejectRaises then Err(Refused(400, "Unable to reject leave"))
      else Ok(if PyTruthy(reason) then Some(reason) else None)
  }

  /** `payroll_payslip_detail` after authentication: the payslip is shown only to the employee it
    * belongs to; `slipOwner` is None when no such payslip exists. */
  function PayslipDetailReply(employee: Option<int>, slipOwner: Option<int>): (r: Result<(), Failure>)
    ensures employee.None? ==> r == Err(Refused(404, NoEmployee))
    ensures r.Ok? <==> employee.Some? && slipOwner == employee
    ensures employee.Some? && slipOwner != employee ==> r == Err(Refused(404, "Payslip not found"))
  {
    if employee.None? then Err(Refused(404, NoEmployee))
    else if slipOwner.None? || slipOwner.value != employee.value then Err(Refused(404, "Payslip not found"))
    else Ok(())
  }

  /** `payroll_payslip_pdf`: the same gate, then 404 when no payslip report exists; otherwise the
    * file name and the base64 text of the rendered PDF octets (`pdf`, an input). */
  function PayslipPdfReply(employee: Option<int>, slipId: nat, slipOwner: Option<int>, reportAvailable: bool, pdf: seq<byte>)
    : (r: Result<(string, string), Failure>)
    ensures r.Ok? <==> employee.Some? && slipOwner == employee && reportAvailable
    ensures PayslipDetailReply(employee, slipOwner).Err? ==> r == Err(PayslipDetailReply(employee, slipOwner).error)
    ensures PayslipDetailReply(employee, slipOwner).Ok? && !reportAvailable ==>
              r == Err(Refused(404, "Payslip PDF report not available"))
    ensures r.Ok? ==> r.value.0 == "payslip_" + Decimal(slipId) + ".pdf"
    ensures r.Ok? ==> Base64.PyDecode(r.value.1) == Some(pdf)
  {
    match PayslipDetailReply(employee, slipOwner)
    case Err(f) => Err(f)
    case Ok(_) =>
      if !reportAvailable then Err(Refused(404, "Payslip PDF report not available"))
      else
        Base64.DecodeEncode(pdf);
        Ok(("payslip_" + Decimal(slipId) + ".pdf", Base64.Encode(pdf)))
  }

  /** Someone else's payslip gets the very answer a missing one gets: its existence is not revealed. */
  lemma OthersPayslipLooksMissing(e: int, owner: int)
    requires owner != e
    ensures PayslipDetailReply(Some(e), Some(owner)) == PayslipDetailReply(Some(e), None)
  {
  }
}
