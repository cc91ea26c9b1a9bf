/**
 * The HR add-on's JSON-RPC employee routes (`odhr_hr/controllers/hr_api.py`): reading the list
 * parameters, the search domain, the expansion of many-to-one fields into `{id, name}` objects,
 * and the replies of the list and detail routes. The ORM search and read are inputs.
 */
module HrApi {
  import opened Wrappers
  import opened Text
  import opened JsonData
  import ServerApi

  /** The list parameters after `request.jsonrequest or {}`. */
  datatype Params = Params(limit: int, offset: int, search: string)

  /** `int(params.get(key, default))`: the default only when the key is absent, so 0 stays 0 and
    * null raises. */
  function ParamOr(fields: map<string, Json>, key: string, default: int): (r: Option<int>)
    ensures key !in fields ==> r == Some(default)
    ensures key in fields ==> r == ServerApi.PyInt(fields[key])
  {
    if key in fields then ServerApi.PyInt(fields[key]) else Some(default)
  }

  /** `(params.get("search") or "").strip()`: None stands for the exception a truthy non-text
    * value raises. */
  function SearchParam(fields: map<string, Json>): (r: Option<string>)
    ensures !PyTruthy(Get(fields, "search")) ==> r == Some("")
    ensures PyTruthy(Get(fields, "search")) ==>
              (r.Some? <==> Get(fields, "search").Str?) && (r.Some? ==> r.value == PyStrip(Get(fields, "search").s))
  {
    var raw := PyOr(Get(fields, "search"), Str(""));
    if raw.Str? then Some(PyStrip(raw.s)) else None
  }

  /** `list_employees`' parameter reading. A falsy body counts as `{}`; a truthy body that is not a
    * dict raises, as does a `limit` or `offset` that `int` refuses, or a truthy non-text `search`. */
  function ListParams(body: Json): (r: Result<Params, ServerApi.Failure>)
    ensures !PyTruthy(body) ==> r == Ok(Params(50, 0, ""))
    ensures PyTruthy(body) && !body.Obj? ==> r == Err(ServerApi.Raised)
    ensures r.Err? ==> r == Err(ServerApi.Raised)
    ensures body.Obj? ==>
              (r.Ok? <==> ParamOr(body.fields, "limit", 50).Some? && ParamOr(body.fields, "offset", 0).Some?
                          && SearchParam(body.fields).Some?)
    ensures body.Obj? && r.Ok? ==>
              && Some(r.value.limit) == ParamOr(body.fields, "limit", 50)
              && Some(r.value.offset) == ParamOr(body.fields, "offset", 0)
              && Some(r.value.search) == SearchParam(body.fields)
  {
    if !PyTruthy(body) then Ok(Params(50, 0, ""))  // `request.jsonrequest or {}`
    else if !body.Obj? then Err(ServerApi.Raised)
    else
      var limit := ParamOr(body.fields, "limit", 50);
      var offset := ParamOr(body.fields, "offset", 0);
      var search := SearchParam(body.fields);
      if limit.Some? && offset.Some? && search.Some? then Ok(Params(limit.value, offset.value, search.value))
      else Err(ServerApi.Raised)
  }

  /** The parameter reading of this route and of the REST routes disagree: 0 is kept here but becomes
    * the default there, an absent limit is 50 here but 20 in the employee search, and null raises
    * here but is the default there. */
  lemma LimitDefaultsDiffer()
    ensures ListParams(Obj(map["limit" := Num(0.0)])).Ok?
    ensures ListParams(Obj(map["limit" := Num(0.0)])).value.limit == 0
    ensures ServerApi.PageParam(Obj(map["limit" := Num(0.0)]), "limit", ServerApi.SearchLimit) == Ok(20)
    ensures ListParams(Obj(map["q" := Str("a")])).Ok?
    ensures ListParams(Obj(map["q" := Str("a")])).value.limit == 50
    ensures ServerApi.PageParam(Obj(map["q" := Str("a")]), "limit", ServerApi.SearchLimit) == Ok(20)
    ensures ListParams(Obj(map["limit" := Null])).Err?
    ensures ServerApi.PageParam(Obj(map["limit" := Null]), "limit", ServerApi.SearchLimit) == Ok(20)
  {
    assert SearchParam(map["q" := Str("a")]) == Some("");
  }

  /** One condition of an Odoo search domain. */
  datatype Condition = Ilike(field: string, value: string)

  /** A domain term in Odoo's prefix notation: an `|` operator or a leaf condition. */
  datatype Term = Or | Leaf(cond: Condition)

  /** `list_employees`' domain: empty for a blank search, otherwise name or work e-mail matching. */
  function SearchDomain(search: string): seq<Term> {
    if search == "" then [] else [Or, Leaf(Ilike("name", search)), Leaf(Ilike("work_email", search))]
  }

  /** Evaluates one prefix-notation expression at the head of `d`, returning its truth and the rest. */
  function EvalPrefix(d: seq<Term>, holds: Condition -> bool): (r: Option<(bool, seq<Term>)>)
    ensures r.Some? ==> |r.value.1| < |d|
    decreases |d|
  {
    if d == [] then None
    else match d[0]
      case Leaf(c) => Some((holds(c), d[1..]))
      case Or =>
        match EvalPrefix(d[1..], holds)
        case None => None
        case Some((a, rest)) =>
          match EvalPrefix(rest, holds)
          case None => None
          case Some((b, rest2)) => Some((a || b, rest2))
  }

  /** Whether a record satisfies a domain of one expression (the empty domain selects everything);
    * `holds` says which conditions the record satisfies. */
  predicate Selects(d: seq<Term>, holds: Condition -> bool) {
    d == [] || EvalPrefix(d, holds) == Some((true, []))
  }

  /** A blank search selects every employee; any other search exactly those whose name or work
    * e-mail matches it. */
  lemma SearchDomainSelects(search: string, holds: Condition -> bool)
    ensures search == "" ==> Selects(SearchDomain(search), holds)
    ensures search != "" ==>
              (Selects(SearchDomain(search), holds)
               <==> holds(Ilike("name", search)) || holds(Ilike("work_email", search)))
  {
    if search != "" {
      var d := SearchDomain(search);
      var a, b := Ilike("name", search), Ilike("work_email", search);
      assert d[1..] == [Leaf(a), Leaf(b)];
      assert d[1..][1..] == [Leaf(b)];
      assert EvalPrefix(d[1..], holds) == Some((holds(a), [Leaf(b)]));
      assert EvalPrefix([Leaf(b)], holds) == Some((holds(b), []));
    }
  }

  /** `m2o`: a two-element list becomes `{id, name}`, anything else None. */
  function M2o(v: Json): (r: Json)
    ensures v.Arr? && |v.items| == 2 <==> r.Obj?
    ensures r.Obj? ==> r.fields.Keys == {"id", "name"} && r.fields["id"] == v.items[0] && r.fields["name"] == v.items[1]
    ensures !r.Obj? ==> r == Null
  {
    if v.Arr? && |v.items| == 2 then Obj(map["id" := v.items[0], "name" := v.items[1]]) else Null
  }

  const ManyToOneFields: set<string> := {"department_id", "work_location_id"}

  /** One record after the loop body: `department_id` and `work_location_id` expanded where truthy. */
  function ExpandRecord(rec: map<string, Json>): (r: map<string, Json>)
    ensures r.Keys == rec.Keys
    ensures forall k :: k in rec && (k !in ManyToOneFields || !PyTruthy(rec[k])) ==> r[k] == rec[k]
    ensures forall k :: k in rec && k in ManyToOneFields && PyTruthy(rec[k]) ==> r[k] == M2o(rec[k])
  {
    var r1 := if PyTruthy(Get(rec, "department_id")) then rec["department_id" := M2o(rec["department_id"])] else rec;
    if PyTruthy(Get(r1, "work_location_id")) then r1["work_location_id" := M2o(r1["work_location_id"])] else r1
  }

  /** Expanding twice is not expanding once: a second pass turns the `{id, name}` objects into None. */
  lemma ExpandRecordNotIdempotent()
    ensures var rec := map["department_id" := Arr([Num(1.0), Str("Sales")])];
            ExpandRecord(ExpandRecord(rec)) != ExpandRecord(rec)
  {
    var rec := map["department_id" := Arr([Num(1.0), Str("Sales")])];
    var once := ExpandRecord(rec);
    assert once["department_id"].Obj?;
    assert ExpandRecord(once)["department_id"] == Null;
  }

  /** The loop over the read records, rewriting each in place. */
  method ExpandAll(data: array<map<string, Json>>)
    modifies data
    ensures forall i :: 0 <= i < data.Length ==> data[i] == ExpandRecord(old(data[i]))
  {
    for i := 0 to data.Length
      invariant forall j :: 0 <= j < i ==> data[j] == ExpandRecord(old(data[j]))
      invariant forall j :: i <= j < data.Length ==> data[j] == old(data[j])
    {
      data[i] := ExpandRecord(data[i]);
    }
  }

  /** The ORM: the records `search(domain, limit, offset).read(fields)` returns. */
  type Search = (seq<Term>, int, int) -> seq<map<string, Json>>

  /** The reply of `list_employees`: `count` is the length of the page, not the number of matches. */
  function ListReply(p: Params, items: seq<map<string, Json>>): Json {
    Obj(map[
      "count" := Num(|items| as real),
      "limit" := Num(p.limit as real),
      "offset" := Num(p.offset as real),
      "items" := Arr(seq(|items|, i requires 0 <= i < |items| => Obj(items[i])))])
  }

  /** `list_employees`: the parameters, the search, the expansion loop and the reply. */
  method ListEmployees(body: Json, search: Search) returns (r: Result<Json, ServerApi.Failure>)
    ensures r.Err? <==> ListParams(body).Err?
    ensures r.Ok? ==>
              var p := ListParams(body).value;
              var rows := search(SearchDomain(p.search), p.limit, p.offset);
              r.value == ListReply(p, seq(|rows|, i requires 0 <= i < |rows| => ExpandRecord(rows[i])))
    ensures r.Ok? ==>
              var p := ListParams(body).value;
              r.value.Obj? && r.value.fields["count"] == Num(|search(SearchDomain(p.search), p.limit, p.offset)| as real)
  {
    var params := ListParams(body);
    if params.Err? {
      return Err(params.error);
    }
    var p := params.value;
    var rows := search(SearchDomain(p.search), p.limit, p.offset);
    var data := new map<string, Json>[|rows|](i requires 0 <= i < |rows| => rows[i]);
    ExpandAll(data);
    r := Ok(ListReply(p, data[..]));
    assert data[..] == seq(|rows|, i requires 0 <= i < |rows| => ExpandRecord(rows[i]));
  }

  /** The reply of `employee_detail`: a `not_found` object for a missing id, else the expanded record. */
  function DetailReply(exists_: bool, rec: map<string, Json>): (r: Json)
    ensures !exists_ ==> r == Obj(map["error" := Str("not_found"), "message" := Str("Employee not found")])
    ensures exists_ ==> r == Obj(ExpandRecord(rec))
  {
    if !exists_ then Obj(map["error" := Str("not_found"), "message" := Str("Employee not found")])
    else Obj(ExpandRecord(rec))
  }

  /** The read fields never include `error`, so the reply carries `error` exactly when the employee
    * does not exist. */
  lemma DetailErrorIffMissing(exists_: bool, rec: map<string, Json>)
    requires "error" !in rec
    ensures DetailReply(exists_, rec).Obj?
    ensures "error" in DetailReply(exists_, rec).fields <==> !exists_
  {
  }
}
