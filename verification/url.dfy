/**
 * The WHATWG URL parser is not modelled: the client code sees it through `new URL(text)`,
 * which either throws or yields the parsed URL's origin, its serialised query (`search`,
 * empty or starting with `?`) and its decoded query pairs (`searchParams`).
 */
module Url {
  import opened Wrappers

  datatype UrlParts = UrlParts(origin: string, search: string, query: seq<(string, string)>)

  /** `new URL(text)`: None when the constructor throws. */
  type Parser = string -> Option<UrlParts>

  /** `searchParams.get(name)`: the value of the first pair with that name, or null. */
  function SearchParam(query: seq<(string, string)>, name: string): (r: Option<string>)
    ensures r.Some? <==> exists i :: 0 <= i < |query| && query[i].0 == name
    ensures r.Some? ==> exists i :: 0 <= i < |query| && query[i] == (name, r.value)
                                    && forall j :: 0 <= j < i ==> query[j].0 != name
  {
    if query == [] then None
    else if query[0].0 == name then Some(query[0].1)
    else
      var r := SearchParam(query[1..], name);
      if r.Some? then
        var i :| 0 <= i < |query[1..]| && query[1..][i] == (name, r.value)
                 && forall j :: 0 <= j < i ==> query[1..][j].0 != name;
        assert query[i + 1] == (name, r.value);
        r
      else r
  }

  /** `text` parses, and parsing its origin yields that origin again with no query. The WHATWG
    * parser does this for http and https URLs; an opaque origin (serialised as `null`, as for
    * `foo:bar`) does not parse. */
  predicate OriginReparses(parse: Parser, text: string) {
    && parse(text).Some?
    && parse(parse(text).value.origin) == Some(UrlParts(parse(text).value.origin, "", []))
  }
}
