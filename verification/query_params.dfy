/** How the two list endpoints read their query strings: `get(name) || fallback`
    and the "present and not `all`" rule that decides whether a filter applies. */
module QueryParams {
  import opened Base

  /** `searchParams.get(name) || fallback`: the parameter's text, or the
      fallback when it is absent or empty. */
  function ParamOr(raw: Option<string>, fallback: string): (r: string)
    ensures Present(raw) ==> r == raw.value
    ensures !Present(raw) ==> r == fallback
  {
    if Present(raw) then raw.value else fallback
  }

  /** A filter condition: added only for a present value other than `all`. */
  function Condition(param: Option<string>): (c: Option<string>)
    ensures c.Some? <==> Present(param) && param.value != "all"
    ensures c.Some? ==> c == param
  {
    if Present(param) && param.value != "all" then param else None
  }
}
