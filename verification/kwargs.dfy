/**
 * Keyword arguments as the operators receive them: every capability is
 * called with the step's params as `**kwargs`, and binds the names it
 * declares.
 */
module Kwargs {
  import opened Wrappers

  /** Step parameters, as keyword arguments with string values. */
  type Params = map<string, string>

  /** A required keyword parameter; Python raises `TypeError` when it is missing. */
  function Bind(params: Params, name: string): (r: Result<string>)
    ensures r.Ok? <==> name in params
    ensures r.Ok? ==> r.value == params[name]
    ensures r.Err? ==> r.Raises(TypeError)
  {
    if name in params then Ok(params[name])
    else Raise(TypeError, "missing 1 required positional argument: '" + name + "'")
  }

  /** A keyword parameter with a default. */
  function BindOr(params: Params, name: string, default: string): string {
    if name in params then params[name] else default
  }
}
