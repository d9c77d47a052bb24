/**
 * What the enrichment contexts share: the parameter map an operator hands to
 * `reset`, `update`, `snapshot` and the query functions, and the error codes
 * a context operation reports.
 */
module Contexts {
  import opened Wrappers
  import opened Values

  /** `context::parameter_map`: a key may be present without a value. */
  type ParameterMap = map<string, Option<string>>

  /** The error codes the contexts report. The message text is not modelled;
      a lookup error keeps the address and a filesystem error the path. */
  datatype Error =
    | LookupError(address: string)
    | FilesystemError(path: string)
    | SerializationError
    | Unimplemented
    | InvalidArgument

  /** The value of a parameter that is present and not null. */
  function Param(params: ParameterMap, key: string): (v: Option<string>)
    ensures v.Some? <==> key in params && params[key].Some?
    ensures v.Some? ==> params[key] == Some(v.value)
  {
    if key in params then params[key] else None
  }

  /** The outcome of `save`: the serialized payload and its format version. */
  datatype SaveResult<T> = SaveResult(data: T, version: nat)

  /** The expression a context's query builds: `field in [keys]`. */
  datatype Expression = InList(field: string, keys: seq<Data>)
}
