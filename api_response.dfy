/** `ApiResponse<T>` and `ApiResponseList<T>`: the envelopes every endpoint answers
    with. `null` arguments are `None`; arrays and lists are sequences. */
module ApiResponses {
  import opened Wrappers

  datatype ApiResponse<T> = ApiResponse(
    value: Option<T>, isSuccess: bool, hasWarnings: bool, errors: seq<string>, warnings: seq<string>)

  datatype ApiResponseList<T> = ApiResponseList(
    total: int, pageIndex: int, items: seq<T>, isSuccess: bool, hasWarnings: bool,
    errors: seq<string>, warnings: seq<string>)

  /** The flag agrees with the list: an envelope has warnings exactly when it carries
      some, and a successful one carries no errors. */
  predicate Consistent<T>(r: ApiResponse<T>) {
    (r.hasWarnings <==> r.warnings != []) && (r.isSuccess ==> r.errors == [])
  }

  predicate ListConsistent<T>(r: ApiResponseList<T>) {
    (r.hasWarnings <==> r.warnings != []) && (r.isSuccess ==> r.errors == [])
  }

  /** `warnings ?? Array.Empty<string>()`. */
  function WarningsOrEmpty(warnings: Option<seq<string>>): (w: seq<string>)
    ensures warnings.None? ==> w == []
    ensures warnings.Some? ==> w == warnings.value
  {
    if warnings.Some? then warnings.value else []
  }

  /** `warnings?.Length > 0`: false for `null`. */
  predicate AnyWarnings(warnings: Option<seq<string>>) {
    warnings.Some? && |warnings.value| > 0
  }

  /** `ApiResponse.Success`. */
  function Success<T>(value: T, warnings: Option<seq<string>>): (r: ApiResponse<T>)
    ensures r.isSuccess && r.value == Some(value) && r.errors == []
    ensures r.hasWarnings <==> AnyWarnings(warnings)
    ensures r.warnings == WarningsOrEmpty(warnings)
    ensures Consistent(r)
  {
    ApiResponse(Some(value), true, AnyWarnings(warnings), [], WarningsOrEmpty(warnings))
  }

  /** `ApiResponse.Failure`: no warnings, whatever the errors. */
  function Failure<T>(errors: seq<string>, value: Option<T>): (r: ApiResponse<T>)
    ensures !r.isSuccess && !r.hasWarnings && r.warnings == []
    ensures r.errors == errors && r.value == value
    ensures Consistent(r)
  {
    ApiResponse(value, false, false, errors, [])
  }

  /** `Total = total > 0 ? total : items.Count`. */
  function TotalOrCount<T>(items: seq<T>, total: int): (n: int)
    ensures n > 0 || (n == |items| && total <= 0)
    ensures total > 0 ==> n == total
    ensures total <= 0 ==> n == |items|
  {
    if total > 0 then total else |items|
  }

  /** The `ApiResponseList` constructor: successful, no errors and no warnings. */
  function NewApiResponseList<T>(items: seq<T>, total: int, pageIndex: int): (r: ApiResponseList<T>)
    ensures r.items == items && r.pageIndex == pageIndex && r.total == TotalOrCount(items, total)
    ensures r.isSuccess && !r.hasWarnings && r.errors == [] && r.warnings == []
    ensures ListConsistent(r)
  {
    ApiResponseList(TotalOrCount(items, total), pageIndex, items, true, false, [], [])
  }

  /** `ApiResponseList.Success`. */
  function ListSuccess<T>(items: seq<T>, total: int, pageIndex: int, warnings: Option<seq<string>>)
    : (r: ApiResponseList<T>)
    ensures r.items == items && r.pageIndex == pageIndex && r.total == TotalOrCount(items, total)
    ensures r.isSuccess && r.errors == []
    ensures r.hasWarnings <==> AnyWarnings(warnings)
    ensures r.warnings == WarningsOrEmpty(warnings)
    ensures ListConsistent(r)
  {
    ApiResponseList(TotalOrCount(items, total), pageIndex, items, true, AnyWarnings(warnings), [],
                    WarningsOrEmpty(warnings))
  }

  /** `ApiResponseList.Failure`: counts reset, items defaulting to none. */
  function ListFailure<T>(errors: seq<string>, items: Option<seq<T>>): (r: ApiResponseList<T>)
    ensures r.total == 0 && r.pageIndex == 0
    ensures r.items == if items.Some? then items.value else []
    ensures !r.isSuccess && !r.hasWarnings && r.errors == errors && r.warnings == []
    ensures ListConsistent(r)
  {
    ApiResponseList(0, 0, if items.Some? then items.value else [], false, false, errors, [])
  }

  /** A list envelope built with the constructor and one built with `Success` and no
      warnings are the same envelope. */
  lemma ConstructorIsSuccessWithoutWarnings<T>(items: seq<T>, total: int, pageIndex: int)
    ensures NewApiResponseList(items, total, pageIndex) == ListSuccess(items, total, pageIndex, None)
    ensures NewApiResponseList(items, total, pageIndex) == ListSuccess(items, total, pageIndex, Some([]))
  {
  }
}
