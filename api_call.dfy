/** The loading/error pair wrapped around one awaited backend call. */
module ApiCall {
  import opened Outcomes

  class ApiCallState {
    var isLoading: bool
    var apiError: Option<Failure>

    constructor ()
      ensures !isLoading && apiError == None
    {
      isLoading := false;
      apiError := None;
    }

    /** The two updates made before the call is awaited. */
    method Begin()
      modifies this
      ensures isLoading && apiError == None
    {
      isLoading := true;
      apiError := None;
    }

    /** The `catch` and `finally` blocks: record a rejection, clear the
        loading flag, and hand the outcome on unchanged. */
    method Settle<T>(outcome: Result<T, Failure>) returns (r: Result<T, Failure>)
      requires isLoading && apiError == None
      modifies this
      ensures r == outcome
      ensures !isLoading
      ensures apiError == (if outcome.Err? then Some(outcome.error) else None)
    {
      if outcome.Err? {
        apiError := Some(outcome.error);
      }
      isLoading := false;
      r := outcome;
    }

    /** `execute(apiFunction, args)`: the action is applied to `args`; its
        value is returned, or its error is recorded and raised again. */
    method Execute<A, T>(action: A -> Result<T, Failure>, args: A) returns (r: Result<T, Failure>)
      modifies this
      ensures r == action(args)
      ensures !isLoading
      ensures r.Ok? ==> apiError == None
      ensures r.Err? ==> apiError == Some(r.error)
    {
      Begin();
      var outcome := action(args);
      r := Settle(outcome);
    }

    /** The exposed `setApiError` setter. */
    method SetApiError(e: Option<Failure>)
      modifies this
      ensures apiError == e && isLoading == old(isLoading)
    {
      apiError := e;
    }
  }
}
