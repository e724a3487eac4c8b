/**
 * What a controller action sends back: a status code with a JSON body, or an
 * Error (a TypeError, an uninitialized property) that no `catch (\Exception)`
 * handles and that leaves the action unanswered.
 */
module Responses {
  import opened Wrappers
  import opened Php

  type Array = seq<(Key, Value)>

  datatype Response = Json(status: int, body: Array) | Uncaught(error: string)

  /** `['success' => false, 'error' => $message]` under `status`. */
  function Fail(status: int, message: string): (r: Response)
    ensures r.Json? && r.status == status && ErrorOf(r) == Some(message)
  {
    Json(status, Put(Put([], StrKey("success"), Bool(false)), StrKey("error"), Str(message)))
  }

  /** `['success' => false, 'error' => $message, 'details' => $e->getMessage()]` under `status`. */
  function Detailed(status: int, message: string, details: string): (r: Response)
    ensures r.Json? && r.status == status && ErrorOf(r) == Some(message)
    ensures Lookup(r.body, StrKey("details")) == Some(Str(details))
  {
    var body := Put(Put([], StrKey("success"), Bool(false)), StrKey("error"), Str(message));
    Json(status, Put(body, StrKey("details"), Str(details)))
  }

  /** The `error` entry of a JSON body, when it holds a string. */
  function ErrorOf(r: Response): Option<string> {
    if r.Json? && Lookup(r.body, StrKey("error")).Some? && Lookup(r.body, StrKey("error")).value.Str?
    then Some(Lookup(r.body, StrKey("error")).value.s)
    else None
  }
}
