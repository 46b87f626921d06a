/**
 * The shapes shared by the route handlers: what an awaited call settles to,
 * what a `catch` clause receives, the JSON reply a handler returns, and the
 * truthiness tests that the guard chains apply to request fields.
 */
module Http {
  import opened Wrappers

  /** What a `catch (error)` clause receives: an `Error` instance carries a
      message; any other thrown value does not. */
  datatype Thrown = ErrorObject(message: string) | NonError

  /** How an awaited call settles: resolved with a value, or rejected. */
  datatype Outcome<T> = Returned(value: T) | Threw(thrown: Thrown)

  /** A `NextResponse.json(...)` reply: a success body with its status, or
      a `{ error }` body with its status. */
  datatype Reply<T> = Json(status: nat, body: T) | ErrorJson(status: nat, error: string) {
    function Status(): nat {
      match this
      case Json(s, _) => s
      case ErrorJson(s, _) => s
    }
  }

  /** JavaScript truthiness of an optional string field: present and not empty. */
  predicate Truthy(field: Option<string>) {
    field.Some? && field.value != ""
  }

  /** `field || ""`: the field when truthy, otherwise the empty string. */
  function OrEmpty(field: Option<string>): (r: string)
    ensures Truthy(field) ==> r == field.value
    ensures !Truthy(field) ==> r == ""
  {
    if Truthy(field) then field.value else ""
  }

  /** `process.env[key]` read as a truthy test. */
  predicate EnvSet(env: map<string, string>, key: string) {
    key in env && env[key] != ""
  }
}
