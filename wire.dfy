/** HTTP requests between the client and the server: the route, the query
    string as a list of name/value pairs (`URLSearchParams`), and the
    form-encoded body of a POST. */
module Wire {
  import opened Wrappers

  type Param = (string, string)

  datatype Verb = Get | Post | Put | Delete

  /** `/emails` or `/emails/{id}`. */
  datatype Route = Collection | Item(id: int)

  datatype Request = Request(verb: Verb, route: Route, query: seq<Param>, form: seq<Param>)

  /** How a `fetch` ends for the client: a 2xx response carrying a value,
      a response whose `ok` is false, or an exception (network failure,
      unreadable body). */
  datatype Outcome<+T> = Success(value: T) | Rejected | Threw

  /** How a PUT ends for a client that acts on `response.ok` before it
      reads the body: a 2xx response whose body then reads as a value or
      throws (`None`), a response whose `ok` is false, or an exception
      before any response arrives. */
  datatype PutOutcome<+T> = Accepted(body: Option<T>) | Refused | Failed

  /** The error responses of the server: 404 for a missing email and 422
      for a request whose parameters do not bind. */
  datatype HttpError = NotFound | Unprocessable {
    function Status(): (code: int)
      ensures code == 404 <==> NotFound?
      ensures code == 422 <==> Unprocessable?
    {
      match this
      case NotFound => 404
      case Unprocessable => 422
    }
  }

  /** The value of the first parameter named `key`, if any. */
  function Lookup(params: seq<Param>, key: string): Option<string> {
    if params == [] then None
    else if params[0].0 == key then Some(params[0].1)
    else Lookup(params[1..], key)
  }

  /** A parameter is found exactly when some pair carries its name, and the
      value found is the one of the first such pair. */
  lemma {:induction false} LookupMeaning(params: seq<Param>, key: string)
    ensures Lookup(params, key).Some? <==> exists i :: 0 <= i < |params| && params[i].0 == key
    ensures Lookup(params, key).Some? ==>
      exists i :: 0 <= i < |params| && params[i] == (key, Lookup(params, key).value)
                  && forall j :: 0 <= j < i ==> params[j].0 != key
  {
    if params != [] && params[0].0 != key {
      LookupMeaning(params[1..], key);
      assert forall i :: 1 <= i < |params| ==> params[i] == params[1..][i - 1];
      if Lookup(params, key).Some? {
        var i :| 0 <= i < |params[1..]| && params[1..][i] == (key, Lookup(params, key).value)
                 && forall j :: 0 <= j < i ==> params[1..][j].0 != key;
        assert params[i + 1] == (key, Lookup(params, key).value);
        assert forall j :: 0 <= j < i + 1 ==> params[j].0 != key by {
          forall j | 0 <= j < i + 1 ensures params[j].0 != key {
            if j > 0 {
              assert params[j] == params[1..][j - 1];
            }
          }
        }
      }
    } else if params != [] {
      assert params[0] == (key, Lookup(params, key).value);
    }
  }

  /** `String(b)` of JavaScript. */
  function BoolText(b: bool): string {
    if b then "true" else "false"
  }

  /** The two spellings of a boolean query parameter the client produces. */
  function ParseBool(s: string): (r: Option<bool>)
    ensures r.Some? ==> BoolText(r.value) == s
  {
    if s == "true" then Some(true)
    else if s == "false" then Some(false)
    else None
  }

  lemma BoolTextRoundTrip(b: bool)
    ensures ParseBool(BoolText(b)) == Some(b)
  {
  }
}
