/** The part of net/http the handlers use: status codes and the responses they write. */
module Http {
  const StatusOK := 200
  const StatusFound := 302
  const StatusBadRequest := 400
  const StatusNotFound := 404
  const StatusInternalServerError := 500

  /**
   * A handler's response: a status with a body, a redirect, or a request aborted by a
   * panic (net/http then closes the connection without a reply).
   */
  datatype Response =
    | Reply(status: int, body: string)
    | Redirect(status: int, location: string)
    | Aborted(reason: string)

  /** http.Error: the message and a newline, with the given status. */
  function Error(msg: string, code: int): (r: Response)
    ensures r.Reply? && r.status == code && r.body == msg + "\n"
  {
    Reply(code, msg + "\n")
  }

  /** url.Values: each key with the values given for it, in order. */
  type Values = map<string, seq<string>>

  /** url.Values.Get: the first value of the key, "" when it has none. */
  function Get(v: Values, key: string): (r: string)
    ensures key in v && |v[key]| > 0 ==> r == v[key][0]
    ensures (key !in v || v[key] == []) ==> r == ""
  {
    if key in v && |v[key]| > 0 then v[key][0] else ""
  }
}
