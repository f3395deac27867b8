/** pkg/restjson: the two JSON envelopes every handler answers with. */
module RestJson {
  import opened Wrappers
  import opened Errors

  const StatusOK := 200
  const StatusBadRequest := 400
  const StatusNotFound := 404
  const StatusInternalServerError := 500

  /** `http.StatusText` for the codes this program uses; "" for the rest, as for an unknown code. */
  function StatusText(code: int): string {
    if code == StatusOK then "OK"
    else if code == StatusBadRequest then "Bad Request"
    else if code == StatusNotFound then "Not Found"
    else if code == StatusInternalServerError then "Internal Server Error"
    else ""
  }

  function LowerChar(c: char): char {
    if 'A' <= c <= 'Z' then (c as int + 32) as char else c
  }

  predicate IsUpper(c: char) {
    'A' <= c <= 'Z'
  }

  /**
   * `strings.ToLower` on ASCII text: no capital letter is left, each capital
   * becomes the same letter in lower case, and every other character is kept.
   */
  function ToLower(s: string): (r: string)
    ensures |r| == |s|
    ensures forall i :: 0 <= i < |r| ==> !IsUpper(r[i])
    ensures forall i :: 0 <= i < |s| && !IsUpper(s[i]) ==> r[i] == s[i]
    ensures forall i :: 0 <= i < |s| && IsUpper(s[i]) ==>
      'a' <= r[i] <= 'z' && r[i] as int - 'a' as int == s[i] as int - 'A' as int
  {
    seq(|s|, i requires 0 <= i < |s| => LowerChar(s[i]))
  }

  /** Lower-casing twice is lower-casing once. */
  lemma ToLowerIdempotent(s: string)
    ensures ToLower(ToLower(s)) == ToLower(s)
  {
  }

  /** The status texts the program lowers, as they appear in the error messages. */
  lemma LoweredStatusTexts()
    ensures ToLower(StatusText(StatusOK)) == "ok"
    ensures ToLower(StatusText(StatusBadRequest)) == "bad request"
    ensures ToLower(StatusText(StatusNotFound)) == "not found"
    ensures ToLower(StatusText(StatusInternalServerError)) == "internal server error"
  {
    LowersTo("OK", "ok");
    LowersTo("Bad Request", "bad request");
    LowersTo("Not Found", "not found");
    LowersTo("Internal Server Error", "internal server error");
  }

  lemma LowersTo(s: string, t: string)
    requires |s| == |t| && forall i :: 0 <= i < |s| ==> LowerChar(s[i]) == t[i]
    ensures ToLower(s) == t
  {
  }

  datatype ErrorResponse = ErrorResponse(code: int, message: string)

  datatype Response<T> = Response(code: int, data: T)

  /** What `c.JSON(code, body)` writes: the HTTP status is the envelope's code. */
  datatype Reply<T> = ErrorReply(error: ErrorResponse) | DataReply(body: Response<T>) {
    function Status(): int {
      if ErrorReply? then error.code else body.code
    }
  }

  /** `ResponseError(c, code, err)`: the message is the error's text, or else the lower-cased status text. */
  function ResponseError<T>(code: int, err: Option<Error>): (r: Reply<T>)
    ensures r.ErrorReply? && r.Status() == code && r.error.code == code
    ensures err.Some? ==> r.error.message == Text(err.value)
    ensures err.None? ==> r.error.message == ToLower(StatusText(code))
  {
    var resp := ErrorResponse(code, ToLower(StatusText(code)));
    ErrorReply(if err.Some? then resp.(message := Text(err.value)) else resp)
  }

  /** `ResponseData(c, data)`: always 200, with the data passed through untouched (nil included). */
  function ResponseData<T>(data: T): (r: Reply<T>)
    ensures r.DataReply? && r.Status() == StatusOK && r.body.data == data
  {
    DataReply(Response(StatusOK, data))
  }

  /** The two ResponseError test cases: a given error, and none with 404. */
  lemma ResponseErrorTable()
    ensures ResponseError<int>(StatusBadRequest, Some(New("bad request"))).error == ErrorResponse(400, "bad request")
    ensures ResponseError<int>(StatusNotFound, None).error == ErrorResponse(404, "not found")
  {
    var lower := ToLower("Not Found");
    assert lower[0] == 'n' && lower[3] == ' ' && lower[4] == 'f';
    assert lower == "not found";
  }
}
