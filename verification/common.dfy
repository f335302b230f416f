/**
 * Shared vocabulary of the ledger endpoints: how a handler sees its request
 * body, how it builds a response, and the byte-array comparison used to bind
 * attestation evidence to a caller (dist/src/endpoints/common.js).
 */
module Common {

  newtype uint8 = x: int | 0 <= x < 0x100

  datatype Option<T> = None | Some(value: T)

  datatype Result<T, E> = Success(value: T) | Failure(error: E)

  /** A JSON value as a handler sees one field of `request.body.json()`.
      `JOther` stands for null, numbers, booleans and objects: the handlers
      only ever ask whether a field is a string or an array. */
  datatype Json = Undefined | JString(s: string) | JArray(items: seq<Json>) | JOther

  /** The outcome of `request.body.json()` followed by destructuring:
      either it throws (malformed text, or a `null` body), with the engine's
      message, or it yields the fields present in the body. */
  datatype RequestBody = Unparsable(reason: string) | Object(fields: map<string, Json>)

  /** Destructuring a missing key yields `undefined`. */
  function Field(fields: map<string, Json>, name: string): Json
  {
    if name in fields then fields[name] else Undefined
  }

  /** The guard `!x || typeof x !== "string"` is false exactly for a
      non-empty string. */
  predicate IsNonEmptyString(v: Json)
  {
    v.JString? && v.s != ""
  }

  /** Who may do what: `acl.authz.actionAllowed(callerId, permission)`. */
  type Authorizer = (string, string) -> bool

  /** The body of a handler's response: none, a text, the `{error: msg}`
      object built by errorResponse, or a structured payload. */
  datatype ResponseBody<P> = NoBody | Text(text: string) | Error(error: string) | Payload(value: P)

  datatype Response<P> = Response(statusCode: int, body: ResponseBody<P>)

  /** errorResponse: the status is kept and the message becomes `body.error`. */
  function ErrorResponse<P>(code: int, msg: string): (r: Response<P>)
    ensures r.statusCode == code
    ensures r.body.Error? && r.body.error == msg
  {
    Response(code, Error(msg))
  }

  /** The `{ok, value}` records of result_ok and result_error. */
  datatype Outcome = Outcome(ok: bool, value: string)

  function ResultOk(): (r: Outcome)
    ensures r.ok && r.value == "Everything ok"
  {
    Outcome(true, "Everything ok")
  }

  function ResultError(msg: string): (r: Outcome)
    ensures !r.ok && r.value == msg
    ensures r != ResultOk()
  {
    Outcome(false, msg)
  }

  /** Pointwise equality of two byte arrays: same length, same byte at every index. */
  predicate SameBytes(a: seq<uint8>, b: seq<uint8>)
  {
    |a| == |b| && forall i :: 0 <= i < |a| ==> a[i] == b[i]
  }

  /** equal_uint8array: a length check, then an index loop that stops at the
      first differing byte. */
  method EqualBytes(a: seq<uint8>, b: seq<uint8>) returns (equal: bool)
    ensures |a| != |b| ==> !equal
    ensures equal <==> SameBytes(a, b)
  {
    if |a| != |b| {
      return false;
    }
    var i := 0;
    while i < |a|
      invariant 0 <= i <= |a|
      invariant forall k :: 0 <= k < i ==> a[k] == b[k]
    {
      if a[i] != b[i] {
        return false;
      }
      i := i + 1;
    }
    return true;
  }

  /** The pointwise comparison decides sequence equality; hence it is
      reflexive and symmetric. */
  lemma SameBytesIsEquality(a: seq<uint8>, b: seq<uint8>)
    ensures SameBytes(a, b) <==> a == b
    ensures SameBytes(a, a)
    ensures SameBytes(a, b) == SameBytes(b, a)
  {
  }

  /** `slice(0, 32)` on a typed array: the first 32 bytes, or all of them
      when there are fewer. */
  function Prefix32(s: seq<uint8>): (p: seq<uint8>)
    ensures |p| == if |s| < 32 then |s| else 32
    ensures p <= s
  {
    if |s| <= 32 then s else s[..32]
  }

  function Digit(d: nat): (c: char)
    requires d < 10
    ensures '0' <= c <= '9'
  {
    "0123456789"[d]
  }

  function DigitValue(c: char): (d: nat)
    requires '0' <= c <= '9'
    ensures d < 10 && Digit(d) == c
  {
    c as int - '0' as int
  }

  /** `String(n)` for a natural number: its decimal digits, no leading zero. */
  function DecimalString(n: nat): (s: string)
    ensures |s| >= 1
    ensures forall i :: 0 <= i < |s| ==> '0' <= s[i] <= '9'
    ensures |s| > 1 ==> s[0] != '0'
    decreases n
  {
    if n < 10 then [Digit(n)] else DecimalString(n / 10) + [Digit(n % 10)]
  }

  /** The number a string of decimal digits denotes (what `Number` gives back
      for such a string). */
  function DecimalValue(s: string): nat
    requires forall i :: 0 <= i < |s| ==> '0' <= s[i] <= '9'
  {
    if |s| == 0 then 0 else DecimalValue(s[..|s| - 1]) * 10 + DigitValue(s[|s| - 1])
  }

  /** Reading back the decimal text of a case id gives the id: distinct ids
      are reported as distinct texts. */
  lemma {:induction false} DecimalRoundTrip(n: nat)
    ensures DecimalValue(DecimalString(n)) == n
  {
    var s := DecimalString(n);
    if n < 10 {
      DigitRoundTrip(n);
      assert s[..0] == [];
    } else {
      var q, d := n / 10, n % 10;
      DecimalRoundTrip(q);
      DigitRoundTrip(d);
      assert s[..|s| - 1] == DecimalString(q);
      assert s[|s| - 1] == Digit(d);
      assert q * 10 + d == n;
    }
  }

  lemma DigitRoundTrip(d: nat)
    requires d < 10
    ensures DigitValue(Digit(d)) == d
  {
  }

  lemma DecimalStringInjective(m: nat, n: nat)
    ensures DecimalString(m) == DecimalString(n) ==> m == n
  {
    DecimalRoundTrip(m);
    DecimalRoundTrip(n);
  }
}
