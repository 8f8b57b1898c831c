/**
 * The request/response vocabulary the Express handlers share: status codes,
 * replies, the authenticated principal, and JSON body fields with
 * JavaScript's truthiness.
 */
module Http {
  import opened Wrappers

  datatype Status = Ok | Created | BadRequest | Unauthorized | Forbidden | NotFound | ServerError {
    function Code(): nat {
      match this
      case Ok => 200
      case Created => 201
      case BadRequest => 400
      case Unauthorized => 401
      case Forbidden => 403
      case NotFound => 404
      case ServerError => 500
    }
  }

  /**
   * What a handler sends: a JSON body with a success status, an
   * `{ error }` body with a failure status, or the refusal of the
   * `authorizeRoles` middleware (a 403 whose body is not part of this model).
   */
  datatype Reply<T> = Success(status: Status, body: T) | Failure(status: Status, error: string) | Denied {
    function Code(): nat {
      match this
      case Success(s, _) => s.Code()
      case Failure(s, _) => s.Code()
      case Denied => 403
    }
  }

  /** The `req.user` that `authenticateToken` attaches: the token's user id and role claim. */
  datatype Principal = Principal(userId: int, role: string)

  /** `authorizeRoles(...roles)` admits exactly the principals whose role is listed. */
  predicate Authorized(p: Principal, roles: seq<string>) {
    p.role in roles
  }

  /** A field of a JSON request body: absent, `null`, or a value. */
  datatype Field<T> = Undefined | Null | Value(v: T)

  /** A numeric body field as sent: a JSON number or a string to be parsed. */
  datatype Num = Number(n: real) | Text(s: string)

  /** JavaScript truthiness of a string field (`""` is falsy). */
  predicate TruthyText(f: Field<string>) {
    f.Value? && f.v != ""
  }

  /** JavaScript truthiness of an id field (`0` is falsy). */
  predicate TruthyId(f: Field<int>) {
    f.Value? && f.v != 0
  }

  /** JavaScript truthiness of a numeric field (`0` and `""` are falsy, `"0"` is not). */
  predicate TruthyNum(f: Field<Num>) {
    match f
    case Value(Number(n)) => n != 0.0
    case Value(Text(s)) => s != ""
    case _ => false
  }

  /**
   * `parseFloat(f)`, with `None` for NaN. Text is read by `parse`, which
   * stands for the JavaScript engine's number parser.
   */
  function ParseFloat(f: Field<Num>, parse: string -> Option<real>): Option<real> {
    match f
    case Value(Number(n)) => Some(n)
    case Value(Text(s)) => parse(s)
    case _ => None
  }

  /** `f || fallback` for a string field. */
  function TextOr(f: Field<string>, fallback: string): (r: string)
    ensures TruthyText(f) ==> r == f.v
    ensures !TruthyText(f) ==> r == fallback
  {
    if TruthyText(f) then f.v else fallback
  }

  /** `f || null` for a nullable column. */
  function TruthyOrNull(f: Field<string>): (r: Option<string>)
    ensures r.Some? <==> TruthyText(f)
    ensures r.Some? ==> r.value == f.v
  {
    if TruthyText(f) then Some(f.v) else None
  }

  /** `f || null` for a date field: any date sent is truthy. */
  function PresentOrNull<T>(f: Field<T>): (r: Option<T>)
    ensures r.Some? <==> f.Value?
    ensures r.Some? ==> r.value == f.v
  {
    if f.Value? then Some(f.v) else None
  }

  /** `f !== undefined ? f : current` for a nullable column: `null` clears it. */
  function DefinedOr<T>(f: Field<T>, current: Option<T>): (r: Option<T>)
    ensures f.Undefined? ==> r == current
    ensures f.Null? ==> r == None
    ensures f.Value? ==> r == Some(f.v)
  {
    match f
    case Undefined => current
    case Null => None
    case Value(v) => Some(v)
  }

  // ----- Numbers written into text -----

  /** The character of a decimal digit. */
  function Digit(d: nat): (c: char)
    requires d < 10
    ensures '0' <= c <= '9' && c as int - '0' as int == d
  {
    ('0' as int + d) as char
  }

  /** `${n}` for a whole number: its decimal digits, most significant first, without leading zeros. */
  function NatText(n: nat): (r: string)
    ensures r != []
    ensures forall c :: c in r ==> '0' <= c <= '9'
    ensures n > 0 ==> r[0] != '0'
  {
    if n < 10 then [Digit(n)] else NatText(n / 10) + [Digit(n % 10)]
  }

  /** The number a string of decimal digits denotes. */
  function DigitsValue(s: string): int {
    if s == [] then 0 else DigitsValue(s[..|s| - 1]) * 10 + (s[|s| - 1] as int - '0' as int)
  }

  /** Reading the digits back gives the number written. */
  lemma {:induction false} NatTextValue(n: nat)
    ensures DigitsValue(NatText(n)) == n
  {
    if n >= 10 {
      var r := NatText(n);
      assert r[..|r| - 1] == NatText(n / 10);
      NatTextValue(n / 10);
    }
  }
}
