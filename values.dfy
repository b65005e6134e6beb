/** JavaScript value shapes the rest of the model relies on: optional values,
    promises that settle or hang, and loosely typed scalars with the
    language's "falsy" rule. */
module Values {

  datatype Option<+T> = None | Some(value: T) {
    function GetOr(default: T): T {
      match this
      case Some(v) => v
      case None => default
    }
  }

  /** The fate of an awaited promise: it resolves with a value, or it never
      settles, so the code after the `await` never runs. Rejections are
      modelled by the value type of each operation. */
  datatype Settled<+T> = Resolved(value: T) | NeverSettles

  function After<T>(settles: bool, v: T): (r: Settled<T>)
    ensures r.Resolved? <==> settles
    ensures r.Resolved? ==> r.value == v
  {
    if settles then Resolved(v) else NeverSettles
  }

  /** A JSON-compatible scalar; `Undefined` also stands for a missing key.
      Numbers are kept exact as reals (NaN and infinities are not modelled). */
  datatype Scalar = Undefined | Null | Bool(b: bool) | Num(n: real) | Str(s: string)

  /** JavaScript truthiness of a scalar. */
  predicate Truthy(v: Scalar) {
    match v
    case Undefined => false
    case Null => false
    case Bool(b) => b
    case Num(n) => n != 0.0
    case Str(s) => s != ""
  }

  /** `a || b` on scalars. */
  function Or(a: Scalar, b: Scalar): Scalar {
    if Truthy(a) then a else b
  }

  /** `s || d` where `s` is a string, `null` or `undefined`. */
  function OrElse(s: Option<string>, d: string): string {
    if s.Some? && s.value != "" then s.value else d
  }

  /** `s || d` where `s` is a string. */
  function Either(s: string, d: string): string {
    if s != "" then s else d
  }

  /** A plain object with scalar fields: the records of the collections the
      core stores without interpreting (notes, filter rules, ...). */
  type Record = map<string, Scalar>

  /** Falling back through `||` yields the first non-empty candidate. */
  function FirstNonEmpty(candidates: seq<string>): (r: string)
    ensures r == "" <==> forall i :: 0 <= i < |candidates| ==> candidates[i] == ""
    ensures r != "" ==> exists i :: 0 <= i < |candidates| && candidates[i] == r
                                    && forall j :: 0 <= j < i ==> candidates[j] == ""
  {
    if candidates == [] then ""
    else if candidates[0] != "" then candidates[0]
    else
      var r := FirstNonEmpty(candidates[1..]);
      assert r != "" ==> exists i :: 1 <= i < |candidates| && candidates[i] == r
                                     && forall j :: 0 <= j < i ==> candidates[j] == "" by {
        if r != "" {
          var i :| 0 <= i < |candidates[1..]| && candidates[1..][i] == r
                   && forall j :: 0 <= j < i ==> candidates[1..][j] == "";
          assert candidates[i + 1] == r;
          assert forall j :: 0 <= j < i + 1 ==> candidates[j] == "" by {
            forall j | 0 <= j < i + 1 ensures candidates[j] == "" {
              if j > 0 { assert candidates[j] == candidates[1..][j - 1]; }
            }
          }
        }
      }
      r
  }

  /** `a || b || c` on strings, case by case. */
  lemma FirstNonEmpty2(a: string, b: string)
    ensures FirstNonEmpty([a, b]) == if a != "" then a else b
  {
    assert [a, b][1..] == [b] && [b][1..] == [];
    assert FirstNonEmpty([b]) == b;
  }

  lemma FirstNonEmpty3(a: string, b: string, c: string)
    ensures FirstNonEmpty([a, b, c]) == if a != "" then a else if b != "" then b else c
  {
    assert [a, b, c][1..] == [b, c] && [b, c][1..] == [c] && [c][1..] == [];
    assert FirstNonEmpty([c]) == c;
    assert FirstNonEmpty([b, c]) == if b != "" then b else c;
  }
}
