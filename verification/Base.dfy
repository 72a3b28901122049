/** JavaScript strings, JSON values and the Option/Result datatypes shared by every module. */
module Base {

  datatype Option<+T> = None | Some(value: T)

  datatype Result<+T, +E> = Ok(value: T) | Err(error: E) {
    predicate IsFailure() { Err? }
    function PropagateFailure<U>(): Result<U, E> requires Err? { Err(error) }
    function Extract(): T requires Ok? { value }
  }

  /** One UTF-16 code unit. `String.length`, `indexOf` and key sorting all count these. */
  type CodeUnit = n: int | 0 <= n < 0x1_0000

  /** A JavaScript string; lone surrogates are allowed, as they are in the language. */
  type Text = seq<CodeUnit>

  /** The code units of an ASCII literal. */
  function Lit(s: string): (t: Text)
    ensures |t| == |s|
  {
    seq(|s|, i requires 0 <= i < |s| => s[i] as int % 0x1_0000)
  }

  /** Text of an ECMAScript number: digits, sign, point, exponent. */
  predicate IsNumberText(t: Text) {
    && t != []
    && (IsDigit(t[0]) || t[0] == 45)
    && forall i | 0 <= i < |t| :: IsNumberUnit(t[i])
  }

  predicate IsDigit(c: CodeUnit) { 48 <= c <= 57 }

  predicate IsNumberUnit(c: CodeUnit) { IsDigit(c) || c == 43 || c == 45 || c == 46 || c == 101 }

  type NumberText = t: Text | IsNumberText(t) witness [48]

  /** A JSON value. Object members form a map: two objects that differ only in the order
      their keys were inserted are the same value. A finite number stands for the text
      ECMAScript renders it with. */
  datatype Json =
    | JNull
    | JBool(b: bool)
    | JNumber(text: NumberText)
    | JString(s: Text)
    | JArray(items: seq<Json>)
    | JObject(members: map<Text, Json>)
}
