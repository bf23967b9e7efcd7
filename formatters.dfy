/**
 * The guards of the display formatters in `utils.js`. What they produce
 * for a value that passes the guard comes from the browser's locale
 * formatting, so it stays a symbolic piece naming the call and its input.
 */
module Formatters {
  import opened JsValues

  /** One piece of a formatted display: literal text or the output of a locale call. */
  datatype Piece =
    | Text(s: string)
    | LocaleDate(input: JsValue)
    | LocaleTime(input: JsValue)
    | Cad(amount: JsValue)

  const Dash := [Text("-")]

  /** `formatDate`: `-` for every falsy value, the `en-CA` date otherwise. */
  function FormatDate(dateStr: JsValue): (r: seq<Piece>)
    ensures r == Dash <==> !Truthy(dateStr)
    ensures Truthy(dateStr) ==> r == [LocaleDate(dateStr)]
  {
    if !Truthy(dateStr) then Dash else [LocaleDate(dateStr)]
  }

  /** `formatTime`: the empty string for every falsy value, the `en-CA` hour and minute otherwise. */
  function FormatTime(dateStr: JsValue): (r: seq<Piece>)
    ensures r == [Text("")] <==> !Truthy(dateStr)
    ensures Truthy(dateStr) ==> r == [LocaleTime(dateStr)]
  {
    if !Truthy(dateStr) then [Text("")] else [LocaleTime(dateStr)]
  }

  /** `formatDateTime`: `-` for every falsy value, otherwise date, a space, then time. */
  function FormatDateTime(dateStr: JsValue): (r: seq<Piece>)
    ensures r == Dash <==> !Truthy(dateStr)
  {
    if !Truthy(dateStr) then Dash else FormatDate(dateStr) + [Text(" ")] + FormatTime(dateStr)
  }

  /** `formatCurrency`: `-` only for `null` and `undefined` (`amount == null`), the CAD amount otherwise. */
  function FormatCurrency(amount: JsValue): (r: seq<Piece>)
    ensures r == Dash <==> IsNullish(amount)
    ensures !IsNullish(amount) ==> r == [Cad(amount)]
  {
    if IsNullish(amount) then Dash else [Cad(amount)]
  }

  /**
   * Past its own guard `formatDateTime` never shows a placeholder: the
   * inner `formatDate` and `formatTime` see the same truthy value.
   */
  lemma DateTimeHasNoInnerPlaceholder(dateStr: JsValue)
    requires Truthy(dateStr)
    ensures FormatDateTime(dateStr) == [LocaleDate(dateStr), Text(" "), LocaleTime(dateStr)]
  {
  }

  /**
   * The guards differ: zero (a falsy number) is a date placeholder but a
   * real amount, while `null` is a placeholder for both.
   */
  lemma ZeroIsAnAmountButNotADate()
    ensures var zero := Other(false, "0");
      FormatCurrency(zero) == [Cad(zero)] && FormatDate(zero) == Dash && FormatTime(zero) == [Text("")]
    ensures FormatCurrency(Null) == Dash && FormatDate(Undefined) == Dash && FormatDateTime(Null) == Dash
  {
  }
}
