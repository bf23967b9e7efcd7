/**
 * `copyBtn` from `utils.js`: the guard, the quote escaping and the size
 * choice; then what a browser makes of the button it returns, so that the
 * text the click copies can be compared with the value.
 */
module CopyButton {
  import opened JsValues

  function Occurrences(s: string, c: char): nat {
    if s == [] then 0 else (if s[0] == c then 1 else 0) + Occurrences(s[1..], c)
  }

  /**
   * `String(value).replace(/"/g, '&quot;')`: no double quote is left, every
   * other character is kept, and each quote grows by five characters.
   */
  function EscapeQuotes(s: string): (r: string)
    ensures '"' !in r
    ensures '"' !in s ==> r == s
    ensures |r| == |s| + 5 * Occurrences(s, '"')
  {
    if s == [] then []
    else (if s[0] == '"' then "&quot;" else [s[0]]) + EscapeQuotes(s[1..])
  }

  /** The values `copyBtn` draws no button for: `null`, `undefined`, `''` and `'-'`. */
  predicate Skipped(value: JsValue) {
    IsNullish(value) || value == Str("") || value == Str("-")
  }

  /** `cleanValue`: `String(value)` with every `"` turned into `&quot;`. */
  function CleanValue(value: JsValue): (r: string)
    ensures '"' !in r
    ensures '"' !in ToJsString(value) ==> r == ToJsString(value)
    ensures |r| == |ToJsString(value)| + 5 * Occurrences(ToJsString(value), '"')
  {
    EscapeQuotes(ToJsString(value))
  }

  function SizeClasses(small: bool): (r: string)
    ensures small ==> r == "w-5 h-5 text-xs"
    ensures !small ==> r == "w-6 h-6 text-xs"
  {
    if small then "w-5 h-5 text-xs" else "w-6 h-6 text-xs"
  }

  const ButtonStart := "<button onclick=\""
  const CallStart := "event.stopPropagation(); copyToClipboard('"
  const CallTail := ", this)"

  /** The inline handler, with the cleaned value between single quotes. */
  function Handler(clean: string): string {
    CallStart + (clean + ("'" + CallTail))
  }

  const ClassTail := " inline-flex items-center justify-center rounded hover:bg-slate-200 text-slate-400 hover:text-slate-600 transition-colors ml-1"

  /** Everything after the handler: the closing quote, the classes, the title and the icon. */
  function ButtonRest(small: bool): (r: string)
    ensures |r| > 0 && r[0] == '"'
  {
    "\" class=\"" + SizeClasses(small) + ClassTail + "\" title=\"Copy\">📋</button>"
  }

  function ButtonHtml(clean: string, small: bool): (r: string)
    ensures |r| > |ButtonStart|
  {
    ButtonStart + Handler(clean) + ButtonRest(small)
  }

  /** `copyBtn(value, small)` as written. */
  function CopyBtn(value: JsValue, small: bool): (r: string)
    ensures r == "" <==> Skipped(value)
    ensures !Skipped(value) ==> r == ButtonHtml(CleanValue(value), small)
  {
    if Skipped(value) then "" else ButtonHtml(CleanValue(value), small)
  }

  // ---------------------------------------------------------------------------
  // What the browser reads back out of the button.

  /** A double-quoted attribute value runs up to the next `"`. */
  function UntilQuote(s: string): string {
    if s == [] || s[0] == '"' then "" else [s[0]] + UntilQuote(s[1..])
  }

  /**
   * The decoding the HTML parser applies to an attribute value, for the
   * characters that matter here: `&amp;` and `&quot;` become `&` and `"`,
   * a carriage return (alone or before a line feed) becomes a line feed, and
   * NUL becomes U+FFFD. Other character references are outside this model.
   */
  function DecodeAttr(s: string): string {
    if s == [] then ""
    else if |s| >= 5 && s[..5] == "&amp;" then "&" + DecodeAttr(s[5..])
    else if |s| >= 6 && s[..6] == "&quot;" then "\"" + DecodeAttr(s[6..])
    else if s[0] == '\r' then
      if |s| >= 2 && s[1] == '\n' then "\n" + DecodeAttr(s[2..]) else "\n" + DecodeAttr(s[1..])
    else if s[0] == '\0' then "\U{FFFD}" + DecodeAttr(s[1..])
    else [s[0]] + DecodeAttr(s[1..])
  }

  /** The decoded `onclick` attribute of a button, when the markup opens with one. */
  function HandlerOf(button: string): Option<string> {
    if ButtonStart <= button then Some(DecodeAttr(UntilQuote(button[|ButtonStart|..]))) else None
  }

  function HexValue(c: char): Option<nat> {
    if '0' <= c <= '9' then Some(c as nat - '0' as nat)
    else if 'a' <= c <= 'f' then Some(c as nat - 'a' as nat + 10)
    else if 'A' <= c <= 'F' then Some(c as nat - 'A' as nat + 10)
    else None
  }

  /**
   * The character a one-letter JavaScript escape `\c` stands for. Digits,
   * `u` and line terminators after a backslash are outside this model.
   */
  function EscapedChar(c: char): Option<char> {
    match c
    case 'n' => Some('\n')
    case 'r' => Some('\r')
    case 't' => Some('\t')
    case 'b' => Some('\U{8}')
    case 'f' => Some('\U{C}')
    case 'v' => Some('\U{B}')
    case _ =>
      if '0' <= c <= '9' || c == 'u' || c == 'x' || c == '\n' || c == '\r' || c == '\U{2028}' || c == '\U{2029}' then None
      else Some(c)
  }

  function Prepend(c: char, parsed: Option<(string, string)>): Option<(string, string)> {
    match parsed
    case None => None
    case Some((text, rest)) => Some(([c] + text, rest))
  }

  /**
   * Reads the body of a single-quoted JavaScript string literal whose
   * opening quote is already consumed: the value and the text after the
   * closing quote, or `None` when the literal does not end properly.
   */
  function ParseJsString(t: string): Option<(string, string)>
    decreases |t|
  {
    if t == [] then None
    else if t[0] == '\'' then Some(("", t[1..]))
    else if t[0] == '\n' || t[0] == '\r' then None
    else if t[0] == '\\' then
      if |t| < 2 then None
      else if t[1] == 'x' then
        if |t| < 4 then None
        else match (HexValue(t[2]), HexValue(t[3]))
          case (Some(hi), Some(lo)) => Prepend((16 * hi + lo) as char, ParseJsString(t[4..]))
          case _ => None
      else match EscapedChar(t[1])
        case None => None
        case Some(c) => Prepend(c, ParseJsString(t[2..]))
    else Prepend(t[0], ParseJsString(t[1..]))
  }

  /**
   * The text a click on the button hands to `copyToClipboard`: the decoded
   * handler must be the call with one string literal and `, this)` after it.
   */
  function CopiedText(button: string): Option<string> {
    match HandlerOf(button)
    case None => None
    case Some(h) =>
      if CallStart <= h then
        match ParseJsString(h[|CallStart|..])
        case Some((text, rest)) => if rest == CallTail then Some(text) else None
        case None => None
      else None
  }

  // ---------------------------------------------------------------------------
  // The escaping keeps the handler inside its attribute.

  lemma {:induction false} UntilQuoteStops(a: string, b: string)
    requires '"' !in a
    ensures UntilQuote(a + "\"" + b) == a
  {
    if a != [] {
      assert (a + "\"" + b)[1..] == a[1..] + "\"" + b;
      UntilQuoteStops(a[1..], b);
      assert a == [a[0]] + a[1..];
    }
  }

  /**
   * Whatever the value, the `onclick` attribute of the button ends exactly
   * where the handler does: the value cannot close the attribute early.
   */
  lemma HandlerStaysInAttribute(clean: string, small: bool)
    requires '"' !in clean
    ensures HandlerOf(ButtonHtml(clean, small)) == Some(DecodeAttr(Handler(clean)))
  {
    var rest := ButtonRest(small);
    assert rest == "\"" + rest[1..];
    HandlerHasNoQuote(clean);
    AttributeEndsAtQuote(Handler(clean), rest[1..]);
  }

  lemma AttributeEndsAtQuote(h: string, tail: string)
    requires '"' !in h
    ensures HandlerOf(ButtonStart + h + ("\"" + tail)) == Some(DecodeAttr(h))
  {
    var b := ButtonStart + (h + "\"" + tail);
    assert b[..|ButtonStart|] == ButtonStart;
    assert b[|ButtonStart|..] == h + "\"" + tail;
    UntilQuoteStops(h, tail);
    assert ButtonStart + h + ("\"" + tail) == b;
  }

  /** The handler text itself holds no double quote when the value does not. */
  lemma HandlerHasNoQuote(clean: string)
    requires '"' !in clean
    ensures '"' !in Handler(clean)
  {
    assert '"' !in CallStart && '"' !in "'" + CallTail;
  }

  /** The case the source states: every value that gets a button gets an intact `onclick` attribute. */
  lemma CopyBtnHandlerIntact(value: JsValue, small: bool)
    requires !Skipped(value)
    ensures HandlerOf(CopyBtn(value, small)) == Some(DecodeAttr(Handler(CleanValue(value))))
  {
    HandlerStaysInAttribute(CleanValue(value), small);
  }

  // ---------------------------------------------------------------------------
  // Decoding and parsing facts.

  /** Text free of `&`, CR and NUL decodes to itself, whatever follows it. */
  lemma {:induction false} DecodePlain(a: string, b: string)
    requires '&' !in a && '\r' !in a && '\0' !in a
    ensures DecodeAttr(a + b) == a + DecodeAttr(b)
  {
    if a != [] {
      var s := a + b;
      assert s[0] == a[0] && s[1..] == a[1..] + b;
      assert !(|s| >= 5 && s[..5] == "&amp;") by {
        if |s| >= 5 { assert s[..5][0] == a[0]; }
      }
      assert !(|s| >= 6 && s[..6] == "&quot;") by {
        if |s| >= 6 { assert s[..6][0] == a[0]; }
      }
      assert DecodeAttr(s) == [a[0]] + DecodeAttr(a[1..] + b);
      DecodePlain(a[1..], b);
      assert a == [a[0]] + a[1..];
      assert a + DecodeAttr(b) == [a[0]] + (a[1..] + DecodeAttr(b));
    } else {
      assert a + b == b;
    }
  }

  /** The character reference the corrected button writes for one character. */
  function AttrEscapeChar(c: char): (r: string)
    ensures '"' !in r
    ensures c != '&' && c != '"' ==> r == [c]
  {
    if c == '&' then "&amp;" else if c == '"' then "&quot;" else [c]
  }

  /** The attribute escaping the source forgot: `&` and `"` as character references. */
  function EscapeAttr(s: string): (r: string)
    ensures '"' !in r
    ensures '&' !in s ==> r == EscapeQuotes(s)
  {
    if s == [] then [] else AttrEscapeChar(s[0]) + EscapeAttr(s[1..])
  }

  /** One escaped character decodes back to itself, whatever follows it. */
  lemma DecodeEscapedChar(c: char, tail: string)
    requires c != '\r' && c != '\0'
    ensures DecodeAttr(AttrEscapeChar(c) + tail) == [c] + DecodeAttr(tail)
  {
    var t := AttrEscapeChar(c) + tail;
    if c == '&' {
      assert t[..5] == "&amp;" && t[5..] == tail;
    } else if c == '"' {
      assert t[..5] != "&amp;" by { assert t[..5][1] == 'q'; }
      assert t[..6] == "&quot;" && t[6..] == tail;
    } else {
      DecodePlain([c], tail);
    }
  }

  lemma ConsAppend(t: string, d: string)
    requires t != []
    ensures t + d == [t[0]] + (t[1..] + d)
  {
    assert t == [t[0]] + t[1..];
  }

  /** EscapeAttr is undone by the attribute decoding, as long as the text has no CR or NUL. */
  lemma {:induction false} DecodeEscaped(t: string, b: string)
    requires '\r' !in t && '\0' !in t
    ensures DecodeAttr(EscapeAttr(t) + b) == t + DecodeAttr(b)
  {
    if t != [] {
      var tail := EscapeAttr(t[1..]) + b;
      assert EscapeAttr(t) + b == AttrEscapeChar(t[0]) + tail;
      DecodeEscapedChar(t[0], tail);
      DecodeEscaped(t[1..], b);
      ConsAppend(t, DecodeAttr(b));
    } else {
      assert EscapeAttr(t) == [];
      assert EscapeAttr(t) + b == b;
      assert t + DecodeAttr(b) == DecodeAttr(b);
    }
  }

  /** The characters a single-quoted JavaScript literal cannot hold as is. */
  predicate NeedsJsEscape(c: char) {
    c == '\\' || c == '\'' || c == '\n' || c == '\r' || c == '\0'
  }

  /** The escape sequence the corrected handler writes for one character. */
  function JsEscapeChar(c: char): (r: string)
    ensures '\r' !in r && '\0' !in r
    ensures !NeedsJsEscape(c) ==> r == [c]
  {
    if c == '\\' then "\\\\"
    else if c == '\'' then "\\'"
    else if c == '\n' then "\\n"
    else if c == '\r' then "\\r"
    else if c == '\0' then "\\x00"
    else [c]
  }

  /** One escaped character is read back as that character, whatever follows it. */
  lemma ParseEscapedChar(c: char, rest: string)
    ensures ParseJsString(JsEscapeChar(c) + rest) == Prepend(c, ParseJsString(rest))
  {
    var t := JsEscapeChar(c) + rest;
    if c == '\\' || c == '\'' || c == '\n' || c == '\r' {
      assert t[0] == '\\' && t[2..] == rest;
    } else if c == '\0' {
      assert t[0] == '\\' && t[1] == 'x' && t[2] == '0' && t[3] == '0' && t[4..] == rest;
    } else {
      assert t[0] == c && t[1..] == rest;
    }
  }

  /**
   * The JavaScript escaping the source forgot: backslash, single quote,
   * CR, LF and NUL, so that no CR or NUL is left in the text.
   */
  function EscapeJs(s: string): (r: string)
    ensures '\r' !in r && '\0' !in r
    ensures (forall k :: 0 <= k < |s| ==> !NeedsJsEscape(s[k])) ==> r == s
  {
    if s == [] then []
    else
      var r := JsEscapeChar(s[0]) + EscapeJs(s[1..]);
      assert s == [s[0]] + s[1..];
      r
  }

  /** A JavaScript-escaped value between single quotes reads back as the value. */
  lemma {:induction false} ParseEscaped(s: string, tail: string)
    ensures ParseJsString(EscapeJs(s) + "'" + tail) == Some((s, tail))
  {
    if s == [] {
      assert EscapeJs(s) + "'" + tail == "'" + tail;
    } else {
      var rest := EscapeJs(s[1..]) + "'" + tail;
      assert EscapeJs(s) + "'" + tail == JsEscapeChar(s[0]) + rest;
      ParseEscapedChar(s[0], rest);
      ParseEscaped(s[1..], tail);
      assert s == [s[0]] + s[1..];
    }
  }

  /** The fixed text of the handler needs no decoding and holds no quote. */
  lemma CallStartIsPlain()
    ensures '&' !in CallStart && '\r' !in CallStart && '\0' !in CallStart
  {
    CallStartHasNo('&');
    CallStartHasNo('\r');
    CallStartHasNo('\0');
  }

  lemma CallStartHasNo(c: char)
    requires c == '&' || c == '\r' || c == '\0'
    ensures c !in CallStart
  {
  }

  lemma CallTailIsPlain()
    ensures '&' !in CallTail && '\r' !in CallTail && '\0' !in CallTail
  {
  }

  lemma SplitAfter(a: string, b: string)
    ensures a <= a + b && (a + b)[|a|..] == b
  {
    assert (a + b)[..|a|] == a;
  }

  /** The handler decodes to the call around the value once the attribute escaping is undone. */
  lemma DecodeHandler(j: string)
    requires '\r' !in j && '\0' !in j
    ensures DecodeAttr(Handler(EscapeAttr(j))) == CallStart + (j + ("'" + CallTail))
  {
    var callEnd := "'" + CallTail;
    CallStartIsPlain();
    CallTailIsPlain();
    assert '&' !in callEnd && '\r' !in callEnd && '\0' !in callEnd;
    DecodePlain(CallStart, EscapeAttr(j) + callEnd);
    DecodeEscaped(j, callEnd);
    DecodePlain(callEnd, "");
    assert callEnd + "" == callEnd;
  }

  /** A button whose handler carries a value escaped for both layers copies exactly that value. */
  lemma CopiesEscapedValue(s: string, small: bool)
    ensures CopiedText(ButtonHtml(EscapeAttr(EscapeJs(s)), small)) == Some(s)
  {
    var j := EscapeJs(s);
    HandlerStaysInAttribute(EscapeAttr(j), small);
    DecodeHandler(j);
    SplitAfter(CallStart, j + ("'" + CallTail));
    assert j + ("'" + CallTail) == j + "'" + CallTail;
    ParseEscaped(s, CallTail);
  }

  // ---------------------------------------------------------------------------
  // The finding: the handler quotes the value for the attribute but not for
  // the JavaScript string literal inside it.

  /**
   * As written, an apostrophe ends the literal early: for `O'Brien` the
   * literal reads `O`, the handler text goes on with `Brien', this)`, and the
   * click copies nothing.
   */
  lemma ApostropheBreaksHandler()
    ensures HandlerOf(CopyBtn(Str("O'Brien"), false)) == Some(Handler("O'Brien"))
    ensures ParseJsString("O'Brien" + ("'" + CallTail)) == Some(("O", "Brien" + ("'" + CallTail)))
    ensures CopiedText(CopyBtn(Str("O'Brien"), false)) == None
  {
    var v := "O'Brien";
    var rest := "Brien" + ("'" + CallTail);
    ApostropheHandlerIntact();
    ApostropheEndsLiteral();
    SplitAfter(CallStart, v + ("'" + CallTail));
    assert rest != CallTail by {
      assert rest[0] == 'B' && CallTail[0] == ',';
    }
  }

  /** Values with no `"`, `&`, CR or NUL reach the handler unchanged. */
  lemma AttributePlainHandler(value: JsValue, small: bool)
    requires !Skipped(value)
    requires var s := ToJsString(value); '"' !in s && '&' !in s && '\r' !in s && '\0' !in s
    ensures HandlerOf(CopyBtn(value, small)) == Some(Handler(ToJsString(value)))
  {
    var s := ToJsString(value);
    CopyBtnHandlerIntact(value, small);
    assert EscapeAttr(s) == CleanValue(value) == s;
    DecodeHandler(s);
  }

  /** The attribute layer is fine for `O'Brien`: the handler is the call around it. */
  lemma ApostropheHandlerIntact()
    ensures HandlerOf(CopyBtn(Str("O'Brien"), false)) == Some(Handler("O'Brien"))
  {
    var v := "O'Brien";
    assert '"' !in v && '&' !in v && '\r' !in v && '\0' !in v;
    AttributePlainHandler(Str(v), false);
  }

  /** The literal layer is not: the apostrophe closes the string after `O`. */
  lemma ApostropheEndsLiteral()
    ensures ParseJsString("O'Brien" + ("'" + CallTail)) == Some(("O", "Brien" + ("'" + CallTail)))
  {
    assert "O'Brien" == ['O'] + ("'" + "Brien");
    Regroup(['O'], "'", "Brien", "'" + CallTail);
    LiteralEndsAtQuote('O', "Brien" + ("'" + CallTail));
  }

  lemma Regroup(a: string, b: string, c: string, d: string)
    ensures a + (b + c) + d == a + (b + (c + d))
  {
  }

  /** A plain character then a quote: the literal holds just that character. */
  lemma LiteralEndsAtQuote(c: char, rest: string)
    requires c != '\'' && c != '\\' && c != '\n' && c != '\r'
    ensures ParseJsString([c] + ("'" + rest)) == Some(([c], rest))
  {
    var t := [c] + ("'" + rest);
    assert t[0] == c && t[1..] == "'" + rest;
    assert t[1..][0] == '\'' && t[1..][1..] == rest;
    assert ParseJsString(t[1..]) == Some(("", rest));
    assert [c] + "" == [c];
  }

  /** Predicate: nothing in `s` needs escaping at either layer beyond what the source does. */
  predicate Plain(s: string) {
    forall k :: 0 <= k < |s| ==> s[k] != '&' && !NeedsJsEscape(s[k])
  }

  /** As written, values free of `&`, backslash, apostrophe, CR, LF and NUL are copied unchanged. */
  lemma PlainValuesAreCopied(value: JsValue, small: bool)
    requires !Skipped(value) && Plain(ToJsString(value))
    ensures CopiedText(CopyBtn(value, small)) == Some(ToJsString(value))
  {
    var s := ToJsString(value);
    assert EscapeJs(s) == s;
    assert '&' !in s;
    assert CleanValue(value) == EscapeAttr(EscapeJs(s));
    CopiesEscapedValue(s, small);
  }

  /** The same button with the value escaped for the string literal first, then for the attribute. */
  function CopyBtnFixed(value: JsValue, small: bool): (r: string)
    ensures r == "" <==> Skipped(value)
    ensures Plain(ToJsString(value)) ==> r == CopyBtn(value, small)
  {
    if Skipped(value) then ""
    else
      var s := ToJsString(value);
      assert Plain(s) ==> EscapeJs(s) == s && '&' !in s;
      ButtonHtml(EscapeAttr(EscapeJs(s)), small)
  }

  /** Corrected, every value that gets a button is copied exactly. */
  lemma FixedCopiesEveryValue(value: JsValue, small: bool)
    requires !Skipped(value)
    ensures CopiedText(CopyBtnFixed(value, small)) == Some(ToJsString(value))
  {
    CopiesEscapedValue(ToJsString(value), small);
  }
}
