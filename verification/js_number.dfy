/**
 The JavaScript number conversions the scripts rely on: `parseInt(s, 10) || 0`
 for quantities read from the report and from the ledger, and the decimal
 text an integral total reads back as from the spreadsheet.
 */
module JsNumber {

  import opened Decimal

  /** ECMAScript StrWhiteSpaceChar: the white space and line terminator code points. */
  predicate IsJsWhitespace(c: char)
  {
    || c == '\t' || c == '\n' || c == '\U{000B}' || c == '\U{000C}' || c == '\r'
    || c == ' ' || c == '\U{00A0}' || c == '\U{1680}' || ('\U{2000}' <= c <= '\U{200A}')
    || c == '\U{2028}' || c == '\U{2029}' || c == '\U{202F}' || c == '\U{205F}'
    || c == '\U{3000}' || c == '\U{FEFF}'
  }

  predicate AllWhitespace(s: string)
  {
    forall i :: 0 <= i < |s| ==> IsJsWhitespace(s[i])
  }

  /** Drops leading white space; what is left is a suffix starting with a non-blank. */
  function TrimStart(s: string): (t: string)
    ensures |t| <= |s| && t == s[|s| - |t|..]
    ensures t == [] || !IsJsWhitespace(t[0])
  {
    if s != [] && IsJsWhitespace(s[0]) then
      TrimStart(s[1..])
    else s
  }

  /** The longest prefix of decimal digits. */
  function DigitPrefix(s: string): (d: string)
    ensures |d| <= |s| && d == s[..|d|] && AllDigits(d)
    ensures |d| == |s| || !IsDigit(s[|d|])
  {
    if s != [] && IsDigit(s[0]) then [s[0]] + DigitPrefix(s[1..]) else []
  }

  /**
   `parseInt(s, 10) || 0`: skip leading white space, take one optional sign and
   the longest run of digits after it; no digits (NaN) and negative zero both
   become 0. A missing field reaches `parseInt` as the text "undefined" and so
   also gives 0. Anything after the digits is ignored.
   */
  function ParseIntOr0(s: string): (n: int)
    ensures n != 0 ==> exists i :: 0 <= i < |s| && IsDigit(s[i])
  {
    var t := TrimStart(s);
    var n := ParseSigned(t);
    if n != 0 then
      var u := Unsigned(t);
      assert s[|s| - |u|] == u[0];
      n
    else n
  }

  /** The text after one leading sign, if there is one. */
  function Unsigned(t: string): (u: string)
    ensures |u| <= |t| && u == t[|t| - |u|..]
  {
    if t != [] && (t[0] == '-' || t[0] == '+') then t[1..] else t
  }

  /** `parseInt` on text that starts with a non-blank: one optional sign, then digits. */
  function ParseSigned(t: string): (n: int)
    ensures n != 0 ==> DigitPrefix(Unsigned(t)) != [] && IsDigit(Unsigned(t)[0])
  {
    var d := DigitPrefix(Unsigned(t));
    var v: int := if d == [] then 0 else ValueOf(d);
    if t != [] && t[0] == '-' then -v else v
  }

  /** `String(n)` for an integral number: an optional minus and the shortest digits. */
  function ToDecimal(n: int): string
  {
    if n < 0 then "-" + Digits(-n) else Digits(n)
  }

  /** `ParseIntOr0` is `ParseSigned` after the leading blanks. */
  lemma ParseIntOr0ViaTrim(x: string, t: string)
    requires TrimStart(x) == t
    ensures ParseIntOr0(x) == ParseSigned(t)
  {
  }

  lemma {:induction false} TrimStartWhitespace(ws: string, s: string)
    requires AllWhitespace(ws)
    ensures TrimStart(ws + s) == TrimStart(s)
  {
    if ws != [] {
      var w := ws + s;
      assert w[0] == ws[0] && IsJsWhitespace(w[0]);
      assert w[1..] == ws[1..] + s;
      TrimStartWhitespace(ws[1..], s);
      assert TrimStart(w) == TrimStart(w[1..]);
    } else {
      assert ws + s == s;
    }
  }

  lemma {:induction false} DigitPrefixOf(ds: string, rest: string)
    requires AllDigits(ds)
    requires rest == [] || !IsDigit(rest[0])
    ensures DigitPrefix(ds + rest) == ds
  {
    if ds != [] {
      assert (ds + rest)[1..] == ds[1..] + rest;
      DigitPrefixOf(ds[1..], rest);
    }
  }

  /** A sign or a digit is not white space, so trimming leaves such a text alone. */
  lemma TrimStartSigned(sign: string, rest: string)
    requires sign == "" || sign == "+" || sign == "-"
    requires rest == [] || !IsJsWhitespace(rest[0])
    ensures TrimStart(sign + rest) == sign + rest
  {
    var body := sign + rest;
    if sign != "" {
      assert body[0] == sign[0];
      assert !IsJsWhitespace(body[0]);
    } else {
      assert body == rest;
    }
    TrimStartNonBlank(body);
  }

  lemma TrimStartNonBlank(t: string)
    requires t == [] || !IsJsWhitespace(t[0])
    ensures TrimStart(t) == t
  {
  }

  lemma UnsignedOf(sign: string, rest: string)
    requires sign == "" || sign == "+" || sign == "-"
    requires rest == [] || !(rest[0] == '+' || rest[0] == '-')
    ensures Unsigned(sign + rest) == rest
  {
    var body := sign + rest;
    if sign != "" {
      assert body[1..] == rest;
    } else {
      assert body == rest;
    }
  }

  lemma SignedNumber(sign: string, ds: string, rest: string)
    requires sign == "" || sign == "+" || sign == "-"
    requires ds != [] && AllDigits(ds)
    requires rest == [] || !IsDigit(rest[0])
    ensures ParseSigned(sign + (ds + rest)) == if sign == "-" then -(ValueOf(ds) as int) else ValueOf(ds)
  {
    UnsignedOf(sign, ds + rest);
    DigitPrefixOf(ds, rest);
  }

  /**
   The reference reading of `parseInt`: white space, at most one sign, a
   non-empty run of digits and any non-digit tail denote the signed value of
   the digits.
   */
  lemma ParseIntOr0Decomposed(ws: string, sign: string, ds: string, rest: string)
    requires AllWhitespace(ws)
    requires sign == "" || sign == "+" || sign == "-"
    requires ds != [] && AllDigits(ds)
    requires rest == [] || !IsDigit(rest[0])
    ensures ParseIntOr0(ws + sign + ds + rest) == if sign == "-" then -(ValueOf(ds) as int) else ValueOf(ds)
  {
    var body := sign + (ds + rest);
    assert ws + sign + ds + rest == ws + body;
    TrimStartWhitespace(ws, body);
    TrimStartSigned(sign, ds + rest);
    SignedNumber(sign, ds, rest);
    ParseIntOr0ViaTrim(ws + body, body);
  }

  /** Text with no digit right after its optional sign has no digits to read. */
  lemma NoDigitsAfterSign(body: string, rest: string)
    requires Unsigned(body) == rest
    requires rest == [] || !IsDigit(rest[0])
    ensures ParseSigned(body) == 0
  {
    assert DigitPrefix(rest) == [];
  }

  /** A sign is not white space, and what follows it is what `parseInt` reads digits from. */
  lemma SignThenRest(sign: string, rest: string)
    requires sign == "+" || sign == "-"
    ensures TrimStart(sign + rest) == sign + rest
    ensures Unsigned(sign + rest) == rest
  {
    var body := sign + rest;
    assert body[0] == sign[0];
    assert !IsJsWhitespace(body[0]);
    TrimStartNonBlank(body);
    assert body[0] == '+' || body[0] == '-';
    assert body[1..] == rest;
  }

  /**
   A quantity that is not a number counts as 0: after the leading blanks,
   either a sign followed by anything but a digit (so "--5", "+-3" and "- 5"),
   or a first character that is neither a sign nor a digit; an empty or blank
   field is the case of an empty tail.
   */
  lemma ParseIntOr0NotANumber(ws: string, sign: string, rest: string)
    requires AllWhitespace(ws)
    requires sign == "" || sign == "+" || sign == "-"
    requires rest == [] || !IsDigit(rest[0])
    requires sign == "" ==> rest == [] || !(IsJsWhitespace(rest[0]) || rest[0] == '+' || rest[0] == '-')
    ensures ParseIntOr0(ws + sign + rest) == 0
  {
    var body := sign + rest;
    assert ws + sign + rest == ws + body;
    TrimStartWhitespace(ws, body);
    if sign != "" {
      SignThenRest(sign, rest);
    } else {
      assert body == rest;
      TrimStartNonBlank(rest);
      UnsignedOf(sign, rest);
    }
    NoDigitsAfterSign(body, rest);
    ParseIntOr0ViaTrim(ws + body, body);
  }

  /** A total written to the ledger and read back as text parses to the same total. */
  lemma ToDecimalRoundTrip(n: int)
    ensures ParseIntOr0(ToDecimal(n)) == n
  {
    var m := if n < 0 then -n else n;
    DigitsValue(m);
    var sign := if n < 0 then "-" else "";
    var body := sign + (Digits(m) + "");
    assert body == ToDecimal(n);
    TrimStartSigned(sign, Digits(m) + "");
    SignedNumber(sign, Digits(m), "");
    ParseIntOr0ViaTrim(body, body);
  }
}
