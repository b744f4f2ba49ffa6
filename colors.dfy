/** `getColors` of src/setupGraphics.js: the line and fill colours of one shape of a thing,
    taken from the built-in pair, from the thing's `defaults`, or from its `perShape` entry
    for the shape, each level replacing both colours of the one before. Colours given as
    text are read by `parseInt(text, 16)`, modelled after section 18.2.5 of ECMA-262
    (6th edition). */
module Colors {
  import opened Wrappers
  import opened JsValues

  // ---------------------------------------------------------------------------------
  // parseInt(string, 16)

  /** StrWhiteSpaceChar of ECMA-262: the white space characters (tab, vertical tab, form
      feed, space, no-break space, byte order mark and the other space separators) and the
      line terminators. */
  predicate IsSpace(c: char)
  {
    || c == '\t' || c == '\U{000B}' || c == '\U{000C}' || c == ' ' || c == '\U{00A0}' || c == '\U{FEFF}'
    || c == '\U{1680}' || ('\U{2000}' <= c <= '\U{200A}') || c == '\U{202F}' || c == '\U{205F}' || c == '\U{3000}'
    || c == '\n' || c == '\r' || c == '\U{2028}' || c == '\U{2029}'
  }

  /** A digit of radix 16, in either case. */
  predicate IsHexDigit(c: char)
  {
    ('0' <= c <= '9') || ('a' <= c <= 'f') || ('A' <= c <= 'F')
  }

  /** The value of a digit of radix 16. */
  function DigitValue(c: char): (d: nat)
    requires IsHexDigit(c)
    ensures d < 16
  {
    if '0' <= c <= '9' then c as int - '0' as int
    else if 'a' <= c <= 'f' then c as int - 'a' as int + 10
    else c as int - 'A' as int + 10
  }

  /** `s` with its leading white space removed. */
  function SkipSpace(s: string): (t: string)
    ensures |t| <= |s| && t == s[|s| - |t|..]
    ensures t == [] || !IsSpace(t[0])
    ensures forall i :: 0 <= i < |s| - |t| ==> IsSpace(s[i])
  {
    if s != [] && IsSpace(s[0]) then SkipSpace(s[1..]) else s
  }

  /** The length of the longest prefix of `s` made of digits of radix 16. */
  function DigitRun(s: string): (n: nat)
    ensures n <= |s|
    ensures forall i :: 0 <= i < n ==> IsHexDigit(s[i])
    ensures n < |s| ==> !IsHexDigit(s[n])
  {
    if s != [] && IsHexDigit(s[0]) then 1 + DigitRun(s[1..]) else 0
  }

  /** Every character of `z` is a digit of radix 16. */
  predicate AllHex(z: string)
  {
    forall i :: 0 <= i < |z| ==> IsHexDigit(z[i])
  }

  function Pow16(n: nat): (p: nat)
    ensures p >= 1
  {
    if n == 0 then 1 else 16 * Pow16(n - 1)
  }

  /** The number the digits `z` represent in radix 16, most significant first. */
  function HexValue(z: string): (v: nat)
    requires AllHex(z)
    ensures v < Pow16(|z|)
  {
    if z == [] then 0 else HexValue(z[..|z| - 1]) * 16 + DigitValue(z[|z| - 1])
  }

  /** A text starts with a minus sign. */
  predicate Minus(t: string)
  {
    t != [] && t[0] == '-'
  }

  /** `v`, negated when `negative`. */
  function Signed(negative: bool, v: int): int
  {
    if negative then -v else v
  }

  /** A text without the one sign it may start with. */
  function Unsigned(t: string): string
  {
    if t != [] && (t[0] == '+' || t[0] == '-') then t[1..] else t
  }

  /** A text without the `0x` or `0X` prefix it may start with. */
  function Unprefixed(u: string): string
  {
    if |u| >= 2 && u[0] == '0' && (u[1] == 'x' || u[1] == 'X') then u[2..] else u
  }

  /** `parseInt(s, 16)`: leading white space is skipped, then one sign, then a `0x` or `0X`
      prefix, and the longest run of digits of radix 16 that follows is read; without a
      digit the result is NaN (`None`). The value is kept exact: the rounding of a long
      run of digits to a double is not modelled. */
  function ParseHex(s: string): Option<int>
  {
    ReadSigned(SkipSpace(s))
  }

  /** What `parseInt` reads once the white space is skipped. */
  function ReadSigned(t: string): Option<int>
  {
    var w := Unprefixed(Unsigned(t));
    var n := DigitRun(w);
    if n == 0 then None else Some(Signed(Minus(t), HexValue(w[..n])))
  }

  /** The text of `x` in radix 16, lower case, without leading zeros. */
  function HexText(x: nat): (z: string)
    ensures |z| >= 1 && AllHex(z)
    ensures |z| > 1 ==> z[0] != '0'
  {
    if x < 16 then [HexChar(x)] else HexText(x / 16) + [HexChar(x % 16)]
  }

  function HexChar(d: nat): (c: char)
    requires d < 16
    ensures IsHexDigit(c) && DigitValue(c) == d
  {
    if d < 10 then ('0' as int + d) as char else ('a' as int + d - 10) as char
  }

  /** Reading digits undoes writing them. */
  lemma {:induction false} HexValueOfText(x: nat)
    ensures HexValue(HexText(x)) == x
  {
    if x >= 16 {
      HexValueOfText(x / 16);
      var z := HexText(x);
      assert z[..|z| - 1] == HexText(x / 16);
    }
  }

  /** The digit run of digits followed by something that is not a digit is those digits. */
  lemma {:induction false} DigitRunOf(z: string, rest: string)
    requires AllHex(z)
    requires rest == [] || !IsHexDigit(rest[0])
    ensures DigitRun(z + rest) == |z|
  {
    if z != [] {
      assert (z + rest)[1..] == z[1..] + rest;
      DigitRunOf(z[1..], rest);
    } else {
      assert z + rest == rest;
    }
  }

  /** Skipping the white space `ws` in front of a text that does not start with white space
      leaves that text. */
  lemma {:induction false} SkipSpaceOf(ws: string, t: string)
    requires forall i :: 0 <= i < |ws| ==> IsSpace(ws[i])
    requires t == [] || !IsSpace(t[0])
    ensures SkipSpace(ws + t) == t
  {
    if ws != [] {
      assert (ws + t)[1..] == ws[1..] + t;
      SkipSpaceOf(ws[1..], t);
    } else {
      assert ws + t == t;
    }
  }

  /** Nothing, or one plus or minus sign. */
  predicate SignText(sign: string)
  {
    |sign| <= 1 && (sign != [] ==> sign[0] == '+' || sign[0] == '-')
  }

  /** Nothing, or `0x`, or `0X`. */
  predicate PrefixText(prefix: string)
  {
    prefix == [] || (|prefix| == 2 && prefix[0] == '0' && (prefix[1] == 'x' || prefix[1] == 'X'))
  }

  /** A sign in front of a text that does not start with one is read and dropped. */
  lemma SignParts(sign: string, u: string)
    requires SignText(sign)
    requires u == [] || (u[0] != '+' && u[0] != '-')
    ensures Unsigned(sign + u) == u
    ensures Minus(sign + u) == Minus(sign)
  {
    if sign == [] {
      assert sign + u == u;
    } else {
      assert (sign + u)[0] == sign[0] && (sign + u)[1..] == u;
    }
  }

  /** A prefix in front of a text is dropped; without one, a text that does not start with
      `0x` or `0X` is kept. */
  lemma PrefixParts(prefix: string, w: string)
    requires PrefixText(prefix)
    requires prefix == [] ==> !(|w| >= 2 && w[0] == '0' && (w[1] == 'x' || w[1] == 'X'))
    ensures Unprefixed(prefix + w) == w
  {
    if prefix == [] {
      assert prefix + w == w;
    } else {
      assert (prefix + w)[0] == '0' && (prefix + w)[1] == prefix[1] && (prefix + w)[2..] == w;
    }
  }

  lemma Regroup(a: string, b: string, c: string, d: string, e: string)
    ensures a + b + c + d + e == a + (b + (c + (d + e)))
  {
  }

  lemma Regroup4(a: string, b: string, c: string, d: string)
    ensures a + b + c + d == a + (b + (c + d))
  {
  }

  /** Digits followed by something other than a digit start with `0x` only when the
      digits are a lone `0` followed by `x`. */
  lemma NoPrefix(digits: string, rest: string)
    requires digits != [] && AllHex(digits)
    requires |digits| == 1 && digits[0] == '0' ==> rest == [] || (rest[0] != 'x' && rest[0] != 'X')
    ensures var w := digits + rest; !(|w| >= 2 && w[0] == '0' && (w[1] == 'x' || w[1] == 'X'))
  {
    var w := digits + rest;
    if |w| >= 2 {
      if |digits| >= 2 {
        assert w[1] == digits[1] && IsHexDigit(digits[1]);
      } else {
        assert w[0] == digits[0] && w[1] == rest[0];
      }
    }
  }

  /** After the white space: an optional sign, an optional prefix, digits, and something
      that does not go on with a digit read as the digits' value with the sign. */
  lemma ReadLayout(sign: string, prefix: string, digits: string, rest: string)
    requires SignText(sign) && PrefixText(prefix)
    requires digits != [] && AllHex(digits)
    requires rest == [] || !IsHexDigit(rest[0])
    requires prefix == [] && |digits| == 1 && digits[0] == '0' ==> rest == [] || (rest[0] != 'x' && rest[0] != 'X')
    ensures ReadSigned(sign + (prefix + (digits + rest))) == Some(Signed(Minus(sign), HexValue(digits)))
  {
    var w := digits + rest;
    var u := prefix + w;
    assert u[0] == if prefix != [] then '0' else digits[0];
    SignParts(sign, u);
    if prefix == [] {
      NoPrefix(digits, rest);
    }
    PrefixParts(prefix, w);
    DigitRunOf(digits, rest);
    assert w[..|digits|] == digits;
  }

  /** The layout `parseInt` accepts: white space, an optional sign, an optional `0x`
      prefix, digits, and then anything that does not go on with a digit. The result is
      the digits' value, negated after a minus. (Without a prefix, a lone `0` followed by
      `x` or `X` would read as a prefix instead.) */
  lemma ParseHexLayout(ws: string, sign: string, prefix: string, digits: string, rest: string)
    requires forall i :: 0 <= i < |ws| ==> IsSpace(ws[i])
    requires SignText(sign) && PrefixText(prefix)
    requires digits != [] && AllHex(digits)
    requires rest == [] || !IsHexDigit(rest[0])
    requires prefix == [] && |digits| == 1 && digits[0] == '0' ==> rest == [] || (rest[0] != 'x' && rest[0] != 'X')
    ensures ParseHex(ws + sign + prefix + digits + rest) == Some(Signed(Minus(sign), HexValue(digits)))
  {
    var t := sign + (prefix + (digits + rest));
    Regroup(ws, sign, prefix, digits, rest);
    assert t[0] == if sign != [] then sign[0] else if prefix != [] then '0' else digits[0];
    SkipSpaceOf(ws, t);
    ReadLayout(sign, prefix, digits, rest);
  }

  /** The text of a whole number in radix 16 reads back as that number, with or without a
      sign, a prefix and leading white space. */
  lemma ParseHexRoundTrip(x: nat, ws: string, sign: string, prefix: string)
    requires forall i :: 0 <= i < |ws| ==> IsSpace(ws[i])
    requires SignText(sign) && PrefixText(prefix)
    ensures ParseHex(ws + sign + prefix + HexText(x)) == Some(Signed(Minus(sign), x))
  {
    HexValueOfText(x);
    ParseHexLayout(ws, sign, prefix, HexText(x), []);
    assert ws + sign + prefix + HexText(x) + [] == ws + sign + prefix + HexText(x);
  }

  /** Without a digit where the digits should start, `parseInt` gives NaN: white space, an
      optional sign, an optional prefix, and then neither a digit nor anything that could
      still be read as white space or a sign. */
  lemma ParseHexNaN(ws: string, sign: string, prefix: string, rest: string)
    requires forall i :: 0 <= i < |ws| ==> IsSpace(ws[i])
    requires SignText(sign) && PrefixText(prefix)
    requires rest == [] || !IsHexDigit(rest[0])
    requires sign == [] && prefix == [] ==> rest == [] || (!IsSpace(rest[0]) && rest[0] != '+' && rest[0] != '-')
    ensures ParseHex(ws + sign + prefix + rest) == None
  {
    var t := sign + (prefix + rest);
    Regroup4(ws, sign, prefix, rest);
    ReadNothing(sign, prefix, rest);
    if t != [] {
      assert t[0] == if sign != [] then sign[0] else if prefix != [] then '0' else rest[0];
    }
    SkipSpaceOf(ws, t);
  }

  /** After the white space: an optional sign and prefix without digits read nothing. */
  lemma ReadNothing(sign: string, prefix: string, rest: string)
    requires SignText(sign) && PrefixText(prefix)
    requires rest == [] || !IsHexDigit(rest[0])
    requires sign == [] && prefix == [] ==> rest == [] || (rest[0] != '+' && rest[0] != '-')
    ensures ReadSigned(sign + (prefix + rest)) == None
  {
    var u := prefix + rest;
    if u != [] {
      assert u[0] == if prefix != [] then '0' else rest[0];
    }
    if sign == [] {
      SignParts(sign, u);
    } else {
      assert (sign + u)[1..] == u;
    }
    PrefixParts(prefix, rest);
  }

  // ---------------------------------------------------------------------------------
  // The text `parseInt` reads

  /** The decimal text of a whole number, as a property key. */
  function DecimalText(x: nat): (z: string)
    ensures |z| >= 1
  {
    if x < 10 then [('0' as int + x) as char] else DecimalText(x / 10) + [('0' as int + x % 10) as char]
  }

  /** ToString of a value, as `parseInt` applies it to its argument. The text of a number
      depends on how doubles are printed, so it is given as `numberText`. An array is the
      texts of its elements joined by commas, undefined and null elements giving nothing. */
  function Text(v: Value, numberText: Number -> string): string
    decreases v
  {
    match v
    case Undefined => "undefined"
    case Null => "null"
    case Bool(b) => if b then "true" else "false"
    case Num(n) => numberText(n)
    case Str(s) => s
    case Arr(items) => Joined(v, items, 0, numberText)
    case Obj(_) => "[object Object]"
  }

  /** The text of a string is the string itself. */
  lemma TextOfString(s: string, numberText: Number -> string)
    ensures Text(Str(s), numberText) == s
  {
  }

  /** The texts of `items[i..]`, each preceded by a comma but the first. */
  function Joined(v: Value, items: seq<Value>, i: nat, numberText: Number -> string): string
    requires v == Arr(items) && i <= |items|
    decreases v, |items| - i
  {
    if i == |items| then ""
    else
      var item := items[i];
      var text := if item.Undefined? || item.Null? then "" else Text(item, numberText);
      (if i == 0 then "" else ",") + text + Joined(v, items, i + 1, numberText)
  }

  /** `parseInt(v, 16)` as a number: NaN when no digit is read. */
  function HexColor(v: Value, numberText: Number -> string): Number
  {
    match ParseHex(Text(v, numberText))
    case None => NaN
    case Some(x) => Finite(x as real)
  }

  // ---------------------------------------------------------------------------------
  // getColors

  /** The two colours of a shape. */
  datatype Colors = Colors(line: Number, fill: Number)

  /** What a call of `getColors` can throw. */
  datatype ColorFault = TypeError  // a member of undefined or null was read

  /** Black lines, white fill. */
  const BuiltIn: Colors := Colors(Finite(0.0), Finite(16777215.0))

  /** `v[i]` for a whole number `i`: an element of an array, the member named by `i`'s
      decimal text of an object, a one-character string of a string, and undefined for
      anything else. */
  function Index(v: Value, i: nat): Value
  {
    match v
    case Arr(items) => if i < |items| then items[i] else Undefined
    case Obj(fields) => Get(v, DecimalText(i))
    case Str(s) => if i < |s| then Str([s[i]]) else Undefined
    case _ => Undefined
  }

  /** Both colours of one level, read from its `line` and `fill`; reading them from null
      throws. */
  function LevelColors(level: Value, numberText: Number -> string): Result<Colors, ColorFault>
  {
    if !Readable(level) then Err(TypeError)
    else Ok(Colors(HexColor(Get(level, "line"), numberText), HexColor(Get(level, "fill"), numberText)))
  }

  /** The level a shape's colours come from, by precedence: the `perShape` entry when there
      is one, else `defaults` when given, else none (`None` means the built-in pair). */
  function Winner(thingColors: Value, shapeIndex: nat): Option<Value>
  {
    if thingColors.Undefined? || !Readable(thingColors) then None
    else
      var perShape := Get(thingColors, "perShape");
      if !perShape.Undefined? && Readable(perShape) && !Index(perShape, shapeIndex).Undefined? then
        Some(Index(perShape, shapeIndex))
      else if !Get(thingColors, "defaults").Undefined? then Some(Get(thingColors, "defaults"))
      else None
  }

  /** Where `getColors` throws: reading `defaults` of null, reading the colours of a null
      `defaults`, indexing a null `perShape`, or reading the colours of a null entry. */
  predicate Throws(thingColors: Value, shapeIndex: nat)
  {
    var defaults, perShape := Get(thingColors, "defaults"), Get(thingColors, "perShape");
    || thingColors.Null?
    || (!thingColors.Undefined? && defaults.Null?)
    || (!thingColors.Undefined? && perShape.Null?)
    || (!thingColors.Undefined? && perShape != Undefined && Index(perShape, shapeIndex).Null?)
  }

  /** `getColors(thingColors, shapeIndex)`: the built-in pair, replaced by both colours of
      `defaults` when it is given, replaced in turn by both colours of
      `perShape[shapeIndex]` when that is given. Both colours always come from the same
      level, even when that level leaves one of them out, which then reads as NaN. */
  function GetColors(thingColors: Value, shapeIndex: nat, numberText: Number -> string): (r: Result<Colors, ColorFault>)
    ensures r.Err? <==> Throws(thingColors, shapeIndex)
    ensures r.Ok? && Winner(thingColors, shapeIndex).None? ==> r.value == BuiltIn
    ensures r.Ok? && Winner(thingColors, shapeIndex).Some? ==>
      var level := Winner(thingColors, shapeIndex).value;
      r.value == Colors(HexColor(Get(level, "line"), numberText), HexColor(Get(level, "fill"), numberText))
  {
    if thingColors.Undefined? then Ok(BuiltIn)
    else if !Readable(thingColors) then Err(TypeError)
    else
      var defaults := Get(thingColors, "defaults");
      var byDefault :- if defaults.Undefined? then Ok(BuiltIn) else LevelColors(defaults, numberText);
      var perShape := Get(thingColors, "perShape");
      if perShape.Undefined? then Ok(byDefault)
      else if !Readable(perShape) then Err(TypeError)
      else
        var entry := Index(perShape, shapeIndex);
        if entry.Undefined? then Ok(byDefault) else LevelColors(entry, numberText)
  }

  /** Reading a member that is left out gives undefined, whose text has no digit. */
  lemma UndefinedIsNaN(numberText: Number -> string)
    ensures HexColor(Undefined, numberText) == NaN
  {
    ParseHexNaN([], [], [], "undefined");
    assert [] + [] + [] + "undefined" == "undefined";
  }

  /** The level that wins replaces both colours: when it leaves the fill out, the fill is
      NaN, whatever a level below it says. */
  lemma LevelWithoutFill(thingColors: Value, shapeIndex: nat, numberText: Number -> string)
    requires GetColors(thingColors, shapeIndex, numberText).Ok?
    requires Winner(thingColors, shapeIndex).Some?
    requires Get(Winner(thingColors, shapeIndex).value, "fill").Undefined?
    ensures GetColors(thingColors, shapeIndex, numberText).value.fill == NaN
  {
    UndefinedIsNaN(numberText);
  }

  /** A colour written as six hexadecimal digits reads as its value, so a level written
      "ff0000" and "00ff00" gives a red line and a green fill. */
  lemma ColorText(x: nat, numberText: Number -> string)
    ensures HexColor(Str(HexText(x)), numberText) == Finite(x as real)
  {
    var z := HexText(x);
    ParseHexRoundTrip(x, [], [], []);
    assert [] + [] + [] + z == z;
    TextOfString(z, numberText);
  }
}
