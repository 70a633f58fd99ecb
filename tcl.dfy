/**
 * The Tcl side of the bridge, reduced to what the commands observe:
 * values (words and results), the outcome of a command, the decimal text
 * of integers, Tcl's internal string representation (a modified UTF-8 in
 * which U+0000 is the two bytes C0 80), and the word parsers the commands
 * call (Tcl_GetIntFromObj, Tcl_GetWideIntFromObj, Tcl_GetDoubleFromObj,
 * Tcl_GetBooleanFromObj, Tcl_ListObjGetElements).
 */
module Tcl {
  import opened Wrappers

  type byte = x: int | 0 <= x < 256

  /**
   * A Tcl value.  Dbl is a word Tcl reads as a double; its numeric value is
   * an opaque token (floating point is not modelled), only its text is kept.
   */
  datatype Value =
    | Str(s: string)
    | Int(i: int)
    | Bool(b: bool)
    | Dbl(text: string)
    | Bytes(data: seq<byte>)
    | List(items: seq<Value>)

  /** Tcl_NewObj(): the empty value. */
  const Empty: Value := Str("")

  /** What a command leaves behind: TCL_OK with a result, or TCL_ERROR with a message and -errorcode. */
  datatype Outcome =
    | Ok(result: Value)
    | Error(message: string, errorCode: seq<string>)

  /** Tcl_WrongNumArgs(ip, 1, objv, usage) followed by TCL_ERROR. */
  function WrongArgs(objv: seq<Value>, usage: string): (r: Outcome)
    requires |objv| >= 1
    ensures r.Error? && r.errorCode == ["TCL", "WRONGARGS"]
  {
    Error("wrong # args: should be \"" + Text(objv[0]) + " " + usage + "\"", ["TCL", "WRONGARGS"])
  }

  /** A message left with Tcl_SetResult or Tcl_SetObjResult before TCL_ERROR: -errorcode stays Tcl's default NONE. */
  function Failure(text: string): (r: Outcome)
    ensures r.Error? && r.message == text && r.errorCode == ["NONE"]
  {
    Error(text, ["NONE"])
  }

  // ---------------------------------------------------------------------
  // Decimal text of integers (Tcl_NewLongObj / Tcl_NewIntObj string form)
  // ---------------------------------------------------------------------

  predicate IsDigit(c: char) { '0' <= c <= '9' }

  predicate AllDigits(s: string) { forall k :: 0 <= k < |s| ==> IsDigit(s[k]) }

  function DigitChar(d: nat): (c: char)
    requires d < 10
    ensures IsDigit(c) && (c as int) - ('0' as int) == d
  {
    (('0' as int) + d) as char
  }

  /** The shortest decimal text of n. */
  function Digits(n: nat): (r: string)
    ensures |r| >= 1 && AllDigits(r)
    ensures (r[0] == '0') <==> n == 0
    decreases n
  {
    if n < 10 then [DigitChar(n)] else Digits(n / 10) + [DigitChar(n % 10)]
  }

  /** The value of a string of decimal digits. */
  function DigitsValue(s: string): nat
    requires AllDigits(s)
    decreases |s|
  {
    if s == [] then 0
    else DigitsValue(s[..|s| - 1]) * 10 + ((s[|s| - 1] as int) - ('0' as int))
  }

  lemma {:induction false} DigitsRoundTrip(n: nat)
    ensures DigitsValue(Digits(n)) == n
    decreases n
  {
    if n >= 10 {
      var r := Digits(n);
      assert r[..|r| - 1] == Digits(n / 10);
      DigitsRoundTrip(n / 10);
    }
  }

  /** Distinct naturals have distinct decimal texts. */
  lemma DigitsInjective(n: nat, m: nat)
    requires n != m
    ensures Digits(n) != Digits(m)
  {
    DigitsRoundTrip(n);
    DigitsRoundTrip(m);
  }

  /** The decimal text of an integer, with a leading '-' when negative. */
  function IntText(i: int): string
  {
    if i < 0 then "-" + Digits(-i) else Digits(i)
  }

  /** Optional sign followed by one or more decimal digits. */
  function ParseInt(s: string): Option<int>
  {
    if |s| >= 2 && s[0] == '-' && AllDigits(s[1..]) then Some(-(DigitsValue(s[1..]) as int))
    else if |s| >= 2 && s[0] == '+' && AllDigits(s[1..]) then Some(DigitsValue(s[1..]))
    else if |s| >= 1 && AllDigits(s) then Some(DigitsValue(s))
    else None
  }

  /** Reading back the text of an integer gives the integer. */
  lemma IntTextRoundTrip(i: int)
    ensures ParseInt(IntText(i)) == Some(i)
  {
    if i < 0 {
      DigitsRoundTrip(-i);
      assert IntText(i)[1..] == Digits(-i);
    } else {
      DigitsRoundTrip(i);
    }
  }

  // ---------------------------------------------------------------------
  // String representation
  // ---------------------------------------------------------------------

  function BoolText(b: bool): string { if b then "1" else "0" }

  function ByteChars(d: seq<byte>): (r: string)
    ensures |r| == |d|
  {
    seq(|d|, k requires 0 <= k < |d| => d[k] as char)
  }

  /** Tcl_GetString: the text of a value (list elements joined by single spaces; brace quoting is not modelled). */
  function Text(v: Value): string
    decreases v, if v.List? then |v.items| + 1 else 0
  {
    match v
    case Str(s) => s
    case Int(i) => IntText(i)
    case Bool(b) => BoolText(b)
    case Dbl(t) => t
    case Bytes(d) => ByteChars(d)
    case List(items) => ItemsText(v, 0)
  }

  function ItemsText(v: Value, k: nat): string
    requires v.List? && k <= |v.items|
    decreases v, |v.items| - k
  {
    if k == |v.items| then ""
    else if k == |v.items| - 1 then Text(v.items[k])
    else Text(v.items[k]) + " " + ItemsText(v, k + 1)
  }

  /** The bytes Tcl stores for one character: UTF-8, except that U+0000 takes the two bytes C0 80. */
  function EncodeChar(c: char): (r: seq<byte>)
    ensures 1 <= |r| <= 4
    ensures forall k :: 0 <= k < |r| ==> r[k] != 0
  {
    var n := c as int;
    if n == 0 then [0xC0, 0x80]
    else if n < 0x80 then [n]
    else if n < 0x800 then [0xC0 + n / 64, 0x80 + n % 64]
    else if n < 0x10000 then [0xE0 + n / 4096, 0x80 + (n / 64) % 64, 0x80 + n % 64]
    else [0xF0 + n / 262144, 0x80 + (n / 4096) % 64, 0x80 + (n / 64) % 64, 0x80 + n % 64]
  }

  /** Tcl_GetStringFromObj: the bytes of a string in Tcl's internal form. */
  function Rep(s: string): seq<byte>
    decreases |s|
  {
    if s == [] then [] else EncodeChar(s[0]) + Rep(s[1..])
  }

  /** The internal form Tcl builds for a string never holds a zero byte, whatever characters the string has. */
  lemma {:induction false} RepHasNoZeroByte(s: string)
    ensures 0 !in Rep(s)
    decreases |s|
  {
    if s != [] {
      RepHasNoZeroByte(s[1..]);
    }
  }

  /** A continuation byte of a multi-byte sequence: 10xxxxxx. */
  predicate IsTrail(b: byte) { 0x80 <= b < 0xC0 }

  /** A code point a char can hold: at most U+10FFFF and not a surrogate. */
  predicate IsScalar(n: int) { 0 <= n < 0xD800 || 0xE000 <= n <= 0x10FFFF }

  /** The code point of a two-, three- or four-byte sequence at the head of d. */
  function Two(d: seq<byte>): int
    requires |d| >= 2
  {
    (d[0] as int - 0xC0) * 64 + (d[1] as int - 0x80)
  }

  function Three(d: seq<byte>): int
    requires |d| >= 3
  {
    (d[0] as int - 0xE0) * 4096 + (d[1] as int - 0x80) * 64 + (d[2] as int - 0x80)
  }

  function Four(d: seq<byte>): int
    requires |d| >= 4
  {
    (d[0] as int - 0xF0) * 262144 + (d[1] as int - 0x80) * 4096 + (d[2] as int - 0x80) * 64 + (d[3] as int - 0x80)
  }

  /**
   * Tcl_UtfToUniChar on the bytes at the head of d: the character and how
   * many bytes it takes. A well-formed UTF-8 sequence, or C0 80 for U+0000,
   * gives its character; any other byte stands for the character of its
   * own value.
   */
  function DecodeHead(d: seq<byte>): (r: (char, nat))
    requires |d| > 0
    ensures 1 <= r.1 <= |d| && r.1 <= 4
    ensures d[0] < 0x80 ==> r == (d[0] as char, 1)
  {
    var b := d[0];
    if 0xC0 <= b < 0xE0 && |d| >= 2 && IsTrail(d[1]) && (Two(d) == 0 || Two(d) >= 0x80) then
      (Two(d) as char, 2)
    else if 0xE0 <= b < 0xF0 && |d| >= 3 && IsTrail(d[1]) && IsTrail(d[2]) && Three(d) >= 0x800 && IsScalar(Three(d)) then
      (Three(d) as char, 3)
    else if 0xF0 <= b < 0xF8 && |d| >= 4 && IsTrail(d[1]) && IsTrail(d[2]) && IsTrail(d[3]) && 0x10000 <= Four(d) <= 0x10FFFF then
      (Four(d) as char, 4)
    else
      (b as char, 1)
  }

  /** Tcl_NewStringObj: the characters of a run of UTF-8 bytes. */
  function Decode(d: seq<byte>): (s: string)
    ensures |s| <= |d|
    decreases |d|
  {
    if d == [] then [] else
    var (c, n) := DecodeHead(d);
    [c] + Decode(d[n..])
  }

  /** The bytes of a string in standard UTF-8, as the database client returns text: U+0000 is the single byte 0. */
  function Utf8(s: string): seq<byte>
    decreases |s|
  {
    if s == [] then [] else (if s[0] == 0 as char then [0] else EncodeChar(s[0])) + Utf8(s[1..])
  }

  /** Six low bits and the rest: n is rebuilt from n / 64 and n % 64. */
  lemma TwoParts(n: nat)
    ensures (n / 64) * 64 + n % 64 == n && n % 64 < 64
  {
  }

  lemma ThreeParts(n: nat)
    ensures (n / 4096) * 4096 + ((n / 64) % 64) * 64 + n % 64 == n
  {
    var q := n / 64;
    TwoParts(n);
    TwoParts(q);
    assert n == (q / 64) * 4096 + (q % 64) * 64 + n % 64;
    assert q / 64 == n / 4096;
  }

  lemma FourParts(n: nat)
    ensures (n / 262144) * 262144 + ((n / 4096) % 64) * 4096 + ((n / 64) % 64) * 64 + n % 64 == n
  {
    var q := n / 64;
    ThreeParts(q);
    TwoParts(n);
    assert q == (q / 4096) * 4096 + ((q / 64) % 64) * 64 + q % 64;
    assert q / 4096 == n / 262144;
    assert q / 64 == n / 4096;
  }

  lemma DecodeHeadTwo(c: char, rest: seq<byte>)
    requires 0x80 <= c as int < 0x800
    ensures DecodeHead(EncodeChar(c) + rest) == (c, 2)
  {
    var n := c as int;
    var d := EncodeChar(c) + rest;
    TwoParts(n);
    assert d[0] == 0xC0 + n / 64 && d[1] == 0x80 + n % 64;
    assert Two(d) == n;
  }

  lemma DecodeHeadThree(c: char, rest: seq<byte>)
    requires 0x800 <= c as int < 0x10000
    ensures DecodeHead(EncodeChar(c) + rest) == (c, 3)
  {
    var n := c as int;
    var d := EncodeChar(c) + rest;
    ThreeParts(n);
    assert d[0] == 0xE0 + n / 4096 && d[1] == 0x80 + (n / 64) % 64 && d[2] == 0x80 + n % 64;
    assert Three(d) == n;
  }

  lemma DecodeHeadFour(c: char, rest: seq<byte>)
    requires 0x10000 <= c as int
    ensures DecodeHead(EncodeChar(c) + rest) == (c, 4)
  {
    var n := c as int;
    var d := EncodeChar(c) + rest;
    FourParts(n);
    assert d[0] == 0xF0 + n / 262144 && d[1] == 0x80 + (n / 4096) % 64;
    assert d[2] == 0x80 + (n / 64) % 64 && d[3] == 0x80 + n % 64;
    assert Four(d) == n;
  }

  /** One encoded character is read back whole, whatever follows it. */
  lemma DecodeHeadEncode(c: char, rest: seq<byte>)
    ensures DecodeHead(EncodeChar(c) + rest) == (c, |EncodeChar(c)|)
  {
    var n := c as int;
    if n == 0 {
      assert Two(EncodeChar(c) + rest) == 0;
    } else if n < 0x80 {
    } else if n < 0x800 {
      DecodeHeadTwo(c, rest);
    } else if n < 0x10000 {
      DecodeHeadThree(c, rest);
    } else {
      DecodeHeadFour(c, rest);
    }
  }

  /** Reading the first character of an encoding leaves the encoding of the rest. */
  lemma DecodeStep(c: char, rest: seq<byte>)
    ensures Decode(EncodeChar(c) + rest) == [c] + Decode(rest)
  {
    var d := EncodeChar(c) + rest;
    DecodeHeadEncode(c, rest);
    assert d[|EncodeChar(c)|..] == rest;
  }

  /** Text kept in Tcl's internal form reads back as the same string. */
  lemma {:induction false} DecodeRep(s: string)
    ensures Decode(Rep(s)) == s
    decreases |s|
  {
    if s != [] {
      DecodeStep(s[0], Rep(s[1..]));
      DecodeRep(s[1..]);
    }
  }

  /** Text sent in standard UTF-8 reads back as the same string. */
  lemma {:induction false} DecodeUtf8(s: string)
    ensures Decode(Utf8(s)) == s
    decreases |s|
  {
    if s != [] {
      if s[0] == 0 as char {
        var d := [0 as byte] + Utf8(s[1..]);
        assert d[1..] == Utf8(s[1..]);
      } else {
        DecodeStep(s[0], Utf8(s[1..]));
      }
      DecodeUtf8(s[1..]);
    }
  }

  /** Bytes below 0x80 are read one character each, with the byte's value. */
  lemma {:induction false} DecodeAscii(d: seq<byte>)
    requires forall k :: 0 <= k < |d| ==> d[k] < 0x80
    ensures Decode(d) == ByteChars(d)
    decreases |d|
  {
    if d != [] {
      DecodeAscii(d[1..]);
      assert ByteChars(d) == [d[0] as char] + ByteChars(d[1..]);
    }
  }

  lemma {:induction false} RepLength(s: string)
    ensures |s| <= |Rep(s)| <= 4 * |s|
    decreases |s|
  {
    if s != [] {
      RepLength(s[1..]);
    }
  }

  // ---------------------------------------------------------------------
  // Word parsers
  // ---------------------------------------------------------------------

  predicate InWide(i: int) { -0x8000_0000_0000_0000 <= i < 0x8000_0000_0000_0000 }
  predicate InInt(i: int) { -0x8000_0000 <= i < 0x8000_0000 }

  /** Tcl_GetWideIntFromObj: decimal text within 64 bits. */
  function GetWide(v: Value): (r: Option<int>)
    ensures r.Some? <==> ParseInt(Text(v)).Some? && InWide(ParseInt(Text(v)).value)
    ensures r.Some? ==> r.value == ParseInt(Text(v)).value
  {
    match ParseInt(Text(v))
    case Some(i) => if InWide(i) then Some(i) else None
    case None => None
  }

  /**
   * The integers Tcl_GetIntFromObj accepts where a C long has 64 bits: it
   * reads the word with Tcl_GetLongFromObj, which also takes unsigned long
   * values from 2^63 up, cast to long (so below zero), and then refuses a
   * long outside INT_MIN to UINT_MAX. That leaves a signed or an unsigned
   * 32-bit value, or an unsigned long whose cast lies in [INT_MIN, 0).
   */
  predicate IntWord(i: int)
  {
    -0x8000_0000 <= i < 0x1_0000_0000 ||
    0x1_0000_0000_0000_0000 - 0x8000_0000 <= i < 0x1_0000_0000_0000_0000
  }

  /**
   * Tcl_GetIntFromObj: the long Tcl_GetLongFromObj makes of the word, cast
   * to a C int, so that 2^31 to 2^32-1 wrap to negative values and so does
   * the top of the unsigned long range (18446744073709551615 reads as -1).
   */
  function GetInt(v: Value): (r: Option<int>)
    ensures r.Some? <==> ParseInt(Text(v)).Some? && IntWord(ParseInt(Text(v)).value)
    ensures r.Some? ==> InInt(r.value) && (r.value - ParseInt(Text(v)).value) % 0x1_0000_0000 == 0
    ensures r.Some? && InInt(ParseInt(Text(v)).value) ==> r.value == ParseInt(Text(v)).value
  {
    match ParseInt(Text(v))
    case Some(i) =>
      if !IntWord(i) then None
      else if i < 0x8000_0000 then Some(i)
      else if i < 0x1_0000_0000 then Some(i - 0x1_0000_0000)
      else Some(i - 0x1_0000_0000_0000_0000)
    case None => None
  }

  /** What Tcl_GetIntFromObj and Tcl_GetWideIntFromObj expect, as their error message names it. */
  const Integer := "integer"
  /** What Tcl_GetBooleanFromObj expects. */
  const Boolean := "boolean value"
  /** What Tcl_GetDoubleFromObj expects. */
  const FloatingPoint := "floating-point number"

  /** The error a Tcl_Get*FromObj call leaves for a word it rejects, expected naming what it wanted. */
  function NotA(expected: string, v: Value): (r: Outcome)
    ensures r.Error? && r.errorCode == ["TCL", "VALUE", "NUMBER"]
  {
    Error("expected " + expected + " but got \"" + Text(v) + "\"", ["TCL", "VALUE", "NUMBER"])
  }

  /** Tcl's message for an integer outside the range asked for. */
  const TooLarge := "integer value too large to represent"

  /** The error Tcl_GetIntFromObj and Tcl_GetWideIntFromObj leave for an integer they cannot hold. */
  const Overflow: Outcome := Error(TooLarge, ["ARITH", "IOVERFLOW", TooLarge])

  /**
   * The error Tcl_GetIntFromObj or Tcl_GetWideIntFromObj leaves for a word
   * it rejects: an overflow for integer text out of its range, otherwise
   * "expected integer".
   */
  function IntRefusal(v: Value): (r: Outcome)
    ensures r.Error?
    ensures r.errorCode == (if ParseInt(Text(v)).Some? then ["ARITH", "IOVERFLOW", TooLarge] else ["TCL", "VALUE", "NUMBER"])
  {
    if ParseInt(Text(v)).Some? then Overflow else NotA(Integer, v)
  }

  /**
   * An integer word: Tcl_GetIntFromObj takes it when it lies between
   * INT_MIN and UINT_MAX, 2^31 and above wrapping to negative values, or
   * in the top 2^31 values below 2^64, which wrap through the unsigned long
   * to negative values, and refuses any other with the overflow error; Tcl_GetWideIntFromObj takes
   * exactly the 64-bit values and refuses the others in the same way.
   */
  lemma IntegerWords(i: int)
    ensures GetInt(Int(i)) ==
      if -0x8000_0000 <= i < 0x8000_0000 then Some(i)
      else if 0x8000_0000 <= i < 0x1_0000_0000 then Some(i - 0x1_0000_0000)
      else if 0x1_0000_0000_0000_0000 - 0x8000_0000 <= i < 0x1_0000_0000_0000_0000 then Some(i - 0x1_0000_0000_0000_0000)
      else None
    ensures GetWide(Int(i)) == (if InWide(i) then Some(i) else None)
    ensures GetInt(Int(i)).None? || GetWide(Int(i)).None? ==> IntRefusal(Int(i)) == Overflow
  {
    IntTextRoundTrip(i);
  }

  /** Whether every character of t fits in one byte (U+0000 to U+00FF). */
  predicate FitsBytes(t: string)
  {
    forall k :: 0 <= k < |t| ==> t[k] as int <= 0xFF
  }

  /**
   * Tcl_GetByteArrayFromObj as Tcl 9 defines it: a byte array's bytes; a
   * value whose characters all fit in a byte gives one byte per character;
   * a value with a wider character gives no bytes (the call returns NULL
   * and leaves the length unset).
   */
  function ByteArrayOf(v: Value): (r: seq<byte>)
    ensures v.Bytes? ==> r == v.data
    ensures !v.Bytes? && FitsBytes(Text(v)) ==>
      |r| == |Text(v)| && forall k :: 0 <= k < |r| ==> r[k] as int == Text(v)[k] as int
    ensures !v.Bytes? && !FitsBytes(Text(v)) ==> r == []
  {
    if v.Bytes? then v.data
    else
      var t := Text(v);
      if FitsBytes(t) then seq(|t|, k requires 0 <= k < |t| => (t[k] as int) % 256)
      else []
  }

  /** A byte array shown as a string (one character per byte) reads back as the same bytes. */
  lemma ByteArrayOfByteChars(d: seq<byte>)
    ensures ByteArrayOf(Str(ByteChars(d))) == d
  {
    var t := ByteChars(d);
    assert FitsBytes(t) by {
      forall k | 0 <= k < |t| ensures t[k] as int <= 0xFF {
        assert t[k] == d[k] as char;
      }
    }
  }

  /** A string holding the euro sign (U+20AC) gives no bytes at all. */
  lemma WideCharGivesNoBytes(s: string)
    requires '\U{20AC}' in s
    ensures ByteArrayOf(Str(s)) == []
  {
    var k :| 0 <= k < |s| && s[k] == '\U{20AC}';
  }

  /** A word parsed into a T, or the outcome of rejecting it. */
  datatype Parsed<T> = Parsed(value: T) | Rejected(outcome: Outcome)

  /** Tcl_GetDoubleFromObj succeeds: any integer text, or a double word. */
  predicate IsDouble(v: Value)
  {
    v.Dbl? || ParseInt(Text(v)).Some?
  }

  /** Tcl_GetBooleanFromObj: integers (non-zero is true) and the words true/false/yes/no/on/off. */
  function GetBoolean(v: Value): Option<bool>
  {
    var t := Text(v);
    if ParseInt(t).Some? then Some(ParseInt(t).value != 0)
    else if t == "true" || t == "yes" || t == "on" then Some(true)
    else if t == "false" || t == "no" || t == "off" then Some(false)
    else None
  }

  /** Tcl_ListObjGetElements: a List value gives its items, the empty string no items, any other value itself. */
  function GetList(v: Value): seq<Value>
  {
    if v.List? then v.items else if Text(v) == "" then [] else [v]
  }

  /** The first character of a word, '\0' for the empty word (C's `Tcl_GetString(o)[0]`). */
  function FirstChar(v: Value): char
  {
    var t := Text(v);
    if t == [] then '\0' else t[0]
  }
}
