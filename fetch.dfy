/**
 * orafetch (cmd_fetch.c): reading the rows of an executed query.  The
 * options are scanned into a FetchOptions record; the query's columns are
 * described once; each row's values are converted from the driver's data
 * (ValueToObj), and the row is handed to the array and variable named by
 * the options, to a -command script and to the list of rows.  The
 * driver's answers (column descriptions, fetched rows, LOB sizes and
 * reads) and the outcome of each -command script are parameters.
 */
module Fetch {
  import opened Wrappers
  import opened Tcl
  import opened Native
  import opened Handles
  import opened Naming
  import opened Status
  import opened State
  import LobCmd

  const FetchUsage: string := "statement-handle ?options?"

  type u64 = LobCmd.u64

  // ---------------------------------------------------------------------
  // Column types
  // ---------------------------------------------------------------------

  /** dpiOracleTypeNum, as far as orafetch tells the types apart. */
  datatype ColumnType =
    | VarcharCol | NVarcharCol | CharCol | NCharCol | ClobCol | NClobCol | LongVarcharCol
    | NumberCol | DateCol | TimestampCol | RawCol | LongRawCol | BlobCol | BFileCol | BooleanCol
    | OtherCol(num: nat)

  /** is_char_type: the column's bytes are text. */
  predicate IsCharType(t: ColumnType)
  {
    t in {VarcharCol, NVarcharCol, CharCol, NCharCol, ClobCol, NClobCol, LongVarcharCol}
  }

  /** The character types are exactly the variable, fixed, long and large character types, national or not. */
  lemma CharTypes(t: ColumnType)
    ensures IsCharType(t) <==>
      t.VarcharCol? || t.NVarcharCol? || t.CharCol? || t.NCharCol? || t.ClobCol? || t.NClobCol? || t.LongVarcharCol?
    ensures !IsCharType(RawCol) && !IsCharType(LongRawCol) && !IsCharType(BlobCol) && !IsCharType(BFileCol)
  {
  }

  // ---------------------------------------------------------------------
  // upper_copy
  // ---------------------------------------------------------------------

  /** A character in ASCII upper case: only 'a'..'z' change. */
  function UpperChar(c: char): (u: char)
    ensures 'a' <= c <= 'z' ==> u as int == c as int - 32 && 'A' <= u <= 'Z'
    ensures !('a' <= c <= 'z') ==> u == c
  {
    if 'a' <= c <= 'z' then (c as int - 'a' as int + 'A' as int) as char else c
  }

  /** The text upper-cased character by character. */
  function Upper(s: string): (r: string)
    ensures |r| == |s| && forall k :: 0 <= k < |s| ==> r[k] == UpperChar(s[k])
  {
    seq(|s|, k requires 0 <= k < |s| => UpperChar(s[k]))
  }

  /** Upper-casing changes no character outside 'a'..'z', leaves no 'a'..'z', and a second pass changes nothing. */
  lemma UpperProperties(s: string)
    ensures forall k :: 0 <= k < |s| && !('a' <= s[k] <= 'z') ==> Upper(s)[k] == s[k]
    ensures forall k :: 0 <= k < |s| ==> !('a' <= Upper(s)[k] <= 'z')
    ensures Upper(Upper(s)) == Upper(s)
  {
  }

  /** upper_copy: a fresh copy of the name whose characters are upper-cased in place. */
  method UpperCopy(s: string) returns (r: string)
    ensures r == Upper(s)
  {
    var p := new char[|s|](k requires 0 <= k < |s| => s[k]);
    var i := 0;
    while i < |s|
      invariant 0 <= i <= |s|
      invariant forall k :: 0 <= k < i ==> p[k] == UpperChar(s[k])
      invariant forall k :: i <= k < |s| ==> p[k] == s[k]
    {
      if 'a' <= p[i] <= 'z' {
        p[i] := (p[i] as int - 'a' as int + 'A' as int) as char;
      }
      i := i + 1;
    }
    r := p[..];
  }

  // ---------------------------------------------------------------------
  // Timestamps
  // ---------------------------------------------------------------------

  /** dpiTimestamp: year is a signed 16-bit field, the others unsigned; fsecond is in nanoseconds. */
  datatype Timestamp = Timestamp(year: int, month: nat, day: nat, hour: nat, minute: nat, second: nat, fsecond: nat)

  function Zeros(n: nat): (r: string)
    ensures |r| == n && AllDigits(r)
  {
    seq(n, _ => '0')
  }

  /** printf's "%0<w>u": the decimal text of n, left-padded with zeros to at least w characters. */
  function ZeroPad(n: nat, w: nat): (r: string)
    ensures AllDigits(r) && |r| == if |Digits(n)| < w then w else |Digits(n)|
  {
    var d := Digits(n);
    if |d| < w then Zeros(w - |d|) + d else d
  }

  /** printf's "%0<w>d": as ZeroPad, with the '-' of a negative number counted in the width. */
  function SignedPad(i: int, w: nat): string
  {
    if i < 0 then "-" + ZeroPad(-i, if w > 0 then w - 1 else 0) else ZeroPad(i, w)
  }

  /** The text of a timestamp column: "%04d-%02u-%02uT%02u:%02u:%02u.%06u", the fraction in microseconds. */
  function TimestampText(ts: Timestamp): string
  {
    DatePart(ts) + "T" + TimePart(ts)
  }

  function DatePart(ts: Timestamp): string
  {
    SignedPad(ts.year, 4) + "-" + ZeroPad(ts.month, 2) + "-" + ZeroPad(ts.day, 2)
  }

  function TimePart(ts: Timestamp): string
  {
    ZeroPad(ts.hour, 2) + ":" + ZeroPad(ts.minute, 2) + ":" + ZeroPad(ts.second, 2) + "." + ZeroPad(ts.fsecond / 1000, 6)
  }

  function Pow10(n: nat): (p: nat)
    ensures p >= 1
  {
    if n == 0 then 1 else 10 * Pow10(n - 1)
  }

  /** The value of digits written after another run of digits. */
  lemma {:induction false} DigitsValueAppend(a: string, b: string)
    requires AllDigits(a) && AllDigits(b)
    ensures AllDigits(a + b) && DigitsValue(a + b) == DigitsValue(a) * Pow10(|b|) + DigitsValue(b)
    decreases |b|
  {
    if b == [] {
      assert a + b == a;
    } else {
      var b' := b[..|b| - 1];
      var last := (b[|b| - 1] as int) - ('0' as int);
      assert (a + b)[..|a + b| - 1] == a + b';
      assert (a + b)[|a + b| - 1] == b[|b| - 1];
      DigitsValueAppend(a, b');
      var x, y, p := DigitsValue(a), DigitsValue(b'), Pow10(|b'|);
      calc {
        DigitsValue(a + b);
        DigitsValue(a + b') * 10 + last;
        (x * p + y) * 10 + last;
        { Regroup(x, y, p, last); }
        x * (10 * p) + (y * 10 + last);
        x * Pow10(|b|) + DigitsValue(b);
      }
    }
  }

  /** Shifting a value with digits appended, regrouped. */
  lemma Regroup(x: int, y: int, p: int, last: int)
    ensures (x * p + y) * 10 + last == x * (10 * p) + (y * 10 + last)
  {
  }

  /** Leading zeros add nothing to a value. */
  lemma {:induction false} ZerosValue(n: nat)
    ensures DigitsValue(Zeros(n)) == 0
  {
    if n > 0 {
      assert Zeros(n)[..n - 1] == Zeros(n - 1);
      ZerosValue(n - 1);
    }
  }

  /** A number below 10^w has at most w digits. */
  lemma {:induction false} DigitsFit(n: nat, w: nat)
    requires w >= 1 && n < Pow10(w)
    ensures |Digits(n)| <= w
    decreases w
  {
    if n >= 10 {
      assert w >= 2 by {
        assert Pow10(1) == 10 * Pow10(0);
      }
      assert n / 10 < Pow10(w - 1);
      DigitsFit(n / 10, w - 1);
    }
  }

  /** A padded field reads back as the number written, at exactly the width when the number fits. */
  lemma ZeroPadRoundTrip(n: nat, w: nat)
    requires w >= 1 && n < Pow10(w)
    ensures |ZeroPad(n, w)| == w && DigitsValue(ZeroPad(n, w)) == n
  {
    DigitsRoundTrip(n);
    DigitsFit(n, w);
    var d := Digits(n);
    if |d| < w {
      ZerosValue(w - |d|);
      DigitsValueAppend(Zeros(w - |d|), d);
    }
  }

  /** A timestamp whose fields fit their widths. */
  predicate FieldsFit(ts: Timestamp)
  {
    0 <= ts.year < 10000 && ts.month < 100 && ts.day < 100 && ts.hour < 100 && ts.minute < 100 &&
    ts.second < 100 && ts.fsecond < 1000000000
  }

  /** The widths used, as powers of ten. */
  lemma Widths()
    ensures Pow10(2) == 100 && Pow10(4) == 10000 && Pow10(6) == 1000000
  {
    assert Pow10(1) == 10 && Pow10(3) == 1000 && Pow10(5) == 100000;
  }

  /** The middle part of a concatenation of three. */
  lemma Middle<T>(x: seq<T>, y: seq<T>, z: seq<T>)
    ensures (x + y + z)[|x|..|x| + |y|] == y
  {
  }

  /** The date part of a timestamp, read back field by field at fixed positions. */
  lemma DatePartRoundTrip(ts: Timestamp)
    requires FieldsFit(ts)
    ensures var r := DatePart(ts);
      |r| == 10 && r[4] == '-' && r[7] == '-' &&
      AllDigits(r[0..4]) && DigitsValue(r[0..4]) == ts.year &&
      AllDigits(r[5..7]) && DigitsValue(r[5..7]) == ts.month &&
      AllDigits(r[8..10]) && DigitsValue(r[8..10]) == ts.day
  {
    Widths();
    ZeroPadRoundTrip(ts.year, 4);
    ZeroPadRoundTrip(ts.month, 2);
    ZeroPadRoundTrip(ts.day, 2);
    var r := DatePart(ts);
    assert r[0..4] == ZeroPad(ts.year, 4);
    assert r[5..7] == ZeroPad(ts.month, 2);
    assert r[8..10] == ZeroPad(ts.day, 2);
  }

  /** The time part of a timestamp, read back field by field at fixed positions. */
  lemma TimePartRoundTrip(ts: Timestamp)
    requires FieldsFit(ts)
    ensures var r := TimePart(ts);
      |r| == 15 && r[2] == ':' && r[5] == ':' && r[8] == '.' &&
      AllDigits(r[0..2]) && DigitsValue(r[0..2]) == ts.hour &&
      AllDigits(r[3..5]) && DigitsValue(r[3..5]) == ts.minute &&
      AllDigits(r[6..8]) && DigitsValue(r[6..8]) == ts.second &&
      AllDigits(r[9..15]) && DigitsValue(r[9..15]) == ts.fsecond / 1000
  {
    Widths();
    ZeroPadRoundTrip(ts.hour, 2);
    ZeroPadRoundTrip(ts.minute, 2);
    ZeroPadRoundTrip(ts.second, 2);
    ZeroPadRoundTrip(ts.fsecond / 1000, 6);
    var r := TimePart(ts);
    assert r[0..2] == ZeroPad(ts.hour, 2);
    assert r[3..5] == ZeroPad(ts.minute, 2);
    var front := ZeroPad(ts.hour, 2) + ":" + ZeroPad(ts.minute, 2) + ":";
    Assoc(front + ZeroPad(ts.second, 2), ".", ZeroPad(ts.fsecond / 1000, 6));
    Middle(front, ZeroPad(ts.second, 2), "." + ZeroPad(ts.fsecond / 1000, 6));
    assert r[6..8] == ZeroPad(ts.second, 2);
    assert r[9..15] == ZeroPad(ts.fsecond / 1000, 6);
  }

  /**
   * A timestamp whose fields fit their widths renders as
   * YYYY-MM-DDTHH:MM:SS.ffffff, each field reading back as the value
   * written and the fraction as the microseconds.
   */
  lemma TimestampRoundTrip(ts: Timestamp)
    requires FieldsFit(ts)
    ensures var r := TimestampText(ts);
      |r| == 26 && r[4] == '-' && r[7] == '-' && r[10] == 'T' && r[13] == ':' && r[16] == ':' && r[19] == '.' &&
      DigitsValue(r[0..4]) == ts.year && DigitsValue(r[5..7]) == ts.month && DigitsValue(r[8..10]) == ts.day &&
      DigitsValue(r[11..13]) == ts.hour && DigitsValue(r[14..16]) == ts.minute && DigitsValue(r[17..19]) == ts.second &&
      DigitsValue(r[20..26]) == ts.fsecond / 1000
  {
    DatePartRoundTrip(ts);
    TimePartRoundTrip(ts);
    var r, d, t := TimestampText(ts), DatePart(ts), TimePart(ts);
    assert r[0..10] == d && r[11..26] == t;
    assert r[0..4] == d[0..4] && r[5..7] == d[5..7] && r[8..10] == d[8..10];
    assert r[11..13] == t[0..2] && r[14..16] == t[3..5] && r[17..19] == t[6..8] && r[20..26] == t[9..15];
  }

  // ---------------------------------------------------------------------
  // Options
  // ---------------------------------------------------------------------

  /** What the option loop collects; maxRows is a wide integer, 0 meaning "no limit". */
  datatype FetchOptions = FetchOptions(
    dataVar: Option<Value>, dataArray: Option<Value>, indexByName: bool, indexByNumber: bool,
    command: Option<Value>, maxRows: int, resultVar: Option<Value>, returnRows: bool, asDict: bool)

  const NoOptions: FetchOptions := FetchOptions(None, None, false, false, None, 0, None, false, false)

  /** The option words orafetch understands. */
  datatype Word =
    | DataVariable | DataArray | IndexByName | IndexByNumber | Command | MaxRows | ResultVariable
    | ReturnRows | AsDict | NotAnOption

  function WordOf(w: string): Word
  {
    if w == "-datavariable" then DataVariable
    else if w == "-dataarray" then DataArray
    else if w == "-indexbyname" then IndexByName
    else if w == "-indexbynumber" then IndexByNumber
    else if w == "-command" then Command
    else if w == "-max" then MaxRows
    else if w == "-resultvariable" then ResultVariable
    else if w == "-returnrows" then ReturnRows
    else if w == "-asdict" then AsDict
    else NotAnOption
  }

  /** The words that consume the word after them, when there is one. */
  predicate TakesValue(w: Word)
  {
    w.DataVariable? || w.DataArray? || w.Command? || w.MaxRows? || w.ResultVariable?
  }

  /** A valued option with its value (-max is parsed apart). */
  function WithValue(o: FetchOptions, w: Word, v: Value): FetchOptions
    requires TakesValue(w) && !w.MaxRows?
  {
    match w
    case DataVariable => o.(dataVar := Some(v))
    case DataArray => o.(dataArray := Some(v))
    case Command => o.(command := Some(v))
    case ResultVariable => o.(resultVar := Some(v))
  }

  /**
   * A word standing alone: the three flags set their field, and every
   * other word (-returnrows, a word not understood, or a valued option
   * with no word after it) turns on returnRows.
   */
  function WithFlag(o: FetchOptions, w: Word): (r: FetchOptions)
    ensures r.returnRows == (o.returnRows || !(w.IndexByName? || w.IndexByNumber? || w.AsDict?))
  {
    match w
    case IndexByName => o.(indexByName := true)
    case IndexByNumber => o.(indexByNumber := true)
    case AsDict => o.(asDict := true)
    case _ => o.(returnRows := true)
  }

  /** The option words from i on, left to right; a -max value Tcl rejects ends the scan with Tcl's error. */
  function ScanFetch(objv: seq<Value>, i: nat, o: FetchOptions): Parsed<FetchOptions>
    decreases |objv| - i
  {
    if i >= |objv| then Parsed(o)
    else
      var w := WordOf(Text(objv[i]));
      if TakesValue(w) && i + 1 < |objv| then
        if w.MaxRows? then
          match GetWide(objv[i + 1])
          case None => Rejected(IntRefusal(objv[i + 1]))
          case Some(m) => ScanFetch(objv, i + 2, o.(maxRows := m))
        else ScanFetch(objv, i + 2, WithValue(o, w, objv[i + 1]))
      else ScanFetch(objv, i + 1, WithFlag(o, w))
  }

  /** Once returnRows is on, no later word turns it off. */
  lemma {:induction false} ScanKeepsReturnRows(objv: seq<Value>, i: nat, o: FetchOptions)
    requires o.returnRows && ScanFetch(objv, i, o).Parsed?
    ensures ScanFetch(objv, i, o).value.returnRows
    decreases |objv| - i
  {
    if i < |objv| {
      var w := WordOf(Text(objv[i]));
      if TakesValue(w) && i + 1 < |objv| {
        if w.MaxRows? {
          ScanKeepsReturnRows(objv, i + 2, o.(maxRows := GetWide(objv[i + 1]).value));
        } else {
          ScanKeepsReturnRows(objv, i + 2, WithValue(o, w, objv[i + 1]));
        }
      } else {
        ScanKeepsReturnRows(objv, i + 1, WithFlag(o, w));
      }
    }
  }

  /** A word orafetch does not understand, reached by the scan, makes the rows come back as a list. */
  lemma UnknownWordReturnsRows(objv: seq<Value>, i: nat, o: FetchOptions)
    requires i < |objv| && WordOf(Text(objv[i])) == NotAnOption && ScanFetch(objv, i, o).Parsed?
    ensures ScanFetch(objv, i, o).value.returnRows
  {
    ScanKeepsReturnRows(objv, i + 1, WithFlag(o, NotAnOption));
  }

  /** A -max whose value is not a wide integer rejects the whole command with Tcl's message. */
  lemma BadMaxRejects(objv: seq<Value>, i: nat, o: FetchOptions)
    requires i + 1 < |objv| && Text(objv[i]) == "-max" && GetWide(objv[i + 1]).None?
    ensures ScanFetch(objv, i, o) == Rejected(IntRefusal(objv[i + 1]))
  {
  }

  /** The limit after the scan: without returnRows, a limit that is not positive becomes 1. */
  function Settle(o: FetchOptions): (r: FetchOptions)
    ensures r.returnRows == o.returnRows && r == o.(maxRows := r.maxRows)
    ensures !r.returnRows ==> r.maxRows >= 1
    ensures o.returnRows || o.maxRows > 0 ==> r == o
    ensures !o.returnRows && o.maxRows <= 0 ==> r.maxRows == 1
  {
    if !o.returnRows && o.maxRows <= 0 then o.(maxRows := 1) else o
  }

  /** The option loop of Oradpi_Cmd_Fetch, from word 2. */
  method ParseFetchOptions(objv: seq<Value>) returns (r: Parsed<FetchOptions>)
    ensures r == ScanFetch(objv, 2, NoOptions)
  {
    var o := NoOptions;
    var i := 2;
    while i < |objv|
      invariant ScanFetch(objv, i, o) == ScanFetch(objv, 2, NoOptions)
      decreases |objv| - i
    {
      var w := WordOf(Text(objv[i]));
      if TakesValue(w) && i + 1 < |objv| {
        if w.MaxRows? {
          var m := GetWide(objv[i + 1]);
          if m.None? {
            return Rejected(IntRefusal(objv[i + 1]));
          }
          o := o.(maxRows := m.value);
        } else {
          o := WithValue(o, w, objv[i + 1]);
        }
        i := i + 2;
      } else {
        o := WithFlag(o, w);
        i := i + 1;
      }
    }
    r := Parsed(o);
  }

  // ---------------------------------------------------------------------
  // Columns
  // ---------------------------------------------------------------------

  /** What dpiStmt_getQueryInfo tells about a column. */
  datatype ColumnInfo = ColumnInfo(name: string, typ: ColumnType)

  /** A column as the row loop uses it: whether its bytes are text, and its upper-cased name ("" when names are not needed). */
  datatype Column = Column(isChar: bool, name: string)

  /** A driver error and the call that reported it. */
  datatype Fault = Fault(err: ErrorInfo, where: string)

  datatype Described = Described(cols: seq<Column>) | NotDescribed(fault: Fault)

  /** The first failed reply, if any. */
  function FirstFailed<T>(rs: seq<Reply<T>>): (r: Option<nat>)
    ensures r.Some? ==> r.value < |rs| && rs[r.value].Failed? && forall k :: 0 <= k < r.value ==> rs[k].Done?
    ensures r.None? ==> forall k :: 0 <= k < |rs| ==> rs[k].Done?
    decreases |rs|
  {
    if rs == [] then None
    else if rs[0].Failed? then Some(0)
    else match FirstFailed(rs[1..])
      case None => None
      case Some(k) => Some(k + 1)
  }

  /**
   * The columns of the query: dpiStmt_getNumQueryColumns answers the list
   * of dpiStmt_getQueryInfo replies (its length is the column count); the
   * first failure among them ends the description.
   */
  function Describe(shape: Reply<seq<Reply<ColumnInfo>>>, needNames: bool): (d: Described)
    ensures shape.Failed? ==> d == NotDescribed(Fault(shape.err, "dpiStmt_getNumQueryColumns"))
    ensures shape.Done? && d.Described? ==> (
      |d.cols| == |shape.value| &&
      forall k :: 0 <= k < |d.cols| ==> (
        shape.value[k].Done? &&
        d.cols[k].isChar == IsCharType(shape.value[k].value.typ) &&
        d.cols[k].name == (if needNames then Upper(shape.value[k].value.name) else "")))
    ensures shape.Done? && d.NotDescribed? ==> (
      d.fault.where == "dpiStmt_getQueryInfo" &&
      exists k :: 0 <= k < |shape.value| && shape.value[k] == Failed(d.fault.err))
  {
    match shape
    case Failed(e) => NotDescribed(Fault(e, "dpiStmt_getNumQueryColumns"))
    case Done(infos) =>
      match FirstFailed(infos)
      case Some(k) => NotDescribed(Fault(infos[k].err, "dpiStmt_getQueryInfo"))
      case None =>
        Described(seq(|infos|, k requires 0 <= k < |infos| =>
          Column(IsCharType(infos[k].value.typ), if needNames then Upper(infos[k].value.name) else "")))
  }

  /**
   * The two column passes of Oradpi_Cmd_Fetch: the character flags, then,
   * when names are needed, the upper-cased names (the second pass asks the
   * driver again and is given the same answers).
   */
  method DescribeColumns(infos: seq<Reply<ColumnInfo>>, needNames: bool) returns (d: Described)
    ensures d == Describe(Done(infos), needNames)
  {
    var isChar: seq<bool> := [];
    var c := 0;
    while c < |infos|
      invariant c <= |infos| && |isChar| == c
      invariant forall k :: 0 <= k < c ==> infos[k].Done? && isChar[k] == IsCharType(infos[k].value.typ)
    {
      if infos[c].Failed? {
        FirstFailedAt(infos, c);
        return NotDescribed(Fault(infos[c].err, "dpiStmt_getQueryInfo"));
      }
      isChar := isChar + [IsCharType(infos[c].value.typ)];
      c := c + 1;
    }
    var names: seq<string> := seq(|infos|, _ => "");
    if needNames {
      c := 0;
      while c < |infos|
        invariant c <= |infos| && |names| == |infos|
        invariant forall k :: 0 <= k < c ==> names[k] == Upper(infos[k].value.name)
        invariant forall k :: c <= k < |infos| ==> names[k] == ""
      {
        var u := UpperCopy(infos[c].value.name);
        names := names[c := u];
        c := c + 1;
      }
    }
    d := Described(seq(|infos|, k requires 0 <= k < |infos| => Column(isChar[k], names[k])));
  }

  /** When every reply before c is a success, a failure at c is the first. */
  lemma {:induction false} FirstFailedAt<T>(rs: seq<Reply<T>>, c: nat)
    requires c < |rs| && rs[c].Failed? && forall k :: 0 <= k < c ==> rs[k].Done?
    ensures FirstFailed(rs) == Some(c)
    decreases c
  {
    if c > 0 {
      FirstFailedAt(rs[1..], c - 1);
    }
  }

  // ---------------------------------------------------------------------
  // ValueToObj
  // ---------------------------------------------------------------------

  /** MAX_INLINE: the largest buffer an inline LOB read fills without scaling. */
  const MaxInline: nat := 0x10_0000

  /** The amount an inline read asks for when the buffer would exceed MaxInline: size·2^20/cap, at least 1, computed without overflow. */
  function Scaled(size: u64, cap: u64): (a: u64)
    requires cap > MaxInline
  {
    var q := Quotient(size, cap);
    if q == 0 then 1 else q
  }

  /** size·2^20/cap in unbounded arithmetic; it does not exceed size since cap exceeds 2^20. */
  function Quotient(size: nat, cap: nat): (q: nat)
    requires cap > MaxInline
    ensures q <= size
  {
    ScaledBelow(size, cap);
    size * MaxInline / cap
  }

  lemma ScaledBelow(size: nat, cap: nat)
    requires cap > MaxInline
    ensures size * MaxInline / cap <= size
  {
    MulLeft(size, MaxInline, cap);
    DivMono(size * MaxInline, size * cap, cap);
    assert size * cap / cap == size;
  }

  /** Multiplying by the larger factor gives the larger product. */
  lemma MulLeft(x: nat, a: nat, b: nat)
    requires a <= b
    ensures x * a <= x * b
  {
  }

  /** Dividing by a positive number does not increase a number. */
  lemma DivAtMost(x: nat, c: nat)
    requires c >= 1
    ensures x / c <= x
  {
    MulLeft(x / c, 1, c);
  }

  /** Integer division by a positive number is monotone. */
  lemma DivMono(a: nat, b: nat, c: nat)
    requires a <= b && c > 0
    ensures a / c <= b / c
  {
    if a / c > b / c {
      MulLeft(c, b / c + 1, a / c);
    }
  }

  /**
   * The amount as cmd_fetch.c:133 computes it: the product size·2^20 is
   * taken in 64 bits, so it wraps for sizes of 2^44 and more.
   */
  function ScaledAsWritten(size: u64, cap: u64): (a: u64)
    requires cap > MaxInline
  {
    var q := Below(Wrap64(size * MaxInline), cap);
    if q == 0 then 1 else q
  }

  /**
   * The scaled amount is between 1 and the LOB's size, and it fills at
   * most MaxInline bytes of the buffer the driver would need for the whole
   * LOB (unless it is the minimum of 1).
   */
  lemma ScaledBounds(size: u64, cap: u64)
    requires cap > MaxInline && size >= 1
    ensures 1 <= Scaled(size, cap) <= size
    ensures Scaled(size, cap) == 1 || Scaled(size, cap) * cap <= size * MaxInline
  {
    ScaledBelow(size, cap);
  }

  /** x/c for a positive c, which is at most x. */
  function Below(x: nat, c: nat): (q: nat)
    requires c >= 1
    ensures q <= x
  {
    DivAtMost(x, c);
    x / c
  }

  /** A product as uint64_t arithmetic keeps it: modulo 2^64. */
  function Wrap64(x: nat): (r: u64)
  {
    x % LobCmd.TwoTo64
  }

  /** A BLOB of 2^44 bytes, whose buffer is 2^44 bytes: as written the read shrinks to 1 byte instead of MaxInline bytes. */
  lemma ScaledWraps()
    ensures ScaledAsWritten(0x1000_0000_0000, 0x1000_0000_0000) == 1
    ensures Scaled(0x1000_0000_0000, 0x1000_0000_0000) == MaxInline
  {
    assert 0x1000_0000_0000 * MaxInline == LobCmd.TwoTo64;
    assert 0x1000_0000_0000 * MaxInline / 0x1000_0000_0000 == MaxInline;
  }

  /** Below 2^44 characters the product does not wrap and the two computations agree. */
  lemma ScaledAgreesBelowWrap(size: u64, cap: u64)
    requires cap > MaxInline && size < 0x1000_0000_0000
    ensures ScaledAsWritten(size, cap) == Scaled(size, cap)
  {
    MulLeft(MaxInline, size, 0xFFF_FFFF_FFFF);
    assert size * MaxInline == MaxInline * size;
    assert size * MaxInline < LobCmd.TwoTo64;
    assert Wrap64(size * MaxInline) == size * MaxInline;
  }

  /** The driver's answers to an inline LOB read: getSize, getBufferSize for the size, getBufferSize for a scaled amount, readBytes. */
  datatype LobReplies = LobReplies(size: Reply<u64>, bufferSize: Reply<u64>, scaledBufferSize: Reply<u64>, read: Reply<seq<byte>>)

  /** dpiData as getQueryValue answers it, by native type. */
  datatype Cell =
    | NullCell
    | Int64Cell(i: int)
    | Uint64Cell(u: u64)
    | DoubleCell(text: string)
    | BoolCell(b: bool)
    | TimestampCell(ts: Timestamp)
    | BytesCell(data: Option<seq<byte>>)
    | LobCell(lob: Option<Ref>, replies: LobReplies)
    | OtherCell

  /** What ValueToObj makes of a cell: a value, a new LOB handle for a native LOB, or a driver error. */
  datatype Converted = Shown(v: Value) | HandedOut(lob: Ref) | ConvertFailed(fault: Fault)

  /** The bytes of a column as text decoded from UTF-8 for a character column, as a byte array otherwise. */
  function BytesValue(d: seq<byte>, isChar: bool): (v: Value)
    ensures !isChar ==> v == Bytes(d)
    ensures isChar ==> v.Str? && |v.s| <= |d|
  {
    if isChar then Str(Decode(d)) else Bytes(d)
  }

  /**
   * A character column reads back the string the database holds, given in
   * standard UTF-8 or in Tcl's own form (so a string bound from Tcl and
   * fetched back is the same string); ASCII text is one character per byte.
   */
  lemma FetchedTextRoundTrip(s: string, d: seq<byte>)
    ensures BytesValue(Utf8(s), true) == Str(s)
    ensures BytesValue(Rep(s), true) == Str(s)
    ensures (forall k :: 0 <= k < |d| ==> d[k] < 0x80) ==> BytesValue(d, true) == Str(ByteChars(d))
  {
    DecodeUtf8(s);
    DecodeRep(s);
    if forall k :: 0 <= k < |d| ==> d[k] < 0x80 {
      DecodeAscii(d);
    }
  }

  /** An inline LOB read: the outcome and the LOB calls made, in order. */
  function InlineRead(a: LobReplies, isChar: bool): (Converted, seq<LobCmd.LobCall>)
  {
    match a.size
    case Failed(e) => (ConvertFailed(Fault(e, "dpiLob_getSize")), [LobCmd.GetSize])
    case Done(size) =>
      if size == 0 then (Shown(Empty), [LobCmd.GetSize])
      else
        var first := [LobCmd.GetSize, LobCmd.GetBufferSize(size)];
        match a.bufferSize
        case Failed(e) => (ConvertFailed(Fault(e, "dpiLob_getBufferSize")), first)
        case Done(cap) =>
          if cap > MaxInline && a.scaledBufferSize.Failed? then
            (ConvertFailed(Fault(a.scaledBufferSize.err, "dpiLob_getBufferSize")), first + [LobCmd.GetBufferSize(Scaled(size, cap))])
          else
            var amount := if cap > MaxInline then Scaled(size, cap) else size;
            var calls := first + (if cap > MaxInline then [LobCmd.GetBufferSize(amount)] else []) + [LobCmd.ReadBytes(1, amount)];
            match a.read
            case Failed(e) => (ConvertFailed(Fault(e, "dpiLob_readBytes")), calls)
            case Done(d) => (Shown(BytesValue(d, isChar)), calls)
  }

  /** The value an inline read gives, or the LOB call that failed. */
  function InlineValue(a: LobReplies, isChar: bool): (c: Converted)
    ensures c == InlineRead(a, isChar).0
    ensures !c.HandedOut?
  {
    match a.size
    case Failed(e) => ConvertFailed(Fault(e, "dpiLob_getSize"))
    case Done(size) =>
      if size == 0 then Shown(Empty)
      else match a.bufferSize
        case Failed(e) => ConvertFailed(Fault(e, "dpiLob_getBufferSize"))
        case Done(cap) =>
          if cap > MaxInline && a.scaledBufferSize.Failed? then ConvertFailed(Fault(a.scaledBufferSize.err, "dpiLob_getBufferSize"))
          else match a.read
            case Failed(e) => ConvertFailed(Fault(e, "dpiLob_readBytes"))
            case Done(d) => Shown(BytesValue(d, isChar))
  }

  /**
   * An inline read of a non-empty LOB reads once, from the first
   * character: the whole LOB when its buffer fits in MaxInline bytes,
   * otherwise a scaled amount between 1 and the size.  An empty LOB is
   * the empty value and is not read.
   */
  lemma InlineReadBounded(a: LobReplies, isChar: bool)
    requires a.size.Done? && a.bufferSize.Done?
    ensures a.size.value == 0 ==> InlineRead(a, isChar) == (Shown(Empty), [LobCmd.GetSize])
    ensures var (size, cap) := (a.size.value, a.bufferSize.value);
      var calls := InlineRead(a, isChar).1;
      size > 0 && (cap <= MaxInline || a.scaledBufferSize.Done?) ==>
        |calls| >= 3 && calls[|calls| - 1].ReadBytes? && calls[|calls| - 1].offset == 1 &&
        1 <= calls[|calls| - 1].amount <= size &&
        (cap <= MaxInline ==> calls[|calls| - 1].amount == size) &&
        (a.read.Done? ==> InlineRead(a, isChar).0 == Shown(BytesValue(a.read.value, isChar)))
  {
    var (size, cap) := (a.size.value, a.bufferSize.value);
    if size > 0 && cap > MaxInline {
      ScaledBounds(size, cap);
    }
  }

  /** The value a native LOB becomes when its content is read inline: exactly the bytes read, as text for a character column. */
  method ReadInline(a: LobReplies, isChar: bool) returns (c: Converted, calls: seq<LobCmd.LobCall>)
    ensures (c, calls) == InlineRead(a, isChar)
  {
    calls := [LobCmd.GetSize];
    if a.size.Failed? {
      return ConvertFailed(Fault(a.size.err, "dpiLob_getSize")), calls;
    }
    var size := a.size.value;
    if size == 0 {
      return Shown(Empty), calls;
    }
    calls := [LobCmd.GetSize, LobCmd.GetBufferSize(size)];
    if a.bufferSize.Failed? {
      return ConvertFailed(Fault(a.bufferSize.err, "dpiLob_getBufferSize")), calls;
    }
    var cap := a.bufferSize.value;
    var first, rescaled := calls, [];
    if cap > MaxInline {
      size := Scaled(size, cap);
      rescaled := [LobCmd.GetBufferSize(size)];
      if a.scaledBufferSize.Failed? {
        return ConvertFailed(Fault(a.scaledBufferSize.err, "dpiLob_getBufferSize")), first + rescaled;
      }
    }
    calls := first + rescaled + [LobCmd.ReadBytes(1, size)];
    if a.read.Failed? {
      return ConvertFailed(Fault(a.read.err, "dpiLob_readBytes")), calls;
    }
    c := Shown(BytesValue(a.read.value, isChar));
  }

  /**
   * ValueToObj on one cell.  handles says whether the statement's owner
   * exists and keeps LOBs as handles (inlineLobs off).
   */
  function Convert(cell: Cell, isChar: bool, handles: bool): (c: Converted)
    ensures cell.NullCell? || cell.OtherCell? ==> c == Shown(Empty)
    ensures cell.Int64Cell? ==> c == Shown(Int(cell.i))
    ensures cell.Uint64Cell? ==> c == Shown(Int(LobCmd.Wide(cell.u)))
    ensures cell.TimestampCell? ==> c == Shown(Str(TimestampText(cell.ts)))
    ensures cell.LobCell? && cell.lob.Some? && handles ==> c == HandedOut(cell.lob.value)
    ensures c.HandedOut? ==> cell.LobCell? && handles
    ensures c.ConvertFailed? ==> cell.LobCell? && !handles
  {
    match cell
    case NullCell => Shown(Empty)
    case Int64Cell(i) => Shown(Int(i))
    case Uint64Cell(u) => Shown(Int(LobCmd.Wide(u)))
    case DoubleCell(t) => Shown(Dbl(t))
    case BoolCell(b) => Shown(Bool(b))
    case TimestampCell(ts) => Shown(Str(TimestampText(ts)))
    case BytesCell(d) => Shown(if d.None? then Empty else BytesValue(d.value, isChar))
    case LobCell(lob, a) =>
      if lob.None? then Shown(Empty)
      else if handles then HandedOut(lob.value)
      else InlineValue(a, isChar)
    case OtherCell => Shown(Empty)
  }

  // ---------------------------------------------------------------------
  // Rows
  // ---------------------------------------------------------------------

  /** The name of the n-th handle drawn from the counter for a LOB: "oraB<n>". */
  function LobName(n: nat): string
  {
    LobPrefix + Digits(n)
  }

  /**
   * The reply of dpiStmt_getQueryValue for column k of the current row
   * (one reply per column; a column the answers do not cover reads as
   * null data).
   */
  function CellAt(cells: seq<Reply<Cell>>, k: nat): Reply<Cell>
  {
    if k < |cells| then cells[k] else Done(NullCell)
  }

  /** How converting the first columns of a row ends: the list items built, the native LOBs handed out as handles, and the fault that stopped it, if any. */
  datatype RowEnd = RowEnd(items: seq<Value>, made: seq<Ref>, fault: Option<Fault>)

  /** What one column adds to the row: its value, preceded by its name with -asdict. */
  function Entry(col: Column, v: Value, asDict: bool): (r: seq<Value>)
    ensures |r| == if asDict then 2 else 1
  {
    if asDict then [Str(col.name), v] else [v]
  }

  /**
   * Column j of the row, unless the row already failed: its
   * getQueryValue reply converted by ValueToObj and appended; a LOB handed
   * out as a handle is named by the next counter value after counter and
   * the handles already made.
   */
  function ColumnStep(cells: seq<Reply<Cell>>, cols: seq<Column>, handles: bool, counter: nat, j: nat, asDict: bool, r: RowEnd): RowEnd
    requires j < |cols|
  {
    if r.fault.Some? then r
    else match CellAt(cells, j)
      case Failed(e) => r.(fault := Some(Fault(e, "dpiStmt_getQueryValue")))
      case Done(cell) =>
        match Convert(cell, cols[j].isChar, handles)
        case ConvertFailed(f) => r.(fault := Some(f))
        case Shown(v) => r.(items := r.items + Entry(cols[j], v, asDict))
        case HandedOut(lob) =>
          RowEnd(r.items + Entry(cols[j], Str(LobName(counter + |r.made| + 1)), asDict), r.made + [lob], None)
  }

  /** The row built from the first k columns, one column after another. */
  function RowPrefix(cells: seq<Reply<Cell>>, cols: seq<Column>, handles: bool, counter: nat, k: nat, asDict: bool): (r: RowEnd)
    requires k <= |cols|
    ensures |r.items| <= (if asDict then 2 * k else k)
    ensures r.fault.None? ==> |r.items| == (if asDict then 2 * k else k)
    ensures |r.made| <= k
    decreases k
  {
    if k == 0 then RowEnd([], [], None)
    else ColumnStep(cells, cols, handles, counter, k - 1, asDict, RowPrefix(cells, cols, handles, counter, k - 1, asDict))
  }

  /**
   * Column j on its own: its value, or the fault that ends the row, and the
   * native LOB handed out as the handle named by the counter value after n.
   */
  function CellValue(cells: seq<Reply<Cell>>, cols: seq<Column>, handles: bool, j: nat, n: nat): (Option<Value>, Option<Fault>, seq<Ref>)
    requires j < |cols|
  {
    match CellAt(cells, j)
    case Failed(e) => (None, Some(Fault(e, "dpiStmt_getQueryValue")), [])
    case Done(cell) =>
      match Convert(cell, cols[j].isChar, handles)
      case ConvertFailed(f) => (None, Some(f), [])
      case Shown(x) => (Some(x), None, [])
      case HandedOut(lob) => (Some(Str(LobName(n + 1))), None, [lob])
  }

  /** A column whose reply arrived and converts has a value and no fault. */
  lemma CellValueOk(cells: seq<Reply<Cell>>, cols: seq<Column>, handles: bool, j: nat, n: nat)
    requires j < |cols| && CellAt(cells, j).Done? && !Convert(CellAt(cells, j).value, cols[j].isChar, handles).ConvertFailed?
    ensures CellValue(cells, cols, handles, j, n).0.Some? && CellValue(cells, cols, handles, j, n).1.None?
  {
  }

  /** A column step on a row that has not failed: the column's value is appended, or its fault ends the row. */
  lemma ColumnStepIs(cells: seq<Reply<Cell>>, cols: seq<Column>, handles: bool, counter: nat, j: nat, asDict: bool, items: seq<Value>, made: seq<Ref>)
    requires j < |cols|
    ensures var (v, f, extra) := CellValue(cells, cols, handles, j, counter + |made|);
      (f.Some? <==> v.None?) && (f.Some? ==> extra == []) &&
      ColumnStep(cells, cols, handles, counter, j, asDict, RowEnd(items, made, None)) ==
        if f.Some? then RowEnd(items, made, f) else RowEnd(items + Entry(cols[j], v.value, asDict), made + extra, None)
  {
  }

  /**
   * With -asdict the row alternates each column's name and its value;
   * the values, the LOBs handed out and the fault are those of the plain
   * row.
   */
  lemma {:induction false} AsDictAlternates(cells: seq<Reply<Cell>>, cols: seq<Column>, handles: bool, counter: nat, k: nat)
    requires k <= |cols|
    ensures var (d, p) := (RowPrefix(cells, cols, handles, counter, k, true), RowPrefix(cells, cols, handles, counter, k, false));
      d.made == p.made && d.fault == p.fault && Alternates(d.items, p.items, cols)
    decreases k
  {
    if k > 0 {
      AsDictAlternates(cells, cols, handles, counter, k - 1);
      AlternatesStep(cells, cols, handles, counter, k - 1,
                     RowPrefix(cells, cols, handles, counter, k - 1, true), RowPrefix(cells, cols, handles, counter, k - 1, false));
    }
  }

  /** AsDictAlternates for one more column. */
  lemma AlternatesStep(cells: seq<Reply<Cell>>, cols: seq<Column>, handles: bool, counter: nat, j: nat, d: RowEnd, p: RowEnd)
    requires j < |cols| && d.made == p.made && d.fault == p.fault && Alternates(d.items, p.items, cols)
    requires p.fault.None? ==> |p.items| == j
    ensures var (d', p') := (ColumnStep(cells, cols, handles, counter, j, true, d), ColumnStep(cells, cols, handles, counter, j, false, p));
      d'.made == p'.made && d'.fault == p'.fault && Alternates(d'.items, p'.items, cols)
  {
    if d.fault.None? {
      ColumnStepIs(cells, cols, handles, counter, j, true, d.items, p.made);
      ColumnStepIs(cells, cols, handles, counter, j, false, p.items, p.made);
      var (v, f, extra) := CellValue(cells, cols, handles, j, counter + |p.made|);
      if f.None? {
        AppendAlternates(d.items, p.items, cols, v.value);
      }
    }
  }

  /** d alternates the names of the first columns with the values p: name, value, name, value, ... */
  predicate Alternates(d: seq<Value>, p: seq<Value>, cols: seq<Column>)
  {
    |d| == 2 * |p| && |p| <= |cols| &&
    forall j :: 0 <= j < |p| ==> d[2 * j] == Str(cols[j].name) && d[2 * j + 1] == p[j]
  }

  /** One more column keeps a row and its -asdict form alternating. */
  lemma AppendAlternates(d: seq<Value>, p: seq<Value>, cols: seq<Column>, v: Value)
    requires Alternates(d, p, cols) && |p| < |cols|
    ensures Alternates(d + [Str(cols[|p|].name), v], p + [v], cols)
  {
  }

  /** Whether a row converts, and the LOBs it hands out, do not depend on the handle counter or on -asdict. */
  lemma {:induction false} FaultIndependent(cells: seq<Reply<Cell>>, cols: seq<Column>, handles: bool,
                                            c1: nat, c2: nat, k: nat, d1: bool, d2: bool)
    requires k <= |cols|
    ensures RowPrefix(cells, cols, handles, c1, k, d1).fault == RowPrefix(cells, cols, handles, c2, k, d2).fault
    ensures RowPrefix(cells, cols, handles, c1, k, d1).made == RowPrefix(cells, cols, handles, c2, k, d2).made
    decreases k
  {
    if k > 0 {
      FaultIndependent(cells, cols, handles, c1, c2, k - 1, d1, d2);
    }
  }

  /** When a whole row converts, so does each of its columns. */
  lemma {:induction false} ColumnConverts(cells: seq<Reply<Cell>>, cols: seq<Column>, handles: bool, counter: nat, j: nat, n: nat, asDict: bool)
    requires j < n <= |cols| && RowPrefix(cells, cols, handles, counter, n, asDict).fault.None?
    ensures RowPrefix(cells, cols, handles, counter, j, asDict).fault.None?
    ensures CellAt(cells, j).Done? && !Convert(CellAt(cells, j).value, cols[j].isChar, handles).ConvertFailed?
    decreases n - j
  {
    if j + 1 < n {
      ColumnConverts(cells, cols, handles, counter, j + 1, n, asDict);
    }
  }

  /** With LOBs read inline no handle is made, whatever the counter. */
  lemma {:induction false} InlineMakesNoHandles(cells: seq<Reply<Cell>>, cols: seq<Column>, c1: nat, c2: nat, k: nat, asDict: bool)
    requires k <= |cols|
    ensures RowPrefix(cells, cols, false, c1, k, asDict).made == []
    ensures RowPrefix(cells, cols, false, c1, k, asDict) == RowPrefix(cells, cols, false, c2, k, asDict)
    decreases k
  {
    if k > 0 {
      InlineMakesNoHandles(cells, cols, c1, c2, k - 1, asDict);
    }
  }

  // ---------------------------------------------------------------------
  // -dataarray
  // ---------------------------------------------------------------------

  /** The Tcl variable name of an array element: arr(key). */
  function ElementName(arr: Value, key: string): string
  {
    Text(arr) + "(" + key + ")"
  }

  /** Whether the array is written: -dataarray with -indexbynumber or -indexbyname. */
  predicate Indexed(o: FetchOptions)
  {
    o.dataArray.Some? && (o.indexByNumber || o.indexByName)
  }

  /** The element keys: "1".."n" with -indexbynumber (which wins), otherwise the upper-cased column names. */
  function Keys(o: FetchOptions, cols: seq<Column>): (keys: seq<string>)
    ensures |keys| == |cols|
    ensures o.indexByNumber ==> forall j :: 0 <= j < |cols| ==> keys[j] == Digits(j + 1)
    ensures !o.indexByNumber ==> forall j :: 0 <= j < |cols| ==> keys[j] == cols[j].name
  {
    if o.indexByNumber then seq(|cols|, j requires 0 <= j < |cols| => Digits(j + 1)) else seq(|cols|, j requires 0 <= j < |cols| => cols[j].name)
  }

  /** Tcl_ObjSetVar2 on arr(keys[j]) for each value in turn. */
  function Assign(vars: map<string, Value>, arr: Value, keys: seq<string>, vals: seq<Value>): map<string, Value>
    requires |vals| <= |keys|
    decreases |vals|
  {
    if vals == [] then vars
    else Assign(vars, arr, keys, vals[..|vals| - 1])[ElementName(arr, keys[|vals| - 1]) := vals[|vals| - 1]]
  }

  /** Distinct keys name distinct elements. */
  lemma ElementNamesDistinct(arr: Value, a: string, b: string)
    requires a != b
    ensures ElementName(arr, a) != ElementName(arr, b)
  {
    var x, y := ElementName(arr, a), ElementName(arr, b);
    var p := |Text(arr)| + 1;
    assert x[p..|x| - 1] == a;
    assert y[p..|y| - 1] == b;
  }

  /**
   * After the writes, each element whose key appears once holds the value
   * written under it, and every other variable keeps its value.
   */
  lemma {:induction false} AssignReads(vars: map<string, Value>, arr: Value, keys: seq<string>, vals: seq<Value>, j: nat)
    requires |vals| <= |keys| && j < |vals|
    requires forall i :: 0 <= i < |vals| && i != j ==> keys[i] != keys[j]
    ensures ElementName(arr, keys[j]) in Assign(vars, arr, keys, vals)
    ensures Assign(vars, arr, keys, vals)[ElementName(arr, keys[j])] == vals[j]
    decreases |vals|
  {
    var n := |vals| - 1;
    if j < n {
      ElementNamesDistinct(arr, keys[n], keys[j]);
      AssignReads(vars, arr, keys, vals[..n], j);
    }
  }

  /** Variables other than elements of the array are not touched by the writes. */
  lemma {:induction false} AssignKeepsOthers(vars: map<string, Value>, arr: Value, keys: seq<string>, vals: seq<Value>, name: string)
    requires |vals| <= |keys| && forall i :: 0 <= i < |vals| ==> name != ElementName(arr, keys[i])
    ensures (name in Assign(vars, arr, keys, vals)) == (name in vars)
    ensures name in vars ==> Assign(vars, arr, keys, vals)[name] == vars[name]
    decreases |vals|
  {
    if vals != [] {
      AssignKeepsOthers(vars, arr, keys, vals[..|vals| - 1], name);
    }
  }

  /** With -indexbynumber, element arr(j) holds column j's value, for j from 1 to the column count. */
  lemma ArrayByNumber(vars: map<string, Value>, arr: Value, o: FetchOptions, cols: seq<Column>, vals: seq<Value>, j: nat)
    requires o.indexByNumber && |vals| == |cols| && 1 <= j <= |cols|
    ensures ElementName(arr, Digits(j)) in Assign(vars, arr, Keys(o, cols), vals)
    ensures Assign(vars, arr, Keys(o, cols), vals)[ElementName(arr, Digits(j))] == vals[j - 1]
  {
    var keys := Keys(o, cols);
    forall i | 0 <= i < |vals| && i != j - 1
      ensures keys[i] != keys[j - 1]
    {
      DigitsInjective(i + 1, j);
    }
    AssignReads(vars, arr, keys, vals, j - 1);
  }

  // ---------------------------------------------------------------------
  // The fetch loop
  // ---------------------------------------------------------------------

  /** The reply of one dpiStmt_fetch: a row (its getQueryValue replies), no more rows, or an error. */
  datatype FetchReply = Row(cells: seq<Reply<Cell>>) | NoRow | FetchFailed(err: ErrorInfo)

  /** The k-th fetch; after the answers given, there are no more rows. */
  function ReplyAt(replies: seq<FetchReply>, k: nat): (r: FetchReply)
    ensures r.Row? ==> k < |replies|
  {
    if k < |replies| then replies[k] else NoRow
  }

  /** The outcome of the -command script evaluated for the k-th row (TCL_OK when not given). */
  function ScriptAt(scripts: seq<Outcome>, k: nat): Outcome
  {
    if k < |scripts| then scripts[k] else Ok(Empty)
  }

  /** The interpreter state orafetch changes, as values: variables, scripts evaluated, native LOBs handed out as handles (in order). */
  datatype Sink = Sink(vars: map<string, Value>, evals: seq<Value>, made: seq<Ref>)

  /** Why the loop stopped early: a driver error (recorded on the statement) or a script's non-OK outcome. */
  datatype Stop = DriverStop(fault: Fault) | ScriptStop(o: Outcome)

  datatype Ending = Finished(fetched: nat) | Stopped(stop: Stop)

  /** The rows list after a row: appended only with returnRows. */
  function Kept(o: FetchOptions, rows: seq<Value>, row: Value): seq<Value>
  {
    if o.returnRows then rows + [row] else rows
  }

  /** The array writes of one row: the row converted again (a LOB becomes a second handle), each value written under its key. */
  function ArrayStep(o: FetchOptions, cols: seq<Column>, handles: bool, c0: nat, cells: seq<Reply<Cell>>, k: Sink): Sink
    requires o.dataArray.Some?
  {
    var a := RowPrefix(cells, cols, handles, c0 + |k.made|, |cols|, false);
    k.(vars := Assign(k.vars, o.dataArray.value, Keys(o, cols), a.items), made := k.made + a.made)
  }

  /**
   * What a row goes on to do once the array is written: set -datavariable
   * to the row; evaluate -command (a non-OK outcome stops the loop); keep
   * the row with returnRows.
   */
  function Publish(o: FetchOptions, script: Outcome, k: Sink, rows: seq<Value>, row: Value): (Option<Stop>, Sink, seq<Value>)
  {
    var k1 := if o.dataVar.Some? then k.(vars := k.vars[Text(o.dataVar.value) := row]) else k;
    if o.command.None? then (None, k1, Kept(o, rows, row))
    else
      var k2 := k1.(evals := k1.evals + [o.command.value]);
      if script.Error? then (Some(ScriptStop(script)), k2, rows) else (None, k2, Kept(o, rows, row))
  }

  /** What a converted row goes on to do: write the array, then Publish. */
  function Deliver(o: FetchOptions, cols: seq<Column>, handles: bool, c0: nat, cells: seq<Reply<Cell>>, script: Outcome,
                   k: Sink, rows: seq<Value>, row: Value): (Option<Stop>, Sink, seq<Value>)
  {
    Publish(o, script, if Indexed(o) then ArrayStep(o, cols, handles, c0, cells, k) else k, rows, row)
  }

  /** One fetched row: convert it, then deliver it; a conversion failure stops the loop. */
  function RowStep(o: FetchOptions, cols: seq<Column>, handles: bool, c0: nat, cells: seq<Reply<Cell>>, script: Outcome,
                   k: Sink, rows: seq<Value>): (Option<Stop>, Sink, seq<Value>)
  {
    var r := RowPrefix(cells, cols, handles, c0 + |k.made|, |cols|, o.asDict);
    var k1 := k.(made := k.made + r.made);
    if r.fault.Some? then (Some(DriverStop(r.fault.value)), k1, rows)
    else Deliver(o, cols, handles, c0, cells, script, k1, rows, List(r.items))
  }

  /**
   * The general fetch loop from the k-th fetch: stop after maxRows rows
   * when maxRows is positive, at the end of the rows, or at the first
   * error.
   */
  function FetchFrom(o: FetchOptions, cols: seq<Column>, handles: bool, c0: nat, replies: seq<FetchReply>, scripts: seq<Outcome>,
                     k: nat, sink: Sink, rows: seq<Value>): (Ending, Sink, seq<Value>)
    decreases |replies| - k
  {
    if o.maxRows > 0 && k >= o.maxRows then (Finished(k), sink, rows)
    else match ReplyAt(replies, k)
      case FetchFailed(e) => (Stopped(DriverStop(Fault(e, "dpiStmt_fetch"))), sink, rows)
      case NoRow => (Finished(k), sink, rows)
      case Row(cells) =>
        var (stop, sink', rows') := RowStep(o, cols, handles, c0, cells, ScriptAt(scripts, k), sink, rows);
        if stop.Some? then (Stopped(stop.value), sink', rows')
        else FetchFrom(o, cols, handles, c0, replies, scripts, k + 1, sink', rows')
  }

  /**
   * The loop's count: it fetches at least the rows already counted and,
   * when maxRows is positive, at most maxRows; the list holds one row per
   * fetched row with returnRows and stays empty without; with -command the
   * script is evaluated once per fetched row.
   */
  lemma {:induction false} FetchCounts(o: FetchOptions, cols: seq<Column>, handles: bool, c0: nat, replies: seq<FetchReply>,
                                       scripts: seq<Outcome>, k: nat, sink: Sink, rows: seq<Value>)
    requires o.maxRows > 0 ==> k <= o.maxRows
    ensures var (e, sink', rows') := FetchFrom(o, cols, handles, c0, replies, scripts, k, sink, rows);
      e.Finished? ==>
        k <= e.fetched && (o.maxRows > 0 ==> e.fetched <= o.maxRows) &&
        (o.returnRows ==> |rows'| == |rows| + e.fetched - k) && (!o.returnRows ==> rows' == rows) &&
        (o.command.Some? ==> |sink'.evals| == |sink.evals| + e.fetched - k) &&
        (o.command.None? ==> sink'.evals == sink.evals)
    decreases |replies| - k
  {
    if !(o.maxRows > 0 && k >= o.maxRows) && ReplyAt(replies, k).Row? {
      var (stop, sink', rows') := RowStep(o, cols, handles, c0, ReplyAt(replies, k).cells, ScriptAt(scripts, k), sink, rows);
      FetchCounts(o, cols, handles, c0, replies, scripts, k + 1, sink', rows');
    }
  }

  /**
   * The end of orafetch once the loop is over: -resultvariable gets the
   * rows (an empty list without returnRows); the result is the rows with
   * returnRows, otherwise 0 when a row was fetched and 1403 when none was.
   */
  function Finish(o: FetchOptions, e: Ending, sink: Sink, rows: seq<Value>): (Outcome, Sink)
  {
    match e
    case Stopped(DriverStop(f)) => (DriverFailure(f.err, f.where), sink)
    case Stopped(ScriptStop(out)) => (out, sink)
    case Finished(n) =>
      var sink' := if o.resultVar.Some? then sink.(vars := sink.vars[Text(o.resultVar.value) := List(rows)]) else sink;
      (if o.returnRows then Ok(List(rows)) else Ok(Int(if n > 0 then 0 else 1403)), sink')
  }

  /** Whether the column names are needed: -asdict, or -dataarray with -indexbyname. */
  predicate NeedNames(o: FetchOptions)
  {
    o.asDict || (o.dataArray.Some? && o.indexByName)
  }

  /**
   * orafetch on a statement once its options are scanned and settled and
   * its columns described: the result, the changes to the interpreter and
   * the driver error recorded on the statement, if any.
   */
  function FetchCommand(o: FetchOptions, d: Described, handles: bool, c0: nat, replies: seq<FetchReply>, scripts: seq<Outcome>,
                        sink: Sink): (Outcome, Sink, Option<Fault>)
  {
    match d
    case NotDescribed(f) => (DriverFailure(f.err, f.where), sink, Some(f))
    case Described(cols) =>
      var (e, sink1, rows) := FetchFrom(o, cols, handles, c0, replies, scripts, 0, sink, []);
      var (out, sink2) := Finish(o, e, sink1, rows);
      (out, sink2, if e.Stopped? && e.stop.DriverStop? then Some(e.stop.fault) else None)
  }

  /**
   * The result rules of orafetch: with returnRows the result is the list
   * of fetched rows, one per row; without, it is 0 when some row was
   * fetched and 1403 when none was; at most maxRows rows are fetched when
   * maxRows is positive.
   */
  lemma FetchResult(o: FetchOptions, cols: seq<Column>, handles: bool, c0: nat, replies: seq<FetchReply>, scripts: seq<Outcome>, sink: Sink)
    ensures var (e, sink1, rows) := FetchFrom(o, cols, handles, c0, replies, scripts, 0, sink, []);
      var (out, _, fault) := FetchCommand(o, Described(cols), handles, c0, replies, scripts, sink);
      e.Finished? ==>
        fault.None? && (o.maxRows > 0 ==> e.fetched <= o.maxRows) &&
        (o.returnRows ==> out == Ok(List(rows)) && |rows| == e.fetched) &&
        (!o.returnRows ==> rows == [] && (out == Ok(Int(1403)) <==> e.fetched == 0) && (out == Ok(Int(0)) <==> e.fetched > 0))
  {
    FetchCounts(o, cols, handles, c0, replies, scripts, 0, sink, []);
  }

  /** When the first fetch finds no row, nothing is converted or evaluated and the result is 1403, or an empty list with returnRows. */
  lemma NoRowsAtAll(o: FetchOptions, cols: seq<Column>, handles: bool, c0: nat, replies: seq<FetchReply>, scripts: seq<Outcome>, sink: Sink)
    requires ReplyAt(replies, 0).NoRow?
    ensures var (out, sink', fault) := FetchCommand(o, Described(cols), handles, c0, replies, scripts, sink);
      fault.None? && sink'.evals == sink.evals && sink'.made == sink.made &&
      out == (if o.returnRows then Ok(List([])) else Ok(Int(1403)))
  {
  }

  // ---------------------------------------------------------------------
  // The single-row path as written
  // ---------------------------------------------------------------------

  /**
   * cmd_fetch.c:233-316, taken without returnRows when maxRows is 1 (the
   * default): one fetch; the row goes to -datavariable and -command only.
   * -dataarray and -resultvariable are not written.
   */
  function FastPathAsWritten(o: FetchOptions, cols: seq<Column>, handles: bool, c0: nat, replies: seq<FetchReply>,
                             scripts: seq<Outcome>, sink: Sink): (Outcome, Sink, Option<Fault>)
  {
    match ReplyAt(replies, 0)
    case FetchFailed(e) => (DriverFailure(e, "dpiStmt_fetch"), sink, Some(Fault(e, "dpiStmt_fetch")))
    case NoRow => (Ok(Int(1403)), sink, None)
    case Row(cells) =>
      var r := RowPrefix(cells, cols, handles, c0 + |sink.made|, |cols|, o.asDict);
      var k1 := sink.(made := sink.made + r.made);
      if r.fault.Some? then (DriverFailure(r.fault.value.err, r.fault.value.where), k1, r.fault)
      else
        var k2 := if o.dataVar.Some? then k1.(vars := k1.vars[Text(o.dataVar.value) := List(r.items)]) else k1;
        if o.command.None? then (Ok(Int(0)), k2, None)
        else
          var k3 := k2.(evals := k2.evals + [o.command.value]);
          var script := ScriptAt(scripts, 0);
          if script.Error? then (script, k3, None) else (Ok(Int(0)), k3, None)
  }

  /** orafetch as written, once described: the single-row path when it applies, the general loop otherwise. */
  function FetchAsWritten(o: FetchOptions, cols: seq<Column>, handles: bool, c0: nat, replies: seq<FetchReply>,
                          scripts: seq<Outcome>, sink: Sink): (Outcome, Sink, Option<Fault>)
  {
    if !o.returnRows && o.maxRows == 1 then FastPathAsWritten(o, cols, handles, c0, replies, scripts, sink)
    else FetchCommand(o, Described(cols), handles, c0, replies, scripts, sink)
  }

  /** Without an indexed -dataarray and without -resultvariable, the single-row path is the general loop with a limit of one row. */
  lemma FastPathAgrees(o: FetchOptions, cols: seq<Column>, handles: bool, c0: nat, replies: seq<FetchReply>,
                       scripts: seq<Outcome>, sink: Sink)
    requires !o.returnRows && o.maxRows == 1 && !Indexed(o) && o.resultVar.None?
    ensures FetchAsWritten(o, cols, handles, c0, replies, scripts, sink) == FetchCommand(o, Described(cols), handles, c0, replies, scripts, sink)
  {
    match ReplyAt(replies, 0)
    case Row(cells) =>
      var (stop, sink', rows') := RowStep(o, cols, handles, c0, cells, ScriptAt(scripts, 0), sink, []);
      assert FetchFrom(o, cols, handles, c0, replies, scripts, 1, sink', rows') == (Finished(1), sink', rows');
    case _ =>
  }

  /** The example below: `-dataarray a -indexbynumber` under the default limit, one unnamed column, a row holding 7. */
  const ArrayOpts: FetchOptions := NoOptions.(dataArray := Some(Str("a")), indexByNumber := true, maxRows := 1)
  const OneColumn: seq<Column> := [Column(false, "")]
  const SevenCells: seq<Reply<Cell>> := [Done(Int64Cell(7))]

  /** The general loop writes 7 to a(1). */
  lemma SevenInArray()
    ensures ArrayStep(ArrayOpts, OneColumn, false, 0, SevenCells, Sink(map[], [], [])) == Sink(map["a(1)" := Int(7)], [], [])
  {
    assert RowPrefix(SevenCells, OneColumn, false, 0, 1, false) == RowEnd([Int(7)], [], None);
    assert Keys(ArrayOpts, OneColumn) == ["1"];
    assert ElementName(Str("a"), "1") == "a(1)";
    assert [Int(7)][..0] == [];
    assert Assign(map[], Str("a"), ["1"], [Int(7)]) == map["a(1)" := Int(7)];
  }

  /** The general loop fetches the one row and stops at the limit. */
  lemma SevenFetched()
    ensures FetchFrom(ArrayOpts, OneColumn, false, 0, [Row(SevenCells)], [], 0, Sink(map[], [], []), []) ==
      (Finished(1), Sink(map["a(1)" := Int(7)], [], []), [])
  {
    SevenInArray();
    var sink1 := Sink(map["a(1)" := Int(7)], [], []);
    assert RowStep(ArrayOpts, OneColumn, false, 0, SevenCells, Ok(Empty), Sink(map[], [], []), []) == (None, sink1, []);
  }

  /**
   * `orafetch S -dataarray a -indexbynumber` on a one-column query whose
   * row holds 7: as written a(1) is never set, while the general loop
   * with a limit of one row sets it to 7.
   */
  lemma FastPathSkipsArray()
    ensures var sink := Sink(map[], [], []);
      FetchAsWritten(ArrayOpts, OneColumn, false, 0, [Row(SevenCells)], [], sink).1.vars == map[] &&
      FetchCommand(ArrayOpts, Described(OneColumn), false, 0, [Row(SevenCells)], [], sink).1.vars == map["a(1)" := Int(7)]
  {
    SevenFetched();
    assert RowPrefix(SevenCells, OneColumn, false, 0, 1, false) == RowEnd([Int(7)], [], None);
  }

  // ---------------------------------------------------------------------
  // The interpreter side
  // ---------------------------------------------------------------------

  /** LOB handles entered in the interpreter's table, in order. */
  function Register(lobs: map<string, Lob>, objs: seq<Lob>): map<string, Lob>
    decreases |objs|
  {
    if objs == [] then lobs else Register(lobs, objs[..|objs| - 1])[objs[|objs| - 1].name := objs[|objs| - 1]]
  }

  /** The n handles made are named by the counter values after c0, in order. */
  predicate Named(objs: seq<Lob>, c0: nat, n: nat)
  {
    |objs| == n && forall j :: 0 <= j < |objs| ==> objs[j].name == LobName(c0 + j + 1)
  }

  /** What orafetch changes, as values: the variables, the scripts evaluated, the LOB table, the handle counter and the reference counts. */
  datatype View = View(vars: map<string, Value>, evals: seq<Value>, lobs: map<string, Lob>, counter: nat, refs: map<Ref, int>)

  function ViewOf(ip: Interp, namer: Namer, drv: Driver): View
    reads ip, namer, drv
  {
    View(ip.vars, ip.evals, ip.lobs, namer.counter, drv.refs)
  }

  /**
   * The view once the sink k has been produced, starting from the view b:
   * the sink's variables and scripts, the handles objs registered, and one
   * counter value and one more reference per LOB handed out.
   */
  function Expected(b: View, k: Sink, objs: seq<Lob>): View
  {
    View(k.vars, k.evals, Register(b.lobs, objs), b.counter + |k.made|, BumpedAll(b.refs, k.made))
  }

  /** Handing out one more LOB as the next handle: one more entry, counter value and reference. */
  lemma HandOutStep(b: View, k: Sink, objs: seq<Lob>, l: Lob, r: Ref)
    requires Named(objs, b.counter, |k.made|) && l.name == LobName(b.counter + |k.made| + 1)
    ensures Named(objs + [l], b.counter, |k.made| + 1)
    ensures var e := Expected(b, k, objs);
      Expected(b, k.(made := k.made + [r]), objs + [l]) == e.(lobs := e.lobs[l.name := l], counter := e.counter + 1, refs := Bumped(e.refs, r))
  {
    NamedStep(objs, b.counter, l);
    assert (objs + [l])[..|objs|] == objs;
    assert Register(b.lobs, objs + [l]) == Register(b.lobs, objs)[l.name := l];
    assert (k.made + [r])[..|k.made|] == k.made;
    assert BumpedAll(b.refs, k.made + [r]) == Bumped(BumpedAll(b.refs, k.made), r);
  }

  /** The next handle is named by the next counter value. */
  lemma NamedStep(objs: seq<Lob>, c0: nat, l: Lob)
    requires Named(objs, c0, |objs|) && l.name == LobName(c0 + |objs| + 1)
    ensures Named(objs + [l], c0, |objs| + 1)
  {
    forall j | 0 <= j < |objs| + 1
      ensures (objs + [l])[j].name == LobName(c0 + j + 1)
    {
      if j < |objs| {
        assert (objs + [l])[j] == objs[j];
      }
    }
  }

  /** Before anything is made the view is the one orafetch started from. */
  lemma NothingMadeYet(b: View)
    ensures Expected(b, Sink(b.vars, b.evals, []), []) == b && Named([], b.counter, 0)
  {
  }

  lemma Assoc<T>(a: seq<T>, b: seq<T>, c: seq<T>)
    ensures a + b + c == a + (b + c)
  {
  }

  /** Once a column fails, the row ends there. */
  lemma {:induction false} FaultSticks(cells: seq<Reply<Cell>>, cols: seq<Column>, handles: bool, counter: nat, j: nat, n: nat, asDict: bool)
    requires j <= n <= |cols| && RowPrefix(cells, cols, handles, counter, j, asDict).fault.Some?
    ensures RowPrefix(cells, cols, handles, counter, n, asDict) == RowPrefix(cells, cols, handles, counter, j, asDict)
    decreases n
  {
    if j < n {
      FaultSticks(cells, cols, handles, counter, j, n - 1, asDict);
    }
  }

  /** Whether ValueToObj hands a LOB out as a handle: the statement has an owner with inlineLobs off. */
  predicate HandsOut(co: Conn?)
    reads co
  {
    co != null && !co.inlineLobs
  }

  /** The event queue an error on statement name with owner connection owner is posted to, given the owner's thread queue tid. */
  function QueueFor(name: string, owner: Conn?, tid: EventQueue?): set<EventQueue>
  {
    if RouteOf(name) == ToOwner && owner != null && tid != null then {tid} else {}
  }

  /** The queue of a statement's errors depends only on its name, its owner and the owner's thread queue. */
  lemma QueueIs(s: Stmt)
    ensures QueueOf(PostTarget(StmtH(s))) == QueueFor(s.name, s.owner, if s.owner == null then null else s.owner.ownerTid)
  {
  }

  /**
   * ValueToObj: a value for the cell; for a native LOB either a new handle
   * "oraB<n>" holding one more reference to it, or its content read
   * inline; a failed LOB call is recorded on the statement and gives no
   * value.
   */
  method ValueToObj(ip: Interp, namer: Namer, drv: Driver, s: Stmt, ghost q: set<EventQueue>, ghost handles: bool, ghost v0: View,
                    cell: Cell, isChar: bool) returns (v: Option<Value>, fault: Option<Fault>, ghost l: seq<Lob>)
    requires q == QueueOf(PostTarget(StmtH(s))) && handles == HandsOut(s.owner) && v0 == ViewOf(ip, namer, drv)
    modifies namer, ip`lobs, drv`refs, s`msg, q
    ensures match Convert(cell, isChar, handles)
      case Shown(x) =>
        v == Some(x) && fault == None && l == [] && ViewOf(ip, namer, drv) == v0 && s.msg == old(s.msg)
      case HandedOut(r) =>
        |l| == 1 && fresh(l[0]) && l[0].name == LobName(v0.counter + 1) && l[0].lob == Some(r) &&
        v == Some(Str(l[0].name)) && fault == None && s.msg == old(s.msg) &&
        ViewOf(ip, namer, drv) == v0.(lobs := v0.lobs[l[0].name := l[0]], counter := v0.counter + 1, refs := Bumped(v0.refs, r))
      case ConvertFailed(f) =>
        v == None && fault == Some(f) && l == [] && ViewOf(ip, namer, drv) == v0 && s.msg == DriverMsg(old(s.msg), f.err, f.where)
  {
    l, fault := [], None;
    match cell
    case NullCell => v := Some(Empty);
    case Int64Cell(i) => v := Some(Int(i));
    case Uint64Cell(u) => v := Some(Int(LobCmd.Wide(u)));
    case DoubleCell(t) => v := Some(Dbl(t));
    case BoolCell(b) => v := Some(Bool(b));
    case TimestampCell(ts) => v := Some(Str(TimestampText(ts)));
    case BytesCell(d) => v := Some(if d.None? then Empty else BytesValue(d.value, isChar));
    case OtherCell => v := Some(Empty);
    case LobCell(lob, a) =>
      if lob.None? {
        v := Some(Empty);
      } else if HandsOut(s.owner) {
        drv.AddRef(lob.value);
        var h := NewLob(ip, namer, lob);
        v, l := Some(Str(h.name)), [h];
      } else {
        var c, _ := ReadInline(a, isChar);
        if c.ConvertFailed? {
          var _ := SetErrorFromODPI(StmtH(s), c.fault.err, c.fault.where);
          v, fault := None, Some(c.fault);
        } else {
          v := Some(c.v);
        }
      }
  }

  /**
   * The statement's owner, the owner's thread queue and its inlineLobs
   * setting, as fixed for the whole command: q is where errors are posted
   * and handles says whether LOBs are handed out as handles.
   */
  ghost predicate Routed(s: Stmt, q: set<EventQueue>, handles: bool, owner: Conn?, tid: EventQueue?, inline: bool)
    reads s, owner
  {
    s.owner == owner && (owner != null ==> owner.ownerTid == tid && owner.inlineLobs == inline) &&
    q == QueueFor(s.name, owner, tid) && handles == (owner != null && !inline)
  }

  /** Routed holds for what the statement's fields say. */
  lemma RoutedNow(s: Stmt, q: set<EventQueue>, handles: bool)
    requires q == QueueOf(PostTarget(StmtH(s))) && handles == HandsOut(s.owner)
    ensures var owner := s.owner;
      Routed(s, q, handles, owner, if owner == null then null else owner.ownerTid, owner != null && owner.inlineLobs)
  {
    QueueIs(s);
  }

  /** What Routed fixes gives the queue and the LOB mode ValueToObj needs. */
  lemma RoutedQueue(s: Stmt, q: set<EventQueue>, handles: bool, owner: Conn?, tid: EventQueue?, inline: bool)
    requires Routed(s, q, handles, owner, tid, inline)
    ensures q == QueueOf(PostTarget(StmtH(s))) && handles == HandsOut(s.owner)
  {
    QueueIs(s);
  }

  /**
   * Column j's getQueryValue reply converted by ValueToObj: CellValue.  A
   * LOB handed out makes one more handle, named by the next counter
   * value; a failure is recorded on the statement.
   */
  method ColumnValue(ip: Interp, namer: Namer, drv: Driver, s: Stmt, ghost q: set<EventQueue>, ghost handles: bool,
                     ghost owner: Conn?, ghost tid: EventQueue?, ghost inline: bool,
                     cells: seq<Reply<Cell>>, cols: seq<Column>, j: nat, ghost b: View, ghost kk: Sink, ghost objs: seq<Lob>)
    returns (v: Option<Value>, fault: Option<Fault>, ghost extra: seq<Ref>, ghost objs': seq<Lob>)
    requires Routed(s, q, handles, owner, tid, inline) && j < |cols|
    requires ViewOf(ip, namer, drv) == Expected(b, kk, objs) && Named(objs, b.counter, |kk.made|)
    modifies namer, ip`lobs, drv`refs, s`msg, q
    ensures Routed(s, q, handles, owner, tid, inline)
    ensures (v, fault, extra) == CellValue(cells, cols, handles, j, b.counter + |kk.made|)
    ensures ViewOf(ip, namer, drv) == Expected(b, kk.(made := kk.made + extra), objs') && Named(objs', b.counter, |kk.made| + |extra|)
    ensures s.msg == if fault.Some? then DriverMsg(old(s.msg), fault.value.err, fault.value.where) else old(s.msg)
  {
    RoutedQueue(s, q, handles, owner, tid, inline);
    extra, objs' := [], objs;
    assert kk.(made := kk.made + extra) == kk;
    var reply := CellAt(cells, j);
    if reply.Failed? {
      var _ := SetErrorFromODPI(StmtH(s), reply.err, "dpiStmt_getQueryValue");
      return None, Some(Fault(reply.err, "dpiStmt_getQueryValue")), extra, objs';
    }
    ghost var cv := Convert(reply.value, cols[j].isChar, handles);
    ghost var l;
    v, fault, l := ValueToObj(ip, namer, drv, s, q, handles, Expected(b, kk, objs), reply.value, cols[j].isChar);
    if cv.HandedOut? {
      HandOutStep(b, kk, objs, l[0], cv.lob);
      extra, objs' := [cv.lob], objs + [l[0]];
    }
  }

  /**
   * The column loop after j columns, as values: items, made and fault are
   * the row built from them (its handles numbered after c), and kk is k
   * with the handles made.
   */
  ghost predicate RowPure(cells: seq<Reply<Cell>>, cols: seq<Column>, handles: bool, asDict: bool, c: nat, k: Sink,
                          j: nat, items: seq<Value>, made: seq<Ref>, fault: Option<Fault>, kk: Sink)
  {
    j <= |cols| && RowEnd(items, made, fault) == RowPrefix(cells, cols, handles, c, j, asDict) &&
    kk == k.(made := k.made + made)
  }

  /** RowPure, with the interpreter showing kk. */
  ghost predicate RowAt(ip: Interp, namer: Namer, drv: Driver, cells: seq<Reply<Cell>>, cols: seq<Column>, handles: bool,
                        asDict: bool, b: View, k: Sink, j: nat, items: seq<Value>, made: seq<Ref>, fault: Option<Fault>,
                        kk: Sink, objs: seq<Lob>)
    reads ip, namer, drv
  {
    RowPure(cells, cols, handles, asDict, b.counter + |k.made|, k, j, items, made, fault, kk) &&
    ViewOf(ip, namer, drv) == Expected(b, kk, objs) && Named(objs, b.counter, |kk.made|)
  }

  /** A row that failed at column j - 1 ends with that failure. */
  lemma RowStops(cells: seq<Reply<Cell>>, cols: seq<Column>, handles: bool, asDict: bool, c: nat, k: Sink,
                 j: nat, items: seq<Value>, made: seq<Ref>, fault: Option<Fault>, kk: Sink)
    requires RowPure(cells, cols, handles, asDict, c, k, j, items, made, fault, kk) && fault.Some?
    ensures RowPure(cells, cols, handles, asDict, c, k, |cols|, items, made, fault, kk)
  {
    FaultSticks(cells, cols, handles, c, j, |cols|, asDict);
  }

  /** The column loop's bookkeeping for column j, whose value or fault is x and f. */
  lemma RowNext(cells: seq<Reply<Cell>>, cols: seq<Column>, handles: bool, asDict: bool, c: nat, k: Sink,
                j: nat, items: seq<Value>, made: seq<Ref>, kk: Sink, n: nat, x: Option<Value>, f: Option<Fault>, extra: seq<Ref>,
                items': seq<Value>, kk': Sink)
    requires RowPure(cells, cols, handles, asDict, c, k, j, items, made, None, kk) && j < |cols| && n == c + |made|
    requires (x, f, extra) == CellValue(cells, cols, handles, j, n)
    requires items' == if f.Some? then items else items + Entry(cols[j], x.value, asDict)
    requires kk' == kk.(made := kk.made + extra)
    ensures RowPure(cells, cols, handles, asDict, c, k, j + 1, items', made + extra, f, kk')
  {
    ColumnStepIs(cells, cols, handles, c, j, asDict, items, made);
    Assoc(k.made, made, extra);
    if f.Some? {
      assert made + extra == made;
    }
  }

  /**
   * Column j of the row (cmd_fetch.c:343-375): its value appended, after
   * its name with -asdict, or the failure recorded on the statement.
   */
  method ConvertColumn(ip: Interp, namer: Namer, drv: Driver, s: Stmt, ghost q: set<EventQueue>, ghost handles: bool,
                       ghost owner: Conn?, ghost tid: EventQueue?, ghost inline: bool,
                       cells: seq<Reply<Cell>>, cols: seq<Column>, asDict: bool, j: nat, items: seq<Value>,
                       ghost made: seq<Ref>, ghost b: View, ghost k: Sink, ghost kk: Sink, ghost objs: seq<Lob>)
    returns (items': seq<Value>, fault: Option<Fault>, ghost made': seq<Ref>, ghost kk': Sink, ghost objs': seq<Lob>)
    requires Routed(s, q, handles, owner, tid, inline) && j < |cols|
    requires RowAt(ip, namer, drv, cells, cols, handles, asDict, b, k, j, items, made, None, kk, objs)
    modifies namer, ip`lobs, drv`refs, s`msg, q
    ensures Routed(s, q, handles, owner, tid, inline)
    ensures RowAt(ip, namer, drv, cells, cols, handles, asDict, b, k, j + 1, items', made', fault, kk', objs')
    ensures fault.None? ==> s.msg == old(s.msg)
    ensures fault.Some? ==> s.msg == DriverMsg(old(s.msg), fault.value.err, fault.value.where)
  {
    var v;
    ghost var extra;
    v, fault, extra, objs' := ColumnValue(ip, namer, drv, s, q, handles, owner, tid, inline, cells, cols, j, b, kk, objs);
    ghost var c := b.counter + |k.made|;
    assert c + |made| == b.counter + |kk.made|;
    items' := if fault.Some? then items else items + Entry(cols[j], v.value, asDict);
    made', kk' := made + extra, kk.(made := kk.made + extra);
    RowNext(cells, cols, handles, asDict, c, k, j, items, made, kk, b.counter + |kk.made|, v, fault, extra, items', kk');
  }

  /**
   * The column loop of one row: each column's getQueryValue reply
   * converted and appended (after its name with -asdict); the first
   * failure is recorded on the statement and ends the row.
   */
  method ConvertRow(ip: Interp, namer: Namer, drv: Driver, s: Stmt, ghost q: set<EventQueue>, ghost handles: bool,
                    ghost owner: Conn?, ghost tid: EventQueue?, ghost inline: bool,
                    cells: seq<Reply<Cell>>, cols: seq<Column>, asDict: bool, ghost b: View, ghost k: Sink, ghost objs: seq<Lob>)
    returns (items: seq<Value>, fault: Option<Fault>, ghost made: seq<Ref>, ghost kk: Sink, ghost objs': seq<Lob>)
    requires Routed(s, q, handles, owner, tid, inline)
    requires ViewOf(ip, namer, drv) == Expected(b, k, objs) && Named(objs, b.counter, |k.made|)
    modifies namer, ip`lobs, drv`refs, s`msg, q
    ensures Routed(s, q, handles, owner, tid, inline)
    ensures RowAt(ip, namer, drv, cells, cols, handles, asDict, b, k, |cols|, items, made, fault, kk, objs')
    ensures fault.None? ==> s.msg == old(s.msg)
    ensures fault.Some? ==> s.msg == DriverMsg(old(s.msg), fault.value.err, fault.value.where)
  {
    items, fault, made, objs' := [], None, [], objs;
    kk := k;
    assert k.(made := k.made + made) == k;
    var j := 0;
    while j < |cols|
      invariant RowAt(ip, namer, drv, cells, cols, handles, asDict, b, k, j, items, made, None, kk, objs')
      invariant s.msg == old(s.msg) && fault.None? && Routed(s, q, handles, owner, tid, inline)
    {
      items, fault, made, kk, objs' := ConvertColumn(ip, namer, drv, s, q, handles, owner, tid, inline, cells, cols, asDict,
                                                      j, items, made, b, k, kk, objs');
      if fault.Some? {
        RowStops(cells, cols, handles, asDict, b.counter + |k.made|, k, j + 1, items, made, fault, kk);
        return;
      }
      j := j + 1;
    }
  }

  /** Writing one more element of the array, under the next key. */
  lemma AssignStep(vars: map<string, Value>, arr: Value, keys: seq<string>, vals: seq<Value>, x: Value)
    requires |vals| < |keys|
    ensures Assign(vars, arr, keys, vals + [x]) == Assign(vars, arr, keys, vals)[ElementName(arr, keys[|vals|]) := x]
  {
    assert (vals + [x])[..|vals|] == vals;
  }

  /**
   * The -dataarray pass after j columns, as values: vals and made are the
   * values and handles of the first j columns (the row's handles numbered
   * after c), and kk is k with those values written to the array and
   * those handles made.
   */
  ghost predicate ArrayPrefix(cells: seq<Reply<Cell>>, cols: seq<Column>, handles: bool, o: FetchOptions, c: nat, k: Sink,
                              j: nat, vals: seq<Value>, made: seq<Ref>, kk: Sink)
  {
    Indexed(o) && j <= |cols| && |vals| <= |cols| &&
    RowEnd(vals, made, None) == RowPrefix(cells, cols, handles, c, j, false) &&
    kk == k.(vars := Assign(k.vars, o.dataArray.value, Keys(o, cols), vals), made := k.made + made)
  }

  /** ArrayPrefix, with the interpreter showing kk. */
  ghost predicate ArrayDone(ip: Interp, namer: Namer, drv: Driver, cells: seq<Reply<Cell>>, cols: seq<Column>, handles: bool,
                            o: FetchOptions, b: View, k: Sink, j: nat, vals: seq<Value>, made: seq<Ref>, kk: Sink, objs: seq<Lob>)
    reads ip, namer, drv
  {
    ArrayPrefix(cells, cols, handles, o, b.counter + |k.made|, k, j, vals, made, kk) &&
    ViewOf(ip, namer, drv) == Expected(b, kk, objs) && Named(objs, b.counter, |kk.made|)
  }

  /**
   * Column j of the -dataarray pass: read and converted again (a LOB
   * becomes one more handle), then written to arr(key), key being the
   * column number or its name.  The row converted the first time, and
   * the driver gives the same answers again.
   */
  method ArrayColumn(ip: Interp, namer: Namer, drv: Driver, s: Stmt, ghost q: set<EventQueue>, ghost handles: bool,
                     ghost owner: Conn?, ghost tid: EventQueue?, ghost inline: bool,
                     cells: seq<Reply<Cell>>, cols: seq<Column>, o: FetchOptions, j: nat,
                     ghost vals: seq<Value>, ghost made: seq<Ref>, ghost b: View, ghost k: Sink, ghost kk: Sink, ghost objs: seq<Lob>)
    returns (ghost vals': seq<Value>, ghost made': seq<Ref>, ghost kk': Sink, ghost objs': seq<Lob>)
    requires Routed(s, q, handles, owner, tid, inline) && j < |cols|
    requires RowPrefix(cells, cols, handles, b.counter + |k.made|, |cols|, false).fault.None?
    requires ArrayDone(ip, namer, drv, cells, cols, handles, o, b, k, j, vals, made, kk, objs)
    modifies namer, ip`lobs, ip`vars, drv`refs, s`msg, q
    ensures Routed(s, q, handles, owner, tid, inline) && s.msg == old(s.msg)
    ensures ArrayDone(ip, namer, drv, cells, cols, handles, o, b, k, j + 1, vals', made', kk', objs')
  {
    ghost var c := b.counter + |k.made|;
    ColumnConverts(cells, cols, handles, c, j, |cols|, false);
    CellValueOk(cells, cols, handles, j, b.counter + |kk.made|);
    var w, f;
    ghost var extra, objs1;
    w, f, extra, objs1 := ColumnValue(ip, namer, drv, s, q, handles, owner, tid, inline, cells, cols, j, b, kk, objs);
    var v := w.value;
    var arr := o.dataArray.value;
    var key := if o.indexByNumber then Digits(j + 1) else cols[j].name;
    assert key == Keys(o, cols)[j];
    ghost var kk1 := kk.(made := kk.made + extra);
    WriteElement(ip, namer, drv, ElementName(arr, key), v, b, kk1, objs1);
    vals', made', objs', kk' := vals + [v], made + extra, objs1, kk1.(vars := kk1.vars[ElementName(arr, key) := v]);
    ArrayNext(cells, cols, handles, o, c, k, j, vals, made, kk, b.counter + |kk.made|, w, extra, key, kk');
  }

  /** Tcl_ObjSetVar2 on one array element. */
  method WriteElement(ip: Interp, namer: Namer, drv: Driver, name: string, v: Value, ghost b: View, ghost k: Sink, ghost objs: seq<Lob>)
    requires ViewOf(ip, namer, drv) == Expected(b, k, objs)
    modifies ip`vars
    ensures ViewOf(ip, namer, drv) == Expected(b, k.(vars := k.vars[name := v]), objs)
  {
    ip.vars := ip.vars[name := v];
  }

  /**
   * The array pass's bookkeeping for column j: the value x and the handles
   * extra it makes extend the row prefix, and writing x to the column's
   * element extends the assignment.
   */
  lemma ArrayNext(cells: seq<Reply<Cell>>, cols: seq<Column>, handles: bool, o: FetchOptions, c: nat, k: Sink,
                  j: nat, vals: seq<Value>, made: seq<Ref>, kk: Sink, n: nat, x: Option<Value>, extra: seq<Ref>,
                  key: string, kk': Sink)
    requires ArrayPrefix(cells, cols, handles, o, c, k, j, vals, made, kk) && j < |cols| && n == c + |made|
    requires (x, None, extra) == CellValue(cells, cols, handles, j, n) && x.Some?
    requires key == Keys(o, cols)[j]
    requires kk' == kk.(made := kk.made + extra).(vars := kk.vars[ElementName(o.dataArray.value, key) := x.value])
    ensures ArrayPrefix(cells, cols, handles, o, c, k, j + 1, vals + [x.value], made + extra, kk')
  {
    ColumnStepIs(cells, cols, handles, c, j, false, vals, made);
    AssignStep(k.vars, o.dataArray.value, Keys(o, cols), vals, x.value);
    Assoc(k.made, made, extra);
    if extra == [] {
      assert made + extra == made;
    }
  }

  /** The -dataarray pass of one row, indexed by number or by name: ArrayStep. */
  method ArrayPass(ip: Interp, namer: Namer, drv: Driver, s: Stmt, ghost q: set<EventQueue>, ghost handles: bool,
                   ghost owner: Conn?, ghost tid: EventQueue?, ghost inline: bool,
                   cells: seq<Reply<Cell>>, cols: seq<Column>, o: FetchOptions, ghost b: View, ghost k: Sink, ghost objs: seq<Lob>)
    returns (ghost objs': seq<Lob>)
    requires Routed(s, q, handles, owner, tid, inline) && Indexed(o)
    requires RowPrefix(cells, cols, handles, b.counter + |k.made|, |cols|, false).fault.None?
    requires ViewOf(ip, namer, drv) == Expected(b, k, objs) && Named(objs, b.counter, |k.made|)
    modifies namer, ip`lobs, ip`vars, drv`refs, s`msg, q
    ensures Routed(s, q, handles, owner, tid, inline) && s.msg == old(s.msg)
    ensures var k' := ArrayStep(o, cols, handles, b.counter, cells, k);
      ViewOf(ip, namer, drv) == Expected(b, k', objs') && Named(objs', b.counter, |k'.made|)
  {
    ghost var vals: seq<Value>, made: seq<Ref>, kk := [], [], k;
    assert k.(vars := Assign(k.vars, o.dataArray.value, Keys(o, cols), vals), made := k.made + made) == k;
    objs' := objs;
    var j := 0;
    while j < |cols|
      invariant ArrayDone(ip, namer, drv, cells, cols, handles, o, b, k, j, vals, made, kk, objs')
      invariant Routed(s, q, handles, owner, tid, inline) && s.msg == old(s.msg)
    {
      vals, made, kk, objs' := ArrayColumn(ip, namer, drv, s, q, handles, owner, tid, inline, cells, cols, o, j,
                                           vals, made, b, k, kk, objs');
      j := j + 1;
    }
    ArrayPrefixFull(cells, cols, handles, o, b.counter, k, vals, made, kk);
  }

  /** A pass over every column writes what ArrayStep says. */
  lemma ArrayPrefixFull(cells: seq<Reply<Cell>>, cols: seq<Column>, handles: bool, o: FetchOptions, c0: nat, k: Sink,
                        vals: seq<Value>, made: seq<Ref>, kk: Sink)
    requires ArrayPrefix(cells, cols, handles, o, c0 + |k.made|, k, |cols|, vals, made, kk)
    ensures kk == ArrayStep(o, cols, handles, c0, cells, k)
  {
    var a := RowPrefix(cells, cols, handles, c0 + |k.made|, |cols|, false);
    assert a.items == vals && a.made == made;
  }

  /**
   * The tail of a row: set -datavariable to the row; evaluate -command,
   * whose outcome is script (a non-OK outcome stops the loop); keep the
   * row with returnRows.
   */
  method PublishRow(ip: Interp, namer: Namer, drv: Driver, o: FetchOptions, script: Outcome, rows: seq<Value>, row: Value,
                    ghost b: View, ghost k: Sink, ghost objs: seq<Lob>)
    returns (stop: Option<Stop>, rows': seq<Value>, ghost k': Sink)
    requires ViewOf(ip, namer, drv) == Expected(b, k, objs)
    modifies ip`vars, ip`evals
    ensures (stop, k', rows') == Publish(o, script, k, rows, row)
    ensures stop.None? || stop.value.ScriptStop?
    ensures ViewOf(ip, namer, drv) == Expected(b, k', objs) && k'.made == k.made
  {
    k', rows' := k, rows;
    if o.dataVar.Some? {
      ip.vars := ip.vars[Text(o.dataVar.value) := row];
      k' := k'.(vars := k'.vars[Text(o.dataVar.value) := row]);
    }
    if o.command.Some? {
      ip.evals := ip.evals + [o.command.value];
      k' := k'.(evals := k'.evals + [o.command.value]);
      if script.Error? {
        stop := Some(ScriptStop(script));
        return;
      }
    }
    if o.returnRows {
      rows' := rows + [row];
    }
    stop := None;
  }

  /** A converted row: write the array when one is asked for, then PublishRow. */
  method DeliverRow(ip: Interp, namer: Namer, drv: Driver, s: Stmt, ghost q: set<EventQueue>, ghost handles: bool,
                    ghost owner: Conn?, ghost tid: EventQueue?, ghost inline: bool,
                    o: FetchOptions, cols: seq<Column>, cells: seq<Reply<Cell>>, script: Outcome, rows: seq<Value>, row: Value,
                    ghost b: View, ghost k: Sink, ghost objs: seq<Lob>)
    returns (stop: Option<Stop>, rows': seq<Value>, ghost k': Sink, ghost objs': seq<Lob>)
    requires Routed(s, q, handles, owner, tid, inline)
    requires RowPrefix(cells, cols, handles, b.counter + |k.made|, |cols|, false).fault.None?
    requires ViewOf(ip, namer, drv) == Expected(b, k, objs) && Named(objs, b.counter, |k.made|)
    modifies namer, ip`lobs, ip`vars, ip`evals, drv`refs, s`msg, q
    ensures Routed(s, q, handles, owner, tid, inline) && s.msg == old(s.msg)
    ensures (stop, k', rows') == Deliver(o, cols, handles, b.counter, cells, script, k, rows, row)
    ensures stop.None? || stop.value.ScriptStop?
    ensures ViewOf(ip, namer, drv) == Expected(b, k', objs') && Named(objs', b.counter, |k'.made|)
  {
    ghost var k1 := k;
    objs' := objs;
    if o.dataArray.Some? && (o.indexByNumber || o.indexByName) {
      objs' := ArrayPass(ip, namer, drv, s, q, handles, owner, tid, inline, cells, cols, o, b, k, objs);
      k1 := ArrayStep(o, cols, handles, b.counter, cells, k);
    }
    stop, rows', k' := PublishRow(ip, namer, drv, o, script, rows, row, b, k1, objs');
  }

  /** One fetched row: RowStep. */
  method FetchRow(ip: Interp, namer: Namer, drv: Driver, s: Stmt, ghost q: set<EventQueue>, ghost handles: bool,
                  ghost owner: Conn?, ghost tid: EventQueue?, ghost inline: bool,
                  o: FetchOptions, cols: seq<Column>, cells: seq<Reply<Cell>>, script: Outcome, rows: seq<Value>,
                  ghost b: View, ghost k: Sink, ghost objs: seq<Lob>)
    returns (stop: Option<Stop>, rows': seq<Value>, ghost k': Sink, ghost objs': seq<Lob>)
    requires Routed(s, q, handles, owner, tid, inline)
    requires ViewOf(ip, namer, drv) == Expected(b, k, objs) && Named(objs, b.counter, |k.made|)
    modifies namer, ip`lobs, ip`vars, ip`evals, drv`refs, s`msg, q
    ensures Routed(s, q, handles, owner, tid, inline)
    ensures (stop, k', rows') == RowStep(o, cols, handles, b.counter, cells, script, k, rows)
    ensures ViewOf(ip, namer, drv) == Expected(b, k', objs') && Named(objs', b.counter, |k'.made|)
    ensures s.msg == if stop.Some? && stop.value.DriverStop? then DriverMsg(old(s.msg), stop.value.fault.err, stop.value.fault.where) else old(s.msg)
  {
    var items, fault;
    ghost var made;
    items, fault, made, k', objs' := ConvertRow(ip, namer, drv, s, q, handles, owner, tid, inline, cells, cols, o.asDict, b, k, objs);
    rows' := rows;
    if fault.Some? {
      stop := Some(DriverStop(fault.value));
      return;
    }
    FaultIndependent(cells, cols, handles, b.counter + |k.made|, b.counter + |k'.made|, |cols|, o.asDict, false);
    stop, rows', k', objs' := DeliverRow(ip, namer, drv, s, q, handles, owner, tid, inline, o, cols, cells, script, rows, List(items), b, k', objs');
  }

  /**
   * The general fetch loop (cmd_fetch.c:318-475): fetch until the rows
   * run out, maxRows rows are fetched when maxRows is positive, or a row
   * stops the loop; a failed fetch is recorded on the statement.
   */
  method FetchLoop(ip: Interp, namer: Namer, drv: Driver, s: Stmt, ghost q: set<EventQueue>, ghost handles: bool,
                   ghost owner: Conn?, ghost tid: EventQueue?, ghost inline: bool,
                   o: FetchOptions, cols: seq<Column>, replies: seq<FetchReply>, scripts: seq<Outcome>, ghost b: View)
    returns (e: Ending, rows: seq<Value>, ghost k: Sink, ghost objs: seq<Lob>)
    requires Routed(s, q, handles, owner, tid, inline) && ViewOf(ip, namer, drv) == b
    modifies namer, ip`lobs, ip`vars, ip`evals, drv`refs, s`msg, q
    ensures Routed(s, q, handles, owner, tid, inline)
    ensures (e, k, rows) == FetchFrom(o, cols, handles, b.counter, replies, scripts, 0, Sink(b.vars, b.evals, []), [])
    ensures ViewOf(ip, namer, drv) == Expected(b, k, objs) && Named(objs, b.counter, |k.made|)
    ensures s.msg == if e.Stopped? && e.stop.DriverStop? then DriverMsg(old(s.msg), e.stop.fault.err, e.stop.fault.where) else old(s.msg)
  {
    ghost var goal := FetchFrom(o, cols, handles, b.counter, replies, scripts, 0, Sink(b.vars, b.evals, []), []);
    NothingMadeYet(b);
    k, objs, rows := Sink(b.vars, b.evals, []), [], [];
    var fetched: nat := 0;
    while true
      invariant FetchFrom(o, cols, handles, b.counter, replies, scripts, fetched, k, rows) == goal
      invariant !(o.maxRows > 0 && fetched >= o.maxRows)
      invariant ViewOf(ip, namer, drv) == Expected(b, k, objs) && Named(objs, b.counter, |k.made|)
      invariant Routed(s, q, handles, owner, tid, inline) && s.msg == old(s.msg)
      decreases |replies| - fetched
    {
      var ended;
      ended, rows, k, objs := FetchOne(ip, namer, drv, s, q, handles, owner, tid, inline, o, cols, replies, scripts, fetched, rows, b, k, objs);
      if ended.Some? {
        return ended.value, rows, k, objs;
      }
      fetched := fetched + 1;
      if o.maxRows > 0 && fetched >= o.maxRows {
        return Finished(fetched), rows, k, objs;
      }
    }
  }

  /**
   * One pass of the fetch loop below its maxRows test: dpiStmt_fetch,
   * then the row.  It either ends the loop, as FetchFrom does, or leaves
   * FetchFrom's remaining answer unchanged for the next row.
   */
  method FetchOne(ip: Interp, namer: Namer, drv: Driver, s: Stmt, ghost q: set<EventQueue>, ghost handles: bool,
                  ghost owner: Conn?, ghost tid: EventQueue?, ghost inline: bool,
                  o: FetchOptions, cols: seq<Column>, replies: seq<FetchReply>, scripts: seq<Outcome>, fetched: nat,
                  rows: seq<Value>, ghost b: View, ghost k: Sink, ghost objs: seq<Lob>)
    returns (ended: Option<Ending>, rows': seq<Value>, ghost k': Sink, ghost objs': seq<Lob>)
    requires Routed(s, q, handles, owner, tid, inline) && !(o.maxRows > 0 && fetched >= o.maxRows)
    requires ViewOf(ip, namer, drv) == Expected(b, k, objs) && Named(objs, b.counter, |k.made|)
    modifies namer, ip`lobs, ip`vars, ip`evals, drv`refs, s`msg, q
    ensures Routed(s, q, handles, owner, tid, inline)
    ensures ended.Some? ==> FetchFrom(o, cols, handles, b.counter, replies, scripts, fetched, k, rows) == (ended.value, k', rows')
    ensures ended.None? ==> FetchFrom(o, cols, handles, b.counter, replies, scripts, fetched, k, rows) ==
                            FetchFrom(o, cols, handles, b.counter, replies, scripts, fetched + 1, k', rows')
    ensures ended.None? ==> fetched < |replies|
    ensures ViewOf(ip, namer, drv) == Expected(b, k', objs') && Named(objs', b.counter, |k'.made|)
    ensures s.msg == if ended.Some? && ended.value.Stopped? && ended.value.stop.DriverStop?
                     then DriverMsg(old(s.msg), ended.value.stop.fault.err, ended.value.stop.fault.where) else old(s.msg)
  {
    rows', k', objs' := rows, k, objs;
    var reply := ReplyAt(replies, fetched);
    match reply
    case FetchFailed(err) =>
      RoutedQueue(s, q, handles, owner, tid, inline);
      var _ := SetErrorFromODPI(StmtH(s), err, "dpiStmt_fetch");
      ended := Some(Stopped(DriverStop(Fault(err, "dpiStmt_fetch"))));
    case NoRow =>
      ended := Some(Finished(fetched));
    case Row(cells) =>
      var stop;
      stop, rows', k', objs' := FetchRow(ip, namer, drv, s, q, handles, owner, tid, inline, o, cols, cells,
                                         ScriptAt(scripts, fetched), rows, b, k, objs);
      ended := if stop.Some? then Some(Stopped(stop.value)) else None;
  }

  /** What dpiStmt_getNumQueryColumns answers: a statement without a native statement fails as a null handle. */
  function ShapeOf(stmt: Option<Ref>, shape: Reply<seq<Reply<ColumnInfo>>>): (r: Reply<seq<Reply<ColumnInfo>>>)
    ensures stmt.None? ==> r == Failed(NullHandleError)
    ensures stmt.Some? ==> r == shape
  {
    if stmt.None? then Failed(NullHandleError) else shape
  }

  /**
   * The two column passes on the statement (cmd_fetch.c:205-231): a
   * failure of getNumQueryColumns or getQueryInfo is recorded on it.
   */
  method DescribeStmt(s: Stmt, o: FetchOptions, shape: Reply<seq<Reply<ColumnInfo>>>) returns (d: Described)
    modifies s`msg, QueueOf(PostTarget(StmtH(s)))
    ensures d == Describe(ShapeOf(s.stmt, shape), NeedNames(o))
    ensures s.msg == if d.NotDescribed? then DriverMsg(old(s.msg), d.fault.err, d.fault.where) else old(s.msg)
  {
    match ShapeOf(s.stmt, shape) {
      case Failed(err) =>
        d := NotDescribed(Fault(err, "dpiStmt_getNumQueryColumns"));
      case Done(infos) =>
        d := DescribeColumns(infos, NeedNames(o));
    }
    if d.NotDescribed? {
      var _ := SetErrorFromODPI(StmtH(s), d.fault.err, d.fault.where);
    }
  }

  /**
   * orafetch on a statement once its options are settled
   * (cmd_fetch.c:205-231 and 318-494): describe the columns, run the
   * fetch loop, then write -resultvariable and give the result.  A driver
   * failure is recorded on the statement.
   */
  method FetchStmt(ip: Interp, namer: Namer, drv: Driver, s: Stmt, o: FetchOptions,
                   shape: Reply<seq<Reply<ColumnInfo>>>, replies: seq<FetchReply>, scripts: seq<Outcome>, ghost b: View)
    returns (out: Outcome, ghost k: Sink, ghost objs: seq<Lob>)
    requires ViewOf(ip, namer, drv) == b
    modifies namer, ip`lobs, ip`vars, ip`evals, drv`refs, s`msg, QueueOf(PostTarget(StmtH(s)))
    ensures var (r, k1, fault) := FetchCommand(o, Describe(ShapeOf(s.stmt, shape), NeedNames(o)), HandsOut(s.owner), b.counter,
                                               replies, scripts, Sink(b.vars, b.evals, []));
      out == r && k == k1 && ViewOf(ip, namer, drv) == Expected(b, k, objs) && Named(objs, b.counter, |k.made|) &&
      s.msg == if fault.Some? then DriverMsg(old(s.msg), fault.value.err, fault.value.where) else old(s.msg)
  {
    var d := DescribeStmt(s, o, shape);
    if d.NotDescribed? {
      NothingMadeYet(b);
      return DriverFailure(d.fault.err, d.fault.where), Sink(b.vars, b.evals, []), [];
    }
    ghost var q := QueueOf(PostTarget(StmtH(s)));
    ghost var handles := HandsOut(s.owner);
    RoutedNow(s, q, handles);
    var e, rows;
    e, rows, k, objs := FetchLoop(ip, namer, drv, s, q, handles, s.owner, if s.owner == null then null else s.owner.ownerTid,
                                  s.owner != null && s.owner.inlineLobs, o, d.cols, replies, scripts, b);
    out, k := FinishFetch(ip, namer, drv, o, e, rows, b, k, objs);
  }

  /** After the loop (cmd_fetch.c:477-494): -resultvariable is set to the rows, and the result given. */
  method FinishFetch(ip: Interp, namer: Namer, drv: Driver, o: FetchOptions, e: Ending, rows: seq<Value>,
                     ghost b: View, ghost k: Sink, ghost objs: seq<Lob>)
    returns (out: Outcome, ghost k': Sink)
    requires ViewOf(ip, namer, drv) == Expected(b, k, objs)
    modifies ip`vars
    ensures (out, k') == Finish(o, e, k, rows)
    ensures ViewOf(ip, namer, drv) == Expected(b, k', objs) && k'.made == k.made
  {
    k' := k;
    match e
    case Stopped(DriverStop(f)) =>
      out := DriverFailure(f.err, f.where);
    case Stopped(ScriptStop(x)) =>
      out := x;
    case Finished(n) =>
      if o.resultVar.Some? {
        ip.vars := ip.vars[Text(o.resultVar.value) := List(rows)];
        k' := k.(vars := k.vars[Text(o.resultVar.value) := List(rows)]);
      }
      out := if o.returnRows then Ok(List(rows)) else Ok(Int(if n > 0 then 0 else 1403));
  }

  /**
   * Oradpi_Cmd_Fetch (cmd_fetch.c:157-494): `orafetch statement-handle
   * ?options?`.  shape, replies and scripts are the driver's column
   * description, its answers to the fetches and the outcomes of the
   * -command script, row by row.
   */
  method Orafetch(ip: Interp, namer: Namer, drv: Driver, objv: seq<Value>,
                  shape: Reply<seq<Reply<ColumnInfo>>>, replies: seq<FetchReply>, scripts: seq<Outcome>)
    returns (out: Outcome, ghost found: Option<Stmt>, ghost k: Sink, ghost objs: seq<Lob>)
    requires |objv| >= 1
    modifies namer, ip`lobs, ip`vars, ip`evals, drv`refs, NamedStmt(ip, objv)`msg, NamedQueue(ip, objv)
    ensures ip.stmts == old(ip.stmts)
    ensures |objv| < 2 ==> out == WrongArgs(objv, FetchUsage) && found == None
    ensures |objv| >= 2 && Text(objv[1]) !in ip.stmts ==> out == ClientFailure("invalid statement handle") && found == None
    ensures |objv| >= 2 && Text(objv[1]) in ip.stmts ==> found == Some(ip.stmts[Text(objv[1])])
    ensures found.None? || ScanFetch(objv, 2, NoOptions).Rejected? ==>
      ViewOf(ip, namer, drv) == old(ViewOf(ip, namer, drv)) && (found.Some? ==> out == ScanFetch(objv, 2, NoOptions).outcome)
    ensures found.Some? && ScanFetch(objv, 2, NoOptions).Parsed? ==>
      var s := found.value;
      var b := old(ViewOf(ip, namer, drv));
      var (r, k1, fault) := FetchCommand(Settle(ScanFetch(objv, 2, NoOptions).value), Describe(ShapeOf(s.stmt, shape), NeedNames(Settle(ScanFetch(objv, 2, NoOptions).value))),
                                         HandsOut(s.owner), b.counter, replies, scripts, Sink(b.vars, b.evals, []));
      out == r && k == k1 && ViewOf(ip, namer, drv) == Expected(b, k, objs) && Named(objs, b.counter, |k.made|) &&
      s.msg == if fault.Some? then DriverMsg(old(s.msg), fault.value.err, fault.value.where) else old(s.msg)
  {
    found, k, objs := None, Sink(ip.vars, ip.evals, []), [];
    if |objv| < 2 {
      return WrongArgs(objv, FetchUsage), found, k, objs;
    }
    var s := LookupStmt(ip, Text(objv[1]));
    if s == null {
      return ClientFailure("invalid statement handle"), found, k, objs;
    }
    found := Some(s);
    var parsed := ParseFetchOptions(objv);
    if parsed.Rejected? {
      return parsed.outcome, found, k, objs;
    }
    QueueIs(s);
    out, k, objs := FetchStmt(ip, namer, drv, s, Settle(parsed.value), shape, replies, scripts, ViewOf(ip, namer, drv));
  }
}
