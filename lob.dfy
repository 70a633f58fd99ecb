/**
 * oralob (cmd_lob.c): size, read, write, trim and close on a LOB handle.
 * The LOB calls are the driver's; their answers are parameters and the
 * calls made are returned in order, so a property such as "nothing is
 * read past the end" is a statement about that log.
 */
module LobCmd {
  import opened Wrappers
  import opened Tcl
  import opened Native
  import opened Handles
  import opened Status
  import opened State

  const LobUsage: string := "subcommand lob-handle ?args...?"
  const WriteUsage: string := "write lob-handle data ?-offset off?"
  const TrimUsage: string := "trim lob-handle newSize"

  const TwoTo64: int := 0x1_0000_0000_0000_0000

  type u64 = x: int | 0 <= x < 0x1_0000_0000_0000_0000

  /** (uint64_t)w for a Tcl_WideInt w: two's complement. */
  function U64(w: int): (r: u64)
    requires InWide(w)
    ensures w >= 0 ==> r == w
    ensures w < 0 ==> r == w + TwoTo64
  {
    if w < 0 then w + TwoTo64 else w
  }

  /** (Tcl_WideInt)u for a uint64_t u: sizes of 2^63 and more read as negative. */
  function Wide(u: u64): (r: int)
    ensures InWide(r)
    ensures u < TwoTo64 / 2 ==> r == u
  {
    if u < TwoTo64 / 2 then u else u - TwoTo64
  }

  /** The two casts undo each other: a size answered as a wide integer reads back as the same unsigned size. */
  lemma CastsRoundTrip(u: u64, w: int)
    requires InWide(w)
    ensures U64(Wide(u)) == u
    ensures Wide(U64(w)) == w
  {
  }

  /** The driver's answers to the LOB calls one command may make. */
  datatype LobAnswers = LobAnswers(
    size: Reply<u64>,               // dpiLob_getSize
    bufferSize: Option<ErrorInfo>,  // dpiLob_getBufferSize (None: success)
    read: Reply<seq<byte>>,         // dpiLob_readBytes: the bytes actually read
    write: Option<ErrorInfo>,       // dpiLob_writeBytes
    trim: Option<ErrorInfo>)        // dpiLob_trim

  /** One call on the native LOB, with the arguments that matter. */
  datatype LobCall =
    | GetSize
    | GetBufferSize(amount: u64)
    | ReadBytes(offset: u64, amount: u64)
    | WriteBytes(offset: u64, data: seq<byte>)
    | Trim(newSize: u64)

  /** The read position and length: 1-based offset, 0 meaning "to the end". */
  datatype ReadOpts = ReadOpts(offset: u64, amount: u64)

  const DefaultOpts: ReadOpts := ReadOpts(1, 0)

  /** The scan of option words: the options, a value Tcl rejected, or a word not understood. */
  datatype OptScan = Scanned(opts: ReadOpts) | BadValue(outcome: Outcome) | UnknownOption

  /**
   * The option words from i on: "-offset w" always, "-amount w" when
   * withAmount (read only), each only when a value word follows; the value
   * is a wide integer cast to unsigned.  Anything else is unknown.
   */
  function ScanOpts(objv: seq<Value>, i: nat, acc: ReadOpts, withAmount: bool): OptScan
    decreases |objv| - i
  {
    if i >= |objv| then Scanned(acc)
    else
      var o := Text(objv[i]);
      if (o == "-offset" || (withAmount && o == "-amount")) && i + 1 < |objv| then
        match GetWide(objv[i + 1])
        case None => BadValue(IntRefusal(objv[i + 1]))
        case Some(w) =>
          ScanOpts(objv, i + 2, if o == "-offset" then acc.(offset := U64(w)) else acc.(amount := U64(w)), withAmount)
      else UnknownOption
  }

  /** The option loop of read (withAmount) and write, from word start. */
  method ScanOptions(objv: seq<Value>, start: nat, withAmount: bool) returns (r: OptScan)
    ensures r == ScanOpts(objv, start, DefaultOpts, withAmount)
  {
    var acc := DefaultOpts;
    var i := start;
    while i < |objv|
      invariant ScanOpts(objv, i, acc, withAmount) == ScanOpts(objv, start, DefaultOpts, withAmount)
      decreases |objv| - i
    {
      var o := Text(objv[i]);
      if (o == "-offset" || (withAmount && o == "-amount")) && i + 1 < |objv| {
        var w := GetWide(objv[i + 1]);
        if w.None? {
          return BadValue(IntRefusal(objv[i + 1]));
        }
        if o == "-offset" {
          acc := acc.(offset := U64(w.value));
        } else {
          acc := acc.(amount := U64(w.value));
        }
        i := i + 2;
      } else {
        return UnknownOption;
      }
    }
    return Scanned(acc);
  }

  /** An option pair appended to words that scan cleanly sets that option and keeps the others. */
  lemma {:induction false} ScanAppend(objv: seq<Value>, i: nat, acc: ReadOpts, withAmount: bool, opt: string, v: Value)
    requires i <= |objv|
    requires ScanOpts(objv, i, acc, withAmount).Scanned?
    requires opt == "-offset" || (withAmount && opt == "-amount")
    requires GetWide(v).Some?
    ensures var before := ScanOpts(objv, i, acc, withAmount).opts;
      ScanOpts(objv + [Str(opt), v], i, acc, withAmount) ==
        Scanned(if opt == "-offset" then before.(offset := U64(GetWide(v).value)) else before.(amount := U64(GetWide(v).value)))
    decreases |objv| - i
  {
    var ext := objv + [Str(opt), v];
    assert ext[..|objv|] == objv;
    if i < |objv| {
      assert ext[i] == objv[i] && ext[i + 1] == objv[i + 1];
      var w := GetWide(objv[i + 1]).value;
      var o := Text(objv[i]);
      ScanAppend(objv, i + 2, if o == "-offset" then acc.(offset := U64(w)) else acc.(amount := U64(w)), withAmount, opt, v);
    } else {
      assert ext[i] == Str(opt) && ext[i + 1] == v;
    }
  }

  /** An option word with no value after it is not understood. */
  lemma DanglingOptionRefused(objv: seq<Value>, acc: ReadOpts, withAmount: bool)
    requires |objv| >= 1 && Text(objv[|objv| - 1]) == "-offset"
    ensures ScanOpts(objv, |objv| - 1, acc, withAmount) == UnknownOption
  {
  }

  /**
   * The amount read when none was asked for: the characters from offset to
   * the end of a LOB of the given size, in unsigned 64-bit arithmetic; none
   * when offset is past the end.
   */
  function DefaultAmount(size: u64, offset: u64): (a: u64)
  {
    if size >= offset then (size - offset + 1) % TwoTo64 else 0
  }

  /** From a 1-based offset within the LOB, the default amount ends exactly at the LOB's last character. */
  lemma DefaultAmountReachesEnd(size: u64, offset: u64)
    requires 1 <= offset <= size
    ensures DefaultAmount(size, offset) > 0
    ensures offset + DefaultAmount(size, offset) - 1 == size
  {
  }

  /** How a subcommand ends: a result, a Tcl error with no status write, an Oratcl error, or a driver error. */
  datatype LobEnd =
    | Answered(v: Value)
    | Refused(o: Outcome)
    | Unknown(text: string)
    | DriverError(err: ErrorInfo, where: string)

  /** The read subcommand once its options are scanned. */
  function ReadRun(opts: ReadOpts, ans: LobAnswers): (LobEnd, seq<LobCall>)
  {
    if opts.amount == 0 && ans.size.Failed? then (DriverError(ans.size.err, "dpiLob_getSize"), [GetSize])
    else
      var sizeCalls := if opts.amount == 0 then [GetSize] else [];
      var amount := if opts.amount == 0 then DefaultAmount(ans.size.value, opts.offset) else opts.amount;
      if amount == 0 then (Answered(Empty), sizeCalls)
      else if ans.bufferSize.Some? then (DriverError(ans.bufferSize.value, "dpiLob_getBufferSize"), sizeCalls + [GetBufferSize(amount)])
      else
        var calls := sizeCalls + [GetBufferSize(amount), ReadBytes(opts.offset, amount)];
        if ans.read.Failed? then (DriverError(ans.read.err, "dpiLob_readBytes"), calls)
        else (Answered(Bytes(ans.read.value)), calls)
  }

  /** The subcommands other than close on a handle with a native LOB: how each ends and the LOB calls it makes. */
  function LobSub(objv: seq<Value>, ans: LobAnswers): (LobEnd, seq<LobCall>)
    requires |objv| >= 3
  {
    var sub := Text(objv[1]);
    if sub == "size" then
      match ans.size
      case Failed(e) => (DriverError(e, "dpiLob_getSize"), [GetSize])
      case Done(sz) => (Answered(Int(Wide(sz))), [GetSize])
    else if sub == "read" then
      match ScanOpts(objv, 3, DefaultOpts, true)
      case BadValue(o) => (Refused(o), [])
      case UnknownOption => (Unknown("unknown option"), [])
      case Scanned(opts) => ReadRun(opts, ans)
    else if sub == "write" then
      if |objv| < 4 then (Refused(WrongArgs(objv, WriteUsage)), [])
      else
        var data := ByteArrayOf(objv[3]);
        match ScanOpts(objv, 4, DefaultOpts, false)
        case BadValue(o) => (Refused(o), [])
        case UnknownOption => (Unknown("unknown option"), [])
        case Scanned(opts) =>
          if |data| == 0 then (Answered(Int(0)), [])
          else if ans.write.Some? then (DriverError(ans.write.value, "dpiLob_writeBytes"), [WriteBytes(opts.offset, data)])
          else (Answered(Int(0)), [WriteBytes(opts.offset, data)])
    else if sub == "trim" then
      if |objv| != 4 then (Refused(WrongArgs(objv, TrimUsage)), [])
      else
        match GetWide(objv[3])
        case None => (Refused(IntRefusal(objv[3])), [])
        case Some(w) =>
          if ans.trim.Some? then (DriverError(ans.trim.value, "dpiLob_trim"), [Trim(U64(w))])
          else (Answered(Int(0)), [Trim(U64(w))])
    else (Unknown("unknown lob subcommand"), [])
  }

  /**
   * A read with no amount asks for the size and reads from the offset to
   * the last character; from past the end it reads nothing and answers the
   * empty value.
   */
  lemma ReadWithoutAmount(opts: ReadOpts, ans: LobAnswers, sz: u64)
    requires opts.amount == 0 && ans.size == Done(sz)
    ensures 1 <= opts.offset <= sz && ans.bufferSize.None? ==>
      ReadRun(opts, ans).1 == [GetSize, GetBufferSize(sz - opts.offset + 1), ReadBytes(opts.offset, sz - opts.offset + 1)]
    ensures opts.offset > sz ==> ReadRun(opts, ans) == (Answered(Empty), [GetSize])
  {
    if 1 <= opts.offset <= sz {
      DefaultAmountReachesEnd(sz, opts.offset);
    }
  }

  /** A read with an amount does not ask for the size: it reads exactly that many characters from the offset. */
  lemma ReadWithAmount(opts: ReadOpts, ans: LobAnswers)
    requires opts.amount > 0 && ans.bufferSize.None?
    ensures ReadRun(opts, ans).1 == [GetBufferSize(opts.amount), ReadBytes(opts.offset, opts.amount)]
    ensures ans.read.Done? ==> ReadRun(opts, ans).0 == Answered(Bytes(ans.read.value))
  {
  }

  /** Writing no bytes makes no driver call and succeeds; otherwise the bytes are written once, at the offset. */
  lemma WriteCalls(objv: seq<Value>, ans: LobAnswers)
    requires |objv| >= 4 && Text(objv[1]) == "write"
    requires ScanOpts(objv, 4, DefaultOpts, false).Scanned?
    ensures var data := ByteArrayOf(objv[3]);
      var (end, calls) := LobSub(objv, ans);
      (|data| == 0 <==> calls == []) &&
      (|data| == 0 ==> end == Answered(Int(0))) &&
      (|data| > 0 ==> calls == [WriteBytes(ScanOpts(objv, 4, DefaultOpts, false).opts.offset, data)])
  {
  }

  /**
   * Writing a string with a character wider than a byte (U+20AC, say) makes
   * no driver call and answers 0: Tcl 9 gives such a string no bytes.
   */
  lemma WriteWideStringWritesNothing(objv: seq<Value>, ans: LobAnswers)
    requires |objv| >= 4 && Text(objv[1]) == "write"
    requires ScanOpts(objv, 4, DefaultOpts, false).Scanned?
    requires objv[3].Str? && !FitsBytes(objv[3].s)
    ensures LobSub(objv, ans) == (Answered(Int(0)), [])
  {
  }

  /** Only a read reaches dpiLob_readBytes, and it reads at most once. */
  lemma OnlyReadReads(objv: seq<Value>, ans: LobAnswers)
    requires |objv| >= 3
    ensures var calls := LobSub(objv, ans).1;
      |calls| <= 3 &&
      (forall k :: 0 <= k < |calls| && calls[k].ReadBytes? ==> Text(objv[1]) == "read" && k == |calls| - 1)
  {
  }

  /** The read subcommand after its options: the size when no amount was given, then the buffer size, then the bytes. */
  method ReadSteps(opts: ReadOpts, ans: LobAnswers) returns (end: LobEnd, calls: seq<LobCall>)
    ensures (end, calls) == ReadRun(opts, ans)
  {
    calls := [];
    var amount := opts.amount;
    if amount == 0 {
      calls := [GetSize];
      if ans.size.Failed? {
        return DriverError(ans.size.err, "dpiLob_getSize"), calls;
      }
      amount := DefaultAmount(ans.size.value, opts.offset);
    }
    if amount == 0 {
      return Answered(Empty), calls;
    }
    if ans.bufferSize.Some? {
      return DriverError(ans.bufferSize.value, "dpiLob_getBufferSize"), calls + [GetBufferSize(amount)];
    }
    calls := calls + [GetBufferSize(amount), ReadBytes(opts.offset, amount)];
    match ans.read
    case Failed(e) => end := DriverError(e, "dpiLob_readBytes");
    case Done(data) => end := Answered(Bytes(data));
  }

  /** The subcommands other than close, step by step, with the option loops of read and write. */
  method RunSub(objv: seq<Value>, ans: LobAnswers) returns (end: LobEnd, calls: seq<LobCall>)
    requires |objv| >= 3
    ensures (end, calls) == LobSub(objv, ans)
  {
    var sub := Text(objv[1]);
    calls := [];
    if sub == "size" {
      calls := [GetSize];
      match ans.size
      case Failed(e) => end := DriverError(e, "dpiLob_getSize");
      case Done(sz) => end := Answered(Int(Wide(sz)));
    } else if sub == "read" {
      var scan := ScanOptions(objv, 3, true);
      match scan
      case BadValue(r) => end := Refused(r);
      case UnknownOption => end := Unknown("unknown option");
      case Scanned(opts) =>
        end, calls := ReadSteps(opts, ans);
    } else if sub == "write" {
      if |objv| < 4 {
        return Refused(WrongArgs(objv, WriteUsage)), [];
      }
      var data := ByteArrayOf(objv[3]);
      var scan := ScanOptions(objv, 4, false);
      match scan
      case BadValue(r) => end := Refused(r);
      case UnknownOption => end := Unknown("unknown option");
      case Scanned(opts) =>
        if |data| > 0 {
          calls := [WriteBytes(opts.offset, data)];
          if ans.write.Some? {
            return DriverError(ans.write.value, "dpiLob_writeBytes"), calls;
          }
        }
        end := Answered(Int(0));
    } else if sub == "trim" {
      if |objv| != 4 {
        return Refused(WrongArgs(objv, TrimUsage)), [];
      }
      var w := GetWide(objv[3]);
      if w.None? {
        return Refused(IntRefusal(objv[3])), [];
      }
      calls := [Trim(U64(w.value))];
      if ans.trim.Some? {
        return DriverError(ans.trim.value, "dpiLob_trim"), calls;
      }
      end := Answered(Int(0));
    } else {
      end := Unknown("unknown lob subcommand");
    }
  }

  /**
   * Oradpi_Cmd_Lob.  Fewer than three words is a usage error; a name that
   * is not a LOB handle, or one already closed, gives "invalid lob handle"
   * before the subcommand is looked at.  close closes and releases the
   * native LOB and clears it, leaving the handle registered.  Every other
   * subcommand ends as LobSub says: a result, a Tcl error, an Oratcl error
   * recorded on the handle, or a driver error recorded on the handle.
   */
  method Oralob(ip: Interp, drv: Driver, objv: seq<Value>, ans: LobAnswers) returns (o: Outcome, calls: seq<LobCall>)
    requires |objv| >= 1
    modifies if |objv| >= 3 && Text(objv[2]) in ip.lobs then {ip.lobs[Text(objv[2])]} else {}
    modifies drv`refs, drv`closed
    ensures |objv| < 3 ==> o == WrongArgs(objv, LobUsage) && calls == [] && unchanged(drv)
    ensures |objv| >= 3 && !(Text(objv[2]) in ip.lobs && old(ip.lobs[Text(objv[2])].lob).Some?) ==>
      o == ClientFailure("invalid lob handle") && calls == [] && unchanged(drv)
    ensures |objv| >= 3 && Text(objv[2]) in ip.lobs && old(ip.lobs[Text(objv[2])].lob).Some? ==>
      var l := ip.lobs[Text(objv[2])];
      var lob := old(l.lob).value;
      if Text(objv[1]) == "close" then
        o == Ok(Int(0)) && calls == [] && l.lob == None && l.msg == old(l.msg) &&
        drv.closed == old(drv.closed) + [lob] && drv.refs == ReleasedAll(old(drv.refs), [lob])
      else
        var (end, made) := LobSub(objv, ans);
        calls == made && l.lob == old(l.lob) && unchanged(drv) &&
        match end
        case Answered(v) => o == Ok(v) && l.msg == old(l.msg)
        case Refused(r) => o == r && l.msg == old(l.msg)
        case Unknown(text) => o == ClientFailure(text) && l.msg == ClientMsg(old(l.msg), -1, text)
        case DriverError(e, where) => o == DriverFailure(e, where) && l.msg == DriverMsg(old(l.msg), e, where)
  {
    calls := [];
    if |objv| < 3 {
      o := WrongArgs(objv, LobUsage);
      return;
    }
    var sub := Text(objv[1]);
    var l := LookupLob(ip, Text(objv[2]));
    if l == null || l.lob.None? {
      o := ClientFailure("invalid lob handle");
      return;
    }
    if sub == "close" {
      FreeLob(l, drv);
      o := Ok(Int(0));
      return;
    }
    var end: LobEnd;
    end, calls := RunSub(objv, ans);
    match end
    case Answered(v) => o := Ok(v);
    case Refused(r) => o := r;
    case Unknown(text) => o := SetError(LobH(l), -1, text);
    case DriverError(e, where) => o := SetErrorFromODPI(LobH(l), e, where);
  }
}
