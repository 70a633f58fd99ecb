/**
 * oralogon, oralogoff, oraautocom, orabreak and orainfo (cmd_logon.c):
 * opening a session (directly or from a pool), parsing the connect
 * string, closing a session, and the per-connection autocommit flag.
 */
module Logon {
  import opened Wrappers
  import opened Tcl
  import opened Native
  import opened Handles
  import opened Directory
  import opened Naming
  import opened Status
  import opened State
  import opened Teardown

  const LogonUsage: string :=
    "connect-str ?-pool min max incr? ?-homogeneous bool? ?-getmode wait|nowait|forceget|timedwait? ?-failovercallback proc?"
  const LogonHandleUsage: string := "logon-handle"
  const AutocommitUsage: string := "logon-handle boolean"
  const Incomplete: string := "unknown or incomplete option"

  /** How long a failover event waits for more of its kind before the callback runs, set at logon. */
  const LogonDebounceMs: nat := 250

  // ---------------------------------------------------------------------
  // The connect string
  // ---------------------------------------------------------------------

  /** strchr: the first position of c in s, if any. */
  function IndexOf(s: string, c: char): (r: Option<nat>)
    ensures r.Some? ==> r.value < |s| && s[r.value] == c && c !in s[..r.value]
    ensures r.None? ==> c !in s
    decreases |s|
  {
    if s == [] then None
    else if s[0] == c then Some(0)
    else
      var rest := IndexOf(s[1..], c);
      assert s == [s[0]] + s[1..];
      if rest.None? then None
      else
        assert s[..rest.value + 1] == [s[0]] + s[1..][..rest.value];
        Some(rest.value + 1)
  }

  /** What a connect string names: user, password and database, each absent or a piece of the string, and whether the OS authenticates. */
  datatype ConnectParts = ConnectParts(user: Option<string>, pw: Option<string>, db: Option<string>, extAuth: bool)

  /**
   * Oradpi_ParseConnect: "/" or "/@db" is external authentication (the
   * database only when something follows the '@'); otherwise "user",
   * "user/pw", "user@db" or "user/pw@db", split at the first '@' and at a
   * first '/' before it.
   */
  function ParseConnect(cs: string): ConnectParts
  {
    var at := IndexOf(cs, '@');
    var slash := IndexOf(cs, '/');
    if |cs| > 0 && cs[0] == '/' then
      ConnectParts(None, None, if at.Some? && at.value + 1 < |cs| then Some(cs[at.value + 1..]) else None, true)
    else if at.Some? then
      if slash.Some? && slash.value < at.value then
        ConnectParts(Some(cs[..slash.value]), Some(cs[slash.value + 1..at.value]), Some(cs[at.value + 1..]), false)
      else
        ConnectParts(Some(cs[..at.value]), None, Some(cs[at.value + 1..]), false)
    else if slash.Some? then
      ConnectParts(Some(cs[..slash.value]), Some(cs[slash.value + 1..]), None, false)
    else
      ConnectParts(Some(cs), None, None, false)
  }

  /** The connect string a set of parts is written as. */
  function Joined(p: ConnectParts): string
  {
    (if p.extAuth then "/" else "") +
    (if p.user.Some? then p.user.value else "") +
    (if p.pw.Some? then "/" + p.pw.value else "") +
    (if p.db.Some? then "@" + p.db.value else "")
  }

  /** Without external authentication nothing of the connect string is lost: its parts join back into it. */
  lemma ParseConnectJoins(cs: string)
    requires !(|cs| > 0 && cs[0] == '/')
    ensures !ParseConnect(cs).extAuth && ParseConnect(cs).user.Some?
    ensures Joined(ParseConnect(cs)) == cs
  {
    var at := IndexOf(cs, '@');
    var slash := IndexOf(cs, '/');
    if at.Some? {
      var a := at.value;
      if slash.Some? && slash.value < a {
        var sl := slash.value;
        assert ParseConnect(cs) == ConnectParts(Some(cs[..sl]), Some(cs[sl + 1..a]), Some(cs[a + 1..]), false);
        assert cs == cs[..sl] + "/" + cs[sl + 1..a] + "@" + cs[a + 1..];
      } else {
        assert ParseConnect(cs) == ConnectParts(Some(cs[..a]), None, Some(cs[a + 1..]), false);
        assert cs == cs[..a] + "@" + cs[a + 1..];
      }
    } else if slash.Some? {
      var sl := slash.value;
      assert ParseConnect(cs) == ConnectParts(Some(cs[..sl]), Some(cs[sl + 1..]), None, false);
      assert cs == cs[..sl] + "/" + cs[sl + 1..];
    }
  }

  /** "user/pw@db" gives back user, password and database, as long as the user is not empty and has no '/' or '@' and the password no '@'. */
  lemma ParseConnectParts(user: string, pw: string, db: string)
    requires user != [] && '/' !in user && '@' !in user && '@' !in pw
    ensures ParseConnect(user + "/" + pw + "@" + db) == ConnectParts(Some(user), Some(pw), Some(db), false)
  {
    var cs := user + "/" + pw + "@" + db;
    var n := |user|;
    assert cs[..n] == user && cs[n] == '/' && cs[n + 1..n + 1 + |pw|] == pw;
    assert cs[n + 1 + |pw|] == '@' && cs[n + 2 + |pw|..] == db;
    assert cs[..n + 1 + |pw|] == user + "/" + pw;
    assert IndexOf(cs, '/') == Some(n);
    assert IndexOf(cs, '@') == Some(n + 1 + |pw|);
  }

  /** The OS authenticates exactly when the string starts with '/', and then no user or password is passed. */
  lemma ExternalAuthentication(cs: string)
    ensures ParseConnect(cs).extAuth <==> |cs| > 0 && cs[0] == '/'
    ensures ParseConnect(cs).extAuth ==> ParseConnect(cs).user.None? && ParseConnect(cs).pw.None?
  {
  }

  // ---------------------------------------------------------------------
  // Options
  // ---------------------------------------------------------------------

  /** DPI_MODE_POOL_GET_WAIT, _NOWAIT, _FORCEGET, _TIMEDWAIT */
  datatype PoolGetMode = GetWait | GetNoWait | GetForceGet | GetTimedWait

  function GetModeOf(word: string): Option<PoolGetMode>
  {
    if word == "wait" then Some(GetWait)
    else if word == "nowait" then Some(GetNoWait)
    else if word == "forceget" then Some(GetForceGet)
    else if word == "timedwait" then Some(GetTimedWait)
    else None
  }

  /** The options of oralogon. */
  datatype LogonOpts = LogonOpts(
    usePool: bool,
    minSessions: int,
    maxSessions: int,
    increment: int,
    homogeneous: bool,
    getMode: PoolGetMode,
    callback: Option<Value>)

  const DefaultLogonOpts: LogonOpts := LogonOpts(false, 1, 4, 1, true, GetWait, None)

  /** Three pool sizes, each read with Tcl_GetIntFromObj in turn. */
  function PoolSizes(a: Value, b: Value, c: Value): Parsed<(int, int, int)>
  {
    if GetInt(a).None? then Rejected(IntRefusal(a))
    else if GetInt(b).None? then Rejected(IntRefusal(b))
    else if GetInt(c).None? then Rejected(IntRefusal(c))
    else Parsed((GetInt(a).value, GetInt(b).value, GetInt(c).value))
  }

  function WithPool(acc: LogonOpts, sizes: (int, int, int)): LogonOpts
  {
    acc.(usePool := true, minSessions := sizes.0, maxSessions := sizes.1, increment := sizes.2)
  }

  /** One option of oralogon at word i: the scan goes on at word next with acc, or stops. */
  datatype Step = Continue(next: nat, acc: LogonOpts) | Stop(r: Parsed<LogonOpts>)

  /**
   * The option at word i.  -pool takes one three-element list or, failing
   * that, three words; the other options take one word and count as
   * unknown without it.
   */
  function LogonStep(objv: seq<Value>, i: nat, acc: LogonOpts): (s: Step)
    requires i < |objv|
    ensures s.Continue? ==> i < s.next <= |objv|
  {
    var o := Text(objv[i]);
    if o == "-pool" then
      if i + 1 >= |objv| then Stop(Rejected(ClientFailure(Incomplete)))
      else
        var elems := GetList(objv[i + 1]);
        if |elems| == 3 then
          match PoolSizes(elems[0], elems[1], elems[2])
          case Rejected(r) => Stop(Rejected(r))
          case Parsed(sizes) => Continue(i + 2, WithPool(acc, sizes))
        else if i + 3 < |objv| then
          match PoolSizes(objv[i + 1], objv[i + 2], objv[i + 3])
          case Rejected(r) => Stop(Rejected(r))
          case Parsed(sizes) => Continue(i + 4, WithPool(acc, sizes))
        else Stop(Rejected(ClientFailure(Incomplete)))
    else if o == "-homogeneous" && i + 1 < |objv| then
      match GetBoolean(objv[i + 1])
      case None => Stop(Rejected(NotA(Boolean, objv[i + 1])))
      case Some(b) => Continue(i + 2, acc.(homogeneous := b))
    else if o == "-getmode" && i + 1 < |objv| then
      match GetModeOf(Text(objv[i + 1]))
      case None => Stop(Rejected(ClientFailure("unknown getmode")))
      case Some(m) => Continue(i + 2, acc.(getMode := m))
    else if o == "-failovercallback" && i + 1 < |objv| then
      Continue(i + 2, acc.(callback := Some(objv[i + 1])))
    else Stop(Rejected(ClientFailure(Incomplete)))
  }

  /** The option words from i on, one step at a time. */
  function LogonScan(objv: seq<Value>, i: nat, acc: LogonOpts): Parsed<LogonOpts>
    decreases |objv| - i
  {
    if i >= |objv| then Parsed(acc)
    else
      match LogonStep(objv, i, acc)
      case Continue(next, acc') => LogonScan(objv, next, acc')
      case Stop(r) => r
  }

  /** The option loop of Oradpi_Cmd_Logon, from word 2. */
  method ScanLogonOptions(objv: seq<Value>) returns (r: Parsed<LogonOpts>)
    ensures r == LogonScan(objv, 2, DefaultLogonOpts)
  {
    var acc := DefaultLogonOpts;
    var i := 2;
    while i < |objv|
      invariant LogonScan(objv, i, acc) == LogonScan(objv, 2, DefaultLogonOpts)
      decreases |objv| - i
    {
      var o := Text(objv[i]);
      if o == "-pool" {
        if i + 1 >= |objv| {
          return Rejected(ClientFailure(Incomplete));
        }
        var elems := GetList(objv[i + 1]);
        var sizes: Parsed<(int, int, int)>;
        if |elems| == 3 {
          sizes := PoolSizes(elems[0], elems[1], elems[2]);
          i := i + 2;
        } else if i + 3 < |objv| {
          sizes := PoolSizes(objv[i + 1], objv[i + 2], objv[i + 3]);
          i := i + 4;
        } else {
          return Rejected(ClientFailure(Incomplete));
        }
        if sizes.Rejected? {
          return Rejected(sizes.outcome);
        }
        acc := WithPool(acc, sizes.value);
      } else if o == "-homogeneous" && i + 1 < |objv| {
        var b := GetBoolean(objv[i + 1]);
        if b.None? {
          return Rejected(NotA(Boolean, objv[i + 1]));
        }
        acc := acc.(homogeneous := b.value);
        i := i + 2;
      } else if o == "-getmode" && i + 1 < |objv| {
        var m := GetModeOf(Text(objv[i + 1]));
        if m.None? {
          return Rejected(ClientFailure("unknown getmode"));
        }
        acc := acc.(getMode := m.value);
        i := i + 2;
      } else if o == "-failovercallback" && i + 1 < |objv| {
        acc := acc.(callback := Some(objv[i + 1]));
        i := i + 2;
      } else {
        return Rejected(ClientFailure(Incomplete));
      }
    }
    return Parsed(acc);
  }

  /** One step reads only the words from i on: the same words elsewhere take the same step. */
  lemma StepShift(objv: seq<Value>, i: nat, objv2: seq<Value>, j: nat, acc: LogonOpts)
    requires i < |objv| && j <= |objv2| && objv[i..] == objv2[j..]
    ensures j < |objv2|
    ensures var s, s2 := LogonStep(objv, i, acc), LogonStep(objv2, j, acc);
      (s.Stop? <==> s2.Stop?) && (s.Stop? ==> s == s2) && (s.Continue? ==> s.next - i == s2.next - j && s.acc == s2.acc)
  {
    assert |objv| - i == |objv2| - j;
    forall k | i <= k < |objv|
      ensures objv[k] == objv2[k - i + j]
    {
      assert objv[i..][k - i] == objv2[j..][k - i];
    }
  }

  /** The scan from word i reads only the words from i on. */
  lemma {:induction false} LogonScanShift(objv: seq<Value>, i: nat, objv2: seq<Value>, j: nat, acc: LogonOpts)
    requires i <= |objv| && j <= |objv2| && objv[i..] == objv2[j..]
    ensures LogonScan(objv, i, acc) == LogonScan(objv2, j, acc)
    decreases |objv| - i
  {
    if i < |objv| {
      StepShift(objv, i, objv2, j, acc);
      var s, s2 := LogonStep(objv, i, acc), LogonStep(objv2, j, acc);
      if s.Continue? {
        assert objv[s.next..] == objv[i..][s.next - i..] == objv2[j..][s2.next - j..] == objv2[s2.next..];
        LogonScanShift(objv, s.next, objv2, s2.next, s.acc);
      }
    } else {
      assert |objv2| == j;
    }
  }

  /**
   * -pool may be given as one list of three sizes or as three words: the
   * two spellings scan alike (when the first size is not itself a
   * three-element list).
   */
  lemma PoolSpellings(before: seq<Value>, a: Value, b: Value, c: Value, after: seq<Value>, acc: LogonOpts)
    requires |GetList(a)| != 3
    ensures LogonScan(before + [Str("-pool"), List([a, b, c])] + after, |before|, acc) ==
            LogonScan(before + [Str("-pool"), a, b, c] + after, |before|, acc)
  {
    var one := before + [Str("-pool"), List([a, b, c])] + after;
    var three := before + [Str("-pool"), a, b, c] + after;
    var i := |before|;
    assert one[i] == Str("-pool") && one[i + 1] == List([a, b, c]);
    assert three[i] == Str("-pool") && three[i + 1] == a && three[i + 2] == b && three[i + 3] == c;
    match PoolSizes(a, b, c)
    case Rejected(r) =>
    case Parsed(sizes) =>
      assert one[i + 2..] == after == three[i + 4..];
      LogonScanShift(one, i + 2, three, i + 4, WithPool(acc, sizes));
  }

  /** An option as the last word, with no value after it, is "unknown or incomplete". */
  lemma DanglingLogonOption(objv: seq<Value>, acc: LogonOpts)
    requires |objv| >= 1
    requires Text(objv[|objv| - 1]) in ["-pool", "-homogeneous", "-getmode", "-failovercallback"]
    ensures LogonScan(objv, |objv| - 1, acc) == Rejected(ClientFailure(Incomplete))
  {
  }

  // ---------------------------------------------------------------------
  // Opening and closing sessions
  // ---------------------------------------------------------------------

  /** (uint32_t)i for a C int i: two's complement. */
  function U32(i: int): (r: nat)
    ensures r < 0x1_0000_0000
    ensures 0 <= i < 0x1_0000_0000 ==> r == i
  {
    i % 0x1_0000_0000
  }

  /** dpiPoolCreateParams as filled in, and the get mode set on the pool. */
  datatype PoolParams = PoolParams(minSessions: nat, maxSessions: nat, sessionIncrement: nat, homogeneous: bool, extAuth: bool, getMode: PoolGetMode)

  /** What oralogon hands to dpiPool_create or dpiConn_create. */
  datatype Request = Request(parts: ConnectParts, pool: Option<PoolParams>)

  function RequestOf(connstr: string, opts: LogonOpts): (r: Request)
    ensures r.pool.Some? <==> opts.usePool
    ensures r.parts == ParseConnect(connstr)
  {
    var parts := ParseConnect(connstr);
    Request(parts,
      if opts.usePool then Some(PoolParams(U32(opts.minSessions), U32(opts.maxSessions), U32(opts.increment), opts.homogeneous, parts.extAuth, opts.getMode))
      else None)
  }

  /** The driver's answers at logon: dpiPool_create, dpiPool_acquireConnection, dpiConn_create (None: success), and the cache size and call timeout Oradpi_NewConn reads. */
  datatype LogonAnswers = LogonAnswers(
    poolCreate: Option<ErrorInfo>,
    acquire: Option<ErrorInfo>,
    connCreate: Option<ErrorInfo>,
    cacheSize: Option<nat>,
    callTimeout: Option<nat>)

  /** The driver error that stops a logon, with the call that failed, if any. */
  function LogonFailure(usePool: bool, ans: LogonAnswers): Option<(ErrorInfo, string)>
  {
    if usePool then
      if ans.poolCreate.Some? then Some((ans.poolCreate.value, "dpiPool_create"))
      else if ans.acquire.Some? then Some((ans.acquire.value, "dpiPool_acquireConnection"))
      else None
    else if ans.connCreate.Some? then Some((ans.connCreate.value, "dpiConn_create"))
    else None
  }

  /** Opening the native session: from a new pool or directly; a pool whose first session is refused is closed and released. */
  method OpenSession(dir: ConnDirectory, drv: Driver, usePool: bool, ans: LogonAnswers)
    returns (conn: Option<Ref>, pool: Option<Ref>, failed: Option<(ErrorInfo, string)>)
    requires drv.Valid() && dir.Safe(drv) && dir.Known(drv) && SessionsOnly(dir)
    modifies drv`refs, drv`next, drv`closed
    ensures drv.Valid() && dir.Safe(drv) && dir.Known(drv)
    ensures failed == LogonFailure(usePool, ans)
    ensures failed.None? ==> Unpublished(dir, drv, conn) && conn.Some? && drv.closed == old(drv.closed)
    ensures failed.None? ==> conn == Some(Ref(ConnKind, drv.next - 1))
    ensures failed.None? ==> pool == (if usePool then Some(Ref(PoolKind, old(drv.next))) else None)
    ensures failed.None? ==> drv.refs == (if usePool then old(drv.refs)[pool.value := 1] else old(drv.refs))[conn.value := 1]
    ensures failed.Some? ==> conn.None? && pool.None?
    ensures failed.Some? && usePool && ans.poolCreate.None? ==>
      drv.closed == old(drv.closed) + [Ref(PoolKind, old(drv.next))] && drv.next == old(drv.next) + 1 &&
      drv.refs == old(drv.refs)[Ref(PoolKind, old(drv.next)) := 0]
    ensures failed.Some? && !(usePool && ans.poolCreate.None?) ==> unchanged(drv)
  {
    conn, pool, failed := None, None, None;
    if usePool {
      if ans.poolCreate.Some? {
        failed := Some((ans.poolCreate.value, "dpiPool_create"));
        return;
      }
      var p := drv.Create(PoolKind);
      if ans.acquire.Some? {
        drv.Close(p);
        drv.Release(p);
        failed := Some((ans.acquire.value, "dpiPool_acquireConnection"));
        return;
      }
      var c := drv.Create(ConnKind);
      conn, pool := Some(c), Some(p);
    } else {
      if ans.connCreate.Some? {
        failed := Some((ans.connCreate.value, "dpiConn_create"));
        return;
      }
      var c := drv.Create(ConnKind);
      conn := Some(c);
    }
  }

  /** The new connection for an opened session: registered and published, then tied to this interpreter and thread. */
  method Publish(ip: Interp, namer: Namer, dir: ConnDirectory, drv: Driver, conn: Option<Ref>, pool: Option<Ref>,
                 ans: LogonAnswers, tid: EventQueue, callback: Option<Value>)
    returns (co: Conn)
    requires Coherent(ip, dir, namer, drv) && Unpublished(dir, drv, conn)
    modifies namer, ip`conns, dir
    ensures Coherent(ip, dir, namer, drv)
    ensures fresh(co) && co.name == ConnPrefix + Digits(namer.counter)
    ensures ip.conns == old(ip.conns)[co.name := co] && dir.entries == old(dir.entries)[co.name := GlobalConnRec(conn, true)]
    ensures co.ownerClose && co.conn == conn && co.pool == pool
    ensures co.ownerIp == ip && co.ownerTid == tid && co.failoverCallback == callback
    ensures co.foDebounceMs == LogonDebounceMs && co.foTimer == None && !co.foTimerScheduled && co.foPendingMsg == None
  {
    co := NewConn(ip, namer, dir, drv, conn, pool, ans.cacheSize, ans.callTimeout);
    TieToOwner(ip, namer, dir, drv, co, tid, callback);
  }

  /** The owner fields oralogon sets on a new connection; what the connection machinery reads is untouched. */
  method TieToOwner(ip: Interp, namer: Namer, dir: ConnDirectory, drv: Driver, co: Conn, tid: EventQueue, callback: Option<Value>)
    requires Coherent(ip, dir, namer, drv)
    modifies co`ownerIp, co`ownerTid, co`failoverCallback, co`foDebounceMs, co`foTimer, co`foTimerScheduled, co`foPendingMsg
    ensures Coherent(ip, dir, namer, drv)
    ensures co.ownerIp == ip && co.ownerTid == tid && co.failoverCallback == callback
    ensures co.foDebounceMs == LogonDebounceMs && co.foTimer == None && !co.foTimerScheduled && co.foPendingMsg == None
  {
    co.ownerIp := ip;
    co.ownerTid := tid;
    co.failoverCallback := callback;
    co.foDebounceMs := LogonDebounceMs;
    co.foTimer := None;
    co.foTimerScheduled := false;
    co.foPendingMsg := None;
  }

  /**
   * Oradpi_Cmd_Logon.  Fewer than two words is a usage error and a
   * rejected option ends the command before the driver is called.  Then
   * the connect string is parsed and handed, with the pool parameters, to
   * the driver; a refusal ends with the driver's error and no handle.  A
   * session becomes a new connection "oraL<n>" owned by this interpreter
   * and thread, with the failover callback given and a 250 ms debounce.
   */
  method Oralogon(ip: Interp, namer: Namer, dir: ConnDirectory, drv: Driver, objv: seq<Value>, ans: LogonAnswers, tid: EventQueue)
    returns (o: Outcome, req: Option<Request>, co: Conn?)
    requires |objv| >= 1
    requires Coherent(ip, dir, namer, drv)
    modifies namer, ip`conns, dir, drv`refs, drv`next, drv`closed
    ensures Coherent(ip, dir, namer, drv)
    ensures |objv| < 2 ==> o == WrongArgs(objv, LogonUsage) && req == None && co == null && unchanged(drv) && unchanged(ip)
    ensures |objv| >= 2 && LogonScan(objv, 2, DefaultLogonOpts).Rejected? ==>
      o == LogonScan(objv, 2, DefaultLogonOpts).outcome && req == None && co == null && unchanged(drv) && unchanged(ip)
    ensures |objv| >= 2 && LogonScan(objv, 2, DefaultLogonOpts).Parsed? ==>
      var opts := LogonScan(objv, 2, DefaultLogonOpts).value;
      req == Some(RequestOf(Text(objv[1]), opts)) &&
      match LogonFailure(opts.usePool, ans)
      case Some(f) =>
        o == DriverFailure(f.0, f.1) && co == null && ip.conns == old(ip.conns) && unchanged(dir) &&
        if opts.usePool && ans.poolCreate.None? then
          drv.closed == old(drv.closed) + [Ref(PoolKind, old(drv.next))] && drv.next == old(drv.next) + 1 &&
          drv.refs == old(drv.refs)[Ref(PoolKind, old(drv.next)) := 0]
        else unchanged(drv)
      case None =>
        fresh(co) && o == Ok(Str(co.name)) && co.name == ConnPrefix + Digits(namer.counter) &&
        ip.conns == old(ip.conns)[co.name := co] && dir.entries == old(dir.entries)[co.name := GlobalConnRec(co.conn, true)] &&
        co.ownerClose && co.conn.Some? && co.conn.value.kind == ConnKind &&
        co.pool == (if opts.usePool then Some(Ref(PoolKind, old(drv.next))) else None) &&
        co.ownerIp == ip && co.ownerTid == tid && co.failoverCallback == opts.callback &&
        co.foDebounceMs == LogonDebounceMs && co.foTimer == None && !co.foTimerScheduled && co.foPendingMsg == None &&
        drv.closed == old(drv.closed) &&
        drv.refs == (if opts.usePool then old(drv.refs)[co.pool.value := 1] else old(drv.refs))[co.conn.value := 1]
  {
    req, co := None, null;
    if |objv| < 2 {
      o := WrongArgs(objv, LogonUsage);
      return;
    }
    var connstr := Text(objv[1]);
    var scan := ScanLogonOptions(objv);
    if scan.Rejected? {
      o := scan.outcome;
      return;
    }
    var opts := scan.value;
    var request := RequestOf(connstr, opts);
    req := Some(request);
    var conn, pool, failed := OpenSession(dir, drv, opts.usePool, ans);
    if failed.Some? {
      o := DriverFailure(failed.value.0, failed.value.1);
      return;
    }
    co := Publish(ip, namer, dir, drv, conn, pool, ans, tid, opts.callback);
    o := Ok(Str(co.name));
  }

  /** Two count maps that agree on every object. */
  ghost predicate SameCounts(a: map<Ref, int>, b: map<Ref, int>)
  {
    forall x :: CountOf(a, x) == CountOf(b, x)
  }

  /** An adopted session's reference, taken and then given back, leaves every count as it was. */
  lemma AddThenRelease(m: map<Ref, int>, r: Ref)
    ensures SameCounts(ReleasedAll(m[r := CountOf(m, r) + 1], [r]), m)
  {
    var bumped := m[r := CountOf(m, r) + 1];
    assert [r][..0] == [];
    assert ReleasedAll(bumped, [r]) == bumped[r := bumped[r] - 1];
  }

  /** The end of oralogoff: the connection leaves the table and is freed. */
  method DropConn(ip: Interp, dir: ConnDirectory, drv: Driver, c: Conn)
    requires dir.Valid() && dir.OwnsEntry(c) && dir.Safe(drv) && SessionsOnly(dir)
    requires c.pool.Some? ==> c.pool.value.kind == PoolKind
    modifies ip`conns, c, dir`entries, drv`refs, drv`closed
    ensures dir.Valid() && dir.Safe(drv) && SessionsOnly(dir)
    ensures ip.conns == old(ip.conns) - {c.name}
    ensures c.conn == None && c.pool == None && c.failoverCallback == None && c.foPendingMsg == None
    ensures drv.refs == ReleasedAll(old(drv.refs), Present(old(c.conn)) + Present(old(c.pool)))
    ensures drv.closed == old(drv.closed) + (if c.ownerClose then Present(old(c.conn)) else []) + Present(old(c.pool))
    ensures dir.entries == if c.ownerClose then old(dir.entries) - {c.name} else old(dir.entries)
  {
    ip.conns := ip.conns - {c.name};
    ghost var _ := FreeConn(c, dir, drv);
  }

  /**
   * Oradpi_Cmd_Logoff.  The handle is resolved as LookupConn does (a name
   * this interpreter does not hold may adopt another's session); then it
   * is dropped from the table and freed.  An owner's session and pool are
   * closed and its directory entry erased; an adopted session's reference
   * is only given back, so logging off another interpreter's connection
   * leaves its session, its counts and the directory as they were.
   */
  method Oralogoff(ip: Interp, dir: ConnDirectory, drv: Driver, objv: seq<Value>) returns (o: Outcome, ghost co: Conn?)
    requires |objv| >= 1
    requires dir.Valid() && dir.Safe(drv) && SessionsOnly(dir) && Owned(ip, dir) && Named(ip) && ConnsTyped(ip)
    modifies ip`conns, NamedConn(ip, objv), dir`entries, drv`refs, drv`closed
    ensures dir.Valid() && dir.Safe(drv) && SessionsOnly(dir)
    ensures |objv| != 2 ==> o == WrongArgs(objv, LogonHandleUsage) && co == null && unchanged(ip) && unchanged(drv) && unchanged(dir)
    ensures |objv| == 2 ==> ip.conns == old(ip.conns) - {Text(objv[1])}
    ensures |objv| == 2 && co == null ==>
      o == ClientFailure("invalid logon handle") && unchanged(drv) && unchanged(dir) &&
      !old(Text(objv[1]) in ip.conns && ip.conns[Text(objv[1])].conn.Some?)
    ensures |objv| == 2 && co != null ==>
      o == Ok(Int(0)) && co.conn == None && co.pool == None && co.failoverCallback == None && co.foPendingMsg == None
    ensures |objv| == 2 && old(Text(objv[1]) in ip.conns && ip.conns[Text(objv[1])].conn.Some?) ==>
      co == old(ip.conns[Text(objv[1])]) &&
      drv.closed == old(drv.closed) + (if co.ownerClose then Present(old(co.conn)) else []) + Present(old(co.pool)) &&
      drv.refs == ReleasedAll(old(drv.refs), Present(old(co.conn)) + Present(old(co.pool))) &&
      dir.entries == if co.ownerClose then old(dir.entries) - {Text(objv[1])} else old(dir.entries)
    ensures |objv| == 2 && co != null && !old(Text(objv[1]) in ip.conns && ip.conns[Text(objv[1])].conn.Some?) ==>
      !co.ownerClose && dir.entries == old(dir.entries) && drv.closed == old(drv.closed) &&
      SameCounts(drv.refs, old(drv.refs))
  {
    co := null;
    if |objv| != 2 {
      o := WrongArgs(objv, LogonHandleUsage);
      return;
    }
    var name := Text(objv[1]);
    ghost var refs0 := drv.refs;
    var c := LookupConn(ip, name, dir, drv);
    if c == null {
      o := ClientFailure("invalid logon handle");
      return;
    }
    co := c;
    assert dir.OwnsEntry(c) && (c.pool.Some? ==> c.pool.value.kind == PoolKind);
    DropConn(ip, dir, drv, c);
    if !old(name in ip.conns && ip.conns[name].conn.Some?) {
      AddThenRelease(refs0, old(dir.Lookup(name)).conn.value);
    }
    o := Ok(Int(0));
  }

  /** Oradpi_Cmd_Autocommit: resolve the handle, then read the flag; it is stored and answered as 0 or 1. */
  method Oraautocom(ip: Interp, dir: ConnDirectory, drv: Driver, objv: seq<Value>) returns (o: Outcome, ghost co: Conn?, ghost a0: bool)
    requires |objv| >= 1
    requires dir.Valid() && dir.Safe(drv) && Owned(ip, dir) && Named(ip)
    modifies ip`conns, NamedConn(ip, objv)`autocommit, drv`refs
    ensures Owned(ip, dir) && Named(ip)
    ensures |objv| != 3 ==> o == WrongArgs(objv, AutocommitUsage) && co == null && unchanged(ip) && unchanged(drv)
    ensures |objv| == 3 ==> Resolved(ip, dir, drv, Text(objv[1]), co)
    ensures |objv| == 3 && co == null ==> o == ClientFailure("invalid logon handle") && Text(objv[1]) !in ip.conns
    ensures |objv| == 3 && old(Text(objv[1]) in ip.conns && ip.conns[Text(objv[1])].conn.Some?) ==> co == old(ip.conns[Text(objv[1])])
    ensures |objv| == 3 && co != null ==>
      Text(objv[1]) in ip.conns && ip.conns[Text(objv[1])] == co &&
      match GetBoolean(objv[2])
      case None => o == NotA(Boolean, objv[2]) && co.autocommit == a0
      case Some(b) => o == Ok(Int(if b then 1 else 0)) && co.autocommit == b
    ensures |objv| == 3 && old(Text(objv[1]) in ip.conns && ip.conns[Text(objv[1])].conn.Some?) ==> a0 == old(co.autocommit)
  {
    co, a0 := null, false;
    if |objv| != 3 {
      o := WrongArgs(objv, AutocommitUsage);
      return;
    }
    var c := LookupConn(ip, Text(objv[1]), dir, drv);
    if c == null {
      o := ClientFailure("invalid logon handle");
      return;
    }
    co, a0 := c, c.autocommit;
    var flag := GetBoolean(objv[2]);
    if flag.None? {
      o := NotA(Boolean, objv[2]);
      return;
    }
    c.autocommit := flag.value;
    o := Ok(Int(if flag.value then 1 else 0));
  }

  /** Oradpi_Cmd_Break: ask the driver to interrupt the session's running call; a refusal is recorded on the connection. */
  method Orabreak(ip: Interp, dir: ConnDirectory, drv: Driver, objv: seq<Value>, refused: Option<ErrorInfo>)
    returns (o: Outcome, ghost co: Conn?, ghost m0: Msg)
    requires |objv| >= 1
    requires dir.Valid() && dir.Safe(drv) && Owned(ip, dir) && Named(ip)
    modifies ip`conns, NamedConn(ip, objv)`msg, drv`refs, drv`breaks
    modifies NamedConnQueue(ip, objv)
    ensures |objv| == 2 ==> Resolved(ip, dir, drv, Text(objv[1]), co)
    ensures |objv| != 2 ==> o == WrongArgs(objv, LogonHandleUsage) && co == null && unchanged(ip) && unchanged(drv)
    ensures |objv| == 2 && co == null ==> o == ClientFailure("invalid logon handle") && Text(objv[1]) !in ip.conns && drv.breaks == old(drv.breaks)
    ensures |objv| == 2 && old(Text(objv[1]) in ip.conns && ip.conns[Text(objv[1])].conn.Some?) ==>
      co == old(ip.conns[Text(objv[1])]) && co.conn == old(co.conn) && m0 == old(co.msg)
    ensures |objv| == 2 && co != null ==>
      co.conn.Some? && drv.breaks == old(drv.breaks) + [co.conn.value] &&
      if refused.Some? then o == DriverFailure(refused.value, "dpiConn_breakExecution") && co.msg == DriverMsg(m0, refused.value, "dpiConn_breakExecution")
      else o == Ok(Int(0)) && co.msg == m0
  {
    co, m0 := null, ZeroMsg;
    if |objv| != 2 {
      o := WrongArgs(objv, LogonHandleUsage);
      return;
    }
    var c := LookupConn(ip, Text(objv[1]), dir, drv);
    if c == null {
      o := ClientFailure("invalid logon handle");
      return;
    }
    co, m0 := c, c.msg;
    drv.Break(c.conn.value);
    if refused.Some? {
      o := SetErrorFromODPI(ConnH(c), refused.value, "dpiConn_breakExecution");
    } else {
      o := Ok(Int(0));
    }
  }

  /** Oradpi_Cmd_Info: the key/value list {autocommit flag}. */
  method Orainfo(ip: Interp, dir: ConnDirectory, drv: Driver, objv: seq<Value>) returns (o: Outcome, ghost co: Conn?)
    requires |objv| >= 1
    requires dir.Valid() && dir.Safe(drv) && Owned(ip, dir) && Named(ip)
    modifies ip`conns, drv`refs
    ensures |objv| != 2 ==> o == WrongArgs(objv, LogonHandleUsage) && co == null && unchanged(ip) && unchanged(drv)
    ensures |objv| == 2 ==> Resolved(ip, dir, drv, Text(objv[1]), co)
    ensures |objv| == 2 && co == null ==> o == ClientFailure("invalid logon handle") && Text(objv[1]) !in ip.conns
    ensures |objv| == 2 && old(Text(objv[1]) in ip.conns && ip.conns[Text(objv[1])].conn.Some?) ==> co == old(ip.conns[Text(objv[1])])
    ensures |objv| == 2 && co != null ==> o == Ok(List([Str("autocommit"), Bool(co.autocommit)]))
  {
    co := null;
    if |objv| != 2 {
      o := WrongArgs(objv, LogonHandleUsage);
      return;
    }
    var c := LookupConn(ip, Text(objv[1]), dir, drv);
    if c == null {
      o := ClientFailure("invalid logon handle");
      return;
    }
    co := c;
    o := Ok(List([Str("autocommit"), Bool(c.autocommit)]));
  }
}
