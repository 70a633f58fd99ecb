/**
 * The handle commands of cmd_stmt.c: oraconfig (the settings of a
 * connection or a statement handle), oraopen (a new statement handle on a
 * connection), oraclose (drop a statement's native statement and what the
 * bridge remembers for it) and oraparse (prepare SQL text on a statement
 * handle, running a query without binds at once).
 */
module StmtCmd {
  import opened Wrappers
  import opened Tcl
  import opened Native
  import opened Pending
  import opened Handles
  import opened Naming
  import opened Directory
  import opened Status
  import opened State
  import opened BindState
  import opened Async
  import opened Teardown
  import ExecCmd

  const ConfigUsage: string := "handle ?name ?value??"
  const SetUsage: string := "?-name value ...?"
  const OpenUsage: string := "logon-handle"
  const CloseUsage: string := "statement-handle"
  const ParseUsage: string := "statement-handle sql-text"

  type u32 = x: int | 0 <= x < 0x1_0000_0000

  /** Tcl_WrongNumArgs(ip, 2, objv, usage): the usage message repeats the command and the handle word. */
  function WrongArgsAfterHandle(objv: seq<Value>, usage: string): (r: Outcome)
    requires |objv| >= 2
    ensures r.Error? && r.errorCode == ["TCL", "WRONGARGS"]
  {
    Error("wrong # args: should be \"" + Text(objv[0]) + " " + Text(objv[1]) + " " + usage + "\"", ["TCL", "WRONGARGS"])
  }

  /** `(int)v` for a uint32_t v: values from 2^31 up wrap to negative integers. */
  function AsInt(v: nat): (r: int)
    ensures -0x8000_0000 <= r < 0x8000_0000
    ensures v < 0x8000_0000 ==> r == v
    ensures 0x8000_0000 <= v < 0x1_0000_0000 ==> r == v - 0x1_0000_0000
  {
    var w := v % 0x1_0000_0000;
    if w < 0x8000_0000 then w else w - 0x1_0000_0000
  }

  /** A configuration name with one leading '-' dropped. */
  function OptName(v: Value): (r: string)
    ensures Text(v) == r || Text(v) == "-" + r
  {
    var t := Text(v);
    if |t| > 0 && t[0] == '-' then t[1..] else t
  }

  /** The dash is optional: "-name" and "name" select the same setting. */
  lemma DashOptional(name: string)
    requires name == [] || name[0] != '-'
    ensures OptName(Str("-" + name)) == OptName(Str(name)) == name
  {
  }

  // ---------------------------------------------------------------------
  // Failover error classes
  // ---------------------------------------------------------------------

  const NetworkBit: bv32 := 0x01
  const ConnLostBit: bv32 := 0x02

  /** The bit a word of -foErrorClasses sets: network, connlost, or none for any other word. */
  function ClassBit(w: Value): bv32
  {
    if Text(w) == "network" then NetworkBit else if Text(w) == "connlost" then ConnLostBit else 0
  }

  /** The mask a list of class words sets. */
  function ClassMask(ws: seq<Value>): bv32
    decreases |ws|
  {
    if ws == [] then 0 else ClassMask(ws[..|ws| - 1]) | ClassBit(ws[|ws| - 1])
  }

  /** The class words a mask lists: network first, then connlost. */
  function ClassNames(m: bv32): seq<Value>
  {
    (if m & NetworkBit != 0 then [Str("network")] else []) + (if m & ConnLostBit != 0 then [Str("connlost")] else [])
  }

  predicate HasWord(ws: seq<Value>, t: string)
  {
    exists k :: 0 <= k < |ws| && Text(ws[k]) == t
  }

  /** The mask has only the two class bits, and each is set exactly when one of the words names it. */
  lemma {:induction false} ClassMaskBits(ws: seq<Value>)
    ensures ClassMask(ws) & !(NetworkBit | ConnLostBit) == 0
    ensures ClassMask(ws) & NetworkBit != 0 <==> HasWord(ws, "network")
    ensures ClassMask(ws) & ConnLostBit != 0 <==> HasWord(ws, "connlost")
    decreases |ws|
  {
    if ws != [] {
      var init := ws[..|ws| - 1];
      var w := ws[|ws| - 1];
      ClassMaskBits(init);
      assert forall k :: 0 <= k < |init| ==> init[k] == ws[k];
      if HasWord(ws, "network") && !HasWord(init, "network") {
        assert Text(w) == "network";
      }
      if HasWord(ws, "connlost") && !HasWord(init, "connlost") {
        assert Text(w) == "connlost";
      }
      if HasWord(init, "network") {
        var k :| 0 <= k < |init| && Text(init[k]) == "network";
        assert Text(ws[k]) == "network";
      }
      if HasWord(init, "connlost") {
        var k :| 0 <= k < |init| && Text(init[k]) == "connlost";
        assert Text(ws[k]) == "connlost";
      }
    }
  }

  /**
   * Reading the classes back: the list shows network when some word was
   * "network" and connlost when some word was "connlost", in that order,
   * once each; other words are dropped.  Setting the listed words again
   * gives the same mask.
   */
  lemma ClassesRoundTrip(ws: seq<Value>)
    ensures Str("network") in ClassNames(ClassMask(ws)) <==> HasWord(ws, "network")
    ensures Str("connlost") in ClassNames(ClassMask(ws)) <==> HasWord(ws, "connlost")
    ensures |ClassNames(ClassMask(ws))| <= 2
    ensures ClassMask(ClassNames(ClassMask(ws))) == ClassMask(ws)
  {
    ClassMaskBits(ws);
    var names := ClassNames(ClassMask(ws));
    ClassMaskBits(names);
    var m := ClassMask(ws);
    var n := ClassMask(names);
    assert HasWord(names, "network") <==> m & NetworkBit != 0 by {
      if HasWord(names, "network") {
        var k :| 0 <= k < |names| && Text(names[k]) == "network";
      }
    }
    assert HasWord(names, "connlost") <==> m & ConnLostBit != 0 by {
      if HasWord(names, "connlost") {
        var k :| 0 <= k < |names| && Text(names[k]) == "connlost";
      }
    }
    BitsDetermine(n, m);
  }

  /** Two masks within the class bits that agree on each class bit are equal. */
  lemma BitsDetermine(n: bv32, m: bv32)
    requires n & !(NetworkBit | ConnLostBit) == 0 && m & !(NetworkBit | ConnLostBit) == 0
    requires (n & NetworkBit != 0) == (m & NetworkBit != 0) && (n & ConnLostBit != 0) == (m & ConnLostBit != 0)
    ensures n == m
  {
  }

  lemma ClassMaskStep(ws: seq<Value>, k: nat)
    requires k < |ws|
    ensures ClassMask(ws[..k + 1]) == ClassMask(ws[..k]) | ClassBit(ws[k])
  {
    assert ws[..k + 1][..k] == ws[..k];
  }

  /** One word of the -foErrorClasses loop: "network" sets bit 0x01, "connlost" bit 0x02, anything else nothing. */
  method AddClass(m: bv32, w: Value) returns (r: bv32)
    ensures r == m | ClassBit(w)
  {
    var t := Text(w);
    if t == "network" {
      r := m | NetworkBit;
    } else if t == "connlost" {
      r := m | ConnLostBit;
    } else {
      r := m;
    }
  }

  /** The loop of the -foErrorClasses setter: or together the bit of each word. */
  method ClassMaskOf(ws: seq<Value>) returns (m: bv32)
    ensures m == ClassMask(ws)
  {
    m := 0;
    var k := 0;
    while k < |ws|
      invariant 0 <= k <= |ws|
      invariant m == ClassMask(ws[..k])
    {
      ClassMaskStep(ws, k);
      m := AddClass(m, ws[k]);
      k := k + 1;
    }
    assert ws[..k] == ws;
  }

  // ---------------------------------------------------------------------
  // Connection settings
  // ---------------------------------------------------------------------

  /** The settings oraconfig shows and changes on a connection handle. */
  datatype ConnSettings = ConnSettings(
    stmtCacheSize: nat,
    fetchArraySize: nat,
    prefetchRows: nat,
    prefetchMemory: nat,
    callTimeout: nat,
    inlineLobs: bool,
    foMaxAttempts: nat,
    foBackoffMs: nat,
    foBackoffFactor: Value,
    foErrorClasses: bv32,
    foDebounceMs: nat)

  function SettingsOf(co: Conn): ConnSettings
    reads co
  {
    ConnSettings(co.stmtCacheSize, co.fetchArraySize, co.prefetchRows, co.prefetchMemory, co.callTimeout,
      co.inlineLobs, co.foMaxAttempts, co.foBackoffMs, co.foBackoffFactor, co.foErrorClasses, co.foDebounceMs)
  }

  /** The eleven connection settings. */
  datatype Key =
    | StmtCacheSize | FetchArraySize | PrefetchRows | PrefetchMemory | CallTimeout | InlineLobs
    | FoMaxAttempts | FoBackoffMs | FoBackoffFactor | FoErrorClasses | FoDebounceMs

  /** The name oraconfig knows a setting by. */
  function KeyName(k: Key): string
  {
    match k
    case StmtCacheSize => "stmtcachesize"
    case FetchArraySize => "fetcharraysize"
    case PrefetchRows => "prefetchrows"
    case PrefetchMemory => "prefetchmemory"
    case CallTimeout => "calltimeout"
    case InlineLobs => "inlineLobs"
    case FoMaxAttempts => "foMaxAttempts"
    case FoBackoffMs => "foBackoffMs"
    case FoBackoffFactor => "foBackoffFactor"
    case FoErrorClasses => "foErrorClasses"
    case FoDebounceMs => "foDebounceMs"
  }

  /** The setting a name selects (strcmp against each name in turn); none for any other name. */
  function KeyOf(name: string): Option<Key>
  {
    if name == "stmtcachesize" then Some(StmtCacheSize)
    else if name == "fetcharraysize" then Some(FetchArraySize)
    else if name == "prefetchrows" then Some(PrefetchRows)
    else if name == "prefetchmemory" then Some(PrefetchMemory)
    else if name == "calltimeout" then Some(CallTimeout)
    else if name == "inlineLobs" then Some(InlineLobs)
    else if name == "foMaxAttempts" then Some(FoMaxAttempts)
    else if name == "foBackoffMs" then Some(FoBackoffMs)
    else if name == "foBackoffFactor" then Some(FoBackoffFactor)
    else if name == "foErrorClasses" then Some(FoErrorClasses)
    else if name == "foDebounceMs" then Some(FoDebounceMs)
    else None
  }

  /** Names and settings correspond one to one: exactly the eleven names select a setting, each its own. */
  lemma KeyNamesRoundTrip(k: Key, name: string)
    ensures KeyOf(KeyName(k)) == Some(k)
    ensures KeyOf(name).Some? ==> KeyName(KeyOf(name).value) == name
  {
  }

  /**
   * The driver's answers to oraconfig on a connection: dpiConn_getStmtCacheSize
   * and dpiConn_getCallTimeout (None when the call fails), and the errors of
   * the setters dpiConn_setStmtCacheSize and dpiConn_setCallTimeout, keyed by
   * the position of the name word they answer (a position absent: success).
   */
  datatype ConfigAnswers = ConfigAnswers(cacheSize: Option<u32>, callTimeout: Option<u32>, refusals: map<nat, ErrorInfo>)

  function Refusal(ans: ConfigAnswers, i: nat): Option<ErrorInfo>
  {
    if i in ans.refusals then Some(ans.refusals[i]) else None
  }

  /** The statement cache size read back from a live session, when the driver answers. */
  function RefreshCache(c: ConnSettings, live: bool, ans: ConfigAnswers): ConnSettings
  {
    if live && ans.cacheSize.Some? then c.(stmtCacheSize := ans.cacheSize.value) else c
  }

  /** The call timeout read back from a live session, when the driver answers. */
  function RefreshTimeout(c: ConnSettings, live: bool, ans: ConfigAnswers): ConnSettings
  {
    if live && ans.callTimeout.Some? then c.(callTimeout := ans.callTimeout.value) else c
  }

  /** What the full listing reads back first: both values the session can report. */
  function Refreshed(c: ConnSettings, live: bool, ans: ConfigAnswers): ConnSettings
  {
    RefreshTimeout(RefreshCache(c, live, ans), live, ans)
  }

  /** What a single get reads back first: only the value it shows. */
  function RefreshFor(c: ConnSettings, live: bool, ans: ConfigAnswers, k: Key): ConnSettings
  {
    match k
    case StmtCacheSize => RefreshCache(c, live, ans)
    case CallTimeout => RefreshTimeout(c, live, ans)
    case _ => c
  }

  /** The settings in the order the listing shows them. */
  const ConfigKeys: seq<Key> := [StmtCacheSize, FetchArraySize, PrefetchRows, PrefetchMemory, CallTimeout,
    InlineLobs, FoMaxAttempts, FoBackoffMs, FoBackoffFactor, FoErrorClasses, FoDebounceMs]

  /** The listing shows every setting, once. */
  lemma ListingCoversKeys(k: Key)
    ensures k in ConfigKeys
    ensures forall i, j :: 0 <= i < j < |ConfigKeys| ==> ConfigKeys[i] != ConfigKeys[j]
  {
  }

  /** The fetch array size a connection uses: its own, or the default when it is 0. */
  function EffectiveFetchArraySize(c: ConnSettings): (r: nat)
    ensures r > 0
    ensures c.fetchArraySize > 0 ==> r == c.fetchArraySize
  {
    if c.fetchArraySize != 0 then c.fetchArraySize else DefaultFetchArraySize
  }

  /** The value a setting shows. */
  function Shows(c: ConnSettings, k: Key): Value
  {
    match k
    case StmtCacheSize => Int(AsInt(c.stmtCacheSize))
    case FetchArraySize => Int(AsInt(EffectiveFetchArraySize(c)))
    case PrefetchRows => Int(AsInt(c.prefetchRows))
    case PrefetchMemory => Int(AsInt(c.prefetchMemory))
    case CallTimeout => Int(AsInt(c.callTimeout))
    case InlineLobs => Bool(c.inlineLobs)
    case FoMaxAttempts => Int(AsInt(c.foMaxAttempts))
    case FoBackoffMs => Int(AsInt(c.foBackoffMs))
    case FoBackoffFactor => c.foBackoffFactor
    case FoErrorClasses => List(ClassNames(c.foErrorClasses))
    case FoDebounceMs => Int(AsInt(c.foDebounceMs))
  }

  /** Name, value, name, value, ... for the given settings. */
  function SettingPairs(c: ConnSettings, keys: seq<Key>): (r: seq<Value>)
    ensures |r| == 2 * |keys|
  {
    if keys == [] then [] else [Str(KeyName(keys[0])), Shows(c, keys[0])] + SettingPairs(c, keys[1..])
  }

  /** The full listing of a connection's settings. */
  function Listing(c: ConnSettings): Value
  {
    List(SettingPairs(c, ConfigKeys))
  }

  lemma {:induction false} SettingPairsAt(c: ConnSettings, keys: seq<Key>, k: nat)
    requires k < |keys|
    ensures SettingPairs(c, keys)[2 * k] == Str(KeyName(keys[k]))
    ensures SettingPairs(c, keys)[2 * k + 1] == Shows(c, keys[k])
    decreases k
  {
    if k > 0 {
      SettingPairsAt(c, keys[1..], k - 1);
    }
  }

  /**
   * The listing shows the eleven settings in order, and the value after each
   * name is exactly what a single get of that setting answers (which reads
   * back only the value it shows).
   */
  lemma ListingAgreesWithGet(c: ConnSettings, live: bool, ans: ConfigAnswers, i: nat)
    requires i < |ConfigKeys|
    ensures |Listing(Refreshed(c, live, ans)).items| == 22
    ensures Listing(Refreshed(c, live, ans)).items[2 * i] == Str(KeyName(ConfigKeys[i]))
    ensures Listing(Refreshed(c, live, ans)).items[2 * i + 1] ==
      Shows(RefreshFor(c, live, ans, ConfigKeys[i]), ConfigKeys[i])
  {
    SettingPairsAt(Refreshed(c, live, ans), ConfigKeys, i);
    RefreshForAgrees(c, live, ans, ConfigKeys[i]);
  }

  /** Reading back only the value shown gives what the full read-back shows for it. */
  lemma RefreshForAgrees(c: ConnSettings, live: bool, ans: ConfigAnswers, k: Key)
    ensures Shows(RefreshFor(c, live, ans, k), k) == Shows(Refreshed(c, live, ans), k)
  {
  }

  /** How oraconfig ends on a connection. */
  datatype ConfigEnd =
    | Shown(v: Value)                             // TCL_OK with this result
    | WordRefused(o: Outcome)                     // a Tcl error, the status block untouched
    | UnknownName                                 // "unknown option" recorded on the handle
    | SetterRefused(err: ErrorInfo, where: string) // the driver refused a setter

  /** One step of the setting loop: go on with these settings, or stop. */
  datatype SetStep = Next(c: ConnSettings) | Stop(c: ConnSettings, end: ConfigEnd)

  /** A non-negative integer setting: negative values are taken as 0. */
  function Clamp(n: int): nat
  {
    if n >= 0 then n else 0
  }

  /** The value an accepted integer word leaves in an integer setting. */
  function Normalised(k: Key, n: int): nat
  {
    if k == FetchArraySize then (if n > 0 then n else DefaultFetchArraySize) else Clamp(n)
  }

  /** The settings that are integers. */
  predicate IsIntKey(k: Key)
  {
    !(k.InlineLobs? || k.FoBackoffFactor? || k.FoErrorClasses?)
  }

  /** An integer setting given the value n. */
  function WithInt(c: ConnSettings, k: Key, n: nat): ConnSettings
    requires IsIntKey(k)
  {
    match k
    case StmtCacheSize => c.(stmtCacheSize := n)
    case FetchArraySize => c.(fetchArraySize := n)
    case PrefetchRows => c.(prefetchRows := n)
    case PrefetchMemory => c.(prefetchMemory := n)
    case CallTimeout => c.(callTimeout := n)
    case FoMaxAttempts => c.(foMaxAttempts := n)
    case FoBackoffMs => c.(foBackoffMs := n)
    case FoDebounceMs => c.(foDebounceMs := n)
  }

  /** The driver setter an integer setting also calls on a live session, if any. */
  function SetterOf(k: Key): Option<string>
  {
    match k
    case StmtCacheSize => Some("dpiConn_setStmtCacheSize")
    case CallTimeout => Some("dpiConn_setCallTimeout")
    case _ => None
  }

  /** One setting given the word v; live says the handle holds a session. */
  function SetKey(c: ConnSettings, live: bool, k: Key, v: Value, refusal: Option<ErrorInfo>): SetStep
  {
    if k == InlineLobs then
      match GetBoolean(v)
      case None => Stop(c, WordRefused(NotA(Boolean, v)))
      case Some(b) => Next(c.(inlineLobs := b))
    else if k == FoBackoffFactor then
      if IsDouble(v) then Next(c.(foBackoffFactor := v)) else Stop(c, WordRefused(NotA(FloatingPoint, v)))
    else if k == FoErrorClasses then
      Next(c.(foErrorClasses := ClassMask(GetList(v))))
    else
      match GetInt(v)
      case None => Stop(c, WordRefused(IntRefusal(v)))
      case Some(n) =>
        var c1 := WithInt(c, k, Normalised(k, n));
        if live && refusal.Some? && SetterOf(k).Some? then Stop(c1, SetterRefused(refusal.value, SetterOf(k).value))
        else Next(c1)
  }

  /** One name/value pair applied. */
  function SetOneSpec(c: ConnSettings, live: bool, name: string, v: Value, refusal: Option<ErrorInfo>): SetStep
  {
    match KeyOf(name)
    case None => Stop(c, UnknownName)
    case Some(k) => SetKey(c, live, k, v, refusal)
  }

  /** The pairs from word i on, applied left to right until one stops the loop (the word count is even here). */
  function SetFrom(c: ConnSettings, live: bool, objv: seq<Value>, i: nat, ans: ConfigAnswers): SetStep
    decreases |objv| - i
  {
    if i + 1 >= |objv| then Next(c)
    else
      match SetOneSpec(c, live, OptName(objv[i]), objv[i + 1], Refusal(ans, i))
      case Next(c1) => SetFrom(c1, live, objv, i + 2, ans)
      case Stop(c1, e) => Stop(c1, e)
  }

  /**
   * Oradpi_ConfigConn as a function of the settings: the new settings and
   * how the command ends.  Two words list all settings, three get one, an
   * odd count is a usage error, and otherwise the pairs are applied and,
   * when all are accepted, the listing is shown.
   */
  function ConnConfigSpec(c: ConnSettings, live: bool, objv: seq<Value>, ans: ConfigAnswers): (ConnSettings, ConfigEnd)
    requires |objv| >= 2
  {
    if |objv| == 2 then
      var r := Refreshed(c, live, ans);
      (r, Shown(Listing(r)))
    else if |objv| == 3 then
      match KeyOf(OptName(objv[2]))
      case None => (c, UnknownName)
      case Some(k) => var r := RefreshFor(c, live, ans, k); (r, Shown(Shows(r, k)))
    else if |objv| % 2 != 0 then
      (c, WordRefused(WrongArgsAfterHandle(objv, SetUsage)))
    else
      match SetFrom(c, live, objv, 2, ans)
      case Next(c1) => var r := Refreshed(c1, live, ans); (r, Shown(Listing(r)))
      case Stop(c1, e) => (c1, e)
  }

  /** An accepted word changes only the setting it is given for. */
  lemma SetKeepsOthers(c: ConnSettings, live: bool, k: Key, v: Value, refusal: Option<ErrorInfo>, other: Key)
    requires SetKey(c, live, k, v, refusal).Next? && other != k
    ensures Shows(SetKey(c, live, k, v, refusal).c, other) == Shows(c, other)
  {
  }

  /**
   * A get after an accepted word shows: the integer clamped at 0 (for the
   * fetch array size, a non-positive value means the default 100), the
   * boolean, the double word as given, or the recognised error classes.
   */
  lemma SetThenGet(c: ConnSettings, live: bool, k: Key, v: Value, refusal: Option<ErrorInfo>)
    requires SetKey(c, live, k, v, refusal).Next?
    ensures k == InlineLobs ==> Shows(SetKey(c, live, k, v, refusal).c, k) == Bool(GetBoolean(v).value)
    ensures k == FoBackoffFactor ==> Shows(SetKey(c, live, k, v, refusal).c, k) == v
    ensures k == FoErrorClasses ==> Shows(SetKey(c, live, k, v, refusal).c, k) == List(ClassNames(ClassMask(GetList(v))))
    ensures IsIntKey(k) ==> GetInt(v).Some? && Shows(SetKey(c, live, k, v, refusal).c, k) == Int(Normalised(k, GetInt(v).value))
  {
  }

  /**
   * A word the Tcl parser rejects, or an unknown name, leaves the settings as
   * the earlier pairs made them; a setter the driver refuses keeps the value
   * it was given.  Only the statement cache size and the call timeout can be
   * refused, and only on a live session.
   */
  lemma FailureKeepsEarlierPairs(c: ConnSettings, live: bool, name: string, v: Value, refusal: Option<ErrorInfo>)
    requires SetOneSpec(c, live, name, v, refusal).Stop?
    ensures !SetOneSpec(c, live, name, v, refusal).end.SetterRefused? ==> SetOneSpec(c, live, name, v, refusal).c == c
    ensures SetOneSpec(c, live, name, v, refusal).end.SetterRefused? <==>
      live && refusal.Some? && KeyOf(name) in {Some(StmtCacheSize), Some(CallTimeout)} && GetInt(v).Some?
    ensures SetOneSpec(c, live, name, v, refusal).end.SetterRefused? ==>
      Shows(SetOneSpec(c, live, name, v, refusal).c, KeyOf(name).value) == Int(Clamp(GetInt(v).value))
  {
    match KeyOf(name)
    case None =>
    case Some(k) =>
      if IsIntKey(k) && GetInt(v).Some? {
        var c1 := WithInt(c, k, Normalised(k, GetInt(v).value));
        if k == StmtCacheSize {
          assert Shows(c1, k) == Int(AsInt(c1.stmtCacheSize));
        } else if k == CallTimeout {
          assert Shows(c1, k) == Int(AsInt(c1.callTimeout));
        }
      }
  }

  /** The last of two accepted words for the same setting decides its value. */
  lemma LastPairWins(c: ConnSettings, live: bool, k: Key, v1: Value, v2: Value, r1: Option<ErrorInfo>, r2: Option<ErrorInfo>)
    requires SetKey(c, live, k, v1, r1).Next? && SetKey(SetKey(c, live, k, v1, r1).c, live, k, v2, r2).Next?
    ensures SetKey(SetKey(c, live, k, v1, r1).c, live, k, v2, r2) == SetKey(c, live, k, v2, r2)
  {
  }

  /** A handle without a session: no setter fails. */
  lemma {:induction false} NoSessionNoDriver(c: ConnSettings, objv: seq<Value>, ans: ConfigAnswers, i: nat)
    ensures !(SetFrom(c, false, objv, i, ans).Stop? && SetFrom(c, false, objv, i, ans).end.SetterRefused?)
    decreases |objv| - i
  {
    if i + 1 < |objv| {
      var step := SetOneSpec(c, false, OptName(objv[i]), objv[i + 1], Refusal(ans, i));
      NoSessionStep(c, OptName(objv[i]), objv[i + 1], Refusal(ans, i));
      assert SetFrom(c, false, objv, i, ans) == if step.Next? then SetFrom(step.c, false, objv, i + 2, ans) else step;
      if step.Next? {
        NoSessionNoDriver(step.c, objv, ans, i + 2);
      }
    }
  }

  lemma NoSessionStep(c: ConnSettings, name: string, v: Value, refusal: Option<ErrorInfo>)
    ensures !(SetOneSpec(c, false, name, v, refusal).Stop? && SetOneSpec(c, false, name, v, refusal).end.SetterRefused?)
  {
  }

  // ---------------------------------------------------------------------
  // oraconfig on a connection handle
  // ---------------------------------------------------------------------

  /** What the caller sees when oraconfig ends as e: the result, and the status block left on the handle. */
  predicate Reported(e: ConfigEnd, o: Outcome, m0: Msg, m: Msg)
  {
    match e
    case Shown(v) => o == Ok(v) && m == m0
    case WordRefused(out) => o == out && m == m0
    case UnknownName => o == ClientFailure("unknown option") && m == ClientMsg(m0, -1, "unknown option")
    case SetterRefused(err, where) => o == DriverFailure(err, where) && m == DriverMsg(m0, err, where)
  }

  /** The full listing's read-back: the cache size and the call timeout, from a live session that answers. */
  method ReadBackAll(co: Conn, ans: ConfigAnswers)
    modifies co`stmtCacheSize, co`callTimeout
    ensures SettingsOf(co) == Refreshed(old(SettingsOf(co)), co.conn.Some?, ans)
  {
    if co.conn.Some? && ans.cacheSize.Some? {
      co.stmtCacheSize := ans.cacheSize.value;
    }
    if co.conn.Some? && ans.callTimeout.Some? {
      co.callTimeout := ans.callTimeout.value;
    }
  }

  /** A single get's read-back: only the value it shows. */
  method ReadBack(co: Conn, ans: ConfigAnswers, k: Key)
    modifies co`stmtCacheSize, co`callTimeout
    ensures SettingsOf(co) == RefreshFor(old(SettingsOf(co)), co.conn.Some?, ans, k)
  {
    if k == StmtCacheSize && co.conn.Some? && ans.cacheSize.Some? {
      co.stmtCacheSize := ans.cacheSize.value;
    } else if k == CallTimeout && co.conn.Some? && ans.callTimeout.Some? {
      co.callTimeout := ans.callTimeout.value;
    }
  }

  /** Write one integer setting. */
  method StoreInt(co: Conn, k: Key, n: nat)
    requires IsIntKey(k)
    modifies co`stmtCacheSize, co`fetchArraySize, co`prefetchRows, co`prefetchMemory, co`callTimeout,
      co`foMaxAttempts, co`foBackoffMs, co`foDebounceMs
    ensures SettingsOf(co) == WithInt(old(SettingsOf(co)), k, n)
  {
    match k
    case StmtCacheSize => co.stmtCacheSize := n;
    case FetchArraySize => co.fetchArraySize := n;
    case PrefetchRows => co.prefetchRows := n;
    case PrefetchMemory => co.prefetchMemory := n;
    case CallTimeout => co.callTimeout := n;
    case FoMaxAttempts => co.foMaxAttempts := n;
    case FoBackoffMs => co.foBackoffMs := n;
    case FoDebounceMs => co.foDebounceMs := n;
  }

  /**
   * One round of the setting loop: parse the word for the named setting and
   * write it; the statement cache size and the call timeout are then also set
   * on a live session, which may refuse (the field keeps the new value).
   */
  method SetPair(co: Conn, name: string, v: Value, refusal: Option<ErrorInfo>) returns (step: SetStep)
    modifies co`stmtCacheSize, co`fetchArraySize, co`prefetchRows, co`prefetchMemory, co`callTimeout,
      co`inlineLobs, co`foMaxAttempts, co`foBackoffMs, co`foBackoffFactor, co`foErrorClasses, co`foDebounceMs
    ensures step == SetOneSpec(old(SettingsOf(co)), co.conn.Some?, name, v, refusal)
    ensures SettingsOf(co) == step.c
  {
    var key := KeyOf(name);
    if key.None? {
      return Stop(SettingsOf(co), UnknownName);
    }
    var k := key.value;
    if k == InlineLobs {
      var b := GetBoolean(v);
      if b.None? {
        return Stop(SettingsOf(co), WordRefused(NotA(Boolean, v)));
      }
      co.inlineLobs := b.value;
    } else if k == FoBackoffFactor {
      if !IsDouble(v) {
        return Stop(SettingsOf(co), WordRefused(NotA(FloatingPoint, v)));
      }
      co.foBackoffFactor := v;
    } else if k == FoErrorClasses {
      var m := ClassMaskOf(GetList(v));
      co.foErrorClasses := m;
    } else {
      var n := GetInt(v);
      if n.None? {
        return Stop(SettingsOf(co), WordRefused(IntRefusal(v)));
      }
      StoreInt(co, k, Normalised(k, n.value));
      if co.conn.Some? && refusal.Some? && SetterOf(k).Some? {
        return Stop(SettingsOf(co), SetterRefused(refusal.value, SetterOf(k).value));
      }
    }
    step := Next(SettingsOf(co));
  }

  /** An even count is twice its half. */
  method Halve(n: nat) returns (h: nat)
    requires n % 2 == 0
    ensures n == 2 * h
  {
    h := n / 2;
  }

  /** One unfolding of SetFrom: the pair at word i, then the rest unless it stops the loop. */
  lemma SetFromStep(c: ConnSettings, live: bool, objv: seq<Value>, i: nat, ans: ConfigAnswers, step: SetStep)
    requires i + 1 < |objv| && step == SetOneSpec(c, live, OptName(objv[i]), objv[i + 1], Refusal(ans, i))
    ensures SetFrom(c, live, objv, i, ans) == if step.Next? then SetFrom(step.c, live, objv, i + 2, ans) else step
  {
  }

  /** The setting loop: the pairs from word 2 on, in order, until one stops it. */
  method SetPairs(co: Conn, objv: seq<Value>, ans: ConfigAnswers) returns (step: SetStep)
    requires |objv| >= 2 && |objv| % 2 == 0
    modifies co`stmtCacheSize, co`fetchArraySize, co`prefetchRows, co`prefetchMemory, co`callTimeout,
      co`inlineLobs, co`foMaxAttempts, co`foBackoffMs, co`foBackoffFactor, co`foErrorClasses, co`foDebounceMs
    ensures step == SetFrom(old(SettingsOf(co)), co.conn.Some?, objv, 2, ans)
    ensures SettingsOf(co) == step.c
  {
    var live := co.conn.Some?;
    ghost var goal := SetFrom(SettingsOf(co), live, objv, 2, ans);
    var pairs := Halve(|objv| - 2);
    var i, j := 2, 0;
    while j < pairs
      invariant i == 2 + 2 * j && j <= pairs && co.conn.Some? == live
      invariant SetFrom(SettingsOf(co), live, objv, i, ans) == goal
      decreases pairs - j
    {
      ghost var cur := SettingsOf(co);
      step := SetPair(co, OptName(objv[i]), objv[i + 1], Refusal(ans, i));
      SetFromStep(cur, live, objv, i, ans, step);
      if step.Stop? {
        return;
      }
      i, j := i + 2, j + 1;
    }
    step := Next(SettingsOf(co));
  }

  /** Leave the end e on the handle co: its result, and for a failure its status block. */
  method Report(co: Conn, e: ConfigEnd) returns (o: Outcome)
    modifies co`msg, QueueOf(co)
    ensures Reported(e, o, old(co.msg), co.msg)
  {
    match e
    case Shown(v) => o := Ok(v);
    case WordRefused(out) => o := out;
    case UnknownName => o := SetError(ConnH(co), -1, "unknown option");
    case SetterRefused(err, where) => o := SetErrorFromODPI(ConnH(co), err, where);
  }

  /**
   * Oradpi_ConfigConn: list, get or set the settings of the connection
   * handle co, as ConnConfigSpec says, the session's answers given by ans.
   */
  method ConfigConn(co: Conn, objv: seq<Value>, ans: ConfigAnswers) returns (o: Outcome, e: ConfigEnd)
    requires |objv| >= 2
    modifies co`stmtCacheSize, co`fetchArraySize, co`prefetchRows, co`prefetchMemory, co`callTimeout,
      co`inlineLobs, co`foMaxAttempts, co`foBackoffMs, co`foBackoffFactor, co`foErrorClasses, co`foDebounceMs,
      co`msg, QueueOf(co)
    ensures (SettingsOf(co), e) == ConnConfigSpec(old(SettingsOf(co)), co.conn.Some?, objv, ans)
    ensures Reported(e, o, old(co.msg), co.msg)
  {
    var live := co.conn.Some?;
    if |objv| == 2 {
      ReadBackAll(co, ans);
      e := Shown(Listing(SettingsOf(co)));
      o := Ok(e.v);
      return;
    }
    if |objv| == 3 {
      var key := KeyOf(OptName(objv[2]));
      if key.None? {
        e := UnknownName;
      } else {
        ReadBack(co, ans, key.value);
        e := Shown(Shows(SettingsOf(co), key.value));
      }
      o := Report(co, e);
      return;
    }
    if |objv| % 2 != 0 {
      e := WordRefused(WrongArgsAfterHandle(objv, SetUsage));
      o := e.o;
      return;
    }
    var step := SetPairs(co, objv, ans);
    if step.Stop? {
      e := step.end;
      o := Report(co, e);
      return;
    }
    ReadBackAll(co, ans);
    e := Shown(Listing(SettingsOf(co)));
    o := Ok(e.v);
  }

  // ---------------------------------------------------------------------
  // oraconfig on a statement handle
  // ---------------------------------------------------------------------

  /** The statement's settings: its fetch array size, and its owner's prefetch row count (None without an owner). */
  datatype StmtSettings = StmtSettings(fetchArray: nat, ownerRows: Option<nat>)

  /** The statement's owner connection, as a set of zero or one element. */
  function OwnerSet(s: Stmt): set<Conn>
    reads s
  {
    if s.owner != null then {s.owner} else {}
  }

  function OwnerRows(s: Stmt): Option<nat>
    reads s, s.owner
  {
    if s.owner != null then Some(s.owner.prefetchRows) else None
  }

  /**
   * The prefetch row count shown: what dpiStmt_getPrefetchRows answers for a
   * native statement (readBack, None when the call fails), else the owner's,
   * else 0.
   */
  function PrefetchShown(c: StmtSettings, native: bool, readBack: Option<u32>): nat
  {
    if native && readBack.Some? then readBack.value else if c.ownerRows.Some? then c.ownerRows.value else 0
  }

  /**
   * Oradpi_ConfigStmt as a function of the settings: two words list
   * fetchrows and prefetchrows, three get one, four set one, anything else
   * is a usage error.  Setting prefetchrows changes the owner connection's
   * count, and so that of every statement later parsed on it.
   */
  function StmtConfigSpec(c: StmtSettings, native: bool, readBack: Option<u32>, objv: seq<Value>): (StmtSettings, ConfigEnd)
    requires |objv| >= 1
  {
    if |objv| == 2 then
      (c, Shown(List([Str("fetchrows"), Int(AsInt(c.fetchArray)), Str("prefetchrows"), Int(AsInt(PrefetchShown(c, native, readBack)))])))
    else if |objv| == 3 then
      var name := OptName(objv[2]);
      if name == "fetchrows" then (c, Shown(Int(AsInt(c.fetchArray))))
      else if name == "prefetchrows" then (c, Shown(Int(AsInt(PrefetchShown(c, native, readBack)))))
      else (c, UnknownName)
    else if |objv| == 4 then
      var name := OptName(objv[2]);
      if name != "fetchrows" && name != "prefetchrows" then (c, UnknownName)
      else
        match GetInt(objv[3])
        case None => (c, WordRefused(IntRefusal(objv[3])))
        case Some(n) =>
          if name == "fetchrows" then
            var fa := if n > 0 then n else DefaultFetchArraySize;
            (c.(fetchArray := fa), Shown(Int(fa)))
          else
            var pr := Clamp(n);
            (c.(ownerRows := if c.ownerRows.Some? then Some(pr) else None), Shown(Int(pr)))
    else
      (c, WordRefused(WrongArgs(objv, ConfigUsage)))
  }

  /**
   * A get after an accepted set shows the value set: the fetch array size
   * (a non-positive value meaning the default 100), and the prefetch row
   * count clamped at 0 when the statement has an owner and no native
   * statement answers for itself.
   */
  lemma StmtSetThenGet(c: StmtSettings, native: bool, readBack: Option<u32>, a: Value, h: Value, name: Value, v: Value)
    requires StmtConfigSpec(c, native, readBack, [a, h, name, v]).1.Shown?
    ensures OptName(name) in {"fetchrows", "prefetchrows"} && GetInt(v).Some?
    ensures OptName(name) == "fetchrows" ==>
      StmtConfigSpec(StmtConfigSpec(c, native, readBack, [a, h, name, v]).0, native, readBack, [a, h, name]).1 ==
      Shown(Int(Normalised(FetchArraySize, GetInt(v).value)))
    ensures OptName(name) == "prefetchrows" && c.ownerRows.Some? && !(native && readBack.Some?) ==>
      StmtConfigSpec(StmtConfigSpec(c, native, readBack, [a, h, name, v]).0, native, readBack, [a, h, name]).1 ==
      Shown(Int(Clamp(GetInt(v).value)))
  {
  }

  /** The listing shows fetchrows and then prefetchrows, each as the get of that name does. */
  lemma StmtListingAgreesWithGet(c: StmtSettings, native: bool, readBack: Option<u32>, a: Value, h: Value)
    ensures StmtConfigSpec(c, native, readBack, [a, h]).1 ==
      Shown(List([Str("fetchrows"), StmtConfigSpec(c, native, readBack, [a, h, Str("fetchrows")]).1.v,
        Str("prefetchrows"), StmtConfigSpec(c, native, readBack, [a, h, Str("prefetchrows")]).1.v]))
  {
    assert OptName(Str("fetchrows")) == "fetchrows";
    assert OptName(Str("prefetchrows")) == "prefetchrows";
  }

  /**
   * Oradpi_ConfigStmt: list, get or set the settings of the statement
   * handle s.  The driver calls dpiStmt_setFetchArraySize and
   * dpiStmt_setPrefetchRows are made and their results ignored.
   */
  method ConfigStmt(s: Stmt, objv: seq<Value>, readBack: Option<u32>) returns (o: Outcome, e: ConfigEnd)
    requires |objv| >= 2
    modifies s`fetchArray, s`msg, OwnerSet(s)`prefetchRows
    ensures s.owner == old(s.owner)
    ensures (StmtSettings(s.fetchArray, OwnerRows(s)), e) ==
      StmtConfigSpec(old(StmtSettings(s.fetchArray, OwnerRows(s))), s.stmt.Some?, readBack, objv)
    ensures Reported(e, o, old(s.msg), s.msg)
  {
    ghost var c := StmtSettings(s.fetchArray, OwnerRows(s));
    var pr: nat := if s.owner != null then s.owner.prefetchRows else 0;
    if s.stmt.Some? && readBack.Some? {
      pr := readBack.value;
    }
    assert pr == PrefetchShown(c, s.stmt.Some?, readBack);
    if |objv| == 2 {
      e := Shown(List([Str("fetchrows"), Int(AsInt(s.fetchArray)), Str("prefetchrows"), Int(AsInt(pr))]));
      o := Ok(e.v);
      return;
    }
    if |objv| == 3 || |objv| == 4 {
      var name := OptName(objv[2]);
      if name == "fetchrows" && |objv| == 3 {
        e := Shown(Int(AsInt(s.fetchArray)));
      } else if name == "prefetchrows" && |objv| == 3 {
        e := Shown(Int(AsInt(pr)));
      } else if name != "fetchrows" && name != "prefetchrows" {
        e := UnknownName;
      } else {
        var n := GetInt(objv[3]);
        if n.None? {
          e := WordRefused(IntRefusal(objv[3]));
        } else if name == "fetchrows" {
          s.fetchArray := if n.value > 0 then n.value else DefaultFetchArraySize;
          e := Shown(Int(s.fetchArray));
        } else {
          var rows := Clamp(n.value);
          if s.owner != null {
            s.owner.prefetchRows := rows;
          }
          e := Shown(Int(rows));
        }
      }
      if e.UnknownName? {
        o := SetError(StmtH(s), -1, "unknown option");
      } else if e.WordRefused? {
        o := e.o;
      } else {
        o := Ok(e.v);
      }
      return;
    }
    e := WordRefused(WrongArgs(objv, ConfigUsage));
    o := e.o;
  }

  // ---------------------------------------------------------------------
  // oraconfig
  // ---------------------------------------------------------------------

  /**
   * The connection half of Oradpi_Cmd_Config, for a name that is not a
   * statement handle: the connection is looked up (which may adopt one),
   * and configured as ConfigConn says; c0 and m0 are its settings and
   * status block once found.
   */
  method OraconfigConn(ip: Interp, dir: ConnDirectory, drv: Driver, objv: seq<Value>, ans: ConfigAnswers)
    returns (o: Outcome, ghost h: Option<Handle>, ghost e: ConfigEnd, ghost c0: ConnSettings, ghost m0: Msg)
    requires |objv| >= 2
    requires dir.Valid() && dir.Safe(drv) && Owned(ip, dir) && Named(ip)
    modifies ip`conns, drv`refs
    modifies NamedConn(ip, objv)`stmtCacheSize, NamedConn(ip, objv)`fetchArraySize, NamedConn(ip, objv)`prefetchRows,
      NamedConn(ip, objv)`prefetchMemory, NamedConn(ip, objv)`callTimeout, NamedConn(ip, objv)`inlineLobs,
      NamedConn(ip, objv)`foMaxAttempts, NamedConn(ip, objv)`foBackoffMs, NamedConn(ip, objv)`foBackoffFactor,
      NamedConn(ip, objv)`foErrorClasses, NamedConn(ip, objv)`foDebounceMs, NamedConn(ip, objv)`msg, NamedConnQueue(ip, objv)
    ensures Owned(ip, dir) && Named(ip)
    ensures Resolved(ip, dir, drv, Text(objv[1]), if h.Some? && h.value.ConnH? then h.value.c else null)
    ensures h == None ==> o == ClientFailure("invalid handle") && Text(objv[1]) !in ip.conns
    ensures old(Text(objv[1]) in ip.conns && ip.conns[Text(objv[1])].conn.Some?) ==>
      h == Some(ConnH(old(ip.conns[Text(objv[1])]))) && c0 == old(SettingsOf(ip.conns[Text(objv[1])])) && m0 == old(ip.conns[Text(objv[1])].msg)
    ensures h.Some? ==>
      h.value.ConnH? && Text(objv[1]) in ip.conns && ip.conns[Text(objv[1])] == h.value.c &&
      (SettingsOf(h.value.c), e) == ConnConfigSpec(c0, h.value.c.conn.Some?, objv, ans) && Reported(e, o, m0, h.value.c.msg)
  {
    h, e, c0, m0 := None, UnknownName, ConnSettings(0, 0, 0, 0, 0, false, 0, 0, ZeroDouble, 0, 0), ZeroMsg;
    var co := LookupConn(ip, Text(objv[1]), dir, drv);
    if co == null {
      o := ClientFailure("invalid handle");
      return;
    }
    h, c0, m0 := Some(ConnH(co)), SettingsOf(co), co.msg;
    o, e := ConfigConn(co, objv, ans);
  }

  /**
   * Oradpi_Cmd_Config.  The handle is looked up as a statement first, then
   * as a connection (which may adopt one); neither gives "invalid handle".
   * ans holds the session's answers for a connection, readBack what
   * dpiStmt_getPrefetchRows answers for a statement.  c0 (connection) or
   * sc0 (statement), and m0, are the handle's settings and status block
   * once found.
   */
  method Oraconfig(ip: Interp, dir: ConnDirectory, drv: Driver, objv: seq<Value>, ans: ConfigAnswers, readBack: Option<u32>)
    returns (o: Outcome, ghost h: Option<Handle>, ghost e: ConfigEnd, ghost c0: ConnSettings, ghost sc0: StmtSettings, ghost m0: Msg)
    requires |objv| >= 1
    requires dir.Valid() && dir.Safe(drv) && Owned(ip, dir) && Named(ip)
    modifies ip`conns, drv`refs, NamedStmt(ip, objv)`fetchArray, NamedStmt(ip, objv)`msg, NamedOwner(ip, objv)`prefetchRows
    modifies NamedConn(ip, objv)`stmtCacheSize, NamedConn(ip, objv)`fetchArraySize, NamedConn(ip, objv)`prefetchRows,
      NamedConn(ip, objv)`prefetchMemory, NamedConn(ip, objv)`callTimeout, NamedConn(ip, objv)`inlineLobs,
      NamedConn(ip, objv)`foMaxAttempts, NamedConn(ip, objv)`foBackoffMs, NamedConn(ip, objv)`foBackoffFactor,
      NamedConn(ip, objv)`foErrorClasses, NamedConn(ip, objv)`foDebounceMs, NamedConn(ip, objv)`msg, NamedConnQueue(ip, objv)
    ensures Owned(ip, dir) && Named(ip)
    ensures |objv| < 2 ==> o == WrongArgs(objv, ConfigUsage) && h == None && ip.conns == old(ip.conns) && drv.refs == old(drv.refs)
    ensures |objv| >= 2 && h == None ==>
      o == ClientFailure("invalid handle") && Text(objv[1]) !in ip.stmts && Text(objv[1]) !in ip.conns
    ensures |objv| >= 2 && Text(objv[1]) in ip.stmts ==>
      h == Some(StmtH(ip.stmts[Text(objv[1])])) && ip.conns == old(ip.conns) && drv.refs == old(drv.refs) &&
      sc0 == old(StmtSettings(ip.stmts[Text(objv[1])].fetchArray, OwnerRows(ip.stmts[Text(objv[1])]))) &&
      m0 == old(ip.stmts[Text(objv[1])].msg)
    ensures h.Some? && h.value.StmtH? ==>
      var s := h.value.s;
      (StmtSettings(s.fetchArray, OwnerRows(s)), e) == StmtConfigSpec(sc0, s.stmt.Some?, readBack, objv) &&
      Reported(e, o, m0, s.msg)
    ensures |objv| >= 2 && Text(objv[1]) !in ip.stmts ==>
      Resolved(ip, dir, drv, Text(objv[1]), if h.Some? && h.value.ConnH? then h.value.c else null)
    ensures |objv| >= 2 && Text(objv[1]) !in ip.stmts && old(Text(objv[1]) in ip.conns && ip.conns[Text(objv[1])].conn.Some?) ==>
      h == Some(ConnH(old(ip.conns[Text(objv[1])]))) && c0 == old(SettingsOf(ip.conns[Text(objv[1])])) &&
      m0 == old(ip.conns[Text(objv[1])].msg)
    ensures h.Some? && h.value.ConnH? ==>
      var co := h.value.c;
      Text(objv[1]) !in ip.stmts && Text(objv[1]) in ip.conns && ip.conns[Text(objv[1])] == co &&
      (SettingsOf(co), e) == ConnConfigSpec(c0, co.conn.Some?, objv, ans) && Reported(e, o, m0, co.msg)
  {
    h, e, c0, m0 := None, UnknownName, ConnSettings(0, 0, 0, 0, 0, false, 0, 0, ZeroDouble, 0, 0), ZeroMsg;
    sc0 := StmtSettings(0, None);
    if |objv| < 2 {
      o := WrongArgs(objv, ConfigUsage);
      return;
    }
    var name := Text(objv[1]);
    var s := LookupStmt(ip, name);
    if s != null {
      h, sc0, m0 := Some(StmtH(s)), StmtSettings(s.fetchArray, OwnerRows(s)), s.msg;
      o, e := ConfigStmt(s, objv, readBack);
      return;
    }
    o, h, e, c0, m0 := OraconfigConn(ip, dir, drv, objv, ans);
  }

  // ---------------------------------------------------------------------
  // oraopen
  // ---------------------------------------------------------------------

  /** Every statement handle name was drawn from the counter. */
  ghost predicate StmtNamesIssued(ip: Interp, namer: Namer)
    reads ip, namer
  {
    forall n :: n in ip.stmts ==> HandleNumber(n) <= namer.counter
  }

  /**
   * Oradpi_Cmd_Open: a new statement handle "oraS<n>" owned by the
   * connection named (which may be adopted), without a native statement.
   * Its name is new, so no existing statement handle is replaced.
   */
  method Oraopen(ip: Interp, namer: Namer, dir: ConnDirectory, drv: Driver, objv: seq<Value>)
    returns (o: Outcome, s: Stmt?)
    requires |objv| >= 1
    requires dir.Valid() && dir.Safe(drv) && Owned(ip, dir) && Named(ip) && StmtNamesIssued(ip, namer)
    modifies ip`conns, ip`stmts, drv`refs, namer
    ensures Owned(ip, dir) && Named(ip) && StmtNamesIssued(ip, namer)
    ensures |objv| != 2 ==>
      o == WrongArgs(objv, OpenUsage) && s == null && ip.conns == old(ip.conns) && ip.stmts == old(ip.stmts) &&
      drv.refs == old(drv.refs) && namer.counter == old(namer.counter)
    ensures |objv| == 2 ==> Resolved(ip, dir, drv, Text(objv[1]), if s != null then s.owner else null)
    ensures |objv| == 2 && s == null ==>
      o == ClientFailure("invalid logon handle") && Text(objv[1]) !in ip.conns && ip.stmts == old(ip.stmts)
    ensures |objv| == 2 && old(Text(objv[1]) in ip.conns && ip.conns[Text(objv[1])].conn.Some?) ==>
      s != null && s.owner == old(ip.conns[Text(objv[1])])
    ensures s != null ==>
      fresh(s) && o == Ok(Str(s.name)) && s.name == StmtPrefix + Digits(namer.counter) &&
      s.name !in old(ip.stmts) && ip.stmts == old(ip.stmts)[s.name := s] && |ip.stmts| == |old(ip.stmts)| + 1 &&
      s.owner != null && Text(objv[1]) in ip.conns && s.owner == ip.conns[Text(objv[1])] && s.owner.conn.Some? &&
      s.stmt == None && s.fetchArray == 0 && s.msg == ZeroMsg && RouteOf(s.name) == ToOwner
  {
    s := null;
    if |objv| != 2 {
      o := WrongArgs(objv, OpenUsage);
      return;
    }
    var co := LookupConn(ip, Text(objv[1]), dir, drv);
    if co == null {
      o := ClientFailure("invalid logon handle");
      return;
    }
    s := NewStmt(ip, namer, co);
    HandleNumberOf(StmtPrefix, namer.counter);
    RouteOfGenerated(namer.counter);
    assert s.name !in old(ip.stmts);
    o := Ok(Str(s.name));
  }

  // ---------------------------------------------------------------------
  // oraclose and oraparse
  // ---------------------------------------------------------------------

  /** What a reset releases, in order: the entry's references, the pending variables, the native statement. */
  function Released(e: Option<AsyncEntry>, pend: seq<Ref>, stmt: Option<Ref>): seq<Ref>
  {
    HeldBy(e) + pend + Present(stmt)
  }

  /** Releasing issued objects leaves only issued objects counted. */
  lemma ReleasedStaysIssued(m: map<Ref, int>, rs: seq<Ref>, next: nat)
    requires forall r :: r in m ==> r.id < next
    requires AllIssued(rs, next)
    ensures forall r :: r in ReleasedAll(m, rs) ==> r.id < next
  {
    forall r | r in ReleasedAll(m, rs)
      ensures r.id < next
    {
      ReleasedAllCounts(m, rs, r);
    }
  }

  /** The three parts of an issued list are issued. */
  lemma IssuedParts(a: seq<Ref>, b: seq<Ref>, c: seq<Ref>, next: nat)
    requires AllIssued(a + b + c, next)
    ensures AllIssued(a, next) && AllIssued(b, next) && AllIssued(c, next)
  {
    assert forall k :: 0 <= k < |a| ==> a[k] == (a + b + c)[k];
    assert forall k :: 0 <= k < |b| ==> b[k] == (a + b + c)[|a| + k];
    assert forall k :: 0 <= k < |c| ==> c[k] == (a + b + c)[|a| + |b| + k];
  }

  /** Closing and releasing the native statement, if there is one (dpiStmt_close, dpiStmt_release). */
  method CloseNative(drv: Driver, s: Stmt)
    modifies drv`refs, drv`closed, s`stmt
    ensures s.stmt == None
    ensures drv.closed == old(drv.closed) + Present(old(s.stmt))
    ensures drv.refs == ReleasedAll(old(drv.refs), Present(old(s.stmt)))
    ensures old(drv.Valid()) && AllIssued(Present(old(s.stmt)), drv.next) ==> drv.Valid()
  {
    if s.stmt.Some? {
      var st := s.stmt.value;
      ghost var m := drv.refs;
      drv.Close(st);
      drv.Release(st);
      ReleasedOne(m, st);
      assert Present(old(s.stmt)) == [st];
      s.stmt := None;
    }
  }

  /**
   * Oradpi_StmtWaitForAsync with cancel and no timeout: a break on the
   * entry's session, and the wait always joins, dropping the entry and
   * releasing what it holds.
   */
  method CancelAndJoin(reg: AsyncRegistry, drv: Driver, s: Stmt, run: WorkerRun) returns (ghost prior: Option<AsyncEntry>)
    requires reg.Valid()
    modifies reg`entries, drv`refs, drv`executed, drv`breaks
    ensures reg.Valid() && prior == old(reg.Lookup(s)) && (prior.Some? ==> Settled(prior.value))
    ensures reg.entries == old(reg.entries) - {s}
    ensures drv.breaks == old(drv.breaks) + BreakOf(prior)
    ensures drv.executed == old(drv.executed) + RunOf(prior, run)
    ensures drv.refs == ReleasedAll(old(drv.refs), HeldBy(prior))
    ensures old(drv.Valid()) && AllIssued(HeldBy(prior), drv.next) ==> drv.Valid()
  {
    prior := reg.Lookup(s);
    if prior.Some? {
      NegativeTimeoutCompletes(NoTimeout, if prior.value.running then run.finishAt else 0);
    }
    ghost var r0 := drv.refs;
    var _ := StmtWaitForAsync(reg, drv, s, true, NoTimeout, run);
    if old(drv.Valid()) && AllIssued(HeldBy(prior), drv.next) {
      ReleasedStaysIssued(r0, HeldBy(prior), drv.next);
    }
  }

  /** Oradpi_BindStoreForget and Oradpi_PendingsForget for one statement key. */
  method ForgetKey(ip: Interp, drv: Driver, key: string) returns (ghost pend: seq<Ref>)
    requires PendingsValid(ip)
    modifies ip`binds, ip`pendings, drv`refs, (if key in ip.pendings then {ip.pendings[key]} else {})
    ensures PendingsValid(ip) && pend == old(PendingsOf(ip, key))
    ensures ip.binds == old(ip.binds) - {key} && ip.pendings == old(ip.pendings) - {key}
    ensures drv.refs == ReleasedAll(old(drv.refs), pend)
    ensures old(drv.Valid()) && AllIssued(pend, drv.next) ==> drv.Valid()
  {
    pend := PendingsOf(ip, key);
    BindStoreForget(ip, key);
    PendingsForget(ip, key, drv);
  }

  /**
   * The first two steps of oraclose and oraparse: wait for any
   * asynchronous execution with cancel and no timeout (the wait always
   * joins it), then forget the remembered binds and release the pending
   * variables of the statement's key.
   */
  method JoinAndForget(ip: Interp, reg: AsyncRegistry, drv: Driver, s: Stmt, run: WorkerRun)
    returns (ghost prior: Option<AsyncEntry>, ghost pend: seq<Ref>)
    requires reg.Valid() && PendingsValid(ip) && drv.Valid()
    requires AllIssued(HeldBy(reg.Lookup(s)), drv.next) && AllIssued(PendingsOf(ip, s.name), drv.next)
    modifies reg`entries, drv`refs, drv`executed, drv`breaks, ip`binds, ip`pendings,
      (if s.name in ip.pendings then {ip.pendings[s.name]} else {})
    ensures reg.Valid() && PendingsValid(ip) && drv.Valid()
    ensures prior == old(reg.Lookup(s)) && (prior.Some? ==> Settled(prior.value)) && pend == old(PendingsOf(ip, s.name))
    ensures reg.entries == old(reg.entries) - {s}
    ensures drv.breaks == old(drv.breaks) + BreakOf(prior)
    ensures drv.executed == old(drv.executed) + RunOf(prior, run)
    ensures drv.refs == ReleasedAll(old(drv.refs), HeldBy(prior) + pend)
    ensures ip.binds == old(ip.binds) - {s.name} && ip.pendings == old(ip.pendings) - {s.name}
  {
    ghost var r0 := drv.refs;
    ghost var pend0 := PendingsOf(ip, s.name);
    prior := CancelAndJoin(reg, drv, s, run);
    assert PendingsOf(ip, s.name) == pend0;
    pend := ForgetKey(ip, drv, s.name);
    ReleasedAllAppend(r0, HeldBy(prior), pend);
  }

  /**
   * What oraclose and oraparse do first: JoinAndForget, then close and
   * release the statement's native statement.  The handle stays
   * registered.
   */
  method Reset(ip: Interp, reg: AsyncRegistry, drv: Driver, s: Stmt, run: WorkerRun, ghost pend: seq<Ref>)
    returns (ghost prior: Option<AsyncEntry>)
    requires reg.Valid() && PendingsValid(ip) && drv.Valid() && pend == PendingsOf(ip, s.name)
    requires AllIssued(Released(reg.Lookup(s), pend, s.stmt), drv.next)
    modifies reg`entries, drv`refs, drv`executed, drv`breaks, drv`closed, s`stmt, ip`binds, ip`pendings,
      (if s.name in ip.pendings then {ip.pendings[s.name]} else {})
    ensures reg.Valid() && PendingsValid(ip) && s.stmt == None
    ensures prior == old(reg.Lookup(s)) && (prior.Some? ==> Settled(prior.value))
    ensures reg.entries == old(reg.entries) - {s}
    ensures drv.breaks == old(drv.breaks) + BreakOf(prior)
    ensures drv.executed == old(drv.executed) + RunOf(prior, run)
    ensures drv.closed == old(drv.closed) + Present(old(s.stmt))
    ensures drv.refs == ReleasedAll(old(drv.refs), Released(prior, pend, old(s.stmt)))
    ensures ip.binds == old(ip.binds) - {s.name} && ip.pendings == old(ip.pendings) - {s.name}
    ensures drv.Valid() && drv.next == old(drv.next)
  {
    ghost var stmt := s.stmt;
    ghost var r0 := drv.refs;
    IssuedParts(HeldBy(reg.Lookup(s)), pend, Present(stmt), drv.next);
    ghost var pend';
    prior, pend' := JoinAndForget(ip, reg, drv, s, run);
    CloseNative(drv, s);
    ReleasedAllAppend(r0, HeldBy(prior) + pend, Present(stmt));
  }

  /**
   * Oradpi_Cmd_Close: wait for any asynchronous execution of the
   * statement with cancel and no timeout, forget its remembered binds and
   * pending variables, close and release its native statement, answer 0.
   * The handle stays registered.
   */
  method Oraclose(ip: Interp, reg: AsyncRegistry, drv: Driver, objv: seq<Value>, run: WorkerRun)
    returns (o: Outcome, ghost found: Option<Stmt>, ghost prior: Option<AsyncEntry>, ghost pend: seq<Ref>)
    requires |objv| >= 1 && reg.Valid() && PendingsValid(ip) && drv.Valid()
    requires |objv| == 2 && Text(objv[1]) in ip.stmts ==>
      var s := ip.stmts[Text(objv[1])];
      AllIssued(Released(reg.Lookup(s), PendingsOf(ip, s.name), s.stmt), drv.next)
    modifies reg`entries, drv`refs, drv`executed, drv`breaks, drv`closed, NamedStmt(ip, objv)`stmt, ip`binds, ip`pendings,
      NamedStmtList(ip, objv)
    ensures reg.Valid() && PendingsValid(ip) && drv.Valid() && ip.stmts == old(ip.stmts)
    ensures |objv| != 2 ==> o == WrongArgs(objv, CloseUsage) && found == None
    ensures |objv| == 2 && Text(objv[1]) !in ip.stmts ==> o == ClientFailure("invalid statement handle") && found == None
    ensures found == None ==>
      reg.entries == old(reg.entries) && drv.refs == old(drv.refs) && drv.closed == old(drv.closed) &&
      drv.executed == old(drv.executed) && drv.breaks == old(drv.breaks) &&
      ip.binds == old(ip.binds) && ip.pendings == old(ip.pendings)
    ensures |objv| == 2 && Text(objv[1]) in ip.stmts ==> found == Some(ip.stmts[Text(objv[1])])
    ensures found.Some? ==>
      var s := found.value;
      o == Ok(Int(0)) && s.stmt == None && prior == old(reg.Lookup(s)) && pend == old(PendingsOf(ip, s.name)) &&
      reg.entries == old(reg.entries) - {s} && drv.breaks == old(drv.breaks) + BreakOf(prior) &&
      drv.executed == old(drv.executed) + RunOf(prior, run) && drv.closed == old(drv.closed) + Present(old(s.stmt)) &&
      drv.refs == ReleasedAll(old(drv.refs), Released(prior, pend, old(s.stmt))) &&
      ip.binds == old(ip.binds) - {s.name} && ip.pendings == old(ip.pendings) - {s.name}
  {
    found, prior, pend := None, None, [];
    if |objv| != 2 {
      o := WrongArgs(objv, CloseUsage);
      return;
    }
    var s := LookupStmt(ip, Text(objv[1]));
    if s == null {
      o := ClientFailure("invalid statement handle");
      return;
    }
    found := Some(s);
    assert s in ip.stmts.Values && (s.name in ip.pendings ==> ip.pendings[s.name] in ip.pendings.Values);
    pend := PendingsOf(ip, s.name);
    prior := Reset(ip, reg, drv, s, run, pend);
    o := Ok(Int(0));
  }

  /** The timeout oraclose and oraparse pass to their wait (generic/cmd_stmt.c:337, 368), commented "no timeout". */
  const ResetTimeoutAsWritten: int := 0

  /** Whether a wait with timeout 0 abandons the entry: it is still running and its worker has not finished at the first poll. */
  predicate Abandoned(prior: Option<AsyncEntry>, run: WorkerRun)
  {
    prior.Some? && prior.value.running && run.finishAt > 0
  }

  /**
   * The cancelling wait of oraclose and oraparse as written, with timeout
   * 0: an abandoned entry stays registered, marked cancelled, and nothing
   * is released; otherwise the wait joins, as in CancelAndJoin.
   */
  method WaitAsWritten(reg: AsyncRegistry, drv: Driver, s: Stmt, run: WorkerRun) returns (ghost prior: Option<AsyncEntry>)
    requires reg.Valid()
    modifies reg`entries, drv`refs, drv`executed, drv`breaks
    ensures reg.Valid() && prior == old(reg.Lookup(s))
    ensures drv.breaks == old(drv.breaks) + BreakOf(prior)
    ensures Abandoned(prior, run) ==>
      reg.entries == old(reg.entries)[s := prior.value.(canceled := true)] &&
      drv.executed == old(drv.executed) && drv.refs == old(drv.refs)
    ensures !Abandoned(prior, run) ==>
      reg.entries == old(reg.entries) - {s} &&
      drv.executed == old(drv.executed) + RunOf(prior, run) &&
      drv.refs == ReleasedAll(old(drv.refs), HeldBy(prior))
    ensures old(drv.Valid()) && AllIssued(HeldBy(prior), drv.next) ==> drv.Valid()
  {
    prior := reg.Lookup(s);
    if Abandoned(prior, run) {
      ZeroTimeoutAbandons(run.finishAt);
    } else if prior.Some? {
      assert PollSpec(ResetTimeoutAsWritten, if prior.value.running then run.finishAt else 0).Completed?;
    }
    ghost var r0 := drv.refs;
    var _ := StmtWaitForAsync(reg, drv, s, true, ResetTimeoutAsWritten, run);
    if old(drv.Valid()) && AllIssued(HeldBy(prior), drv.next) && !Abandoned(prior, run) {
      ReleasedStaysIssued(r0, HeldBy(prior), drv.next);
    }
  }

  /**
   * Reset as the code writes it: the cancelling wait is given timeout 0.
   * A worker still running at the first poll is abandoned: its entry stays
   * registered and running with the references it holds, while the binds
   * and pending variables are forgotten and the native statement is closed
   * and released under it.  Otherwise the wait joins, as in Reset.
   */
  method ResetAsWritten(ip: Interp, reg: AsyncRegistry, drv: Driver, s: Stmt, run: WorkerRun, ghost pend: seq<Ref>)
    returns (ghost prior: Option<AsyncEntry>)
    requires reg.Valid() && PendingsValid(ip) && drv.Valid() && pend == PendingsOf(ip, s.name)
    requires AllIssued(Released(reg.Lookup(s), pend, s.stmt), drv.next)
    modifies reg`entries, drv`refs, drv`executed, drv`breaks, drv`closed, s`stmt, ip`binds, ip`pendings,
      (if s.name in ip.pendings then {ip.pendings[s.name]} else {})
    ensures reg.Valid() && PendingsValid(ip) && s.stmt == None
    ensures prior == old(reg.Lookup(s))
    ensures drv.breaks == old(drv.breaks) + BreakOf(prior)
    ensures drv.closed == old(drv.closed) + Present(old(s.stmt))
    ensures ip.binds == old(ip.binds) - {s.name} && ip.pendings == old(ip.pendings) - {s.name}
    ensures Abandoned(prior, run) ==>
      reg.entries == old(reg.entries)[s := prior.value.(canceled := true)] && drv.executed == old(drv.executed) &&
      drv.refs == ReleasedAll(old(drv.refs), pend + Present(old(s.stmt)))
    ensures !Abandoned(prior, run) ==>
      reg.entries == old(reg.entries) - {s} &&
      drv.executed == old(drv.executed) + RunOf(prior, run) &&
      drv.refs == ReleasedAll(old(drv.refs), Released(prior, pend, old(s.stmt)))
  {
    ghost var stmt := s.stmt;
    ghost var r0 := drv.refs;
    IssuedParts(HeldBy(reg.Lookup(s)), pend, Present(stmt), drv.next);
    prior := WaitAsWritten(reg, drv, s, run);
    assert PendingsOf(ip, s.name) == pend;
    ghost var r1 := drv.refs;
    ForgetAndClose(ip, drv, s, pend);
    AsWrittenRefs(r0, r1, drv.refs, prior, run, pend, stmt);
  }

  /** The references ResetAsWritten releases, from what its two steps release. */
  lemma AsWrittenRefs(r0: map<Ref, int>, r1: map<Ref, int>, r2: map<Ref, int>, prior: Option<AsyncEntry>, run: WorkerRun,
                      pend: seq<Ref>, stmt: Option<Ref>)
    requires Abandoned(prior, run) ==> r1 == r0
    requires !Abandoned(prior, run) ==> r1 == ReleasedAll(r0, HeldBy(prior))
    requires r2 == ReleasedAll(r1, pend + Present(stmt))
    ensures Abandoned(prior, run) ==> r2 == ReleasedAll(r0, pend + Present(stmt))
    ensures !Abandoned(prior, run) ==> r2 == ReleasedAll(r0, Released(prior, pend, stmt))
  {
    if !Abandoned(prior, run) {
      ReleasedAllAppend(r0, HeldBy(prior), pend + Present(stmt));
      assert Released(prior, pend, stmt) == HeldBy(prior) + (pend + Present(stmt));
    }
  }

  /** The steps after the wait: forget the statement's binds and pending variables, close and release the native statement. */
  method ForgetAndClose(ip: Interp, drv: Driver, s: Stmt, ghost pend: seq<Ref>)
    requires PendingsValid(ip) && drv.Valid() && pend == PendingsOf(ip, s.name)
    requires AllIssued(pend, drv.next) && AllIssued(Present(s.stmt), drv.next)
    modifies drv`refs, drv`closed, s`stmt, ip`binds, ip`pendings, (if s.name in ip.pendings then {ip.pendings[s.name]} else {})
    ensures PendingsValid(ip) && drv.Valid() && s.stmt == None
    ensures drv.closed == old(drv.closed) + Present(old(s.stmt))
    ensures drv.refs == ReleasedAll(old(drv.refs), pend + Present(old(s.stmt)))
    ensures ip.binds == old(ip.binds) - {s.name} && ip.pendings == old(ip.pendings) - {s.name}
  {
    ghost var stmt := s.stmt;
    ghost var r1 := drv.refs;
    var _ := ForgetKey(ip, drv, s.name);
    CloseNative(drv, s);
    ReleasedAllAppend(r1, pend, Present(stmt));
  }

  /**
   * Oradpi_Cmd_Close as the code writes it: ResetAsWritten on the named
   * statement, answer 0.  A statement whose worker is still running keeps
   * its registered entry and the references it holds after oraclose.
   */
  method OracloseAsWritten(ip: Interp, reg: AsyncRegistry, drv: Driver, objv: seq<Value>, run: WorkerRun)
    returns (o: Outcome, ghost found: Option<Stmt>, ghost prior: Option<AsyncEntry>)
    requires |objv| >= 1 && reg.Valid() && PendingsValid(ip) && drv.Valid()
    requires |objv| == 2 && Text(objv[1]) in ip.stmts ==>
      var s := ip.stmts[Text(objv[1])];
      AllIssued(Released(reg.Lookup(s), PendingsOf(ip, s.name), s.stmt), drv.next)
    modifies reg`entries, drv`refs, drv`executed, drv`breaks, drv`closed, NamedStmt(ip, objv)`stmt, ip`binds, ip`pendings,
      NamedStmtList(ip, objv)
    ensures reg.Valid() && PendingsValid(ip) && ip.stmts == old(ip.stmts)
    ensures |objv| != 2 ==> o == WrongArgs(objv, CloseUsage) && found == None
    ensures |objv| == 2 && Text(objv[1]) !in ip.stmts ==> o == ClientFailure("invalid statement handle") && found == None
    ensures found == None ==>
      reg.entries == old(reg.entries) && drv.refs == old(drv.refs) && drv.closed == old(drv.closed) &&
      drv.executed == old(drv.executed) && drv.breaks == old(drv.breaks) &&
      ip.binds == old(ip.binds) && ip.pendings == old(ip.pendings)
    ensures |objv| == 2 && Text(objv[1]) in ip.stmts ==> found == Some(ip.stmts[Text(objv[1])])
    ensures found.Some? ==>
      var s := found.value;
      o == Ok(Int(0)) && s.stmt == None && prior == old(reg.Lookup(s)) &&
      drv.closed == old(drv.closed) + Present(old(s.stmt)) &&
      (Abandoned(prior, run) ==>
        reg.Lookup(s).Some? && reg.Lookup(s).value.running && Held(reg.Lookup(s).value) == Held(prior.value))
  {
    found, prior := None, None;
    if |objv| != 2 {
      o := WrongArgs(objv, CloseUsage);
      return;
    }
    var s := LookupStmt(ip, Text(objv[1]));
    if s == null {
      o := ClientFailure("invalid statement handle");
      return;
    }
    found := Some(s);
    assert s in ip.stmts.Values && (s.name in ip.pendings ==> ip.pendings[s.name] in ip.pendings.Values);
    prior := ResetAsWritten(ip, reg, drv, s, run, PendingsOf(ip, s.name));
    o := Ok(Int(0));
  }

  /**
   * What the driver answers oraparse once the statement is prepared:
   * dpiStmt_getInfo (also asked inside Oradpi_UpdateStmtType, answering
   * the same), dpiStmt_getBindCount, and dpiStmt_execute's refusal if any.
   */
  datatype ParseAnswers = ParseAnswers(info: Reply<StmtInfo>, bindCount: Reply<nat>, execute: Option<ErrorInfo>)

  /** Whether oraparse executes the prepared statement: only a query with no placeholders. */
  predicate ParseExecutes(ans: ParseAnswers)
  {
    ans.info.Done? && ans.info.value.isQuery && ans.bindCount.Done? && ans.bindCount.value == 0
  }

  /**
   * The first driver call after the prepare that oraparse reports as
   * failed, with the call's name; None when every call it makes succeeds.
   */
  function ParseFailure(ans: ParseAnswers): (f: Option<(ErrorInfo, string)>)
    ensures f.None? <==>
      ans.info.Done? && (ans.info.value.isQuery ==> ans.bindCount.Done? && (ans.bindCount.value == 0 ==> ans.execute.None?))
    ensures f.Some? ==> f.value.1 in {"dpiStmt_getInfo", "dpiStmt_getBindCount", "dpiStmt_execute"}
    ensures f.Some? && f.value.1 == "dpiStmt_execute" <==> ParseExecutes(ans) && ans.execute.Some?
  {
    if ans.info.Failed? then Some((ans.info.err, "dpiStmt_getInfo"))
    else if !ans.info.value.isQuery then None
    else if ans.bindCount.Failed? then Some((ans.bindCount.err, "dpiStmt_getBindCount"))
    else if ans.bindCount.value == 0 && ans.execute.Some? then Some((ans.execute.value, "dpiStmt_execute"))
    else None
  }

  /** The status block once Oradpi_UpdateStmtType has run on a prepared statement. */
  function Typed(m: Msg, ans: ParseAnswers): (r: Msg)
    ensures ans.info.Done? ==> r.sqltype == StmtType(ans.info.value) && r.(sqltype := m.sqltype) == m
    ensures ans.info.Failed? ==> r == m
  {
    if ans.info.Done? then m.(sqltype := StmtType(ans.info.value)) else m
  }

  /** The statement's status block, the owner's and the result after a successful prepare. */
  function ParseEnd(sm: Msg, om: Msg, ans: ParseAnswers): (Msg, Msg, Outcome)
  {
    var f := ParseFailure(ans);
    if f.None? then (Typed(sm, ans), om, Ok(Int(0)))
    else (DriverMsg(Typed(sm, ans), f.value.0, f.value.1), DriverMsg(om, f.value.0, f.value.1), DriverFailure(f.value.0, f.value.1))
  }

  /** The execution oraparse requests: the new statement once, default mode, when it is a query without placeholders. */
  function ParseRuns(r: Ref, ans: ParseAnswers): (e: seq<Execution>)
    ensures |e| <= 1 && (|e| == 1 <==> ParseExecutes(ans))
    ensures forall k :: 0 <= k < |e| ==> e[k] == Execution(r, 1, false, false)
  {
    if ParseExecutes(ans) then [Execution(r, 1, false, false)] else []
  }

  /**
   * oraparse's answer is 0 exactly when every call after the prepare
   * succeeds; a failure is reported as the driver's error, named by the
   * call, on the statement and on its owner alike.
   */
  lemma ParseReportsBothHandles(sm: Msg, om: Msg, ans: ParseAnswers)
    ensures ParseEnd(sm, om, ans).2 == Ok(Int(0)) <==> ParseFailure(ans).None?
    ensures ParseEnd(sm, om, ans).2.Error? ==>
      var f := ParseFailure(ans).value;
      ParseEnd(sm, om, ans).0.rc == f.0.code && ParseEnd(sm, om, ans).1.rc == f.0.code &&
      ParseEnd(sm, om, ans).0.fn == Some(f.1) && ParseEnd(sm, om, ans).1.fn == Some(f.1) &&
      ParseEnd(sm, om, ans).2.errorCode == ["ORATCL", "ODPI", f.1]
    ensures ParseEnd(sm, om, ans).0.rows == sm.rows && ParseEnd(sm, om, ans).1.rows == om.rows
  {
  }

  /** A prepared query with no placeholders that runs without error answers 0, typed as a query. */
  lemma ParseRunsBindlessQuery(sm: Msg, om: Msg, ans: ParseAnswers)
    requires ParseExecutes(ans) && ans.execute.None?
    ensures ParseEnd(sm, om, ans) == (sm.(sqltype := 1), om, Ok(Int(0)))
  {
  }

  /** A refused dpiConn_prepareStmt: the error is recorded on the statement and on its owner. */
  method ParseRefused(s: Stmt, ei: ErrorInfo) returns (o: Outcome)
    requires s.owner != null
    modifies s`msg, s.owner`msg, QueueOf(s.owner)
    ensures o == DriverFailure(ei, "dpiConn_prepareStmt")
    ensures s.msg == DriverMsg(old(s.msg), ei, "dpiConn_prepareStmt")
    ensures s.owner.msg == DriverMsg(old(s.owner.msg), ei, "dpiConn_prepareStmt")
  {
    var co := s.owner;
    var _ := SetErrorFromODPI(StmtH(s), ei, "dpiConn_prepareStmt");
    o := SetErrorFromODPI(ConnH(co), ei, "dpiConn_prepareStmt");
  }

  /**
   * oraparse after the reset, on a statement with no native statement:
   * prepare sql on the owner's connection and, when that succeeds, set the
   * statement's type, then for a query without placeholders execute it.
   * Each failure is recorded on the statement and on its owner.
   */
  method ParseRun(s: Stmt, drv: Driver, sql: string, prepErr: Option<ErrorInfo>, ans: ParseAnswers)
    returns (o: Outcome, err: Option<ErrorInfo>)
    requires s.owner != null && s.stmt == None && drv.Valid()
    modifies s`stmt, s`msg, s.owner`msg, drv`refs, drv`next, drv`prepared, drv`executed, QueueOf(s.owner)
    ensures drv.Valid() && s.owner == old(s.owner)
    ensures err == ExecCmd.PrepareReply(old(s.owner.conn), prepErr)
    ensures err.Some? ==>
      o == DriverFailure(err.value, "dpiConn_prepareStmt") && s.stmt == None &&
      s.msg == DriverMsg(old(s.msg), err.value, "dpiConn_prepareStmt") &&
      s.owner.msg == DriverMsg(old(s.owner.msg), err.value, "dpiConn_prepareStmt") &&
      drv.refs == old(drv.refs) && drv.next == old(drv.next) && drv.prepared == old(drv.prepared) &&
      drv.executed == old(drv.executed)
    ensures err.None? ==>
      s.stmt == Some(Ref(StmtKind, old(drv.next))) && drv.next == old(drv.next) + 1 &&
      drv.refs == old(drv.refs)[s.stmt.value := 1] && drv.prepared == old(drv.prepared)[s.stmt.value := sql] &&
      drv.executed == old(drv.executed) + ParseRuns(s.stmt.value, ans) &&
      (s.msg, s.owner.msg, o) == ParseEnd(old(s.msg), old(s.owner.msg), ans)
  {
    err := ExecCmd.PrepareReply(s.owner.conn, prepErr);
    if err.Some? {
      o := ParseRefused(s, err.value);
      return;
    }
    var r := drv.Prepare(sql);
    s.stmt := Some(r);
    o := ParsePrepared(s, s.owner, drv, ans);
  }

  /**
   * oraparse once the statement is prepared: Oradpi_UpdateStmtType,
   * dpiStmt_getInfo, and for a query dpiStmt_getBindCount and, without
   * placeholders, dpiStmt_execute; the first failure is recorded on the
   * statement and on its owner.
   */
  method ParsePrepared(s: Stmt, co: Conn, drv: Driver, ans: ParseAnswers) returns (o: Outcome)
    requires s.owner == co && s.stmt.Some?
    modifies s`msg, co`msg, drv`executed, QueueOf(co)
    ensures drv.executed == old(drv.executed) + ParseRuns(s.stmt.value, ans)
    ensures (s.msg, co.msg, o) == ParseEnd(old(s.msg), old(co.msg), ans)
  {
    UpdateStmtType(s, if ans.info.Done? then Some(ans.info.value) else None);
    var f := ParseFailure(ans);
    if ParseExecutes(ans) {
      drv.Execute(Execution(s.stmt.value, 1, false, false));
    }
    if f.None? {
      o := Ok(Int(0));
    } else {
      var _ := SetErrorFromODPI(StmtH(s), f.value.0, f.value.1);
      o := SetErrorFromODPI(ConnH(co), f.value.0, f.value.1);
    }
  }

  /**
   * What oraparse does to the statement s it found, owned by co: the reset
   * oraclose makes (the entry joined and dropped, binds and pending
   * variables forgotten, the native statement closed and released), then
   * sql prepared on co's session.  A refused prepare is recorded on both
   * handles; otherwise the new statement holds one reference and the rest
   * is ParseEnd's.
   */
  twostate predicate ParseEffect(ip: Interp, reg: AsyncRegistry, drv: Driver, s: Stmt, co: Conn, sql: string,
                                 run: WorkerRun, prepErr: Option<ErrorInfo>, ans: ParseAnswers, pend: seq<Ref>,
                                 new err: Option<ErrorInfo>, new prior: Option<AsyncEntry>, o: Outcome)
    reads ip, reg, drv, s, co
  {
    prior == old(reg.Lookup(s)) && reg.entries == old(reg.entries) - {s} &&
    drv.breaks == old(drv.breaks) + BreakOf(prior) && drv.closed == old(drv.closed) + Present(old(s.stmt)) &&
    ip.binds == old(ip.binds) - {s.name} && ip.pendings == old(ip.pendings) - {s.name} &&
    err == ExecCmd.PrepareReply(old(co.conn), prepErr) &&
    if err.Some? then
      o == DriverFailure(err.value, "dpiConn_prepareStmt") && s.stmt == None &&
      s.msg == DriverMsg(old(s.msg), err.value, "dpiConn_prepareStmt") &&
      co.msg == DriverMsg(old(co.msg), err.value, "dpiConn_prepareStmt") &&
      drv.refs == ReleasedAll(old(drv.refs), Released(prior, pend, old(s.stmt))) &&
      drv.executed == old(drv.executed) + RunOf(prior, run) && drv.prepared == old(drv.prepared)
    else
      s.stmt == Some(Ref(StmtKind, old(drv.next))) && drv.prepared == old(drv.prepared)[s.stmt.value := sql] &&
      drv.refs == ReleasedAll(old(drv.refs), Released(prior, pend, old(s.stmt)))[s.stmt.value := 1] &&
      drv.executed == old(drv.executed) + RunOf(prior, run) + ParseRuns(s.stmt.value, ans) &&
      (s.msg, co.msg, o) == ParseEnd(old(s.msg), old(co.msg), ans)
  }

  /**
   * oraparse on the statement s it found: the reset oraclose makes, then
   * sql prepared and, for a query without placeholders, executed
   * (ParseRun).
   */
  method ParseStmt(ip: Interp, reg: AsyncRegistry, drv: Driver, s: Stmt, co: Conn, sql: string, run: WorkerRun,
                   prepErr: Option<ErrorInfo>, ans: ParseAnswers, ghost pend: seq<Ref>)
    returns (o: Outcome, ghost err: Option<ErrorInfo>, ghost prior: Option<AsyncEntry>)
    requires reg.Valid() && PendingsValid(ip) && drv.Valid() && s.owner == co && pend == PendingsOf(ip, s.name)
    requires AllIssued(Released(reg.Lookup(s), pend, s.stmt), drv.next)
    modifies reg`entries, drv`refs, drv`next, drv`prepared, drv`executed, drv`breaks, drv`closed,
      s`stmt, s`msg, co`msg, QueueOf(co), ip`binds, ip`pendings, ListOf(ip, s.name)
    ensures reg.Valid() && PendingsValid(ip)
    ensures ParseEffect(ip, reg, drv, s, co, sql, run, prepErr, ans, pend, err, prior, o)
  {
    ghost var m0, om0, conn0 := s.msg, co.msg, co.conn;
    prior := Reset(ip, reg, drv, s, run, pend);
    assert s.owner == co && s.msg == m0 && co.msg == om0 && co.conn == conn0;
    o, err := ParseRun(s, drv, sql, prepErr, ans);
  }

  /**
   * Oradpi_Cmd_Parse: the statement named is reset, then the new SQL text
   * is prepared and, for a query without placeholders, executed
   * (ParseStmt).  The handle stays registered.
   */
  method Oraparse(ip: Interp, reg: AsyncRegistry, drv: Driver, objv: seq<Value>, run: WorkerRun,
                  prepErr: Option<ErrorInfo>, ans: ParseAnswers)
    returns (o: Outcome, ghost found: Option<Stmt>, ghost err: Option<ErrorInfo>,
             ghost prior: Option<AsyncEntry>, ghost pend: seq<Ref>)
    requires |objv| >= 1 && reg.Valid() && PendingsValid(ip) && drv.Valid()
    requires |objv| == 3 && Text(objv[1]) in ip.stmts ==>
      var s := ip.stmts[Text(objv[1])];
      s.owner != null && AllIssued(Released(reg.Lookup(s), PendingsOf(ip, s.name), s.stmt), drv.next)
    modifies reg`entries, drv`refs, drv`next, drv`prepared, drv`executed, drv`breaks, drv`closed,
      NamedStmt(ip, objv)`stmt, NamedStmt(ip, objv)`msg, ip`binds, ip`pendings, NamedStmtList(ip, objv)
    modifies NamedOwner(ip, objv)`msg, NamedOwnerQueue(ip, objv)
    ensures reg.Valid() && PendingsValid(ip) && ip.stmts == old(ip.stmts)
    ensures |objv| != 3 ==> o == WrongArgs(objv, ParseUsage) && found == None
    ensures |objv| == 3 && Text(objv[1]) !in ip.stmts ==> o == ClientFailure("invalid statement handle") && found == None
    ensures found == None ==>
      reg.entries == old(reg.entries) && drv.refs == old(drv.refs) && drv.closed == old(drv.closed) &&
      drv.executed == old(drv.executed) && drv.breaks == old(drv.breaks) && drv.prepared == old(drv.prepared) &&
      ip.binds == old(ip.binds) && ip.pendings == old(ip.pendings)
    ensures |objv| == 3 && Text(objv[1]) in ip.stmts ==> found == Some(ip.stmts[Text(objv[1])])
    ensures found.Some? ==>
      var s := found.value;
      s.owner != null && pend == old(PendingsOf(ip, s.name)) &&
      ParseEffect(ip, reg, drv, s, s.owner, Text(objv[2]), run, prepErr, ans, pend, err, prior, o)
  {
    found, err, prior, pend := None, None, None, [];
    if |objv| != 3 {
      o := WrongArgs(objv, ParseUsage);
      return;
    }
    var s := LookupStmt(ip, Text(objv[1]));
    if s == null {
      o := ClientFailure("invalid statement handle");
      return;
    }
    found := Some(s);
    pend := PendingsOf(ip, s.name);
    var co := s.owner;
    o, err, prior := ParseStmt(ip, reg, drv, s, co, Text(objv[2]), run, prepErr, ans, pend);
    assert s.owner == co;
  }
}
