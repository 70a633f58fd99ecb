/**
 * The records of state.h: the status block every handle carries, the
 * connection, statement and LOB handles, and the per-interpreter state
 * (handle tables plus the bind store, pending variables, variables and
 * evaluated scripts the commands touch).  A thread's Tcl event queue is
 * an EventQueue.
 */
module Handles {
  import opened Wrappers
  import opened Tcl
  import opened Native
  import opened Pending

  /** DPI_DEFAULT_FETCH_ARRAY_SIZE */
  const DefaultFetchArraySize: nat := 100
  /** DPI_DEFAULT_PREFETCH_ROWS (defined by the ODPI-C header, not part of this model) */
  const DefaultPrefetchRows: nat := 2

  /** OradpiMsg: the status block; absent Tcl_Obj fields are None. */
  datatype Msg = Msg(
    rc: int,
    fn: Option<string>,
    sqlstate: Option<string>,
    action: Option<string>,
    error: Option<string>,
    rows: nat,
    sqltype: int,
    peo: nat,
    ocicode: int,
    recoverable: bool,
    warning: bool,
    offset: nat)

  /** The status block of a freshly zeroed handle. */
  const ZeroMsg: Msg := Msg(0, None, None, None, None, 0, 0, 0, 0, false, false, 0)

  /** OradpiFailoverEvent: queued to the owner thread, handled in the owner interpreter. */
  datatype Event = FailoverEvent(ip: Interp, ldaName: string, message: string)

  /** The event queue of a thread (the target of Tcl_ThreadQueueEvent). */
  class EventQueue {
    var queued: seq<Event>

    constructor ()
      ensures queued == []
    {
      queued := [];
    }
  }

  /** Tcl_NewDoubleObj(0.0) */
  const ZeroDouble: Value := Dbl("0.0")

  /** OradpiConn */
  class Conn {
    const name: string
    var msg: Msg
    var conn: Option<Ref>
    var pool: Option<Ref>
    var autocommit: bool
    var stmtCacheSize: nat
    var fetchArraySize: nat
    var prefetchRows: nat
    var prefetchMemory: nat
    var callTimeout: nat
    var inlineLobs: bool
    var foMaxAttempts: nat
    var foBackoffMs: nat
    /** foBackoffFactor: a double, kept as the word it was set from (floating point is not modelled). */
    var foBackoffFactor: Value
    var foErrorClasses: bv32
    var foDebounceMs: nat
    var failoverCallback: Option<Value>
    var ownerIp: Interp?
    var ownerTid: EventQueue?
    /** foTimer: the armed debounce timer, given by its delay in milliseconds. */
    var foTimer: Option<nat>
    var foTimerScheduled: bool
    var foPendingMsg: Option<string>
    const ownerClose: bool

    /**
     * Tcl_Alloc + memset(0), then the default configuration Oradpi_NewConn
     * and Oradpi_AdoptConn both write: no autocommit, the default fetch array
     * size and prefetch row count, the statement cache size and call timeout
     * given, everything else zero.
     */
    constructor Defaults(name: string, conn: Option<Ref>, pool: Option<Ref>, ownerClose: bool, cacheSize: nat, timeout: nat)
      ensures this.name == name && msg == ZeroMsg && this.ownerClose == ownerClose
      ensures this.conn == conn && this.pool == pool && !autocommit
      ensures stmtCacheSize == cacheSize && fetchArraySize == DefaultFetchArraySize && prefetchRows == DefaultPrefetchRows
      ensures prefetchMemory == 0 && callTimeout == timeout && !inlineLobs
      ensures foMaxAttempts == 0 && foBackoffMs == 0 && foBackoffFactor == ZeroDouble && foErrorClasses == 0 && foDebounceMs == 0
      ensures failoverCallback == None && ownerIp == null && ownerTid == null
      ensures foTimer == None && !foTimerScheduled && foPendingMsg == None
    {
      this.name := name;
      msg := ZeroMsg;
      this.conn, this.pool, autocommit := conn, pool, false;
      stmtCacheSize, fetchArraySize, prefetchRows := cacheSize, DefaultFetchArraySize, DefaultPrefetchRows;
      prefetchMemory, callTimeout, inlineLobs := 0, timeout, false;
      foMaxAttempts, foBackoffMs, foBackoffFactor, foErrorClasses, foDebounceMs := 0, 0, ZeroDouble, 0, 0;
      failoverCallback, ownerIp, ownerTid := None, null, null;
      foTimer, foTimerScheduled, foPendingMsg, this.ownerClose := None, false, None, ownerClose;
    }
  }

  /** OradpiStmt */
  class Stmt {
    const name: string
    var msg: Msg
    var owner: Conn?
    var stmt: Option<Ref>
    var fetchArray: nat

    constructor Zeroed(name: string)
      ensures this.name == name && msg == ZeroMsg && owner == null && stmt == None && fetchArray == 0
    {
      this.name := name;
      msg := ZeroMsg;
      owner, stmt, fetchArray := null, None, 0;
    }
  }

  /** OradpiLob */
  class Lob {
    const name: string
    var msg: Msg
    var lob: Option<Ref>

    constructor Zeroed(name: string)
      ensures this.name == name && msg == ZeroMsg && lob == None
    {
      this.name := name;
      msg := ZeroMsg;
      lob := None;
    }
  }

  /** OradpiBase*: any handle whose status block a command may write. */
  datatype Handle = ConnH(c: Conn) | StmtH(s: Stmt) | LobH(l: Lob)
  {
    function Name(): string
      reads Conns(), Stmts(), Lobs()
    {
      match this
      case ConnH(c) => c.name
      case StmtH(s) => s.name
      case LobH(l) => l.name
    }

    function Status(): Msg
      reads Conns(), Stmts(), Lobs()
    {
      match this
      case ConnH(c) => c.msg
      case StmtH(s) => s.msg
      case LobH(l) => l.msg
    }

    /** The handle as a set of each kind, for field frames. */
    function Conns(): set<Conn> { if ConnH? then {c} else {} }
    function Stmts(): set<Stmt> { if StmtH? then {s} else {} }
    function Lobs(): set<Lob> { if LobH? then {l} else {} }
  }

  /** The statement handle a command's second word names, when the table holds it. */
  function NamedStmt(ip: Interp, objv: seq<Value>): set<Stmt>
    reads ip
  {
    if |objv| >= 2 && Text(objv[1]) in ip.stmts then {ip.stmts[Text(objv[1])]} else {}
  }

  /** That statement's owner connection, when it has one. */
  function NamedOwner(ip: Interp, objv: seq<Value>): set<Conn>
    reads ip, NamedStmt(ip, objv)
  {
    if |objv| >= 2 && Text(objv[1]) in ip.stmts && ip.stmts[Text(objv[1])].owner != null then {ip.stmts[Text(objv[1])].owner} else {}
  }

  /** The connection handle a command's second word names, when the table holds it. */
  function NamedConn(ip: Interp, objv: seq<Value>): set<Conn>
    reads ip
  {
    if |objv| >= 2 && Text(objv[1]) in ip.conns then {ip.conns[Text(objv[1])]} else {}
  }

  /**
   * A Tcl interpreter with the extension's per-interpreter state: the
   * handle tables of OradpiInterpState, the bind store and pending-variable
   * map of cmd_bind.c, the Tcl variables the commands set, and the scripts
   * evaluated in it on the extension's behalf.
   */
  class Interp {
    var deleted: bool
    var conns: map<string, Conn>
    var stmts: map<string, Stmt>
    var lobs: map<string, Lob>
    var binds: map<string, map<string, Value>>
    var pendings: map<string, PendingRefs>
    var vars: map<string, Value>
    var evals: seq<Value>

    constructor ()
      ensures !deleted && conns == map[] && stmts == map[] && lobs == map[]
      ensures binds == map[] && pendings == map[] && vars == map[] && evals == []
    {
      deleted := false;
      conns, stmts, lobs := map[], map[], map[];
      binds, pendings, vars, evals := map[], map[], map[], [];
    }
  }
}
