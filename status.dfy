/**
 * Error plumbing and status-block updates of util.c: client and driver
 * errors written into a handle's status block, routing of recoverable
 * driver errors to a connection's failover queue, the row count and the
 * statement-type code.  Also the commit-on-success rule shared by every
 * execution path.
 */
module Status {
  import opened Wrappers
  import opened Tcl
  import opened Native
  import opened Handles
  import opened Naming

  /** The interpreter result of Oradpi_SetError: the message, with -errorcode {ORATCL CLIENT}. */
  function ClientFailure(text: string): (o: Outcome)
    ensures o.Error? && o.message == text && o.errorCode == ["ORATCL", "CLIENT"]
  {
    Error(text, ["ORATCL", "CLIENT"])
  }

  /** The interpreter result of Oradpi_SetErrorFromODPI: the driver's message or "ODPI error", with -errorcode {ORATCL ODPI where}. */
  function DriverFailure(ei: ErrorInfo, where: string): (o: Outcome)
    ensures o.Error? && o.errorCode == ["ORATCL", "ODPI", where]
    ensures o.message == if ei.message.Some? then ei.message.value else "ODPI error"
  {
    Error(ei.message.GetOr("ODPI error"), ["ORATCL", "ODPI", where])
  }

  /** The status block after a client error: rc and ocicode take the code, fn is "Oratcl", recoverable is cleared. */
  function ClientMsg(m: Msg, code: int, text: string): (r: Msg)
    ensures r.rc == code && r.ocicode == code && !r.recoverable
    ensures r.fn == Some("Oratcl") && r.error == Some(text)
    ensures r.(rc := m.rc, ocicode := m.ocicode, recoverable := m.recoverable, fn := m.fn, error := m.error) == m
  {
    m.(rc := code, ocicode := code, recoverable := false, fn := Some("Oratcl"), error := Some(text))
  }

  /**
   * The status block after a driver error: the error's code, recoverable
   * flag, offset, SQLSTATE ("" when absent) and message ("ODPI error" when
   * absent), fn naming the failed call, and no action.
   */
  function DriverMsg(m: Msg, ei: ErrorInfo, where: string): (r: Msg)
    ensures r.rc == ei.code && r.ocicode == ei.code && r.recoverable == ei.isRecoverable
    ensures r.offset == ei.offset && r.fn == Some(where) && r.action == None
    ensures r.sqlstate == Some(if ei.sqlState.Some? then ei.sqlState.value else "")
    ensures r.error == Some(if ei.message.Some? then ei.message.value else "ODPI error")
    ensures r.rows == m.rows && r.sqltype == m.sqltype && r.peo == m.peo && r.warning == m.warning
  {
    m.(rc := ei.code, ocicode := ei.code, recoverable := ei.isRecoverable, offset := ei.offset,
       fn := Some(where), sqlstate := Some(ei.sqlState.GetOr("")), action := None,
       error := Some(ei.message.GetOr("ODPI error")))
  }

  /** Oradpi_SetError on a handle. */
  method SetError(h: Handle, code: int, text: string) returns (o: Outcome)
    modifies h.Conns()`msg, h.Stmts()`msg, h.Lobs()`msg
    ensures h.Status() == ClientMsg(old(h.Status()), code, text)
    ensures o == ClientFailure(text)
  {
    match h {
      case ConnH(c) => c.msg := ClientMsg(c.msg, code, text);
      case StmtH(s) => s.msg := ClientMsg(s.msg, code, text);
      case LobH(l) => l.msg := ClientMsg(l.msg, code, text);
    }
    o := ClientFailure(text);
  }

  /**
   * The connection whose failover callback hears about a recoverable error
   * on h: the handle itself when its name starts "oraL", its owner when it
   * starts "oraS", none otherwise.  A name whose prefix does not match the
   * handle's kind (never produced by Oradpi_NewHandleName) is not routed.
   */
  function PostTarget(h: Handle): (co: Conn?)
    reads h.Conns(), h.Stmts()
    ensures co != null ==> RouteOf(h.Name()) != Nowhere
  {
    match h
    case ConnH(c) => if RouteOf(c.name) == ToSelf then c else null
    case StmtH(s) => if RouteOf(s.name) == ToOwner then s.owner else null
    case LobH(_) => null
  }

  /** The event queue a post for co would reach, if any. */
  function QueueOf(co: Conn?): set<EventQueue>
    reads co
  {
    if co != null && co.ownerTid != null then {co.ownerTid} else {}
  }

  /** The event queue a recoverable error on the statement a command's second word names would reach. */
  function NamedQueue(ip: Interp, objv: seq<Value>): set<EventQueue>
    reads ip, NamedStmt(ip, objv), NamedOwner(ip, objv)
  {
    if |objv| >= 2 && Text(objv[1]) in ip.stmts then QueueOf(PostTarget(StmtH(ip.stmts[Text(objv[1])]))) else {}
  }

  /** The event queue of the connection a command's second word names. */
  function NamedConnQueue(ip: Interp, objv: seq<Value>): set<EventQueue>
    reads ip, NamedConn(ip, objv)
  {
    if |objv| >= 2 && Text(objv[1]) in ip.conns then QueueOf(ip.conns[Text(objv[1])]) else {}
  }

  /** The event queue of the owner of the statement a command's second word names. */
  function NamedOwnerQueue(ip: Interp, objv: seq<Value>): set<EventQueue>
    reads ip, NamedStmt(ip, objv), NamedOwner(ip, objv)
  {
    if |objv| >= 2 && Text(objv[1]) in ip.stmts then QueueOf(ip.stmts[Text(objv[1])].owner) else {}
  }

  /** Oradpi_PostFailoverEvent: queue an event to the owner thread; nothing without owner interpreter and thread. */
  method Post(co: Conn, message: Option<string>)
    modifies QueueOf(co)
    ensures co.ownerTid != null ==>
      co.ownerTid.queued == old(co.ownerTid.queued) +
        (if co.ownerIp != null then [FailoverEvent(co.ownerIp, co.name, message.GetOr("recoverable error"))] else [])
  {
    if co.ownerIp != null && co.ownerTid != null {
      co.ownerTid.queued := co.ownerTid.queued + [FailoverEvent(co.ownerIp, co.name, message.GetOr("recoverable error"))];
    }
  }

  /** Whether a driver error on h reaches a failover callback. */
  predicate Posts(h: Handle, ei: ErrorInfo)
    reads h.Conns(), h.Stmts(), PostTarget(h)
  {
    ei.isRecoverable && PostTarget(h) != null && PostTarget(h).failoverCallback.Some?
      && PostTarget(h).ownerIp != null && PostTarget(h).ownerTid != null
  }

  /** Oradpi_SetErrorFromODPI on a handle: record the error, route it if recoverable, fail. */
  method SetErrorFromODPI(h: Handle, ei: ErrorInfo, where: string) returns (o: Outcome)
    modifies h.Conns()`msg, h.Stmts()`msg, h.Lobs()`msg, QueueOf(PostTarget(h))
    ensures h.Status() == DriverMsg(old(h.Status()), ei, where)
    ensures o == DriverFailure(ei, where)
    ensures var co := old(PostTarget(h));
      co != null && co.ownerTid != null ==>
        co.ownerTid.queued == old(co.ownerTid.queued) +
          (if old(Posts(h, ei)) then [FailoverEvent(co.ownerIp, co.name, ei.message.GetOr("recoverable error"))] else [])
  {
    var co := PostTarget(h);
    match h {
      case ConnH(c) => c.msg := DriverMsg(c.msg, ei, where);
      case StmtH(s) => s.msg := DriverMsg(s.msg, ei, where);
      case LobH(l) => l.msg := DriverMsg(l.msg, ei, where);
    }
    if ei.isRecoverable && co != null && co.failoverCallback.Some? {
      Post(co, Some(ei.message.GetOr("recoverable error")));
    }
    o := DriverFailure(ei, where);
  }

  /** Oradpi_RecordRows */
  method RecordRows(h: Handle, rows: nat)
    modifies h.Conns()`msg, h.Stmts()`msg, h.Lobs()`msg
    ensures h.Status() == old(h.Status()).(rows := rows)
  {
    match h {
      case ConnH(c) => c.msg := c.msg.(rows := rows);
      case StmtH(s) => s.msg := s.msg.(rows := rows);
      case LobH(l) => l.msg := l.msg.(rows := rows);
    }
  }

  /** The statement-type code: the first true flag of query, PL/SQL, DML, DDL, returning counts 1..5; none gives 0. */
  function StmtType(info: StmtInfo): (t: int)
    ensures 0 <= t <= 5
    ensures t == 0 <==> !(info.isQuery || info.isPLSQL || info.isDML || info.isDDL || info.isReturning)
    ensures t == 1 <==> info.isQuery
    ensures t == 3 ==> info.isDML && !info.isQuery && !info.isPLSQL
  {
    if info.isQuery then 1
    else if info.isPLSQL then 2
    else if info.isDML then 3
    else if info.isDDL then 4
    else if info.isReturning then 5
    else 0
  }

  /** Oradpi_UpdateStmtType: unchanged without a native statement or when the info call fails (info == None). */
  method UpdateStmtType(s: Stmt, info: Option<StmtInfo>)
    modifies s`msg
    ensures s.msg == if s.stmt.Some? && info.Some? then old(s.msg).(sqltype := StmtType(info.value)) else old(s.msg)
  {
    if s.stmt.Some? && info.Some? {
      s.msg := s.msg.(sqltype := StmtType(info.value));
    }
  }

  /** DPI_MODE_EXEC_COMMIT_ON_SUCCESS is used iff the caller asked to commit, or autocommit is on for DML or PL/SQL. */
  function CommitOnSuccess(doCommit: bool, autocommit: bool, info: StmtInfo): (c: bool)
    ensures c ==> doCommit || autocommit
    ensures !doCommit && info.isQuery && !info.isDML && !info.isPLSQL ==> !c
  {
    doCommit || (autocommit && (info.isDML || info.isPLSQL))
  }

  /** Whether the statement's owner connection has autocommit on (no owner: off). */
  function Autocommit(co: Conn?): bool
    reads co
  {
    co != null && co.autocommit
  }

  /** A recoverable error on a generated statement name reaches the statement's owner; on a LOB it reaches nobody. */
  lemma StmtErrorsRouteToOwner(s: Stmt, l: Lob, k: nat, j: nat)
    requires s.name == StmtPrefix + Digits(k) && l.name == LobPrefix + Digits(j)
    ensures PostTarget(StmtH(s)) == s.owner
    ensures PostTarget(LobH(l)) == null
  {
    RouteOfGenerated(k);
  }

  /** A recoverable error on a generated connection name reaches the connection itself. */
  lemma ConnErrorsRouteToSelf(c: Conn, k: nat)
    requires c.name == ConnPrefix + Digits(k)
    ensures PostTarget(ConnH(c)) == c
  {
    RouteOfGenerated(k);
  }
}
