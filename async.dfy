/**
 * The asynchronous execution registry of async.c: one entry per statement
 * handle, holding the worker's flags, its result and error, and one added
 * reference each to the native session and statement.
 *
 * Threads are not modelled.  The worker's whole run (AsyncWorker) is one
 * atomic step, Finish, that happens when the virtual clock reaches the
 * worker's finishing time; a waiting caller polls that clock in steps of
 * 10 ms.  Sections under the registry or entry lock are single methods.
 */
module Async {
  import opened Wrappers
  import opened Tcl
  import opened Native
  import opened Pending
  import opened Handles
  import opened Status
  import opened BindState
  import opened State

  /** The -3123 result of a wait that gave up: "asynchronous command still processing". */
  const StillProcessing: int := -3123

  /** OradpiAsyncEntry, less its thread id and lock. */
  datatype AsyncEntry = AsyncEntry(
    running: bool,
    done: bool,
    canceled: bool,
    joined: bool,
    rc: int,
    errorCode: int,
    errorMsg: Option<string>,
    conn: Option<Ref>,
    stmt: Option<Ref>,
    owner: Conn?,
    doCommit: bool,
    autocommit: bool,
    stmtKey: Option<string>)

  /** A freshly allocated entry (Tcl_Alloc + memset(0)). */
  const ZeroEntry: AsyncEntry := AsyncEntry(false, false, false, false, 0, 0, None, None, None, null, false, false, None)

  /**
   * What a registered entry looks like between two commands: it holds its
   * session, its statement and the statement's key, nobody has joined it,
   * and it is either running or done.
   */
  predicate Settled(e: AsyncEntry)
  {
    e.conn.Some? && e.stmt.Some? && e.stmtKey.Some? && !e.joined && e.running != e.done
  }

  /** The references an entry holds, in the order AsyncRemove releases them. */
  function Held(e: AsyncEntry): (r: seq<Ref>)
    ensures Settled(e) ==> r == [e.stmt.value, e.conn.value]
    ensures |r| <= 2
  {
    Present(e.stmt) + Present(e.conn)
  }

  /** What the driver does for the worker: when it finishes, the info call's answer, the execution's error if any. */
  datatype WorkerRun = WorkerRun(finishAt: nat, info: Option<StmtInfo>, execError: Option<ErrorInfo>)

  /** The execution mode the worker asks for: commit-on-success only when the info call succeeds and the rule says so. */
  function WorkerCommits(e: AsyncEntry, info: Option<StmtInfo>): (c: bool)
    ensures c <==> info.Some? && CommitOnSuccess(e.doCommit, e.autocommit, info.value)
  {
    info.Some? && CommitOnSuccess(e.doCommit, e.autocommit, info.value)
  }

  /**
   * The entry after the worker's run: done and no longer running; rc is -1
   * on failure with the driver's code and, when it has a non-empty message,
   * a copy of it; rc is 0 on success.  Nothing else changes.
   */
  function AfterRun(e: AsyncEntry, run: WorkerRun): (r: AsyncEntry)
    ensures r.done && !r.running
    ensures r.rc == 0 <==> run.execError.None?
    ensures run.execError.Some? ==> r.rc == -1 && r.errorCode == run.execError.value.code
    ensures run.execError.None? ==> r.errorCode == e.errorCode && r.errorMsg == e.errorMsg
    ensures run.execError.Some? ==>
      r.errorMsg == (var m := run.execError.value.message; if m.Some? && |m.value| > 0 then m else e.errorMsg)
    ensures r.(done := e.done, running := e.running, rc := e.rc, errorCode := e.errorCode, errorMsg := e.errorMsg) == e
  {
    match run.execError
    case None => e.(rc := 0, done := true, running := false)
    case Some(ei) =>
      var m := if ei.message.Some? && |ei.message.value| > 0 then ei.message else e.errorMsg;
      e.(rc := -1, errorCode := ei.code, errorMsg := m, done := true, running := false)
  }

  /** A settled running entry is still settled once its worker has run. */
  lemma AfterRunSettles(e: AsyncEntry, run: WorkerRun)
    requires Settled(e) && e.running
    ensures Settled(AfterRun(e, run)) && Held(AfterRun(e, run)) == Held(e)
  {
  }

  /** gAsyncByStmt with gAsyncInit: entries are keyed by the statement handle itself. */
  class AsyncRegistry {
    var inited: bool
    var entries: map<Stmt, AsyncEntry>

    ghost predicate Valid()
      reads this
    {
      (!inited ==> entries == map[]) && forall s :: s in entries ==> Settled(entries[s])
    }

    constructor ()
      ensures Valid() && !inited
    {
      inited := false;
      entries := map[];
    }

    /** AsyncLookup */
    function Lookup(s: Stmt): (r: Option<AsyncEntry>)
      reads this
      ensures r.Some? <==> inited && s in entries
      ensures r.Some? ==> r.value == entries[s]
    {
      if inited && s in entries then Some(entries[s]) else None
    }

    /** AsyncEnsure: create the table on first use, and a zeroed entry for s when it has none. */
    method Ensure(s: Stmt) returns (isNew: bool)
      modifies this
      ensures inited && Lookup(s).Some?
      ensures isNew <==> old(Lookup(s)).None?
      ensures !isNew ==> entries == old(entries)
      ensures isNew ==> entries == (if old(inited) then old(entries) else map[])[s := ZeroEntry]
    {
      if !inited {
        inited := true;
        entries := map[];
      }
      isNew := s !in entries;
      if isNew {
        entries := entries[s := ZeroEntry];
      }
    }

    /** AsyncRemove: release the entry's statement, then its session, and drop the entry; no-op without one. */
    method Remove(s: Stmt, drv: Driver)
      modifies this`entries, drv`refs
      ensures Lookup(s).None?
      ensures entries == if inited then old(entries) - {s} else old(entries)
      ensures drv.refs == ReleasedAll(old(drv.refs), if old(Lookup(s)).Some? then Held(old(Lookup(s)).value) else [])
    {
      if inited && s in entries {
        var e := entries[s];
        ghost var m0 := drv.refs;
        if e.stmt.Some? {
          drv.Release(e.stmt.value);
          ReleasedOne(m0, e.stmt.value);
        }
        ghost var m1 := drv.refs;
        if e.conn.Some? {
          drv.Release(e.conn.value);
          ReleasedOne(m1, e.conn.value);
        }
        ReleasedAllAppend(m0, Present(e.stmt), Present(e.conn));
        entries := entries - {s};
      } else {
        assert old(Lookup(s)).None?;
      }
    }

    /** Every entry but the one of s is settled. */
    ghost predicate ValidExcept(s: Stmt)
      reads this
    {
      (!inited ==> entries == map[]) && forall t :: t in entries && t != s ==> Settled(entries[t])
    }

    /**
     * The claim step of Oradpi_Cmd_ExecAsync: AsyncEnsure; an existing entry
     * still running makes the start busy and stays as it is; a finished one
     * is removed (its result discarded, its references released) and a
     * fresh entry takes its place.
     */
    method Claim(s: Stmt, drv: Driver) returns (busy: bool)
      requires Valid()
      modifies this, drv`refs
      ensures busy <==> old(Lookup(s)).Some? && old(Lookup(s)).value.running
      ensures busy ==> entries == old(entries) && inited == old(inited) && drv.refs == old(drv.refs)
      ensures !busy ==> ValidExcept(s) && Lookup(s) == Some(ZeroEntry) && entries.Keys == old(entries.Keys) + {s}
      ensures !busy ==> drv.refs == ReleasedAll(old(drv.refs), Stale(old(Lookup(s))))
      ensures entries - {s} == old(entries) - {s}
    {
      var isNew := Ensure(s);
      busy := false;
      if !isNew {
        var ae := entries[s];
        if ae.running && !ae.done {
          return true;
        }
        Remove(s, drv);
        isNew := Ensure(s);
      }
    }

    /**
     * The first loop of Oradpi_CancelAndJoinAllForConn: every statement
     * whose entry belongs to co, once each, with its entry's key.
     */
    method Snapshot(co: Conn) returns (keys: seq<Stmt>, names: seq<Option<string>>)
      requires Valid()
      ensures |names| == |keys|
      ensures forall s :: s in entries && entries[s].owner == co <==> s in keys
      ensures forall j :: 0 <= j < |keys| ==>
        keys[j] in entries && entries[keys[j]].owner == co && names[j] == entries[keys[j]].stmtKey && names[j].Some?
    {
      var todo := set s | s in entries && entries[s].owner == co;
      keys, names := [], [];
      while todo != {}
        invariant |names| == |keys|
        invariant forall s :: s in entries && entries[s].owner == co <==> s in todo || s in keys
        invariant forall s :: s in todo ==> s in entries && entries[s].owner == co
        invariant forall j :: 0 <= j < |keys| ==>
          keys[j] in entries && entries[keys[j]].owner == co && names[j] == entries[keys[j]].stmtKey && names[j].Some?
        decreases |todo|
      {
        var s :| s in todo;
        keys := keys + [s];
        names := names + [entries[s].stmtKey];
        todo := todo - {s};
      }
    }

    /**
     * AsyncWorker, as one atomic step: execute the entry's statement with
     * the worker's commit mode and record the result.  Only a running entry
     * has a worker.
     */
    method Finish(s: Stmt, drv: Driver, run: WorkerRun)
      requires Valid() && Lookup(s).Some? && Lookup(s).value.running
      modifies this`entries, drv`executed
      ensures Valid()
      ensures entries == old(entries)[s := AfterRun(old(entries[s]), run)]
      ensures drv.executed == old(drv.executed) +
        [Execution(old(entries[s]).stmt.value, 1, WorkerCommits(old(entries[s]), run.info), false)]
    {
      var e := entries[s];
      drv.Execute(Execution(e.stmt.value, 1, WorkerCommits(e, run.info), false));
      AfterRunSettles(e, run);
      entries := entries[s := AfterRun(e, run)];
    }
  }

  // ---------------------------------------------------------------------
  // Polling against a virtual clock
  // ---------------------------------------------------------------------

  /** The outcome of a polling loop: the task was seen done, or the caller gave up; `at` is the clock reading. */
  datatype Poll = Completed(at: nat) | GaveUp(at: nat)

  /** The first poll instant (a multiple of 10 ms) at or after x. */
  function Ceil10(x: nat): (r: nat)
    ensures r % 10 == 0 && x <= r < x + 10
  {
    (x + 9) / 10 * 10
  }

  /**
   * A loop that looks at the task every 10 ms, from 0 on, and gives up when
   * the time waited has reached a non-negative timeout t: it sees a task
   * finishing at finishAt (0 for one that is not running) at the first poll
   * at or after finishAt, unless it reached the first poll at or after t
   * before that.  A negative timeout never gives up.
   */
  function PollSpec(t: int, finishAt: nat): (p: Poll)
    ensures p.at % 10 == 0
    ensures p.GaveUp? ==> 0 <= t <= p.at < t + 10 && p.at < finishAt
    ensures p.Completed? ==> finishAt <= p.at < finishAt + 10 && (t >= 0 ==> p.at < t + 10)
    ensures t < 0 ==> p.Completed?
  {
    if t >= 0 && Ceil10(finishAt) > Ceil10(t) then GaveUp(Ceil10(t)) else Completed(Ceil10(finishAt))
  }

  /** A timeout of 0 gives up at the very first poll on any task that has not finished by then. */
  lemma ZeroTimeoutAbandons(finishAt: nat)
    requires finishAt > 0
    ensures PollSpec(0, finishAt) == GaveUp(0)
  {
  }

  /** A negative timeout always sees the task finish. */
  lemma NegativeTimeoutCompletes(t: int, finishAt: nat)
    requires t < 0
    ensures PollSpec(t, finishAt) == Completed(Ceil10(finishAt))
  {
  }

  /**
   * The polling loop of Oradpi_StmtWaitForAsync: the time waited is the
   * clock, advanced by 10 after every poll that neither saw the task done
   * nor reached the timeout.
   */
  method PollStmtWait(t: int, finishAt: nat) returns (p: Poll)
    ensures p == PollSpec(t, finishAt)
  {
    var waited: nat := 0;
    while true
      invariant waited % 10 == 0 && waited <= Ceil10(finishAt)
      invariant t >= 0 ==> waited <= Ceil10(t)
      decreases Ceil10(finishAt) - waited
    {
      if waited >= finishAt {
        return Completed(waited);
      }
      if t >= 0 && waited >= t {
        return GaveUp(waited);
      }
      waited := waited + 10;
    }
  }

  /**
   * The polling loop of Oradpi_Cmd_WaitAsync: the time waited only advances
   * under a non-negative timeout, so the clock is kept apart from it.
   */
  method PollWaitAsync(t: int, finishAt: nat) returns (p: Poll)
    ensures p == PollSpec(t, finishAt)
  {
    var waited: nat := 0;
    var clock: nat := 0;
    while true
      invariant clock % 10 == 0 && clock <= Ceil10(finishAt)
      invariant t >= 0 ==> waited == clock && waited <= Ceil10(t)
      decreases Ceil10(finishAt) - clock
    {
      if clock >= finishAt {
        return Completed(clock);
      }
      if t >= 0 {
        if waited >= t {
          return GaveUp(clock);
        }
        waited := waited + 10;
      }
      clock := clock + 10;
    }
  }

  // ---------------------------------------------------------------------
  // The commands
  // ---------------------------------------------------------------------

  const ExecAsyncUsage: string := "statement-handle ?-commit?"
  const WaitAsyncUsage: string := "statement-handle ?-timeout ms?"

  /** The entry an accepted start leaves: running, with the owner's autocommit flag and the given commit flag, session, statement and key. */
  function Started(owner: Conn, commit: bool, autocommit: bool, conn: Ref, stmt: Ref, key: string): (e: AsyncEntry)
    ensures Settled(e) && e.running && !e.canceled && e.rc == 0 && e.errorCode == 0 && e.errorMsg == None
    ensures Held(e) == [stmt, conn] && e.owner == owner && e.stmtKey == Some(key)
  {
    AsyncEntry(true, false, false, false, 0, 0, None, Some(conn), Some(stmt), owner, commit, autocommit, Some(key))
  }

  /** The references a start releases before it begins: those of a finished entry it replaces. */
  function Stale(e: Option<AsyncEntry>): seq<Ref>
  {
    if e.Some? && !e.value.running then Held(e.value) else []
  }

  /**
   * Oradpi_Cmd_ExecAsync.  connAdd and stmtAdd are the answers of
   * dpiConn_addRef and dpiStmt_addRef (None for success), threadOk whether
   * Tcl_CreateThread succeeded.
   */
  method ExecAsync(ip: Interp, reg: AsyncRegistry, drv: Driver, objv: seq<Value>,
                   connAdd: Option<ErrorInfo>, stmtAdd: Option<ErrorInfo>, threadOk: bool)
    returns (o: Outcome)
    requires |objv| >= 1 && reg.Valid()
    modifies reg, drv`refs, NamedStmt(ip, objv)`msg, NamedOwner(ip, objv)`msg, NamedOwnerQueue(ip, objv)
    ensures reg.Valid()
    ensures !(2 <= |objv| <= 3) ==>
      o == WrongArgs(objv, ExecAsyncUsage) && reg.entries == old(reg.entries) && drv.refs == old(drv.refs)
    ensures 2 <= |objv| <= 3 && Text(objv[1]) !in ip.stmts ==>
      o == ClientFailure("invalid statement handle") && reg.entries == old(reg.entries) && drv.refs == old(drv.refs)
    ensures 2 <= |objv| <= 3 && Text(objv[1]) in ip.stmts ==>
      if |objv| == 3 && Text(objv[2]) != "-commit" then
        o == WrongArgs(objv, ExecAsyncUsage) && reg.entries == old(reg.entries) && drv.refs == old(drv.refs)
      else
        ExecAsyncEffect(reg, drv, ip.stmts[Text(objv[1])], Text(objv[1]), |objv| == 3, connAdd, stmtAdd, threadOk, o)
  {
    if |objv| < 2 || |objv| > 3 {
      return WrongArgs(objv, ExecAsyncUsage);
    }
    var key := Text(objv[1]);
    var s := LookupStmt(ip, key);
    if s == null {
      return ClientFailure("invalid statement handle");
    }
    var commit := false;
    if |objv| == 3 {
      if Text(objv[2]) == "-commit" {
        commit := true;
      } else {
        return WrongArgs(objv, ExecAsyncUsage);
      }
    }
    o := ExecAsyncStmt(reg, drv, s, key, commit, connAdd, stmtAdd, threadOk);
  }

  /**
   * What Oradpi_Cmd_ExecAsync does once it has found the statement handle
   * s under key: refuse an unprepared statement or one still executing
   * (both with the error on the statement), otherwise release what a
   * finished entry held and start a worker; nothing happens to the other
   * entries.
   */
  twostate predicate ExecAsyncEffect(reg: AsyncRegistry, drv: Driver, s: Stmt, key: string, commit: bool,
                                     connAdd: Option<ErrorInfo>, stmtAdd: Option<ErrorInfo>, threadOk: bool, o: Outcome)
    reads reg, drv, s, s.owner
  {
    var prior := old(reg.Lookup(s));
    reg.entries - {s} == old(reg.entries) - {s} &&
    if old(s.stmt.None? || s.owner == null || s.owner.conn.None?) then
      o == ClientFailure("statement is not prepared") && reg.entries == old(reg.entries) && drv.refs == old(drv.refs) &&
      s.msg == ClientMsg(old(s.msg), -1, "statement is not prepared")
    else if prior.Some? && prior.value.running then
      o == ClientFailure("statement already executing asynchronously") && reg.entries == old(reg.entries) &&
      drv.refs == old(drv.refs) && s.msg == ClientMsg(old(s.msg), -1, "statement already executing asynchronously")
    else if connAdd.None? && stmtAdd.None? && threadOk then
      o == Ok(Int(0)) && s.owner != null && s.owner.conn.Some? && s.stmt.Some? &&
      reg.Lookup(s) == Some(Started(s.owner, commit, s.owner.autocommit, s.owner.conn.value, s.stmt.value, key)) &&
      drv.refs == Bumped(Bumped(ReleasedAll(old(drv.refs), Stale(prior)), s.owner.conn.value), s.stmt.value) &&
      s.msg == old(s.msg) && s.owner.msg == old(s.owner.msg)
    else
      s.owner == old(s.owner) && reg.Lookup(s).None? &&
      (forall r :: CountOf(drv.refs, r) == CountOf(ReleasedAll(old(drv.refs), Stale(prior)), r)) &&
      StartRefused(s, old(s.owner), connAdd, stmtAdd, o)
  }

  /**
   * A start refused by its first failing step, dpiConn_addRef,
   * dpiStmt_addRef or Tcl_CreateThread: the error it returns and the one
   * status block that records it, the owner's for dpiConn_addRef and the
   * statement's otherwise; co is the statement's owner.
   */
  twostate predicate StartRefused(s: Stmt, co: Conn, connAdd: Option<ErrorInfo>, stmtAdd: Option<ErrorInfo>, o: Outcome)
    reads s, co
  {
    if connAdd.Some? then
      o == DriverFailure(connAdd.value, "dpiConn_addRef") &&
      co.msg == DriverMsg(old(co.msg), connAdd.value, "dpiConn_addRef") && s.msg == old(s.msg)
    else if stmtAdd.Some? then
      o == DriverFailure(stmtAdd.value, "dpiStmt_addRef") &&
      s.msg == DriverMsg(old(s.msg), stmtAdd.value, "dpiStmt_addRef") && co.msg == old(co.msg)
    else
      o == ClientFailure("failed to create async worker thread") &&
      s.msg == ClientMsg(old(s.msg), -1, "failed to create async worker thread") && co.msg == old(co.msg)
  }

  /** The part of Oradpi_Cmd_ExecAsync after the argument checks. */
  method ExecAsyncStmt(reg: AsyncRegistry, drv: Driver, s: Stmt, key: string, commit: bool,
                       connAdd: Option<ErrorInfo>, stmtAdd: Option<ErrorInfo>, threadOk: bool)
    returns (o: Outcome)
    requires reg.Valid()
    modifies reg, drv`refs, s`msg, (if s.owner != null then {s.owner} else {})`msg, QueueOf(s.owner)
    ensures reg.Valid()
    ensures ExecAsyncEffect(reg, drv, s, key, commit, connAdd, stmtAdd, threadOk, o)
  {
    if s.stmt.None? || s.owner == null || s.owner.conn.None? {
      o := SetError(StmtH(s), -1, "statement is not prepared");
      return;
    }
    var busy := reg.Claim(s, drv);
    if busy {
      o := SetError(StmtH(s), -1, "statement already executing asynchronously");
      return;
    }
    o := StartWorker(reg, drv, s, key, commit, connAdd, stmtAdd, threadOk);
  }

  /**
   * The rest of Oradpi_Cmd_ExecAsync once the entry is claimed: fill it in,
   * add a reference to the session and one to the statement, start the
   * worker.  A failing step releases what was added and drops the entry.
   */
  method StartWorker(reg: AsyncRegistry, drv: Driver, s: Stmt, key: string, commit: bool,
                     connAdd: Option<ErrorInfo>, stmtAdd: Option<ErrorInfo>, threadOk: bool)
    returns (o: Outcome)
    requires reg.ValidExcept(s) && reg.Lookup(s) == Some(ZeroEntry)
    requires s.stmt.Some? && s.owner != null && s.owner.conn.Some?
    modifies reg`entries, drv`refs, s`msg, s.owner`msg, QueueOf(s.owner)
    ensures reg.Valid() && reg.entries - {s} == old(reg.entries) - {s}
    ensures connAdd.None? && stmtAdd.None? && threadOk ==>
      o == Ok(Int(0)) &&
      reg.Lookup(s) == Some(Started(s.owner, commit, s.owner.autocommit, s.owner.conn.value, s.stmt.value, key)) &&
      drv.refs == Bumped(Bumped(old(drv.refs), s.owner.conn.value), s.stmt.value) &&
      s.msg == old(s.msg) && s.owner.msg == old(s.owner.msg)
    ensures !(connAdd.None? && stmtAdd.None? && threadOk) ==>
      o.Error? && reg.Lookup(s).None? && (forall r :: CountOf(drv.refs, r) == CountOf(old(drv.refs), r)) &&
      StartRefused(s, s.owner, connAdd, stmtAdd, o)
  {
    var co := s.owner;
    var conn, stmt := co.conn.value, s.stmt.value;
    var started := Started(co, commit, co.autocommit, conn, stmt, key);
    // the entry is filled in before the references are taken
    ghost var e0 := reg.entries;
    reg.entries := reg.entries[s := started.(conn := None, stmt := None)];
    RemoveUpdated(e0, s, started.(conn := None, stmt := None));
    var ok := TakeRefs(drv, conn, stmt, connAdd, stmtAdd, threadOk);
    if !ok {
      ghost var e1 := reg.entries;
      reg.Remove(s, drv);
      RemoveMore(e1, {s}, s);
      assert {s} + {s} == {s};
      o := ReportStartFailure(s, connAdd, stmtAdd);
      return;
    }
    RemoveUpdated(reg.entries, s, started);
    reg.entries := reg.entries[s := started];
    o := Ok(Int(0));
  }

  /** The error a failed start reports, on the owner for dpiConn_addRef and on the statement otherwise. */
  method ReportStartFailure(s: Stmt, connAdd: Option<ErrorInfo>, stmtAdd: Option<ErrorInfo>) returns (o: Outcome)
    requires s.owner != null
    modifies s`msg, s.owner`msg, QueueOf(s.owner)
    ensures connAdd.Some? ==> o == DriverFailure(connAdd.value, "dpiConn_addRef")
    ensures connAdd.None? && stmtAdd.Some? ==> o == DriverFailure(stmtAdd.value, "dpiStmt_addRef")
    ensures connAdd.None? && stmtAdd.None? ==> o == ClientFailure("failed to create async worker thread")
    ensures connAdd.Some? ==> s.owner.msg == DriverMsg(old(s.owner.msg), connAdd.value, "dpiConn_addRef")
    ensures connAdd.None? && stmtAdd.Some? ==> s.msg == DriverMsg(old(s.msg), stmtAdd.value, "dpiStmt_addRef")
    ensures connAdd.None? && stmtAdd.None? ==> s.msg == ClientMsg(old(s.msg), -1, "failed to create async worker thread")
    ensures connAdd.Some? ==> s.msg == old(s.msg)
    ensures connAdd.None? ==> s.owner.msg == old(s.owner.msg)
  {
    if connAdd.Some? {
      o := SetErrorFromODPI(ConnH(s.owner), connAdd.value, "dpiConn_addRef");
    } else if stmtAdd.Some? {
      o := SetErrorFromODPI(StmtH(s), stmtAdd.value, "dpiStmt_addRef");
    } else {
      o := SetError(StmtH(s), -1, "failed to create async worker thread");
    }
  }

  /**
   * The reference traffic of a start: dpiConn_addRef, dpiStmt_addRef, then
   * the worker; on each failure the references already added are released
   * (the statement's before the session's).
   */
  method TakeRefs(drv: Driver, conn: Ref, stmt: Ref, connAdd: Option<ErrorInfo>, stmtAdd: Option<ErrorInfo>, threadOk: bool)
    returns (ok: bool)
    modifies drv`refs
    ensures ok <==> connAdd.None? && stmtAdd.None? && threadOk
    ensures ok ==> drv.refs == Bumped(Bumped(old(drv.refs), conn), stmt)
    ensures !ok ==> forall r :: CountOf(drv.refs, r) == CountOf(old(drv.refs), r)
  {
    if connAdd.Some? {
      return false;
    }
    drv.AddRef(conn);
    if stmtAdd.Some? {
      drv.Release(conn);
      return false;
    }
    drv.AddRef(stmt);
    if !threadOk {
      drv.Release(stmt);
      drv.Release(conn);
      return false;
    }
    return true;
  }

  /**
   * The join step shared by both waits: the worker (if still running) has
   * finished; the one caller that finds the entry unjoined marks it joined,
   * joins the thread and removes the entry, releasing its references.  An
   * entry in the registry is never already joined, so the caller here is
   * always that one.  Returns the entry as the worker left it.
   */
  method Join(reg: AsyncRegistry, drv: Driver, s: Stmt, run: WorkerRun) returns (f: AsyncEntry)
    requires reg.Valid() && reg.Lookup(s).Some?
    modifies reg`entries, drv`refs, drv`executed
    ensures reg.Valid() && reg.Lookup(s).None? && reg.entries == old(reg.entries) - {s}
    ensures var e := old(reg.entries[s]);
      f == (if e.running then AfterRun(e, run) else e) &&
      drv.refs == ReleasedAll(old(drv.refs), Held(e)) &&
      drv.executed == old(drv.executed) +
        (if e.running then [Execution(e.stmt.value, 1, WorkerCommits(e, run.info), false)] else [])
  {
    if reg.entries[s].running {
      reg.Finish(s, drv, run);
    }
    f := reg.entries[s];
    if !f.joined {
      reg.entries := reg.entries[s := f.(joined := true)];
      reg.Remove(s, drv);
    }
  }

  /**
   * Oradpi_StmtWaitForAsync: with cancel, ask the driver to break the
   * entry's session and mark the entry canceled; poll until the worker is
   * done or the timeout is reached (-3123, the entry stays); otherwise join
   * and remove the entry and return 0.  No entry: 0 at once.
   */
  method StmtWaitForAsync(reg: AsyncRegistry, drv: Driver, s: Stmt, cancel: bool, timeout: int, run: WorkerRun)
    returns (rc: int)
    requires reg.Valid()
    modifies reg`entries, drv`refs, drv`executed, drv`breaks
    ensures reg.Valid()
    ensures old(reg.Lookup(s)).None? ==>
      rc == 0 && reg.entries == old(reg.entries) && drv.breaks == old(drv.breaks) &&
      drv.refs == old(drv.refs) && drv.executed == old(drv.executed)
    ensures old(reg.Lookup(s)).Some? ==>
      var e := old(reg.entries[s]);
      drv.breaks == old(drv.breaks) + (if cancel then [e.conn.value] else []) &&
      if PollSpec(timeout, if e.running then run.finishAt else 0).GaveUp? then
        rc == StillProcessing && reg.entries == old(reg.entries)[s := e.(canceled := e.canceled || cancel)] &&
        drv.refs == old(drv.refs) && drv.executed == old(drv.executed)
      else
        rc == 0 && reg.entries == old(reg.entries) - {s} && drv.refs == ReleasedAll(old(drv.refs), Held(e)) &&
        drv.executed == old(drv.executed) +
          (if e.running then [Execution(e.stmt.value, 1, WorkerCommits(e, run.info), false)] else [])
  {
    var ae := reg.Lookup(s);
    if ae.None? {
      return 0;
    }
    var e := ae.value;
    if cancel && e.conn.Some? {
      drv.Break(e.conn.value);
      reg.entries := reg.entries[s := e.(canceled := true)];
    }
    var p := PollStmtWait(timeout, if e.running then run.finishAt else 0);
    if p.GaveUp? {
      return StillProcessing;
    }
    var f := Join(reg, drv, s, run);
    rc := 0;
  }

  /** The timeout Oradpi_Cmd_WaitAsync reads: -1 unless "-timeout ms" is given; with three words the third is ignored. */
  function WaitTimeout(objv: seq<Value>): (r: Parsed<int>)
    requires 2 <= |objv| <= 4
    ensures |objv| < 4 ==> r == Parsed(-1)
    ensures |objv| == 4 && Text(objv[2]) != "-timeout" ==> r == Rejected(WrongArgs(objv, WaitAsyncUsage))
    ensures |objv| == 4 && Text(objv[2]) == "-timeout" ==>
      (r.Parsed? <==> GetInt(objv[3]).Some?) && (r.Parsed? ==> r.value == GetInt(objv[3]).value)
  {
    if |objv| < 4 then Parsed(-1)
    else if Text(objv[2]) != "-timeout" then Rejected(WrongArgs(objv, WaitAsyncUsage))
    else match GetInt(objv[3])
      case Some(t) => Parsed(t)
      case None => Rejected(IntRefusal(objv[3]))
  }

  /**
   * The status block a completed wait leaves: the statement type is
   * refreshed, then a failed run is reported with its stored code (or -1)
   * and message, or -1 and "asynchronous execute failed" without one.
   */
  function JoinedMsg(m: Msg, hasStmt: bool, info: Option<StmtInfo>, f: AsyncEntry): (r: Msg)
    ensures f.rc == 0 ==> r == (if hasStmt && info.Some? then m.(sqltype := StmtType(info.value)) else m)
    ensures f.rc != 0 && f.errorMsg.Some? ==>
      r.error == f.errorMsg && r.rc == (if f.errorCode != 0 then f.errorCode else -1)
    ensures f.rc != 0 && f.errorMsg.None? ==> r.error == Some("asynchronous execute failed") && r.rc == -1
  {
    var typed := if hasStmt && info.Some? then m.(sqltype := StmtType(info.value)) else m;
    if f.rc == 0 then typed
    else if f.errorMsg.Some? then ClientMsg(typed, if f.errorCode != 0 then f.errorCode else -1, f.errorMsg.value)
    else ClientMsg(typed, -1, "asynchronous execute failed")
  }

  /**
   * Oradpi_Cmd_WaitAsync.  run is what the worker does, info the answer of
   * dpiStmt_getInfo when the statement type is refreshed.  A wait that
   * gives up answers -3123 and leaves the entry; a completed one answers
   * the worker's rc, having removed the entry and forgotten the statement's
   * pending variables.
   */
  method WaitAsync(ip: Interp, reg: AsyncRegistry, drv: Driver, objv: seq<Value>, run: WorkerRun, info: Option<StmtInfo>)
    returns (o: Outcome)
    requires |objv| >= 1 && reg.Valid() && PendingsValid(ip)
    modifies reg`entries, drv`refs, drv`executed, ip`pendings, (if |objv| >= 2 then ListOf(ip, Text(objv[1])) else {})
    modifies NamedStmt(ip, objv)`msg
    ensures reg.Valid() && PendingsValid(ip)
    ensures !(2 <= |objv| <= 4 && Text(objv[1]) in ip.stmts && WaitTimeout(objv).Parsed?) ==>
      reg.entries == old(reg.entries) && drv.refs == old(drv.refs) && drv.executed == old(drv.executed) &&
      ip.pendings == old(ip.pendings) && (|objv| >= 2 && Text(objv[1]) in ip.stmts ==> ip.stmts[Text(objv[1])].msg == old(ip.stmts[Text(objv[1])].msg))
    ensures !(2 <= |objv| <= 4) ==> o == WrongArgs(objv, WaitAsyncUsage)
    ensures 2 <= |objv| <= 4 && Text(objv[1]) !in ip.stmts ==> o == ClientFailure("invalid statement handle")
    ensures 2 <= |objv| <= 4 && Text(objv[1]) in ip.stmts && WaitTimeout(objv).Rejected? ==> o == WaitTimeout(objv).outcome
    ensures 2 <= |objv| <= 4 && Text(objv[1]) in ip.stmts && WaitTimeout(objv).Parsed? ==>
      var key := Text(objv[1]);
      var s := ip.stmts[key];
      var prior := old(reg.Lookup(s));
      if prior.None? then
        o == Ok(Int(0)) && reg.entries == old(reg.entries) && drv.refs == old(drv.refs) &&
        drv.executed == old(drv.executed) && ip.pendings == old(ip.pendings) && s.msg == old(s.msg)
      else if PollSpec(WaitTimeout(objv).value, if prior.value.running then run.finishAt else 0).GaveUp? then
        o == Ok(Int(StillProcessing)) && reg.entries == old(reg.entries) && drv.refs == old(drv.refs) &&
        drv.executed == old(drv.executed) && ip.pendings == old(ip.pendings) &&
        s.msg == ClientMsg(old(s.msg), StillProcessing, "asynchronous command still processing")
      else
        var f := if prior.value.running then AfterRun(prior.value, run) else prior.value;
        o == Ok(Int(f.rc)) && reg.entries == old(reg.entries) - {s} &&
        ip.pendings == old(ip.pendings) - {key} &&
        drv.refs == ReleasedAll(ReleasedAll(old(drv.refs), Held(prior.value)), old(PendingsOf(ip, key))) &&
        drv.executed == old(drv.executed) + RunOf(prior, run) &&
        s.msg == JoinedMsg(old(s.msg), s.stmt.Some?, info, f)
  {
    if |objv| < 2 || |objv| > 4 {
      return WrongArgs(objv, WaitAsyncUsage);
    }
    var key := Text(objv[1]);
    var s := LookupStmt(ip, key);
    if s == null {
      return ClientFailure("invalid statement handle");
    }
    var timeout := WaitTimeout(objv);
    if timeout.Rejected? {
      return timeout.outcome;
    }
    o := WaitOn(ip, reg, drv, s, key, timeout.value, run, info);
  }

  /** Oradpi_Cmd_WaitAsync once the statement and the timeout are known. */
  method WaitOn(ip: Interp, reg: AsyncRegistry, drv: Driver, s: Stmt, key: string, t: int, run: WorkerRun, info: Option<StmtInfo>)
    returns (o: Outcome)
    requires reg.Valid() && PendingsValid(ip)
    modifies reg`entries, drv`refs, drv`executed, ip`pendings, ListOf(ip, key), s`msg
    ensures reg.Valid() && PendingsValid(ip)
    ensures var prior := old(reg.Lookup(s));
      if prior.None? then
        o == Ok(Int(0)) && reg.entries == old(reg.entries) && drv.refs == old(drv.refs) &&
        drv.executed == old(drv.executed) && ip.pendings == old(ip.pendings) && s.msg == old(s.msg)
      else if PollSpec(t, if prior.value.running then run.finishAt else 0).GaveUp? then
        o == Ok(Int(StillProcessing)) && reg.entries == old(reg.entries) && drv.refs == old(drv.refs) &&
        drv.executed == old(drv.executed) && ip.pendings == old(ip.pendings) &&
        s.msg == ClientMsg(old(s.msg), StillProcessing, "asynchronous command still processing")
      else
        var f := if prior.value.running then AfterRun(prior.value, run) else prior.value;
        o == Ok(Int(f.rc)) && reg.entries == old(reg.entries) - {s} &&
        ip.pendings == old(ip.pendings) - {key} &&
        drv.refs == ReleasedAll(ReleasedAll(old(drv.refs), Held(prior.value)), old(PendingsOf(ip, key))) &&
        drv.executed == old(drv.executed) + RunOf(prior, run) &&
        s.msg == JoinedMsg(old(s.msg), s.stmt.Some?, info, f)
  {
    var ae := reg.Lookup(s);
    if ae.None? {
      return Ok(Int(0));
    }
    var p := PollWaitAsync(t, if ae.value.running then run.finishAt else 0);
    if p.GaveUp? {
      // Oradpi_SetError on the statement; the interpreter result is then replaced by -3123
      s.msg := ClientMsg(s.msg, StillProcessing, "asynchronous command still processing");
      return Ok(Int(StillProcessing));
    }
    o := Collect(ip, reg, drv, s, key, run, info);
  }

  /** Join the entry of s and report its result: the entry and the statement's pending variables are gone. */
  method Collect(ip: Interp, reg: AsyncRegistry, drv: Driver, s: Stmt, key: string, run: WorkerRun, info: Option<StmtInfo>)
    returns (o: Outcome)
    requires reg.Valid() && PendingsValid(ip) && reg.Lookup(s).Some?
    modifies reg`entries, drv`refs, drv`executed, ip`pendings, ListOf(ip, key), s`msg
    ensures reg.Valid() && PendingsValid(ip)
    ensures var e := old(reg.entries[s]);
      var f := if e.running then AfterRun(e, run) else e;
      o == Ok(Int(f.rc)) && reg.entries == old(reg.entries) - {s} &&
      ip.pendings == old(ip.pendings) - {key} &&
      drv.refs == ReleasedAll(ReleasedAll(old(drv.refs), Held(e)), old(PendingsOf(ip, key))) &&
      drv.executed == old(drv.executed) + RunOf(Some(e), run) &&
      s.msg == JoinedMsg(old(s.msg), s.stmt.Some?, info, f)
  {
    ghost var pend := PendingsOf(ip, key);
    var f := Join(reg, drv, s, run);
    assert PendingsOf(ip, key) == pend;
    o := Report(ip, drv, s, key, f, info);
  }

  /** The tail of Oradpi_Cmd_WaitAsync after the join: forget the pending variables, refresh the type, report a failure. */
  method Report(ip: Interp, drv: Driver, s: Stmt, key: string, f: AsyncEntry, info: Option<StmtInfo>) returns (o: Outcome)
    requires PendingsValid(ip)
    modifies ip`pendings, ListOf(ip, key), drv`refs, s`msg
    ensures PendingsValid(ip) && ip.pendings == old(ip.pendings) - {key}
    ensures drv.refs == ReleasedAll(old(drv.refs), old(PendingsOf(ip, key)))
    ensures s.msg == JoinedMsg(old(s.msg), s.stmt.Some?, info, f)
    ensures o == Ok(Int(f.rc))
  {
    PendingsForget(ip, key, drv);
    ReportStatus(s, f, info);
    o := Ok(Int(f.rc));
  }

  /** Refresh the statement type, then record a failed run on the statement. */
  method ReportStatus(s: Stmt, f: AsyncEntry, info: Option<StmtInfo>)
    modifies s`msg
    ensures s.msg == JoinedMsg(old(s.msg), s.stmt.Some?, info, f)
  {
    UpdateStmtType(s, info);
    if f.rc != 0 {
      if f.errorMsg.Some? {
        var _ := SetError(StmtH(s), if f.errorCode != 0 then f.errorCode else -1, f.errorMsg.value);
      } else {
        var _ := SetError(StmtH(s), -1, "asynchronous execute failed");
      }
    }
  }

  /** The interpreter as a set, for frames (empty for a null interpreter). */
  function Interps(ip: Interp?): set<Interp>
  {
    if ip != null then {ip} else {}
  }

  /** The pending lists of an interpreter, for frames. */
  function PendingObjects(ip: Interp?): set<PendingRefs>
    reads Interps(ip)
  {
    if ip != null then ip.pendings.Values else {}
  }

  /** No two statement keys share a pending list: each is allocated on its own. */
  ghost predicate PendingsApart(ip: Interp?)
    reads Interps(ip)
  {
    ip != null ==> forall k1, k2 :: k1 in ip.pendings && k2 in ip.pendings && k1 != k2 ==> ip.pendings[k1] != ip.pendings[k2]
  }

  /** The arrays behind the pending lists, for frames. */
  ghost function PendingArrays(ip: Interp?): set<array<Ref>>
    reads Interps(ip), PendingObjects(ip)
  {
    if ip != null then set k | k in ip.pendings :: ip.pendings[k].vars else {}
  }

  /** The pending variables of every statement key, as values (none without an interpreter). */
  ghost function PendView(ip: Interp?): map<string, seq<Ref>>
    reads ip, (if ip != null then ip.pendings.Values else {}), PendingArrays(ip)
    requires ip != null ==> PendingsValid(ip)
  {
    if ip != null then map k | k in ip.pendings :: ip.pendings[k].Items() else map[]
  }

  /** The entry of s in a registry's table, if it has one. */
  function EntryOf(es: map<Stmt, AsyncEntry>, s: Stmt): Option<AsyncEntry>
  {
    if s in es then Some(es[s]) else None
  }

  /** The break a cancelling wait asks for: the entry's session. */
  function BreakOf(o: Option<AsyncEntry>): seq<Ref>
  {
    if o.Some? then Present(o.value.conn) else []
  }

  /** The execution a wait lets happen: the worker's, when the entry is still running. */
  function RunOf(o: Option<AsyncEntry>, run: WorkerRun): seq<Execution>
  {
    if o.Some? && o.value.running && o.value.stmt.Some? then
      [Execution(o.value.stmt.value, 1, WorkerCommits(o.value, run.info), false)]
    else []
  }

  /** The references a wait without timeout releases: those the entry holds. */
  function HeldBy(o: Option<AsyncEntry>): seq<Ref>
  {
    if o.Some? then Held(o.value) else []
  }

  /** The pending variables forgetting a key releases (none for a missing key). */
  function PendOf(pv: map<string, seq<Ref>>, name: Option<string>): seq<Ref>
  {
    if name.Some? && name.value in pv then pv[name.value] else []
  }

  /** The pending lists after a key is forgotten. */
  function Without(pv: map<string, seq<Ref>>, name: Option<string>): map<string, seq<Ref>>
  {
    if name.Some? then pv - {name.value} else pv
  }

  /**
   * The reference counts after the second loop of
   * Oradpi_CancelAndJoinAllForConn: for each snapshot statement in turn,
   * the references its entry holds, then the pending variables of its key.
   */
  function CancelRefs(refs: map<Ref, int>, es: map<Stmt, AsyncEntry>, pv: map<string, seq<Ref>>, keys: seq<Stmt>, names: seq<Option<string>>): map<Ref, int>
    requires |names| == |keys|
    decreases |keys|
  {
    if keys == [] then refs
    else
      CancelRefs(ReleasedAll(ReleasedAll(refs, HeldBy(EntryOf(es, keys[0]))), PendOf(pv, names[0])),
        es - {keys[0]}, Without(pv, names[0]), keys[1..], names[1..])
  }

  /** The breaks the second loop asks for: one per snapshot entry still registered, in snapshot order. */
  function CancelBreaks(es: map<Stmt, AsyncEntry>, keys: seq<Stmt>): seq<Ref>
    decreases |keys|
  {
    if keys == [] then [] else BreakOf(EntryOf(es, keys[0])) + CancelBreaks(es - {keys[0]}, keys[1..])
  }

  /** The executions the second loop lets finish: one per snapshot entry still running, in snapshot order. */
  function CancelRuns(es: map<Stmt, AsyncEntry>, keys: seq<Stmt>, runs: Stmt -> WorkerRun): seq<Execution>
    decreases |keys|
  {
    if keys == [] then [] else RunOf(EntryOf(es, keys[0]), runs(keys[0])) + CancelRuns(es - {keys[0]}, keys[1..], runs)
  }

  /**
   * Cancel-all releases every reference the connection's entries held and
   * every pending variable of their keys, and nothing else: each count
   * drops by exactly the number of times the reference occurs there.
   */
  lemma {:induction false} CancelRefsCounts(refs: map<Ref, int>, es: map<Stmt, AsyncEntry>, pv: map<string, seq<Ref>>,
                                             keys: seq<Stmt>, names: seq<Option<string>>, r: Ref)
    requires |names| == |keys|
    ensures CountOf(CancelRefs(refs, es, pv, keys, names), r) ==
      CountOf(refs, r) - Occurrences(HeldAll(es, keys), r) - Occurrences(PendAll(pv, names), r)
    decreases |keys|
  {
    if keys != [] {
      var m1 := ReleasedAll(refs, HeldBy(EntryOf(es, keys[0])));
      var m2 := ReleasedAll(m1, PendOf(pv, names[0]));
      ReleasedAllCounts(refs, HeldBy(EntryOf(es, keys[0])), r);
      ReleasedAllCounts(m1, PendOf(pv, names[0]), r);
      CancelRefsCounts(m2, es - {keys[0]}, Without(pv, names[0]), keys[1..], names[1..], r);
      OccurrencesAppend(HeldBy(EntryOf(es, keys[0])), HeldAll(es - {keys[0]}, keys[1..]), r);
      OccurrencesAppend(PendOf(pv, names[0]), PendAll(Without(pv, names[0]), names[1..]), r);
    }
  }

  /** The references the snapshot's entries hold, each entry counted once. */
  function HeldAll(es: map<Stmt, AsyncEntry>, keys: seq<Stmt>): seq<Ref>
    decreases |keys|
  {
    if keys == [] then [] else HeldBy(EntryOf(es, keys[0])) + HeldAll(es - {keys[0]}, keys[1..])
  }

  /** The pending variables of the snapshot's keys, each key counted once. */
  function PendAll(pv: map<string, seq<Ref>>, names: seq<Option<string>>): seq<Ref>
    decreases |names|
  {
    if names == [] then [] else PendOf(pv, names[0]) + PendAll(Without(pv, names[0]), names[1..])
  }

  /**
   * Oradpi_CancelAndJoinAllForConn: snapshot, under the registry lock, the
   * statements whose entry belongs to co and their keys (in the table's
   * order, which the model leaves open and returns as keys and names);
   * then cancel each, wait for it without timeout, and forget its pending
   * variables in ip when there is an interpreter.
   */
  method CancelAndJoinAllForConn(ip: Interp?, reg: AsyncRegistry, drv: Driver, co: Conn?, runs: Stmt -> WorkerRun)
    returns (keys: seq<Stmt>, names: seq<Option<string>>)
    requires reg.Valid() && (ip != null ==> PendingsValid(ip)) && PendingsApart(ip)
    modifies reg`entries, drv`refs, drv`executed, drv`breaks, Interps(ip)`pendings, PendingObjects(ip)
    ensures reg.Valid() && (ip != null ==> PendingsValid(ip))
    ensures !old(reg.inited) || co == null ==>
      keys == [] && reg.entries == old(reg.entries) && drv.refs == old(drv.refs) &&
      drv.breaks == old(drv.breaks) && drv.executed == old(drv.executed)
    ensures |names| == |keys|
    ensures old(reg.inited) && co != null ==>
      (forall s :: s in old(reg.entries) && old(reg.entries[s]).owner == co <==> s in keys) &&
      forall j :: 0 <= j < |keys| ==> names[j] == old(reg.entries[keys[j]]).stmtKey
    ensures drv.refs == CancelRefs(old(drv.refs), old(reg.entries), old(PendView(ip)), keys, names)
    ensures drv.breaks == old(drv.breaks) + CancelBreaks(old(reg.entries), keys)
    ensures drv.executed == old(drv.executed) + CancelRuns(old(reg.entries), keys, runs)
    ensures co != null ==> forall s :: s in reg.entries ==> reg.entries[s].owner != co
    ensures forall s :: s in reg.entries ==> s in old(reg.entries) && reg.entries[s] == old(reg.entries[s])
    ensures forall s :: s in old(reg.entries) && old(reg.entries[s]).owner != co ==> s in reg.entries
    ensures ip != null && co != null ==>
      forall s :: s in old(reg.entries) && old(reg.entries[s]).owner == co ==> old(reg.entries[s]).stmtKey.value !in ip.pendings
    ensures ip != null ==> forall k :: k in ip.pendings ==> k in old(ip.pendings) && ip.pendings[k] == old(ip.pendings[k])
  {
    if !reg.inited || co == null {
      return [], [];
    }
    ghost var pv := PendView(ip);
    keys, names := reg.Snapshot(co);
    ghost var removed, forgotten := CancelEach(ip, reg, drv, keys, names, runs, pv);
  }

  /**
   * The second loop of Oradpi_CancelAndJoinAllForConn, over the snapshot
   * taken by the first: the entries of the snapshot's statements are gone
   * and no other, and so are the pending lists of the snapshot's keys;
   * each entry's references and pending variables are released, each
   * entry's session gets one break, and each running worker finishes.
   */
  method CancelEach(ip: Interp?, reg: AsyncRegistry, drv: Driver, keys: seq<Stmt>, names: seq<Option<string>>, runs: Stmt -> WorkerRun,
                    ghost pv: map<string, seq<Ref>>)
    returns (ghost removed: set<Stmt>, ghost forgotten: set<string>)
    requires |names| == |keys| && reg.Valid() && (ip != null ==> PendingsValid(ip)) && PendingsApart(ip) && pv == PendView(ip)
    modifies reg`entries, drv`refs, drv`executed, drv`breaks, Interps(ip)`pendings, PendingObjects(ip)
    ensures reg.Valid() && (ip != null ==> PendingsValid(ip))
    ensures reg.entries == old(reg.entries) - removed
    ensures (forall s :: s in removed ==> s in keys) && forall j :: 0 <= j < |keys| ==> keys[j] in removed
    ensures ip != null ==> ip.pendings == old(ip.pendings) - forgotten
    ensures (forall n :: n in forgotten ==> Some(n) in names) && forall j :: 0 <= j < |names| && names[j].Some? ==> names[j].value in forgotten
    ensures drv.refs == CancelRefs(old(drv.refs), old(reg.entries), pv, keys, names)
    ensures drv.breaks == old(drv.breaks) + CancelBreaks(old(reg.entries), keys)
    ensures drv.executed == old(drv.executed) + CancelRuns(old(reg.entries), keys, runs)
  {
    removed, forgotten := {}, {};
    var i := 0;
    while i < |keys|
      invariant 0 <= i <= |keys|
      invariant reg.Valid() && (ip != null ==> PendingsValid(ip)) && PendingsApart(ip)
      invariant reg.entries == old(reg.entries) - removed
      invariant removed == KeysBefore(keys, i)
      invariant ip != null ==> ip.pendings == old(ip.pendings) - forgotten
      invariant forgotten == NamesBefore(names, i)
      invariant PendingObjects(ip) <= old(PendingObjects(ip))
      invariant CancelRefs(drv.refs, reg.entries, PendView(ip), keys[i..], names[i..]) ==
        CancelRefs(old(drv.refs), old(reg.entries), pv, keys, names)
      invariant drv.breaks + CancelBreaks(reg.entries, keys[i..]) == old(drv.breaks) + CancelBreaks(old(reg.entries), keys)
      invariant drv.executed + CancelRuns(reg.entries, keys[i..], runs) == old(drv.executed) + CancelRuns(old(reg.entries), keys, runs)
    {
      ghost var xr := CancelRefs(drv.refs, reg.entries, PendView(ip), keys[i..], names[i..]);
      ghost var xb, xx := drv.breaks + CancelBreaks(reg.entries, keys[i..]), drv.executed + CancelRuns(reg.entries, keys[i..], runs);
      CancelNext(drv, reg, ip, keys, names, i, runs, PendView(ip));
      assert CancelRefs(drv.refs, reg.entries, PendView(ip), keys[i + 1..], names[i + 1..]) == xr;
      assert drv.breaks + CancelBreaks(reg.entries, keys[i + 1..]) == xb;
      assert drv.executed + CancelRuns(reg.entries, keys[i + 1..], runs) == xx;
      RemoveMore(old(reg.entries), removed, keys[i]);
      BeforeNext(keys, names, i);
      removed := removed + {keys[i]};
      if names[i].Some? {
        if ip != null {
          RemoveMore(old(ip.pendings), forgotten, names[i].value);
        }
        forgotten := forgotten + {names[i].value};
      }
      i := i + 1;
    }
    BeforeAll(keys, names);
  }

  /** The statements of the first i snapshot slots. */
  ghost function KeysBefore(keys: seq<Stmt>, i: nat): set<Stmt>
    requires i <= |keys|
  {
    set j | 0 <= j < i :: keys[j]
  }

  /** The keys named in the first i snapshot slots. */
  ghost function NamesBefore(names: seq<Option<string>>, i: nat): set<string>
    requires i <= |names|
  {
    set j | 0 <= j < i && names[j].Some? :: names[j].value
  }

  /** One more slot adds its statement and its key, if any. */
  lemma BeforeNext(keys: seq<Stmt>, names: seq<Option<string>>, i: nat)
    requires |names| == |keys| && i < |keys|
    ensures KeysBefore(keys, i + 1) == KeysBefore(keys, i) + {keys[i]}
    ensures NamesBefore(names, i + 1) == NamesBefore(names, i) + (if names[i].Some? then {names[i].value} else {})
  {
  }

  /** All slots: exactly the snapshot's statements and the keys it names. */
  lemma BeforeAll(keys: seq<Stmt>, names: seq<Option<string>>)
    requires |names| == |keys|
    ensures var r := KeysBefore(keys, |keys|);
      (forall s :: s in r ==> s in keys) && forall j :: 0 <= j < |keys| ==> keys[j] in r
    ensures var f := NamesBefore(names, |names|);
      (forall n :: n in f ==> Some(n) in names) && forall j :: 0 <= j < |names| && names[j].Some? ==> names[j].value in f
  {
  }

  /** One round of the second loop, with the three logs carried from keys[i..] to keys[i + 1..]. */
  method CancelNext(drv: Driver, reg: AsyncRegistry, ip: Interp?, keys: seq<Stmt>, names: seq<Option<string>>, i: nat, runs: Stmt -> WorkerRun,
                    ghost pv: map<string, seq<Ref>>)
    requires |names| == |keys| && i < |keys| && reg.Valid() && (ip != null ==> PendingsValid(ip)) && PendingsApart(ip) && pv == PendView(ip)
    modifies reg`entries, drv`refs, drv`executed, drv`breaks, Interps(ip)`pendings, PendingObjects(ip)
    ensures reg.Valid() && (ip != null ==> PendingsValid(ip)) && PendingsApart(ip)
    ensures reg.entries == old(reg.entries) - {keys[i]}
    ensures ip != null ==> ip.pendings == old(ip.pendings) - (if names[i].Some? then {names[i].value} else {})
    ensures PendingObjects(ip) <= old(PendingObjects(ip))
    ensures CancelRefs(drv.refs, reg.entries, PendView(ip), keys[i + 1..], names[i + 1..]) ==
      CancelRefs(old(drv.refs), old(reg.entries), pv, keys[i..], names[i..])
    ensures drv.breaks + CancelBreaks(reg.entries, keys[i + 1..]) == old(drv.breaks) + CancelBreaks(old(reg.entries), keys[i..])
    ensures drv.executed + CancelRuns(reg.entries, keys[i + 1..], runs) == old(drv.executed) + CancelRuns(old(reg.entries), keys[i..], runs)
  {
    ghost var r0, e0, b0, x0 := drv.refs, reg.entries, drv.breaks, drv.executed;
    CancelOne(ip, reg, drv, keys[i], names[i], runs(keys[i]), pv);
    CancelStep(r0, e0, pv, b0, x0, keys, names, i, runs, drv.refs, reg.entries, PendView(ip), drv.breaks, drv.executed);
  }

  /** One round moves the three snapshot walks from keys[i..] to keys[i + 1..]. */
  lemma CancelStep(r0: map<Ref, int>, e0: map<Stmt, AsyncEntry>, pv: map<string, seq<Ref>>, b0: seq<Ref>, x0: seq<Execution>,
                   keys: seq<Stmt>, names: seq<Option<string>>, i: nat, runs: Stmt -> WorkerRun,
                   r1: map<Ref, int>, e1: map<Stmt, AsyncEntry>, pv1: map<string, seq<Ref>>, b1: seq<Ref>, x1: seq<Execution>)
    requires |names| == |keys| && i < |keys|
    requires r1 == ReleasedAll(ReleasedAll(r0, HeldBy(EntryOf(e0, keys[i]))), PendOf(pv, names[i]))
    requires e1 == e0 - {keys[i]} && pv1 == Without(pv, names[i])
    requires b1 == b0 + BreakOf(EntryOf(e0, keys[i])) && x1 == x0 + RunOf(EntryOf(e0, keys[i]), runs(keys[i]))
    ensures CancelRefs(r1, e1, pv1, keys[i + 1..], names[i + 1..]) == CancelRefs(r0, e0, pv, keys[i..], names[i..])
    ensures b1 + CancelBreaks(e1, keys[i + 1..]) == b0 + CancelBreaks(e0, keys[i..])
    ensures x1 + CancelRuns(e1, keys[i + 1..], runs) == x0 + CancelRuns(e0, keys[i..], runs)
  {
    var ks, ns := keys[i..], names[i..];
    assert ks[0] == keys[i] && ks[1..] == keys[i + 1..];
    assert ns[0] == names[i] && ns[1..] == names[i + 1..];
    RefsUnfold(r0, e0, pv, ks, ns);
    BreaksUnfold(b0, e0, ks);
    RunsUnfold(x0, e0, ks, runs);
  }

  /** The first round of the reference walk, taken out of its definition. */
  lemma RefsUnfold(refs: map<Ref, int>, es: map<Stmt, AsyncEntry>, pv: map<string, seq<Ref>>, keys: seq<Stmt>, names: seq<Option<string>>)
    requires |names| == |keys| > 0
    ensures CancelRefs(refs, es, pv, keys, names) ==
      CancelRefs(ReleasedAll(ReleasedAll(refs, HeldBy(EntryOf(es, keys[0]))), PendOf(pv, names[0])),
        es - {keys[0]}, Without(pv, names[0]), keys[1..], names[1..])
  {
  }

  /** The first round of the break walk, after an earlier log. */
  lemma BreaksUnfold(b0: seq<Ref>, es: map<Stmt, AsyncEntry>, keys: seq<Stmt>)
    requires |keys| > 0
    ensures b0 + CancelBreaks(es, keys) == (b0 + BreakOf(EntryOf(es, keys[0]))) + CancelBreaks(es - {keys[0]}, keys[1..])
  {
    var head, rest := BreakOf(EntryOf(es, keys[0])), CancelBreaks(es - {keys[0]}, keys[1..]);
    assert CancelBreaks(es, keys) == head + rest;
    AppendAssoc(b0, head, rest);
  }

  /** The first round of the execution walk, after an earlier log. */
  lemma RunsUnfold(x0: seq<Execution>, es: map<Stmt, AsyncEntry>, keys: seq<Stmt>, runs: Stmt -> WorkerRun)
    requires |keys| > 0
    ensures x0 + CancelRuns(es, keys, runs) == (x0 + RunOf(EntryOf(es, keys[0]), runs(keys[0]))) + CancelRuns(es - {keys[0]}, keys[1..], runs)
  {
    var head, rest := RunOf(EntryOf(es, keys[0]), runs(keys[0])), CancelRuns(es - {keys[0]}, keys[1..], runs);
    assert CancelRuns(es, keys, runs) == head + rest;
    AppendAssoc(x0, head, rest);
  }

  /**
   * One round of the second loop of Oradpi_CancelAndJoinAllForConn: the
   * wait breaks the entry's session, lets its worker finish and releases
   * what the entry held; then the key's pending variables are released.
   */
  method CancelOne(ip: Interp?, reg: AsyncRegistry, drv: Driver, s: Stmt, name: Option<string>, run: WorkerRun, ghost pv: map<string, seq<Ref>>)
    requires reg.Valid() && (ip != null ==> PendingsValid(ip)) && PendingsApart(ip) && pv == PendView(ip)
    modifies reg`entries, drv`refs, drv`executed, drv`breaks, Interps(ip)`pendings, PendingObjects(ip)
    ensures reg.Valid() && (ip != null ==> PendingsValid(ip)) && PendingsApart(ip)
    ensures reg.entries == old(reg.entries) - {s}
    ensures ip != null ==> ip.pendings == old(ip.pendings) - (if name.Some? then {name.value} else {})
    ensures PendingObjects(ip) <= old(PendingObjects(ip))
    ensures PendView(ip) == Without(pv, name)
    ensures drv.refs == ReleasedAll(ReleasedAll(old(drv.refs), HeldBy(EntryOf(old(reg.entries), s))), PendOf(pv, name))
    ensures drv.breaks == old(drv.breaks) + BreakOf(EntryOf(old(reg.entries), s))
    ensures drv.executed == old(drv.executed) + RunOf(EntryOf(old(reg.entries), s), run)
  {
    CancelWait(reg, drv, s, run);
    assert PendView(ip) == pv;
    if ip != null && name.Some? {
      ForgetPendings(ip, name.value, drv, pv);
    }
  }

  /** The cancelling wait without timeout of one round: the entry is joined and gone. */
  method CancelWait(reg: AsyncRegistry, drv: Driver, s: Stmt, run: WorkerRun)
    requires reg.Valid()
    modifies reg`entries, drv`refs, drv`executed, drv`breaks
    ensures reg.Valid()
    ensures reg.entries == old(reg.entries) - {s}
    ensures drv.refs == ReleasedAll(old(drv.refs), HeldBy(EntryOf(old(reg.entries), s)))
    ensures drv.breaks == old(drv.breaks) + BreakOf(EntryOf(old(reg.entries), s))
    ensures drv.executed == old(drv.executed) + RunOf(EntryOf(old(reg.entries), s), run)
  {
    var _ := StmtWaitForAsync(reg, drv, s, true, -1, run);
  }

  /** Forgetting one key's pending variables, seen on the value view of all the lists. */
  method ForgetPendings(ip: Interp, key: string, drv: Driver, ghost pv: map<string, seq<Ref>>)
    requires PendingsValid(ip) && PendingsApart(ip) && pv == PendView(ip)
    modifies ip`pendings, drv`refs, PendingObjects(ip)
    ensures PendingsValid(ip) && PendingsApart(ip)
    ensures ip.pendings == old(ip.pendings) - {key}
    ensures PendView(ip) == pv - {key}
    ensures drv.refs == ReleasedAll(old(drv.refs), PendOf(pv, Some(key)))
  {
    ghost var before := ip.pendings;
    PendingsForget(ip, key, drv);
    forall k | k in ip.pendings
      ensures ip.pendings[k].Items() == pv[k]
    {
      assert key !in before || before[k] != before[key];
    }
  }
}
