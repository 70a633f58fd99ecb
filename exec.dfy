/**
 * cmd_exec.c's ExecOnce_WithRebind, which oraexec, orasql and oraplexec
 * end with: every value remembered for the statement bound again into a
 * pending list of its own (released afterwards), then the run itself
 * (dpiStmt_getInfo, the commit-mode rule, dpiStmt_execute, the row count
 * and statement type), which orabindexec's scalar path repeats word for
 * word.
 */
module Exec {
  import opened Wrappers
  import opened Tcl
  import opened Native
  import opened Pending
  import opened Handles
  import opened Status
  import opened State
  import opened BindState
  import opened Bind
  import opened BindCmd
  import opened ExecRules

  /**
   * The run that ends ExecOnce_WithRebind and orabindexec's scalar path:
   * dpiStmt_getInfo, dpiStmt_execute with commit-on-success by the commit
   * rule, then the row count and the statement type.  The driver's second
   * getInfo inside Oradpi_UpdateStmtType answers as the first.
   */
  method ExecuteOnce(s: Stmt, drv: Driver, doCommit: bool, ans: ExecAnswers, ghost q: set<EventQueue>,
                     ghost stmt: Option<Ref>, ghost autocommit: bool, ghost msg0: Msg, ghost execs0: seq<Execution>)
    returns (o: Outcome)
    requires q == QueueOf(PostTarget(StmtH(s))) && stmt == s.stmt && autocommit == Autocommit(s.owner)
    requires msg0 == s.msg && execs0 == drv.executed
    modifies s`msg, drv`executed, q
    ensures o == RunOutcome(stmt, ans) && s.msg == RunMsg(msg0, stmt, ans)
    ensures drv.executed == execs0 + RunExecs(stmt, autocommit, doCommit, ans)
  {
    var info := InfoReply(s.stmt, ans);
    if info.Failed? {
      o := SetErrorFromODPI(StmtH(s), info.err, "dpiStmt_getInfo");
      return;
    }
    var commit := CommitOnSuccess(doCommit, s.owner != null && s.owner.autocommit, info.value);
    drv.Execute(Execution(s.stmt.value, 1, commit, false));
    if ans.execute.Some? {
      o := SetErrorFromODPI(StmtH(s), ans.execute.value, "dpiStmt_execute");
      return;
    }
    if ans.rowCount.Some? {
      RecordRows(StmtH(s), ans.rowCount.value);
    }
    UpdateStmtType(s, Some(info.value));
    o := Ok(Int(0));
  }

  /**
   * RebindAllStored_Pending into a fresh local pending list (capacity 8):
   * every remembered pair bound again with the cmd_exec.c helpers,
   * stopping at the first failure.  Remembering the pairs again, as the
   * shared binding loop does, leaves the store as it was.
   */
  method Rebind(ip: Interp, key: string, s: Stmt, drv: Driver, order: seq<string>, answers: seq<BindAnswers>)
    returns (pr: PendingRefs, o: Outcome, ghost v0: View, ghost v: View)
    requires drv.Valid() && |order| <= |answers|
    requires key in ip.binds ==> Enumerates(order, ip.binds[key])
    modifies ip`binds, drv`refs, drv`next, drv`bound, s`msg, QueueOf(PostTarget(StmtH(s)))
    ensures fresh(pr) && fresh(pr.vars) && pr.Valid() && drv.Valid() && ip.binds == old(ip.binds)
    ensures v0 == View(old(ip.binds), [], old(drv.bound), old(drv.refs), old(drv.next))
    ensures v == View(ip.binds, pr.Items(), drv.bound, drv.refs, drv.next)
    ensures Rebound(old(s.stmt), key, order, answers, v0, v, o, old(s.msg), s.msg)
  {
    pr := new PendingRefs(ExecInitialCapacity);
    v0 := View(ip.binds, [], drv.bound, drv.refs, drv.next);
    var store := LookupBindStore(ip, key);
    if store.Some? {
      ghost var m := ip.binds[key];
      o := BindPairs(ip, key, s, pr, drv, Entries(store.value, order), FromExec, answers);
      ghost var plans := PlanPairs(old(s.stmt), Entries(m, order), FromExec, answers, v0.next);
      StoredPrefixSelf(m, order, BoundCount(plans));
    } else {
      o := Ok(Empty);
    }
    v := View(ip.binds, pr.Items(), drv.bound, drv.refs, drv.next);
  }

  /**
   * What the rest of ExecOnce_WithRebind does with the local list pr once
   * rebinding answered bound: on a failed bind only release pr; otherwise
   * run the statement and release pr.
   */
  method RunLocal(s: Stmt, drv: Driver, pr: PendingRefs, doCommit: bool, ans: ExecAnswers, bound: Outcome,
                  ghost local: seq<Ref>, ghost refs: map<Ref, int>, ghost msg1: Msg, ghost execs1: seq<Execution>,
                  ghost q: set<EventQueue>, ghost stmt: Option<Ref>, ghost autocommit: bool)
    returns (o: Outcome)
    requires drv.Valid() && pr.Valid() && AllIssued(local, drv.next)
    requires local == pr.Items() && refs == drv.refs && msg1 == s.msg && execs1 == drv.executed
    requires q == QueueOf(PostTarget(StmtH(s))) && stmt == s.stmt && autocommit == Autocommit(s.owner)
    modifies pr, drv`refs, drv`executed, s`msg, q
    ensures drv.Valid() && drv.refs == ReleasedAll(refs, local)
    ensures RunDone(bound, stmt, autocommit, doCommit, ans, msg1, s.msg, execs1, drv.executed, o)
  {
    if bound.Error? {
      pr.ReleaseFree(drv);
      o := bound;
    } else {
      o := ExecuteOnce(s, drv, doCommit, ans, q, stmt, autocommit, msg1, execs1);
      pr.ReleaseFree(drv);
    }
  }

  /**
   * The part of ExecOnce_WithRebind that does not touch the pending
   * lists: rebind into a fresh local list, run the statement unless a bind
   * failed, release the local list.  From the view before (its items the
   * statement's pending list, still untouched here) it reaches v, with
   * what the whole command promises holding of AfterRun(before, v, o).
   */
  method RebindRun(ip: Interp, key: string, s: Stmt, drv: Driver, doCommit: bool,
                   order: seq<string>, answers: seq<BindAnswers>, ans: ExecAnswers,
                   ghost q: set<EventQueue>, ghost stmt: Option<Ref>, ghost ac: bool,
                   ghost before: View, ghost msg0: Msg, ghost execs0: seq<Execution>)
    returns (o: Outcome, ghost v: View)
    requires drv.Valid() && |order| <= |answers|
    requires key in ip.binds ==> Enumerates(order, ip.binds[key])
    requires q == QueueOf(PostTarget(StmtH(s))) && stmt == s.stmt && ac == Autocommit(s.owner)
    requires before.binds == ip.binds && before.bound == drv.bound && before.refs == drv.refs && before.next == drv.next
    requires msg0 == s.msg && execs0 == drv.executed
    modifies ip`binds, drv`refs, drv`next, drv`bound, drv`executed, s`msg, q
    ensures drv.Valid() && ip.binds == v.binds && drv.bound == v.bound && drv.next == v.next && before.next <= v.next
    ensures drv.refs == ReleasedAll(v.refs, v.items)
    ensures ExecOnceDone(stmt, key, order, answers, ans, ac, doCommit, before, AfterRun(before, v, o), execs0, drv.executed, msg0, s.msg, o)
  {
    var pr, bound;
    ghost var v0;
    pr, bound, v0, v := Rebind(ip, key, s, drv, order, answers);
    ghost var msg1 := s.msg;
    o := RunLocal(s, drv, pr, doCommit, ans, bound, v.items, v.refs, msg1, execs0, q, stmt, ac);
    ExecOnceFinish(stmt, key, order, answers, ans, ac, doCommit, before, v0, v, execs0, drv.executed, msg0, msg1, s.msg, bound, o);
  }

  /**
   * The end of ExecOnce_WithRebind: after a successful run the statement's
   * pending variables (items) are released and forgotten; otherwise they
   * stay.
   */
  method ForgetOnSuccess(ip: Interp, key: string, drv: Driver, ok: bool, ghost items: seq<Ref>, ghost next0: nat)
    requires PendingsValid(ip) && drv.Valid() && items == PendingsOf(ip, key) && AllIssued(items, next0) && next0 <= drv.next
    modifies ip`pendings, (if key in ip.pendings then {ip.pendings[key]} else {}), drv`refs
    ensures PendingsValid(ip) && drv.Valid()
    ensures ok ==> ip.pendings == old(ip.pendings) - {key}
    ensures !ok ==> ip.pendings == old(ip.pendings)
    ensures PendingsOf(ip, key) == (if ok then [] else items)
    ensures drv.refs == if ok then ReleasedAll(old(drv.refs), items) else old(drv.refs)
  {
    if ok {
      IssuedGrow(items, [], next0, drv.next);
      assert items + [] == items;
      PendingsForget(ip, key, drv);
    }
  }

  /**
   * ExecOnce_WithRebind: bind the remembered values again into a local
   * pending list, run the statement once, release the local list on every
   * path, and on success forget the statement's pending variables too.
   */
  method ExecOnce(ip: Interp, s: Stmt, key: string, drv: Driver, doCommit: bool,
                  order: seq<string>, answers: seq<BindAnswers>, ans: ExecAnswers)
    returns (o: Outcome, ghost before: View, ghost after: View, ghost msg0: Msg, ghost execs0: seq<Execution>,
             ghost msg: Msg, ghost execs: seq<Execution>, ghost stmt: Option<Ref>, ghost ac: bool)
    requires PendingsValid(ip) && drv.Valid() && AllIssued(PendingsOf(ip, key), drv.next) && |order| <= |answers|
    requires key in ip.binds ==> Enumerates(order, ip.binds[key])
    modifies ip`binds, ip`pendings, (if key in ip.pendings then {ip.pendings[key]} else {})
    modifies drv`refs, drv`next, drv`bound, drv`executed, s`msg, QueueOf(PostTarget(StmtH(s)))
    ensures PendingsValid(ip) && drv.Valid()
    ensures o.Ok? ==> ip.pendings == old(ip.pendings) - {key}
    ensures o.Error? ==> ip.pendings == old(ip.pendings)
    ensures before == View(old(ip.binds), old(PendingsOf(ip, key)), old(drv.bound), old(drv.refs), old(drv.next))
    ensures msg0 == old(s.msg) && execs0 == old(drv.executed)
    ensures after == View(ip.binds, PendingsOf(ip, key), drv.bound, drv.refs, drv.next)
    ensures msg == s.msg && execs == drv.executed && stmt == old(s.stmt) && ac == old(Autocommit(s.owner))
    ensures ExecOnceDone(stmt, key, order, answers, ans, ac, doCommit, before, after, execs0, execs, msg0, msg, o)
  {
    before := View(ip.binds, PendingsOf(ip, key), drv.bound, drv.refs, drv.next);
    msg0, execs0 := s.msg, drv.executed;
    ghost var q := QueueOf(PostTarget(StmtH(s)));
    stmt, ac := s.stmt, Autocommit(s.owner);
    ghost var v;
    o, v := RebindRun(ip, key, s, drv, doCommit, order, answers, ans, q, stmt, ac, before, msg0, execs0);
    msg, execs := s.msg, drv.executed;
    after := AfterRun(before, v, o);
    ForgetOnSuccess(ip, key, drv, o.Ok?, before.items, before.next);
  }
}
