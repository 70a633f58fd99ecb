/**
 * What oraexec, orasql, oraplexec and orabindexec's scalar path promise,
 * as values: the run of a bound statement (dpiStmt_getInfo, the commit
 * rule, dpiStmt_execute, the row count and statement type), the pairs
 * bound again from the bind store, and the views before and after.
 */
module ExecRules {
  import opened Wrappers
  import opened Tcl
  import opened Native
  import opened Pending
  import opened Handles
  import opened Status
  import opened State
  import opened BindState
  import opened Bind
  import opened BindCmd

  // ---------------------------------------------------------------------
  // Running a bound statement once
  // ---------------------------------------------------------------------

  /** dpiStmt_getInfo's answer: the driver refuses a null statement handle. */
  function InfoReply(stmt: Option<Ref>, ans: ExecAnswers): (r: Reply<StmtInfo>)
    ensures stmt.None? ==> r == Failed(NullHandleError)
    ensures stmt.Some? ==> r == ans.info
  {
    if stmt.None? then Failed(NullHandleError) else ans.info
  }

  /** The execution a run asks the driver for: none when the info call fails. */
  function RunExecs(stmt: Option<Ref>, autocommit: bool, doCommit: bool, ans: ExecAnswers): seq<Execution>
  {
    match InfoReply(stmt, ans)
    case Failed(_) => []
    case Done(info) => [Execution(stmt.value, 1, CommitOnSuccess(doCommit, autocommit, info), false)]
  }

  /** What a run returns: the info call's error, the execute call's error, or 0. */
  function RunOutcome(stmt: Option<Ref>, ans: ExecAnswers): Outcome
  {
    match InfoReply(stmt, ans)
    case Failed(e) => DriverFailure(e, "dpiStmt_getInfo")
    case Done(_) => if ans.execute.Some? then DriverFailure(ans.execute.value, "dpiStmt_execute") else Ok(Int(0))
  }

  /**
   * The statement's status block after a run: a failing call's error, or
   * the row count (when the driver reports one) and the statement type.
   */
  function RunMsg(msg0: Msg, stmt: Option<Ref>, ans: ExecAnswers): Msg
  {
    match InfoReply(stmt, ans)
    case Failed(e) => DriverMsg(msg0, e, "dpiStmt_getInfo")
    case Done(info) =>
      if ans.execute.Some? then DriverMsg(msg0, ans.execute.value, "dpiStmt_execute")
      else (if ans.rowCount.Some? then msg0.(rows := ans.rowCount.value) else msg0).(sqltype := StmtType(info))
  }

  /**
   * A run succeeds exactly when the statement exists, the info call
   * answers and the execution it asked for succeeds; it executes the
   * statement it was given at most once, with one iteration and no batch
   * errors, committing only when asked or under autocommit for DML and
   * PL/SQL; a success keeps the error fields of the status block, a
   * failure names its call and keeps the row count and statement type.
   */
  lemma RunSpec(msg0: Msg, stmt: Option<Ref>, autocommit: bool, doCommit: bool, ans: ExecAnswers)
    ensures var execs, o, m := RunExecs(stmt, autocommit, doCommit, ans), RunOutcome(stmt, ans), RunMsg(msg0, stmt, ans);
      (o.Ok? <==> stmt.Some? && ans.info.Done? && ans.execute.None?) &&
      (o.Ok? ==> o == Ok(Int(0)) && m.rc == msg0.rc && m.error == msg0.error && m.fn == msg0.fn &&
                 m.sqltype == StmtType(ans.info.value) && (ans.rowCount.Some? ==> m.rows == ans.rowCount.value)) &&
      (o.Error? ==> m.rows == msg0.rows && m.sqltype == msg0.sqltype &&
                    (m.fn == Some("dpiStmt_getInfo") || m.fn == Some("dpiStmt_execute"))) &&
      |execs| <= 1 && (execs != [] <==> stmt.Some? && ans.info.Done?) &&
      (execs != [] ==> execs[0].stmt == stmt.value && execs[0].iters == 1 && !execs[0].batchErrors &&
                       (execs[0].commitOnSuccess <==> doCommit || (autocommit && (ans.info.value.isDML || ans.info.value.isPLSQL))))
  {
  }

  /** Whether a word is the "-commit" option the running commands take. */
  predicate IsCommit(v: Value)
  {
    Text(v) == "-commit"
  }

  // ---------------------------------------------------------------------
  // Binding the remembered values again
  // ---------------------------------------------------------------------

  /** order lists the names of the store, each once: the order its hash table is walked in. */
  predicate Enumerates(order: seq<string>, store: map<string, Value>)
  {
    (forall k :: 0 <= k < |order| ==> order[k] in store) &&
    (forall n :: n in store ==> n in order) &&
    (forall j, k :: 0 <= j < k < |order| ==> order[j] != order[k])
  }

  /** The store's name/value pairs in the walk order. */
  function Entries(store: map<string, Value>, order: seq<string>): (r: seq<(string, Value)>)
    requires forall k :: 0 <= k < |order| ==> order[k] in store
    ensures |r| == |order| && forall k :: 0 <= k < |order| ==> r[k] == (order[k], store[order[k]])
  {
    seq(|order|, k requires 0 <= k < |order| => (order[k], store[order[k]]))
  }

  /** The pairs ExecOnce_WithRebind binds again: none when the statement has no store. */
  function RebindPairs(binds: map<string, map<string, Value>>, key: string, order: seq<string>): (r: seq<(string, Value)>)
    ensures |r| <= |order|
  {
    if key in binds && (forall k :: 0 <= k < |order| ==> order[k] in binds[key]) then Entries(binds[key], order) else []
  }

  /**
   * What rebinding did, from v0 (an empty local list) to v: the pairs
   * remembered under key bound as the shared loop binds them, or nothing
   * at all when the statement has no store; the store as it was.
   */
  ghost predicate Rebound(stmt: Option<Ref>, key: string, order: seq<string>, answers: seq<BindAnswers>,
                          v0: View, v: View, o: Outcome, msg0: Msg, msg: Msg)
    requires |order| <= |answers|
  {
    v.binds == v0.binds &&
    (key in v0.binds ==> PairsBound(stmt, key, RebindPairs(v0.binds, key, order), FromExec, answers, v0, v, o, msg0, msg)) &&
    (key !in v0.binds ==> o == Ok(Empty) && v == v0 && msg == msg0)
  }

  /** Remembering a prefix of a store's own entries leaves it as it was. */
  lemma StoredPrefixSelf(store: map<string, Value>, order: seq<string>, b: nat)
    requires Enumerates(order, store) && b <= |order|
    ensures Stored(store, Entries(store, order)[..b]) == store
  {
    var pairs := Entries(store, order)[..b];
    var m := Stored(store, pairs);
    forall n | n in m
      ensures n in store && m[n] == store[n]
    {
      StoredLastWins(store, pairs, n);
      if exists k :: 0 <= k < |pairs| && pairs[k].0 == n {
        var k :| 0 <= k < |pairs| && pairs[k].0 == n;
        assert order[k] == n;
        forall j | k < j < |pairs|
          ensures pairs[j].0 != n
        {
          assert pairs[j].0 == order[j];
        }
      }
    }
    forall n | n in store
      ensures n in m
    {
      StoredLastWins(store, pairs, n);
    }
  }

  // ---------------------------------------------------------------------
  // ExecOnce_WithRebind
  // ---------------------------------------------------------------------

  /**
   * What ExecOnce_WithRebind does, from the view before (its items being
   * the statement's pending list in the interpreter) to the view after:
   * the remembered pairs bound again in walk order, the store unchanged.
   * A failing bind ends the command with its error and nothing executed;
   * otherwise the statement runs once (RunOutcome, RunMsg, RunExecs).
   * Every variable the rebinding made is released on every path, and a
   * successful run also releases and forgets the statement's pending list
   * (the counts drop by what it held); a failed one leaves it.
   */
  ghost predicate ExecOnceDone(stmt: Option<Ref>, key: string, order: seq<string>, answers: seq<BindAnswers>, ans: ExecAnswers,
                               autocommit: bool, doCommit: bool, before: View, after: View,
                               execs0: seq<Execution>, execs: seq<Execution>, msg0: Msg, msg: Msg, o: Outcome)
    requires |order| <= |answers|
  {
    var pairs := RebindPairs(before.binds, key, order);
    var plans := PlanPairs(stmt, pairs, FromExec, answers, before.next);
    after.binds == before.binds && before.next <= after.next &&
    after.bound == before.bound + BindingsOf(stmt, plans[..BoundCount(plans)]) &&
    if FailureOf(plans).Some? then
      o == PairsResult(plans) && msg == PairsMsg(plans, msg0) && execs == execs0 &&
      after.items == before.items && (forall r :: CountOf(after.refs, r) == CountOf(before.refs, r))
    else
      plans == plans[..BoundCount(plans)] &&
      o == RunOutcome(stmt, ans) && msg == RunMsg(msg0, stmt, ans) && execs == execs0 + RunExecs(stmt, autocommit, doCommit, ans) &&
      if o.Ok? then after.items == [] && forall r :: CountOf(after.refs, r) == CountOf(before.refs, r) - Occurrences(before.items, r)
      else after.items == before.items && forall r :: CountOf(after.refs, r) == CountOf(before.refs, r)
  }

  /**
   * What running the rebound statement did once rebinding answered bound:
   * a failed bind is the outcome, with nothing run; otherwise the
   * statement ran once (RunOutcome, RunMsg, RunExecs).
   */
  ghost predicate RunDone(bound: Outcome, stmt: Option<Ref>, autocommit: bool, doCommit: bool, ans: ExecAnswers,
                          msg1: Msg, msg2: Msg, execs1: seq<Execution>, execs2: seq<Execution>, o: Outcome)
  {
    (bound.Error? ==> o == bound && msg2 == msg1 && execs2 == execs1) &&
    (bound.Ok? ==> o == RunOutcome(stmt, ans) && msg2 == RunMsg(msg1, stmt, ans) &&
                   execs2 == execs1 + RunExecs(stmt, autocommit, doCommit, ans))
  }

  /** Releasing the variables binding made from before.refs restores every count; releasing items too lowers them by items. */
  lemma ReleaseBalance(refs0: map<Ref, int>, refs1: map<Ref, int>, local: seq<Ref>, items: seq<Ref>)
    requires CountsAdd(refs1, refs0, local)
    ensures forall r :: CountOf(ReleasedAll(refs1, local), r) == CountOf(refs0, r)
    ensures forall r :: CountOf(ReleasedAll(ReleasedAll(refs1, local), items), r) == CountOf(refs0, r) - Occurrences(items, r)
  {
    forall r
      ensures CountOf(ReleasedAll(refs1, local), r) == CountOf(refs0, r)
      ensures CountOf(ReleasedAll(ReleasedAll(refs1, local), items), r) == CountOf(refs0, r) - Occurrences(items, r)
    {
      ReleasedAllCounts(refs1, local, r);
      ReleasedAllCounts(ReleasedAll(refs1, local), items, r);
    }
  }

  /**
   * The view after ExecOnce_WithRebind, from the view before, the view v
   * after rebinding and the outcome: the local list released, and on
   * success the statement's pending list released and forgotten as well.
   */
  ghost function AfterRun(before: View, v: View, o: Outcome): View
  {
    View(v.binds, if o.Ok? then [] else before.items, v.bound,
         if o.Ok? then ReleasedAll(ReleasedAll(v.refs, v.items), before.items) else ReleasedAll(v.refs, v.items), v.next)
  }

  /** The rebinding from v0 to v, the run and the releases that follow do what ExecOnceDone promises. */
  lemma ExecOnceFinish(stmt: Option<Ref>, key: string, order: seq<string>, answers: seq<BindAnswers>, ans: ExecAnswers,
                       autocommit: bool, doCommit: bool, before: View, v0: View, v: View,
                       execs0: seq<Execution>, execs: seq<Execution>, msg0: Msg, msg1: Msg, msg: Msg, bound: Outcome, o: Outcome)
    requires |order| <= |answers| && v0 == View(before.binds, [], before.bound, before.refs, before.next)
    requires Rebound(stmt, key, order, answers, v0, v, bound, msg0, msg1)
    requires RunDone(bound, stmt, autocommit, doCommit, ans, msg1, msg, execs0, execs, o)
    ensures ExecOnceDone(stmt, key, order, answers, ans, autocommit, doCommit, before, AfterRun(before, v, o), execs0, execs, msg0, msg, o)
  {
    var pairs := RebindPairs(before.binds, key, order);
    var plans := PlanPairs(stmt, pairs, FromExec, answers, before.next);
    var done := plans[..BoundCount(plans)];
    if key !in before.binds {
      assert pairs == [] && plans == [] && done == [];
      assert CountsAdd(v.refs, before.refs, v.items);
    } else {
      assert v.items == [] + KeptOf(done) && [] + KeptOf(done) == KeptOf(done);
    }
    ReleaseBalance(before.refs, v.refs, v.items, before.items);
  }
}
