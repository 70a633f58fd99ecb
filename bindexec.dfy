/**
 * Oradpi_Cmd_Orabindexec (cmd_bind.c): "orabindexec statement-handle
 * ?-commit? ?-arraydml? :name value|list ...".  After the options, either
 * the leading ":name value" pairs are bound into the statement's pending
 * list and remembered, and the statement runs once; or, with -arraydml,
 * each ":name list" pair becomes an array variable and the statement runs
 * once per row (module ArrayDml).
 */
module BindExec {
  import opened Wrappers
  import opened Tcl
  import opened Native
  import opened Pending
  import opened Handles
  import opened Naming
  import opened Status
  import opened State
  import opened BindState
  import opened Bind
  import opened BindCmd
  import opened ExecRules
  import opened Exec
  import opened ArrayDml

  const OrabindexecUsage: string := "statement-handle ?-commit? ?-arraydml? :name value|list ..."

  // ---------------------------------------------------------------------
  // The options
  // ---------------------------------------------------------------------

  predicate IsArrayDml(v: Value)
  {
    Text(v) == "-arraydml"
  }

  /** The two words the option loop takes; the first other word ends it. */
  predicate IsOption(v: Value)
  {
    IsCommit(v) || IsArrayDml(v)
  }

  /** The option loop from word i: the word it stops at, and whether it met -commit and -arraydml. */
  function ScanOptions(objv: seq<Value>, i: nat): (nat, bool, bool)
    decreases |objv| - i
  {
    if i < |objv| && IsOption(objv[i]) then
      var r := ScanOptions(objv, i + 1);
      (r.0, r.1 || IsCommit(objv[i]), r.2 || IsArrayDml(objv[i]))
    else (i, false, false)
  }

  /**
   * The option loop stops at the first word from i on that is not an
   * option (or at the end), and reports each option exactly when it
   * appears before that word, any number of times and in any order.
   */
  lemma {:induction false} ScanOptionsSpec(objv: seq<Value>, i: nat)
    requires i <= |objv|
    ensures var (e, c, a) := ScanOptions(objv, i);
      i <= e <= |objv| && (e == |objv| || !IsOption(objv[e])) &&
      (forall j :: i <= j < e ==> IsOption(objv[j])) &&
      (c <==> exists j :: i <= j < e && IsCommit(objv[j])) &&
      (a <==> exists j :: i <= j < e && IsArrayDml(objv[j]))
    decreases |objv| - i
  {
    if i < |objv| && IsOption(objv[i]) {
      ScanOptionsSpec(objv, i + 1);
      var (e, c, a) := ScanOptions(objv, i + 1);
      if exists j :: i <= j < e && IsCommit(objv[j]) {
        var j :| i <= j < e && IsCommit(objv[j]);
        assert j == i || (i + 1 <= j < e && IsCommit(objv[j]));
      }
      if exists j :: i <= j < e && IsArrayDml(objv[j]) {
        var j :| i <= j < e && IsArrayDml(objv[j]);
        assert j == i || (i + 1 <= j < e && IsArrayDml(objv[j]));
      }
    }
  }

  /** The option loop of Oradpi_Cmd_Orabindexec, from word 2. */
  method BindexecOptions(objv: seq<Value>) returns (i: nat, doCommit: bool, arrayDml: bool)
    requires |objv| >= 2
    ensures (i, doCommit, arrayDml) == ScanOptions(objv, 2)
  {
    i, doCommit, arrayDml := 2, false, false;
    while i < |objv|
      invariant 2 <= i <= |objv|
      invariant var r := ScanOptions(objv, i); ScanOptions(objv, 2) == (r.0, doCommit || r.1, arrayDml || r.2)
      decreases |objv| - i
    {
      var opt := Text(objv[i]);
      if opt == "-commit" {
        doCommit := true;
        i := i + 1;
        continue;
      }
      if opt == "-arraydml" {
        arrayDml := true;
        i := i + 1;
        continue;
      }
      break;
    }
  }

  // ---------------------------------------------------------------------
  // The scalar path
  // ---------------------------------------------------------------------

  /**
   * The view orabindexec binds from, given the view before: the
   * statement's store made (empty when new); unlike orabind, the pending
   * variables already held stay in the list, unreleased.
   */
  function Opened(before: View, key: string): View
  {
    View(before.binds[key := if key in before.binds then before.binds[key] else map[]], before.items, before.bound,
         before.refs, before.next)
  }

  /** The start of the scalar path: GetPendings and GetBindStore, nothing released. */
  method OpenBinds(ip: Interp, key: string, drv: Driver) returns (pr: PendingRefs, ghost before: View, ghost v0: View)
    requires PendingsValid(ip)
    modifies ip`binds, ip`pendings
    ensures PendingsValid(ip) && key in ip.pendings && pr == ip.pendings[key]
    ensures ip.pendings == old(ip.pendings)[key := pr]
    ensures if key in old(ip.pendings) then pr == old(ip.pendings[key]) else fresh(pr) && fresh(pr.vars)
    ensures before == View(old(ip.binds), old(PendingsOf(ip, key)), drv.bound, drv.refs, drv.next)
    ensures v0 == Opened(before, key) && v0 == View(ip.binds, PendingsOf(ip, key), drv.bound, drv.refs, drv.next)
  {
    before := View(ip.binds, PendingsOf(ip, key), drv.bound, drv.refs, drv.next);
    pr := GetPendings(ip, key);
    GetBindStore(ip, key);
    v0 := View(ip.binds, pr.Items(), drv.bound, drv.refs, drv.next);
  }

  /**
   * What the scalar path of Oradpi_Cmd_Orabindexec does to the statement
   * found under key, from the view before to the view after: the pairs
   * are bound in turn onto the pending list and remembered, as orabind
   * binds them; a failed bind returns its error with the variables bound
   * so far left pending; otherwise the statement runs once (as
   * ExecOnce_WithRebind's run does) and every pending variable, old or
   * new, is released whatever the run's outcome.
   */
  ghost predicate BindexecDone(stmt: Option<Ref>, key: string, pairs: seq<(string, Value)>, answers: seq<BindAnswers>,
                               ans: ExecAnswers, autocommit: bool, doCommit: bool, before: View, after: View,
                               execs0: seq<Execution>, execs: seq<Execution>, msg0: Msg, msg: Msg, o: Outcome)
    requires |pairs| <= |answers|
  {
    var plans := PlanPairs(stmt, pairs, FromBind, answers, before.next);
    var done := plans[..BoundCount(plans)];
    var v0 := Opened(before, key);
    before.next <= after.next &&
    after.binds == v0.binds[key := Stored(v0.binds[key], pairs[..|done|])] &&
    after.bound == before.bound + BindingsOf(stmt, done) &&
    (FailureOf(plans).None? ==> done == plans) &&
    (PairsResult(plans).Error? ==>
      o == PairsResult(plans) && msg == PairsMsg(plans, msg0) && execs == execs0 &&
      after.items == before.items + KeptOf(done) && CountsAdd(after.refs, before.refs, KeptOf(done))) &&
    (PairsResult(plans).Ok? ==>
      o == RunOutcome(stmt, ans) && msg == RunMsg(msg0, stmt, ans) && execs == execs0 + RunExecs(stmt, autocommit, doCommit, ans) &&
      after.items == [] && forall r :: CountOf(after.refs, r) == CountOf(before.refs, r) - Occurrences(before.items, r))
  }

  /** Releasing the old and the new pending variables leaves each count lowered by the old ones alone. */
  lemma ReleaseAllPending(m0: map<Ref, int>, m1: map<Ref, int>, old_: seq<Ref>, kept: seq<Ref>)
    requires CountsAdd(m1, m0, kept)
    ensures forall r :: CountOf(ReleasedAll(m1, old_ + kept), r) == CountOf(m0, r) - Occurrences(old_, r)
  {
    forall r
      ensures CountOf(ReleasedAll(m1, old_ + kept), r) == CountOf(m0, r) - Occurrences(old_, r)
    {
      ReleasedAllCounts(m1, old_ + kept, r);
      OccurrencesAppend(old_, kept, r);
    }
  }

  /** PostTarget of a statement handle, from its name and owner alone. */
  function StmtTarget(name: string, owner: Conn?): Conn?
  {
    if RouteOf(name) == ToOwner then owner else null
  }

  /** The view after the end of the scalar path: after a run the list is emptied and every variable on it released. */
  function AfterBindexec(v: View, bound: Outcome): View
  {
    if bound.Ok? then Released(v) else v
  }

  /** The view once the list is emptied and every variable on it released. */
  function Released(v: View): View
  {
    View(v.binds, [], v.bound, ReleasedAll(v.refs, v.items), v.next)
  }

  /** Pendings_ReleaseAll on the statement's list, which keeps its buffer. */
  method ReleaseList(ip: Interp, key: string, drv: Driver, pr: PendingRefs, ghost v: View)
    requires PendingsValid(ip) && key in ip.pendings && pr == ip.pendings[key] && drv.Valid()
    requires v == View(ip.binds, PendingsOf(ip, key), drv.bound, drv.refs, drv.next) && AllIssued(v.items, v.next)
    modifies drv`refs, pr`n
    ensures PendingsValid(ip) && drv.Valid()
    ensures View(ip.binds, PendingsOf(ip, key), drv.bound, drv.refs, drv.next) == Released(v)
  {
    pr.ReleaseKeep(drv);
  }

  /** Binding from the opened view v0 to v, then (when every bind succeeded) the run and the release, does what BindexecDone says. */
  lemma BindexecFinish(stmt: Option<Ref>, key: string, pairs: seq<(string, Value)>, answers: seq<BindAnswers>,
                       ans: ExecAnswers, ac: bool, doCommit: bool, before: View, v0: View, v: View,
                       execs0: seq<Execution>, msg0: Msg, msg1: Msg, bound: Outcome,
                       after: View, execs: seq<Execution>, msg: Msg, o: Outcome)
    requires |pairs| <= |answers| && v0 == Opened(before, key)
    requires PairsBound(stmt, key, pairs, FromBind, answers, v0, v, bound, msg0, msg1)
    requires after == AfterBindexec(v, bound) && RunDone(bound, stmt, ac, doCommit, ans, msg1, msg, execs0, execs, o)
    ensures BindexecDone(stmt, key, pairs, answers, ans, ac, doCommit, before, after, execs0, execs, msg0, msg, o)
  {
    var plans := PlanPairs(stmt, pairs, FromBind, answers, before.next);
    var done := plans[..BoundCount(plans)];
    assert v.items == before.items + KeptOf(done);
    if bound.Ok? {
      ReleaseAllPending(before.refs, v.refs, before.items, KeptOf(done));
    }
  }

  /**
   * The end of the scalar path: when every pair was bound, the run, then
   * Pendings_ReleaseAll on the statement's list, after a failed run as
   * after a successful one; when a bind failed, nothing more.
   */
  method RunRelease(ip: Interp, key: string, s: Stmt, drv: Driver, pr: PendingRefs, bound: Outcome, doCommit: bool,
                    ans: ExecAnswers, ghost q: set<EventQueue>, ghost stmt: Option<Ref>, ghost ac: bool, ghost v: View,
                    ghost msg1: Msg, ghost execs0: seq<Execution>)
    returns (o: Outcome)
    requires PendingsValid(ip) && key in ip.pendings && pr == ip.pendings[key] && drv.Valid()
    requires v == View(ip.binds, PendingsOf(ip, key), drv.bound, drv.refs, drv.next) && AllIssued(v.items, v.next)
    requires q == QueueOf(StmtTarget(s.name, s.owner)) && stmt == s.stmt && ac == Autocommit(s.owner)
    requires msg1 == s.msg && execs0 == drv.executed
    modifies s`msg, drv`executed, drv`refs, pr`n, q
    ensures PendingsValid(ip) && drv.Valid()
    ensures View(ip.binds, PendingsOf(ip, key), drv.bound, drv.refs, drv.next) == AfterBindexec(v, bound)
    ensures RunDone(bound, stmt, ac, doCommit, ans, msg1, s.msg, execs0, drv.executed, o)
  {
    if bound.Error? {
      return bound;
    }
    assert PostTarget(StmtH(s)) == StmtTarget(s.name, s.owner);
    o := ExecuteOnce(s, drv, doCommit, ans, q, stmt, ac, msg1, execs0);
    ReleaseList(ip, key, drv, pr, v);
  }

  /**
   * The scalar path once the store and the list are open (v0): bind the
   * pairs onto the list and remember them, then run and release.
   */
  method BindexecOpened(ip: Interp, drv: Driver, s: Stmt, key: string, pr: PendingRefs, pairs: seq<(string, Value)>,
                        doCommit: bool, answers: seq<BindAnswers>, ans: ExecAnswers, ghost q: set<EventQueue>,
                        ghost stmt: Option<Ref>, ghost ac: bool, ghost before: View, ghost v0: View, ghost msg0: Msg,
                        ghost execs0: seq<Execution>)
    returns (o: Outcome)
    requires PendingsValid(ip) && drv.Valid() && key in ip.pendings && key in ip.binds && pr == ip.pendings[key]
    requires v0 == Opened(before, key) && v0 == View(ip.binds, PendingsOf(ip, key), drv.bound, drv.refs, drv.next)
    requires AllIssued(v0.items, v0.next) && |pairs| <= |answers|
    requires q == QueueOf(StmtTarget(s.name, s.owner)) && stmt == s.stmt && ac == Autocommit(s.owner)
    requires msg0 == s.msg && execs0 == drv.executed
    modifies ip`binds, pr, pr.vars, drv`refs, drv`next, drv`bound, drv`executed, s`msg, q
    ensures PendingsValid(ip) && drv.Valid() && ip.pendings == old(ip.pendings)
    ensures BindexecDone(stmt, key, pairs, answers, ans, ac, doCommit, before,
                         View(ip.binds, PendingsOf(ip, key), drv.bound, drv.refs, drv.next), execs0, drv.executed, msg0, s.msg, o)
  {
    assert PostTarget(StmtH(s)) == StmtTarget(s.name, s.owner);
    var bound; ghost var v;
    bound, v := BindPending(ip, key, s, drv, pairs, FromBind, answers, v0);
    ghost var msg1 := s.msg;
    o := RunRelease(ip, key, s, drv, pr, bound, doCommit, ans, q, stmt, ac, v, msg1, execs0);
    BindexecFinish(stmt, key, pairs, answers, ans, ac, doCommit, before, v0, v, execs0, msg0, msg1, bound,
                   View(ip.binds, PendingsOf(ip, key), drv.bound, drv.refs, drv.next), drv.executed, s.msg, o);
  }

  /**
   * The scalar path of Oradpi_Cmd_Orabindexec once the statement s is
   * found under key, from the view before: open the store and the list,
   * bind the pairs onto the list and remember them, then run and release
   * (BindexecDone).
   */
  method BindexecStmt(ip: Interp, drv: Driver, s: Stmt, key: string, pairs: seq<(string, Value)>, doCommit: bool,
                      answers: seq<BindAnswers>, ans: ExecAnswers, ghost q: set<EventQueue>, ghost stmt: Option<Ref>,
                      ghost ac: bool, ghost before: View, ghost msg0: Msg, ghost execs0: seq<Execution>)
    returns (o: Outcome)
    requires PendingsValid(ip) && drv.Valid() && AllIssued(before.items, before.next) && |pairs| <= |answers|
    requires before == View(ip.binds, PendingsOf(ip, key), drv.bound, drv.refs, drv.next)
    requires q == QueueOf(PostTarget(StmtH(s))) && stmt == s.stmt && ac == Autocommit(s.owner)
    requires msg0 == s.msg && execs0 == drv.executed
    modifies ip`binds, ip`pendings, (if key in ip.pendings then {ip.pendings[key], ip.pendings[key].vars} else {})
    modifies drv`refs, drv`next, drv`bound, drv`executed, s`msg, q
    ensures PendingsValid(ip) && drv.Valid() && key in ip.pendings
    ensures ip.pendings == old(ip.pendings)[key := ip.pendings[key]]
    ensures key in old(ip.pendings) ==> ip.pendings[key] == old(ip.pendings[key])
    ensures BindexecDone(stmt, key, pairs, answers, ans, ac, doCommit, before,
                         View(ip.binds, PendingsOf(ip, key), drv.bound, drv.refs, drv.next), execs0, drv.executed, msg0, s.msg, o)
  {
    assert PostTarget(StmtH(s)) == StmtTarget(s.name, s.owner);
    var pr; ghost var b, v0;
    pr, b, v0 := OpenBinds(ip, key, drv);
    o := BindexecOpened(ip, drv, s, key, pr, pairs, doCommit, answers, ans, q, stmt, ac, before, v0, msg0, execs0);
  }

  // ---------------------------------------------------------------------
  // The command
  // ---------------------------------------------------------------------

  /** The pairs the command binds: the leading pairs after the options. */
  function BindexecPairs(objv: seq<Value>): seq<(string, Value)>
    requires |objv| >= 2
  {
    LeadingPairs(objv, ScanOptions(objv, 2).0)
  }

  /** The -arraydml path once the statement s is found, from the driver's view d0. */
  method ArrayStmt(s: Stmt, drv: Driver, pairs: seq<(string, Value)>, doCommit: bool, answers: seq<BindAnswers>, ans: ExecAnswers,
                   ghost stmt: Option<Ref>, ghost ac: bool, ghost d0: ArrView, ghost msg0: Msg, ghost execs0: seq<Execution>)
    returns (o: Outcome, ghost d: ArrView, ghost vars: seq<Ref>)
    requires drv.Valid() && |pairs| <= |answers|
    requires CollectOutcome(pairs).None? ==> s.owner != null // dpiConn_newVar is called on s->owner->conn unchecked
    requires d0 == ArrView(drv.refs, drv.next, drv.arrays, drv.bound)
    requires stmt == s.stmt && ac == Autocommit(s.owner) && msg0 == s.msg && execs0 == drv.executed
    modifies drv`refs, drv`next, drv`arrays, drv`bound, drv`executed, s`msg, QueueOf(PostTarget(StmtH(s)))
    ensures drv.Valid()
    ensures ArrayPathDone(stmt, pairs, answers, ans, ac, doCommit, d0, d, vars, ArrView(drv.refs, drv.next, drv.arrays, drv.bound),
                          msg0, s.msg, execs0, drv.executed, o)
  {
    if CollectOutcome(pairs).Some? {
      // The path stops before it touches the connection; the owner may be null.
      var specs, err := CollectSpecs(pairs);
      o := if err.Some? then err.value else Failure(NoArrayPairs);
      d, vars := d0, [];
      return;
    }
    o, vars, d := ArrayPath(s, drv, pairs, doCommit, answers, ans, stmt, ac, d0, msg0, execs0, QueueOf(PostTarget(StmtH(s))));
  }

  /**
   * What Oradpi_Cmd_Orabindexec does once the statement is found under key
   * and the options read: with -arraydml, the array path (ArrayPathDone)
   * with the stores and pending lists left alone; without, the scalar path
   * (BindexecDone) with the array variables left alone.  The interpreter's
   * stores go from binds0 to binds and its pending lists from pendings0 to
   * pendings; the driver goes from the views before and d0 to after and fin.
   */
  ghost predicate FoundDone(key: string, pairs: seq<(string, Value)>, doCommit: bool, arrayDml: bool, answers: seq<BindAnswers>,
                            ans: ExecAnswers, stmt: Option<Ref>, ac: bool, before: View, after: View,
                            d0: ArrView, d: ArrView, vars: seq<Ref>, fin: ArrView,
                            binds0: map<string, map<string, Value>>, binds: map<string, map<string, Value>>,
                            pendings0: map<string, PendingRefs>, pendings: map<string, PendingRefs>,
                            msg0: Msg, msg: Msg, execs0: seq<Execution>, execs: seq<Execution>, o: Outcome)
    requires |pairs| <= |answers|
  {
    (arrayDml ==>
      binds == binds0 && pendings == pendings0 &&
      ArrayPathDone(stmt, pairs, answers, ans, ac, doCommit, d0, d, vars, fin, msg0, msg, execs0, execs, o)) &&
    (!arrayDml ==>
      key in pendings && pendings == pendings0[key := pendings[key]] && fin.arrays == d0.arrays &&
      BindexecDone(stmt, key, pairs, answers, ans, ac, doCommit, before, after, execs0, execs, msg0, msg, o))
  }

  /**
   * Oradpi_Cmd_Orabindexec once the statement s is found under key and
   * the options are read, from the interpreter's view before and the
   * driver's view d0: the -arraydml path (ArrayPathDone), which leaves the
   * stores and pending lists alone, or the scalar path (BindexecDone),
   * which leaves the array variables alone.
   */
  method BindexecFound(ip: Interp, drv: Driver, s: Stmt, key: string, pairs: seq<(string, Value)>, doCommit: bool,
                       arrayDml: bool, answers: seq<BindAnswers>, ans: ExecAnswers, ghost stmt: Option<Ref>, ghost ac: bool,
                       ghost before: View, ghost d0: ArrView, ghost msg0: Msg, ghost execs0: seq<Execution>)
    returns (o: Outcome, ghost d: ArrView, ghost vars: seq<Ref>)
    requires PendingsValid(ip) && drv.Valid() && |pairs| <= |answers|
    requires arrayDml && CollectOutcome(pairs).None? ==> s.owner != null
    requires before == View(ip.binds, PendingsOf(ip, key), drv.bound, drv.refs, drv.next) && AllIssued(before.items, before.next)
    requires d0 == ArrView(drv.refs, drv.next, drv.arrays, drv.bound)
    requires stmt == s.stmt && ac == Autocommit(s.owner) && msg0 == s.msg && execs0 == drv.executed
    modifies ip`binds, ip`pendings, (if key in ip.pendings then {ip.pendings[key], ip.pendings[key].vars} else {})
    modifies drv`refs, drv`next, drv`bound, drv`executed, drv`arrays, s`msg, QueueOf(PostTarget(StmtH(s)))
    ensures PendingsValid(ip) && drv.Valid()
    ensures FoundDone(key, pairs, doCommit, arrayDml, answers, ans, stmt, ac, before,
                      View(ip.binds, PendingsOf(ip, key), drv.bound, drv.refs, drv.next), d0, d, vars,
                      ArrView(drv.refs, drv.next, drv.arrays, drv.bound), old(ip.binds), ip.binds, old(ip.pendings), ip.pendings,
                      msg0, s.msg, execs0, drv.executed, o)
  {
    d, vars := d0, [];
    if arrayDml {
      o, d, vars := ArrayStmt(s, drv, pairs, doCommit, answers, ans, stmt, ac, d0, msg0, execs0);
    } else {
      o := BindexecStmt(ip, drv, s, key, pairs, doCommit, answers, ans, QueueOf(PostTarget(StmtH(s))), stmt, ac, before, msg0, execs0);
    }
  }

  /**
   * Oradpi_Cmd_Orabindexec.  Fewer than two words, or an unknown handle,
   * fail with nothing changed.  Otherwise the options are read; with
   * -arraydml the array path runs (ArrayPathDone) and the interpreter's
   * stores and pending lists stay as they were; without it the scalar path
   * runs (BindexecDone).
   */
  method Orabindexec(ip: Interp, drv: Driver, objv: seq<Value>, answers: seq<BindAnswers>, ans: ExecAnswers, ghost q: set<EventQueue>)
    returns (o: Outcome, ghost found: Option<(Stmt, string)>, ghost stmt: Option<Ref>, ghost ac: bool, ghost msg0: Msg,
             ghost execs0: seq<Execution>, ghost before: View, ghost d0: ArrView, ghost d: ArrView, ghost vars: seq<Ref>)
    requires |objv| >= 2 && Text(objv[1]) in ip.stmts ==> QueueOf(PostTarget(StmtH(ip.stmts[Text(objv[1])]))) <= q
    requires |objv| >= 1 && PendingsValid(ip) && drv.Valid()
    requires |objv| >= 2 ==> |BindexecPairs(objv)| <= |answers| && AllIssued(PendingsOf(ip, Text(objv[1])), drv.next)
    requires |objv| >= 2 && Text(objv[1]) in ip.stmts && ScanOptions(objv, 2).2 && CollectOutcome(BindexecPairs(objv)).None? ==>
      ip.stmts[Text(objv[1])].owner != null
    modifies ip`binds, ip`pendings
    modifies if |objv| >= 2 then HeldList(ip, Text(objv[1])) else {}
    modifies drv`refs, drv`next, drv`bound, drv`executed, drv`arrays, NamedStmt(ip, objv)`msg
    modifies q
    ensures PendingsValid(ip) && drv.Valid() && ip.stmts == old(ip.stmts)
    ensures |objv| < 2 ==> o == WrongArgs(objv, OrabindexecUsage) && found == None && unchanged(ip, drv) && unchanged(ip.stmts.Values)
    ensures |objv| >= 2 && Text(objv[1]) !in ip.stmts ==>
      o == ClientFailure("invalid statement handle") && found == None && unchanged(ip, drv) && unchanged(ip.stmts.Values)
    ensures |objv| >= 2 && Text(objv[1]) in ip.stmts ==> found == Some((ip.stmts[Text(objv[1])], Text(objv[1])))
    ensures found.Some? ==>
      var (s, key) := found.value;
      stmt == old(s.stmt) && ac == old(Autocommit(s.owner)) && msg0 == old(s.msg) && execs0 == old(drv.executed) &&
      before == View(old(ip.binds), old(PendingsOf(ip, key)), old(drv.bound), old(drv.refs), old(drv.next)) &&
      d0 == ArrView(old(drv.refs), old(drv.next), old(drv.arrays), old(drv.bound))
    ensures found.Some? ==>
      var (s, key) := found.value;
      FoundDone(key, BindexecPairs(objv), ScanOptions(objv, 2).1, ScanOptions(objv, 2).2, answers, ans, stmt, ac, before,
                View(ip.binds, PendingsOf(ip, key), drv.bound, drv.refs, drv.next), d0, d, vars,
                ArrView(drv.refs, drv.next, drv.arrays, drv.bound), old(ip.binds), ip.binds, old(ip.pendings), ip.pendings,
                msg0, s.msg, execs0, drv.executed, o)
  {
    before := View(ip.binds, [], drv.bound, drv.refs, drv.next);
    d0 := ArrView(drv.refs, drv.next, drv.arrays, drv.bound);
    stmt, ac, msg0, execs0, d, vars := None, false, ZeroMsg, [], d0, [];
    if |objv| < 2 {
      return WrongArgs(objv, OrabindexecUsage), None, stmt, ac, msg0, execs0, before, d0, d, vars;
    }
    var key := Text(objv[1]);
    var s := LookupStmt(ip, key);
    if s == null {
      return ClientFailure("invalid statement handle"), None, stmt, ac, msg0, execs0, before, d0, d, vars;
    }
    found := Some((s, key));
    stmt, ac, msg0, execs0 := s.stmt, Autocommit(s.owner), s.msg, drv.executed;
    before := View(ip.binds, PendingsOf(ip, key), drv.bound, drv.refs, drv.next);
    var i, doCommit, arrayDml := BindexecOptions(objv);
    o, d, vars := BindexecFound(ip, drv, s, key, LeadingPairs(objv, i), doCommit, arrayDml, answers, ans,
                                stmt, ac, before, d0, msg0, execs0);
  }
}
