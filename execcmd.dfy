/**
 * The commands of cmd_exec.c: oraexec runs a statement once; orasql
 * prepares new SQL text on the statement's connection and runs that;
 * oraplexec does the same with an optional PL/SQL block.  Every run first
 * binds again the values remembered for the statement (Exec.ExecOnce).
 */
module ExecCmd {
  import opened Wrappers
  import opened Tcl
  import opened Native
  import opened Pending
  import opened Handles
  import opened Status
  import opened State
  import opened BindState
  import opened Bind
  import opened BindCmd
  import opened ExecRules
  import opened Exec

  const ExecUsage: string := "statement-handle ?-commit?"
  const SqlUsage: string := "statement-handle SQL ?-commit?"
  const PlexecUsage: string := "statement-handle ?{PLSQL block}? ?-commit?"

  // ---------------------------------------------------------------------
  // Preparing new SQL text on the statement's connection
  // ---------------------------------------------------------------------

  /** dpiConn_prepareStmt's refusal, if any: the driver refuses a null connection. */
  function PrepareReply(conn: Option<Ref>, prepErr: Option<ErrorInfo>): (r: Option<ErrorInfo>)
    ensures conn.None? ==> r == Some(NullHandleError)
    ensures conn.Some? ==> r == prepErr
  {
    if conn.None? then Some(NullHandleError) else prepErr
  }

  /** The reference counts once r is prepared and the statement's previous native statement, if any, released. */
  function Reprepared(refs: map<Ref, int>, prev: Option<Ref>, r: Ref): map<Ref, int>
  {
    var m := refs[r := 1];
    if prev.Some? then m[prev.value := CountOf(m, prev.value) - 1] else m
  }

  /** A refused dpiConn_prepareStmt: the driver's error is recorded on the owner connection. */
  method PrepareRefused(co: Conn, ei: ErrorInfo) returns (o: Outcome)
    modifies co`msg, QueueOf(co)
    ensures o == DriverFailure(ei, "dpiConn_prepareStmt") && co.msg == DriverMsg(old(co.msg), ei, "dpiConn_prepareStmt")
  {
    o := SetErrorFromODPI(ConnH(co), ei, "dpiConn_prepareStmt");
  }

  /**
   * A successful dpiConn_prepareStmt: the new native statement replaces
   * the old one, whose reference is released, and the values remembered
   * for the statement are forgotten; its pending variables stay.
   */
  method Reprepare(ip: Interp, s: Stmt, key: string, drv: Driver, sql: string)
    requires drv.Valid() && (s.stmt.Some? ==> s.stmt.value.id < drv.next)
    modifies s`stmt, drv`refs, drv`next, drv`prepared, ip`binds
    ensures drv.Valid() && s.stmt == Some(Ref(StmtKind, old(drv.next))) && drv.next == old(drv.next) + 1
    ensures drv.refs == Reprepared(old(drv.refs), old(s.stmt), s.stmt.value)
    ensures drv.prepared == old(drv.prepared)[s.stmt.value := sql] && ip.binds == old(ip.binds) - {key}
    ensures old(PendingsValid(ip)) ==> PendingsValid(ip) && PendingsOf(ip, key) == old(PendingsOf(ip, key))
  {
    var r := drv.Prepare(sql);
    if s.stmt.Some? {
      drv.Release(s.stmt.value);
    }
    s.stmt := Some(r);
    BindStoreForget(ip, key);
  }

  /**
   * The run after a successful prepare: the new statement replaces the
   * old one (Reprepare), then runs once (Exec.ExecOnce) with nothing
   * remembered for it any more.  The view before the run is the one the
   * prepare left.
   */
  method RunReprepared(ip: Interp, s: Stmt, key: string, drv: Driver, doCommit: bool, sql: string,
                       answers: seq<BindAnswers>, ans: ExecAnswers)
    returns (o: Outcome, ghost before: View, ghost after: View, ghost msg0: Msg,
             ghost execs0: seq<Execution>, ghost msg: Msg, ghost execs: seq<Execution>, ghost stmt: Option<Ref>, ghost ac: bool,
             ghost prepared: map<Ref, string>)
    requires PendingsValid(ip) && drv.Valid() && AllIssued(PendingsOf(ip, key), drv.next)
    requires s.stmt.Some? ==> s.stmt.value.id < drv.next
    modifies s`stmt, s`msg, ip`binds, ip`pendings, (if key in ip.pendings then {ip.pendings[key]} else {})
    modifies drv`refs, drv`next, drv`prepared, drv`bound, drv`executed, QueueOf(PostTarget(StmtH(s)))
    ensures PendingsValid(ip) && drv.Valid()
    ensures stmt == Some(Ref(StmtKind, old(drv.next))) && prepared == old(drv.prepared)[stmt.value := sql]
    ensures before == View(old(ip.binds) - {key}, old(PendingsOf(ip, key)), old(drv.bound),
                           Reprepared(old(drv.refs), old(s.stmt), stmt.value), old(drv.next) + 1)
    ensures msg0 == old(s.msg) && execs0 == old(drv.executed) && ac == old(Autocommit(s.owner))
    ensures after == View(ip.binds, PendingsOf(ip, key), drv.bound, drv.refs, drv.next) && msg == s.msg && execs == drv.executed
    ensures if o.Ok? then ip.pendings == old(ip.pendings) - {key} else ip.pendings == old(ip.pendings)
    ensures ExecOnceDone(stmt, key, [], answers, ans, ac, doCommit, before, after, execs0, execs, msg0, msg, o)
  {
    ghost var items := PendingsOf(ip, key);
    ghost var next0 := drv.next;
    Reprepare(ip, s, key, drv, sql);
    prepared := drv.prepared;
    IssuedGrow(items, [], next0, drv.next);
    assert items + [] == items;
    o, before, after, msg0, execs0, msg, execs, stmt, ac := ExecOnce(ip, s, key, drv, doCommit, [], answers, ans);
  }

  /**
   * Oradpi_Cmd_StmtSql once the statement s is found under key, and
   * Oradpi_Cmd_Plexec given a block: prepare sql on the owner's
   * connection and, when the driver accepts it, run the new statement
   * once.  A refusal is recorded on the owner connection and changes
   * nothing else.
   */
  method PrepareRun(ip: Interp, s: Stmt, key: string, drv: Driver, doCommit: bool, sql: string, prepErr: Option<ErrorInfo>,
                    answers: seq<BindAnswers>, ans: ExecAnswers)
    returns (o: Outcome, err: Option<ErrorInfo>, ghost before: View, ghost after: View, ghost msg0: Msg,
             ghost execs0: seq<Execution>, ghost msg: Msg, ghost execs: seq<Execution>, ghost stmt: Option<Ref>, ghost ac: bool,
             ghost prepared: map<Ref, string>)
    requires PendingsValid(ip) && drv.Valid() && AllIssued(PendingsOf(ip, key), drv.next)
    requires s.owner != null && (s.stmt.Some? ==> s.stmt.value.id < drv.next)
    modifies s`stmt, s`msg, s.owner`msg, ip`binds, ip`pendings, (if key in ip.pendings then {ip.pendings[key]} else {})
    modifies drv`refs, drv`next, drv`prepared, drv`bound, drv`executed, QueueOf(s.owner)
    ensures PendingsValid(ip) && drv.Valid()
    ensures err == PrepareReply(old(s.owner.conn), prepErr)
    ensures err.Some? ==>
      o == DriverFailure(err.value, "dpiConn_prepareStmt") &&
      s.owner.msg == DriverMsg(old(s.owner.msg), err.value, "dpiConn_prepareStmt") &&
      s.stmt == old(s.stmt) && s.msg == old(s.msg) && ip.binds == old(ip.binds) && ip.pendings == old(ip.pendings) &&
      drv.refs == old(drv.refs) && drv.next == old(drv.next) && drv.prepared == old(drv.prepared) && drv.executed == old(drv.executed)
    ensures err.None? ==>
      stmt == Some(Ref(StmtKind, old(drv.next))) && prepared == old(drv.prepared)[stmt.value := sql] &&
      s.owner.msg == old(s.owner.msg) &&
      before == View(old(ip.binds) - {key}, old(PendingsOf(ip, key)), old(drv.bound),
                     Reprepared(old(drv.refs), old(s.stmt), stmt.value), old(drv.next) + 1) &&
      msg0 == old(s.msg) && execs0 == old(drv.executed) && ac == old(Autocommit(s.owner)) &&
      after == View(ip.binds, PendingsOf(ip, key), drv.bound, drv.refs, drv.next) && msg == s.msg && execs == drv.executed &&
      (if o.Ok? then ip.pendings == old(ip.pendings) - {key} else ip.pendings == old(ip.pendings))
    ensures err.None? ==> ExecOnceDone(stmt, key, [], answers, ans, ac, doCommit, before, after, execs0, execs, msg0, msg, o)
  {
    err := PrepareReply(s.owner.conn, prepErr);
    if err.Some? {
      o := PrepareRefused(s.owner, err.value);
      before := View(ip.binds, PendingsOf(ip, key), drv.bound, drv.refs, drv.next);
      after, msg0, execs0, msg, execs, stmt, ac, prepared := before, s.msg, drv.executed, s.msg, drv.executed, s.stmt, false, drv.prepared;
      return;
    }
    o, before, after, msg0, execs0, msg, execs, stmt, ac, prepared := RunReprepared(ip, s, key, drv, doCommit, sql, answers, ans);
  }

  // ---------------------------------------------------------------------
  // oraplexec's words after the handle
  // ---------------------------------------------------------------------

  /** The words oraplexec scans for options: everything after the handle (nothing when there is no handle). */
  function PlexecWords(objv: seq<Value>): (ws: seq<Value>)
    ensures |objv| >= 2 ==> ws == objv[2..]
    ensures |objv| < 2 ==> ws == []
  {
    if |objv| < 2 then [] else objv[2..]
  }

  /** The words other than "-commit", in order: the candidate PL/SQL blocks. */
  function Blocks(ws: seq<Value>): seq<Value>
  {
    if ws == [] then []
    else Blocks(ws[..|ws| - 1]) + (if IsCommit(ws[|ws| - 1]) then [] else [ws[|ws| - 1]])
  }

  /** Whether "-commit" appears among the words. */
  predicate HasCommit(ws: seq<Value>)
  {
    exists i :: 0 <= i < |ws| && IsCommit(ws[i])
  }

  /** One more word scanned: how the blocks and the commit flag of the prefix grow. */
  lemma WordsStep(ws: seq<Value>, k: nat)
    requires k < |ws|
    ensures Blocks(ws[..k + 1]) == Blocks(ws[..k]) + (if IsCommit(ws[k]) then [] else [ws[k]])
    ensures HasCommit(ws[..k + 1]) <==> HasCommit(ws[..k]) || IsCommit(ws[k])
  {
    assert ws[..k + 1][..k] == ws[..k];
    if HasCommit(ws[..k + 1]) && !IsCommit(ws[k]) {
      var i :| 0 <= i < k + 1 && IsCommit(ws[..k + 1][i]);
      assert ws[..k][i] == ws[i];
    }
    if HasCommit(ws[..k]) {
      var i :| 0 <= i < k && IsCommit(ws[..k][i]);
      assert ws[..k + 1][i] == ws[i];
    }
    if IsCommit(ws[k]) {
      assert ws[..k + 1][k] == ws[k];
    }
  }

  /** The block oraplexec prepares: the first word other than "-commit", if any. */
  function FirstBlock(ws: seq<Value>): Option<Value>
  {
    var b := Blocks(ws);
    if b == [] then None else Some(b[0])
  }

  /** Blocks keeps exactly the words other than "-commit". */
  lemma {:induction false} BlocksMembers(ws: seq<Value>)
    ensures forall v :: v in Blocks(ws) <==> exists i :: 0 <= i < |ws| && ws[i] == v && !IsCommit(v)
  {
    if ws != [] {
      var init := ws[..|ws| - 1];
      BlocksMembers(init);
      forall v
        ensures v in Blocks(ws) <==> exists i :: 0 <= i < |ws| && ws[i] == v && !IsCommit(v)
      {
        if v in Blocks(init) {
          var i :| 0 <= i < |init| && init[i] == v && !IsCommit(v);
          assert ws[i] == v;
        }
        if exists i :: 0 <= i < |ws| && ws[i] == v && !IsCommit(v) {
          var i :| 0 <= i < |ws| && ws[i] == v && !IsCommit(v);
          if i < |init| {
            assert init[i] == v;
          }
        }
      }
    }
  }

  /** A longer word list has at least as many blocks as its prefix. */
  lemma {:induction false} BlocksPrefix(ws: seq<Value>, n: nat)
    requires n <= |ws|
    ensures |Blocks(ws[..n])| <= |Blocks(ws)|
    decreases |ws|
  {
    if n < |ws| {
      var init := ws[..|ws| - 1];
      assert init[..n] == ws[..n];
      BlocksPrefix(init, n);
    } else {
      assert ws[..n] == ws;
    }
  }

  /**
   * The scanning loop of Oradpi_Cmd_Plexec: "-commit" (any number of
   * times) asks for a commit, the first other word is the block, and a
   * second other word is a usage error, reported as soon as it is met.
   */
  method PlexecOptions(objv: seq<Value>) returns (ok: bool, block: Option<Value>, doCommit: bool)
    ensures ok <==> |Blocks(PlexecWords(objv))| <= 1
    ensures ok ==> block == FirstBlock(PlexecWords(objv)) && doCommit == HasCommit(PlexecWords(objv))
    ensures |objv| >= 2 ==> ((ok <==> PlexecStart(objv).PlexecLookup?) &&
                             (ok ==> PlexecStart(objv) == PlexecLookup(1, block, doCommit)))
  {
    ghost var ws := PlexecWords(objv);
    block, doCommit := None, false;
    var argi := 2;
    assert ws[..0] == [];
    while argi < |objv|
      invariant 2 <= argi && (|objv| >= 2 ==> argi <= |objv|) && (|objv| < 2 ==> argi == 2)
      invariant argi - 2 <= |ws| && |Blocks(ws[..argi - 2])| <= 1
      invariant block == FirstBlock(ws[..argi - 2]) && doCommit == HasCommit(ws[..argi - 2])
      decreases |objv| - argi
    {
      assert objv[argi] == ws[argi - 2];
      WordsStep(ws, argi - 2);
      if Text(objv[argi]) == "-commit" {
        doCommit := true;
        argi := argi + 1;
        continue;
      }
      if block.None? {
        block := Some(objv[argi]);
        argi := argi + 1;
        continue;
      }
      BlocksPrefix(ws, argi - 1);
      return false, block, doCommit;
    }
    assert ws[..argi - 2] == ws;
    ok := true;
  }

  /** How Oradpi_Cmd_Plexec starts: a usage error, or the word naming the handle with the block and the commit flag. */
  datatype PlexecPlan = PlexecUsageError | PlexecLookup(word: nat, block: Option<Value>, doCommit: bool)

  /**
   * Oradpi_Cmd_Plexec's start as written: the option scan, then the lookup
   * of word 1 whatever the word count.
   */
  function PlexecStartAsWritten(objv: seq<Value>): (r: PlexecPlan)
    ensures r.PlexecLookup? <==> |Blocks(PlexecWords(objv))| <= 1
  {
    var ws := PlexecWords(objv);
    if |Blocks(ws)| > 1 then PlexecUsageError else PlexecLookup(1, FirstBlock(ws), HasCommit(ws))
  }

  /** With the command word alone, the start as written looks up a word that is not there. */
  lemma PlexecAsWrittenReadsPastEnd()
    ensures var objv := [Str("oraplexec")]; PlexecStartAsWritten(objv).PlexecLookup? && PlexecStartAsWritten(objv).word >= |objv|
  {
    assert Blocks(PlexecWords([Str("oraplexec")])) == [];
  }

  /** The start as evidently intended: fewer than two words is a usage error, like every other command. */
  function PlexecStart(objv: seq<Value>): (r: PlexecPlan)
  {
    var ws := PlexecWords(objv);
    if |objv| < 2 || |Blocks(ws)| > 1 then PlexecUsageError else PlexecLookup(1, FirstBlock(ws), HasCommit(ws))
  }

  /** The corrected start only looks up a word that exists, and otherwise agrees with the code as written. */
  lemma PlexecStartInBounds(objv: seq<Value>)
    ensures PlexecStart(objv).PlexecLookup? ==> PlexecStart(objv).word < |objv|
    ensures |objv| >= 2 ==> PlexecStart(objv) == PlexecStartAsWritten(objv)
  {
  }

  // ---------------------------------------------------------------------
  // The commands
  // ---------------------------------------------------------------------

  /** The words oraexec accepts after the handle: nothing, or "-commit". */
  predicate ExecWordsOk(objv: seq<Value>)
  {
    2 <= |objv| <= 3 && (|objv| == 3 ==> IsCommit(objv[2]))
  }

  /**
   * Oradpi_Cmd_Exec: "oraexec statement-handle ?-commit?".  A wrong word
   * count fails first, then an unknown handle, then a third word other
   * than -commit, each with nothing changed; otherwise the statement runs
   * once with its remembered values bound again (ExecOnceDone), committing
   * on success when -commit is given.  order is the order the bind
   * store's hash table hands out its entries.
   */
  method Oraexec(ip: Interp, drv: Driver, objv: seq<Value>, order: seq<string>, answers: seq<BindAnswers>, ans: ExecAnswers)
    returns (o: Outcome, ghost found: Option<(Stmt, string)>, ghost before: View, ghost after: View, ghost msg0: Msg,
             ghost execs0: seq<Execution>, ghost msg: Msg, ghost execs: seq<Execution>, ghost stmt: Option<Ref>, ghost ac: bool)
    requires |objv| >= 1 && PendingsValid(ip) && drv.Valid() && |order| <= |answers|
    requires |objv| >= 2 ==> AllIssued(PendingsOf(ip, Text(objv[1])), drv.next)
    requires |objv| >= 2 && Text(objv[1]) in ip.binds ==> Enumerates(order, ip.binds[Text(objv[1])])
    modifies ip`binds, ip`pendings, (if |objv| >= 2 then ListOf(ip, Text(objv[1])) else {})
    modifies drv`refs, drv`next, drv`bound, drv`executed, NamedStmt(ip, objv)`msg, NamedQueue(ip, objv)
    ensures PendingsValid(ip) && drv.Valid() && ip.stmts == old(ip.stmts)
    ensures found == None ==> unchanged(ip, drv) && unchanged(ip.stmts.Values)
    ensures !(2 <= |objv| <= 3) ==> o == WrongArgs(objv, ExecUsage) && found == None
    ensures 2 <= |objv| <= 3 && Text(objv[1]) !in ip.stmts ==>
      o == ClientFailure("invalid statement handle") && found == None
    ensures 2 <= |objv| <= 3 && Text(objv[1]) in ip.stmts && !ExecWordsOk(objv) ==>
      o == WrongArgs(objv, ExecUsage) && found == None
    ensures ExecWordsOk(objv) && Text(objv[1]) in ip.stmts ==> found == Some((ip.stmts[Text(objv[1])], Text(objv[1])))
    ensures found.Some? ==>
      var (s, key) := found.value;
      (if o.Ok? then ip.pendings == old(ip.pendings) - {key} else ip.pendings == old(ip.pendings)) &&
      before == View(old(ip.binds), old(PendingsOf(ip, key)), old(drv.bound), old(drv.refs), old(drv.next)) &&
      after == View(ip.binds, PendingsOf(ip, key), drv.bound, drv.refs, drv.next) &&
      msg0 == old(s.msg) && execs0 == old(drv.executed) && msg == s.msg && execs == drv.executed &&
      stmt == old(s.stmt) && ac == old(Autocommit(s.owner)) &&
      ExecOnceDone(stmt, key, order, answers, ans, ac, |objv| == 3, before, after, execs0, execs, msg0, msg, o)
  {
    before := View(ip.binds, [], drv.bound, drv.refs, drv.next);
    after, msg0, execs0, msg, execs, stmt, ac := before, ZeroMsg, [], ZeroMsg, [], None, false;
    if |objv| < 2 || |objv| > 3 {
      return WrongArgs(objv, ExecUsage), None, before, after, msg0, execs0, msg, execs, stmt, ac;
    }
    var key := Text(objv[1]);
    var s := LookupStmt(ip, key);
    if s == null {
      return ClientFailure("invalid statement handle"), None, before, after, msg0, execs0, msg, execs, stmt, ac;
    }
    if |objv| == 3 && Text(objv[2]) != "-commit" {
      return WrongArgs(objv, ExecUsage), None, before, after, msg0, execs0, msg, execs, stmt, ac;
    }
    found := Some((s, key));
    o, before, after, msg0, execs0, msg, execs, stmt, ac := ExecOnce(ip, s, key, drv, |objv| == 3, order, answers, ans);
  }

  /** The words orasql accepts after the SQL text: nothing, or "-commit". */
  predicate SqlWordsOk(objv: seq<Value>)
  {
    3 <= |objv| <= 4 && (|objv| == 4 ==> IsCommit(objv[3]))
  }

  /**
   * Oradpi_Cmd_StmtSql: "orasql statement-handle SQL ?-commit?".  A wrong
   * word count fails first, then an unknown handle, then a fourth word
   * other than -commit, each with nothing changed.  Otherwise the SQL text
   * is prepared on the statement's owner connection (PrepareRun): a
   * refusal is recorded there; on success the new statement replaces the
   * old one, its remembered values are forgotten, and it runs once.
   */
  method Orasql(ip: Interp, drv: Driver, objv: seq<Value>, prepErr: Option<ErrorInfo>, answers: seq<BindAnswers>, ans: ExecAnswers)
    returns (o: Outcome, ghost found: Option<(Stmt, string)>, ghost err: Option<ErrorInfo>, ghost before: View, ghost after: View,
             ghost msg0: Msg, ghost execs0: seq<Execution>, ghost msg: Msg, ghost execs: seq<Execution>, ghost stmt: Option<Ref>,
             ghost ac: bool, ghost prepared: map<Ref, string>)
    requires |objv| >= 1 && PendingsValid(ip) && drv.Valid()
    requires 3 <= |objv| <= 4 && Text(objv[1]) in ip.stmts ==>
      var s := ip.stmts[Text(objv[1])];
      s.owner != null && (s.stmt.Some? ==> s.stmt.value.id < drv.next) && AllIssued(PendingsOf(ip, Text(objv[1])), drv.next)
    modifies ip`binds, ip`pendings, (if |objv| >= 2 then ListOf(ip, Text(objv[1])) else {})
    modifies NamedStmt(ip, objv)`stmt, NamedStmt(ip, objv)`msg, NamedOwner(ip, objv)`msg
    modifies drv`refs, drv`next, drv`prepared, drv`bound, drv`executed, NamedOwnerQueue(ip, objv)
    ensures PendingsValid(ip) && drv.Valid() && ip.stmts == old(ip.stmts)
    ensures found == None ==> unchanged(ip, drv) && unchanged(ip.stmts.Values)
    ensures !(3 <= |objv| <= 4) ==> o == WrongArgs(objv, SqlUsage) && found == None
    ensures 3 <= |objv| <= 4 && Text(objv[1]) !in ip.stmts ==>
      o == ClientFailure("invalid statement handle") && found == None
    ensures 3 <= |objv| <= 4 && Text(objv[1]) in ip.stmts && !SqlWordsOk(objv) ==>
      o == WrongArgs(objv, SqlUsage) && found == None
    ensures SqlWordsOk(objv) && Text(objv[1]) in ip.stmts ==> found == Some((ip.stmts[Text(objv[1])], Text(objv[1])))
    ensures found.Some? ==>
      var (s, key) := found.value;
      err == PrepareReply(old(s.owner.conn), prepErr) &&
      (err.Some? ==>
        o == DriverFailure(err.value, "dpiConn_prepareStmt") &&
        s.owner.msg == DriverMsg(old(s.owner.msg), err.value, "dpiConn_prepareStmt") &&
        s.stmt == old(s.stmt) && s.msg == old(s.msg) && ip.binds == old(ip.binds) && ip.pendings == old(ip.pendings) &&
        drv.refs == old(drv.refs) && drv.next == old(drv.next) && drv.prepared == old(drv.prepared) && drv.executed == old(drv.executed)) &&
      (err.None? ==>
        stmt == Some(Ref(StmtKind, old(drv.next))) && prepared == old(drv.prepared)[stmt.value := Text(objv[2])] &&
        s.owner.msg == old(s.owner.msg) &&
        before == View(old(ip.binds) - {key}, old(PendingsOf(ip, key)), old(drv.bound),
                       Reprepared(old(drv.refs), old(s.stmt), stmt.value), old(drv.next) + 1) &&
        msg0 == old(s.msg) && execs0 == old(drv.executed) && ac == old(Autocommit(s.owner)) &&
        after == View(ip.binds, PendingsOf(ip, key), drv.bound, drv.refs, drv.next) && msg == s.msg && execs == drv.executed &&
        (if o.Ok? then ip.pendings == old(ip.pendings) - {key} else ip.pendings == old(ip.pendings)) &&
        ExecOnceDone(stmt, key, [], answers, ans, ac, |objv| == 4, before, after, execs0, execs, msg0, msg, o))
  {
    before := View(ip.binds, [], drv.bound, drv.refs, drv.next);
    after, msg0, execs0, msg, execs, stmt, ac, prepared, err := before, ZeroMsg, [], ZeroMsg, [], None, false, map[], None;
    if |objv| < 3 || |objv| > 4 {
      o, found := WrongArgs(objv, SqlUsage), None;
      return;
    }
    var key := Text(objv[1]);
    var s := LookupStmt(ip, key);
    if s == null {
      o, found := ClientFailure("invalid statement handle"), None;
      return;
    }
    if |objv| == 4 && Text(objv[3]) != "-commit" {
      o, found := WrongArgs(objv, SqlUsage), None;
      return;
    }
    found := Some((s, key));
    o, err, before, after, msg0, execs0, msg, execs, stmt, ac, prepared :=
      PrepareRun(ip, s, key, drv, |objv| == 4, Text(objv[2]), prepErr, answers, ans);
  }

  /**
   * The end of Oradpi_Cmd_Plexec once the statement s is found under key:
   * with a block, prepare it and run as orasql does (PrepareRun); without
   * one, run as oraexec does (ExecOnce).
   */
  method OraplexecStmt(ip: Interp, s: Stmt, key: string, drv: Driver, block: Option<Value>, doCommit: bool,
                       prepErr: Option<ErrorInfo>, order: seq<string>, answers: seq<BindAnswers>, ans: ExecAnswers)
    returns (o: Outcome, ghost err: Option<ErrorInfo>, ghost before: View, ghost after: View,
             ghost msg0: Msg, ghost execs0: seq<Execution>, ghost msg: Msg, ghost execs: seq<Execution>, ghost stmt: Option<Ref>,
             ghost ac: bool, ghost prepared: map<Ref, string>)
    requires PendingsValid(ip) && drv.Valid() && |order| <= |answers| && AllIssued(PendingsOf(ip, key), drv.next)
    requires block.Some? ==> s.owner != null && (s.stmt.Some? ==> s.stmt.value.id < drv.next)
    requires block.None? && key in ip.binds ==> Enumerates(order, ip.binds[key])
    modifies s`stmt, s`msg, ip`binds, ip`pendings, (if key in ip.pendings then {ip.pendings[key]} else {})
    modifies drv`refs, drv`next, drv`prepared, drv`bound, drv`executed
    modifies if s.owner != null then {s.owner} else {}`msg, QueueOf(s.owner)
    ensures PendingsValid(ip) && drv.Valid()
    ensures block.None? ==>
      (if o.Ok? then ip.pendings == old(ip.pendings) - {key} else ip.pendings == old(ip.pendings)) &&
      before == View(old(ip.binds), old(PendingsOf(ip, key)), old(drv.bound), old(drv.refs), old(drv.next)) &&
      after == View(ip.binds, PendingsOf(ip, key), drv.bound, drv.refs, drv.next) &&
      msg0 == old(s.msg) && execs0 == old(drv.executed) && msg == s.msg && execs == drv.executed &&
      stmt == old(s.stmt) && ac == old(Autocommit(s.owner)) &&
      ExecOnceDone(stmt, key, order, answers, ans, ac, doCommit, before, after, execs0, execs, msg0, msg, o)
    ensures block.Some? ==>
      err == PrepareReply(old(s.owner.conn), prepErr) &&
      (err.Some? ==>
        o == DriverFailure(err.value, "dpiConn_prepareStmt") &&
        s.owner.msg == DriverMsg(old(s.owner.msg), err.value, "dpiConn_prepareStmt") &&
        s.stmt == old(s.stmt) && s.msg == old(s.msg) && ip.binds == old(ip.binds) && ip.pendings == old(ip.pendings) &&
        drv.refs == old(drv.refs) && drv.next == old(drv.next) && drv.prepared == old(drv.prepared) && drv.executed == old(drv.executed)) &&
      (err.None? ==>
        stmt == Some(Ref(StmtKind, old(drv.next))) && prepared == old(drv.prepared)[stmt.value := Text(block.value)] &&
        s.owner.msg == old(s.owner.msg) &&
        before == View(old(ip.binds) - {key}, old(PendingsOf(ip, key)), old(drv.bound),
                       Reprepared(old(drv.refs), old(s.stmt), stmt.value), old(drv.next) + 1) &&
        msg0 == old(s.msg) && execs0 == old(drv.executed) && ac == old(Autocommit(s.owner)) &&
        after == View(ip.binds, PendingsOf(ip, key), drv.bound, drv.refs, drv.next) && msg == s.msg && execs == drv.executed &&
        (if o.Ok? then ip.pendings == old(ip.pendings) - {key} else ip.pendings == old(ip.pendings)) &&
        ExecOnceDone(stmt, key, [], answers, ans, ac, doCommit, before, after, execs0, execs, msg0, msg, o))
  {
    if block.Some? {
      o, err, before, after, msg0, execs0, msg, execs, stmt, ac, prepared :=
        PrepareRun(ip, s, key, drv, doCommit, Text(block.value), prepErr, answers, ans);
    } else {
      err, prepared := None, drv.prepared;
      o, before, after, msg0, execs0, msg, execs, stmt, ac := ExecOnce(ip, s, key, drv, doCommit, order, answers, ans);
    }
  }

  /**
   * Oradpi_Cmd_Plexec: "oraplexec statement-handle ?{PLSQL block}?
   * ?-commit?".  The words after the handle are scanned first (a second
   * block is a usage error), then the handle is looked up; an unknown
   * handle fails with nothing changed.  With a block the statement is
   * prepared anew and run as orasql does (PrepareRun); without one it runs
   * as oraexec does.  Fewer than two words is a usage error here (see
   * PlexecStart).
   */
  method Oraplexec(ip: Interp, drv: Driver, objv: seq<Value>, prepErr: Option<ErrorInfo>,
                   order: seq<string>, answers: seq<BindAnswers>, ans: ExecAnswers)
    returns (o: Outcome, ghost found: Option<(Stmt, string)>, ghost err: Option<ErrorInfo>, ghost before: View, ghost after: View,
             ghost msg0: Msg, ghost execs0: seq<Execution>, ghost msg: Msg, ghost execs: seq<Execution>, ghost stmt: Option<Ref>,
             ghost ac: bool, ghost prepared: map<Ref, string>, ghost plan: PlexecPlan)
    requires |objv| >= 1 && PendingsValid(ip) && drv.Valid() && |order| <= |answers|
    requires PlexecStart(objv).PlexecLookup? && Text(objv[1]) in ip.stmts ==>
      var s, key := ip.stmts[Text(objv[1])], Text(objv[1]);
      AllIssued(PendingsOf(ip, key), drv.next) &&
      (PlexecStart(objv).block.Some? ==> s.owner != null && (s.stmt.Some? ==> s.stmt.value.id < drv.next)) &&
      (PlexecStart(objv).block.None? && key in ip.binds ==> Enumerates(order, ip.binds[key]))
    modifies ip`binds, ip`pendings, (if |objv| >= 2 then ListOf(ip, Text(objv[1])) else {})
    modifies NamedStmt(ip, objv)`stmt, NamedStmt(ip, objv)`msg, NamedOwner(ip, objv)`msg
    modifies drv`refs, drv`next, drv`prepared, drv`bound, drv`executed, NamedOwnerQueue(ip, objv)
    ensures PendingsValid(ip) && drv.Valid() && ip.stmts == old(ip.stmts) && plan == PlexecStart(objv)
    ensures found == None ==> unchanged(ip, drv) && unchanged(ip.stmts.Values)
    ensures plan.PlexecUsageError? ==>
      o == WrongArgs(objv, PlexecUsage) && found == None
    ensures plan.PlexecLookup? && Text(objv[1]) !in ip.stmts ==>
      o == ClientFailure("invalid statement handle") && found == None
    ensures plan.PlexecLookup? && Text(objv[1]) in ip.stmts ==> found == Some((ip.stmts[Text(objv[1])], Text(objv[1])))
    ensures found.Some? && plan.block.None? ==>
      var (s, key) := found.value;
      (if o.Ok? then ip.pendings == old(ip.pendings) - {key} else ip.pendings == old(ip.pendings)) &&
      before == View(old(ip.binds), old(PendingsOf(ip, key)), old(drv.bound), old(drv.refs), old(drv.next)) &&
      after == View(ip.binds, PendingsOf(ip, key), drv.bound, drv.refs, drv.next) &&
      msg0 == old(s.msg) && execs0 == old(drv.executed) && msg == s.msg && execs == drv.executed &&
      stmt == old(s.stmt) && ac == old(Autocommit(s.owner)) &&
      ExecOnceDone(stmt, key, order, answers, ans, ac, plan.doCommit, before, after, execs0, execs, msg0, msg, o)
    ensures found.Some? && plan.block.Some? ==>
      var (s, key) := found.value;
      err == PrepareReply(old(s.owner.conn), prepErr) &&
      (err.Some? ==>
        o == DriverFailure(err.value, "dpiConn_prepareStmt") &&
        s.owner.msg == DriverMsg(old(s.owner.msg), err.value, "dpiConn_prepareStmt") &&
        s.stmt == old(s.stmt) && s.msg == old(s.msg) && ip.binds == old(ip.binds) && ip.pendings == old(ip.pendings) &&
        drv.refs == old(drv.refs) && drv.next == old(drv.next) && drv.prepared == old(drv.prepared) && drv.executed == old(drv.executed)) &&
      (err.None? ==>
        stmt == Some(Ref(StmtKind, old(drv.next))) && prepared == old(drv.prepared)[stmt.value := Text(plan.block.value)] &&
        s.owner.msg == old(s.owner.msg) &&
        before == View(old(ip.binds) - {key}, old(PendingsOf(ip, key)), old(drv.bound),
                       Reprepared(old(drv.refs), old(s.stmt), stmt.value), old(drv.next) + 1) &&
        msg0 == old(s.msg) && execs0 == old(drv.executed) && ac == old(Autocommit(s.owner)) &&
        after == View(ip.binds, PendingsOf(ip, key), drv.bound, drv.refs, drv.next) && msg == s.msg && execs == drv.executed &&
        (if o.Ok? then ip.pendings == old(ip.pendings) - {key} else ip.pendings == old(ip.pendings)) &&
        ExecOnceDone(stmt, key, [], answers, ans, ac, plan.doCommit, before, after, execs0, execs, msg0, msg, o))
  {
    plan := PlexecStart(objv);
    before := View(ip.binds, [], drv.bound, drv.refs, drv.next);
    after, msg0, execs0, msg, execs, stmt, ac, prepared, err := before, ZeroMsg, [], ZeroMsg, [], None, false, map[], None;
    var ok, block, doCommit := false, None, false;
    if |objv| >= 2 {
      ok, block, doCommit := PlexecOptions(objv);
    }
    if !ok {
      o, found := WrongArgs(objv, PlexecUsage), None;
      return;
    }
    var key := Text(objv[1]);
    var s := LookupStmt(ip, key);
    if s == null {
      o, found := ClientFailure("invalid statement handle"), None;
      return;
    }
    found := Some((s, key));
    o, err, before, after, msg0, execs0, msg, execs, stmt, ac, prepared :=
      OraplexecStmt(ip, s, key, drv, block, doCommit, prepErr, order, answers, ans);
  }
}
