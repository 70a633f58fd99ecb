/**
 * Freeing statements and tearing down an interpreter's state (state.c):
 * a statement first settles its asynchronous execution, then closes and
 * releases its native statement; the interpreter's tables are emptied
 * LOBs first, then statements, then connections.
 */
module Teardown {
  import opened Wrappers
  import opened Native
  import opened Handles
  import opened Directory
  import opened State
  import opened Async

  /** The timeout Oradpi_FreeStmt passes to Oradpi_StmtWaitForAsync, commented there as "no timeout". */
  const FreeStmtTimeoutAsWritten: int := 0

  /** A wait that never gives up: what "no timeout" means to Oradpi_StmtWaitForAsync. */
  const NoTimeout: int := -1

  /**
   * Oradpi_FreeStmt as written: the asynchronous wait is given timeout 0,
   * so a worker that has not finished at the first poll is abandoned: the
   * entry stays registered and running, still holding its references,
   * while the statement is closed and released under it.
   */
  method FreeStmtAsWritten(reg: AsyncRegistry, drv: Driver, s: Stmt, run: WorkerRun)
    requires reg.Valid()
    modifies s`stmt, reg`entries, drv`refs, drv`executed, drv`breaks, drv`closed
    ensures reg.Valid() && s.stmt == None
    ensures drv.closed == old(drv.closed) + Present(old(s.stmt))
    ensures old(s.stmt).Some? && old(reg.Lookup(s)).Some? && old(reg.Lookup(s)).value.running && run.finishAt > 0 ==>
      reg.Lookup(s).Some? && reg.Lookup(s).value.running && Held(reg.Lookup(s).value) == Held(old(reg.Lookup(s)).value)
  {
    if s.stmt.Some? {
      var st := s.stmt.value;
      if run.finishAt > 0 {
        ZeroTimeoutAbandons(run.finishAt);
      }
      var _ := StmtWaitForAsync(reg, drv, s, true, FreeStmtTimeoutAsWritten, run);
      drv.Close(st);
      drv.Release(st);
      s.stmt := None;
    }
  }

  /**
   * Oradpi_FreeStmt with the wait it means ("no timeout"): cancel and join
   * any asynchronous execution, releasing the entry's references, then
   * close and release the native statement.
   */
  method FreeStmt(reg: AsyncRegistry, drv: Driver, s: Stmt, run: WorkerRun)
    requires reg.Valid()
    modifies s`stmt, reg`entries, drv`refs, drv`executed, drv`breaks, drv`closed
    ensures reg.Valid() && s.stmt == None
    ensures drv.closed == old(drv.closed) + Present(old(s.stmt))
    ensures old(s.stmt).Some? ==> reg.entries == old(reg.entries) - {s} && reg.Lookup(s).None?
    ensures old(s.stmt).None? ==> reg.entries == old(reg.entries)
    ensures drv.refs == ReleasedAll(old(drv.refs),
      if old(s.stmt).Some? then (if old(reg.Lookup(s)).Some? then Held(old(reg.Lookup(s)).value) else []) + [old(s.stmt).value]
      else [])
    ensures drv.breaks == old(drv.breaks) + (if old(s.stmt).Some? then BreakOf(old(reg.Lookup(s))) else [])
    ensures drv.executed == old(drv.executed) + (if old(s.stmt).Some? then RunOf(old(reg.Lookup(s)), run) else [])
  {
    if s.stmt.Some? {
      var st := s.stmt.value;
      ghost var prior := reg.Lookup(s);
      ghost var held := if prior.Some? then Held(prior.value) else [];
      var _ := StmtWaitForAsync(reg, drv, s, true, NoTimeout, run);
      assert drv.refs == ReleasedAll(old(drv.refs), held);
      ghost var m := drv.refs;
      drv.Close(st);
      drv.Release(st);
      ReleasedOne(m, st);
      ReleasedAllAppend(old(drv.refs), held, [st]);
      s.stmt := None;
    }
  }

  /** The phase of teardown in which a native object of each kind is closed. */
  function Rank(r: Ref): nat
  {
    match r.kind
    case LobKind => 0
    case StmtKind => 1
    case _ => 2
  }

  /** Close calls listed in teardown order: no object of a later phase before one of an earlier phase. */
  predicate RankOrdered(rs: seq<Ref>)
  {
    forall i, j :: 0 <= i < j < |rs| ==> Rank(rs[i]) <= Rank(rs[j])
  }

  /** Appending objects of one phase to a log ordered up to that phase keeps it ordered. */
  lemma {:induction false} RankOrderedAppend(rs: seq<Ref>, more: seq<Ref>, p: nat)
    requires RankOrdered(rs) && (forall i :: 0 <= i < |rs| ==> Rank(rs[i]) <= p)
    requires forall i :: 0 <= i < |more| ==> Rank(more[i]) == p
    ensures RankOrdered(rs + more) && forall i :: 0 <= i < |rs + more| ==> Rank((rs + more)[i]) <= p
  {
    forall i, j | 0 <= i < j < |rs + more|
      ensures Rank((rs + more)[i]) <= Rank((rs + more)[j])
    {
      if j >= |rs| {
        assert (rs + more)[j] == more[j - |rs|];
        if i < |rs| {
          assert (rs + more)[i] == rs[i];
        } else {
          assert (rs + more)[i] == more[i - |rs|];
        }
      } else {
        assert (rs + more)[i] == rs[i] && (rs + more)[j] == rs[j];
      }
    }
  }

  /** Every LOB handle holds a native LOB, if any. */
  ghost predicate LobsTyped(ip: Interp)
    reads ip, ip.lobs.Values
  {
    forall k :: k in ip.lobs && ip.lobs[k].lob.Some? ==> ip.lobs[k].lob.value.kind == LobKind
  }

  /** Every statement handle holds a native statement, if any. */
  ghost predicate StmtsTyped(ip: Interp)
    reads ip, ip.stmts.Values
  {
    forall k :: k in ip.stmts && ip.stmts[k].stmt.Some? ==> ip.stmts[k].stmt.value.kind == StmtKind
  }

  /** Every connection handle holds a native session and a native pool, if any. */
  ghost predicate ConnsTyped(ip: Interp)
    reads ip, ip.conns.Values
  {
    (forall k :: k in ip.conns && ip.conns[k].conn.Some? ==> ip.conns[k].conn.value.kind == ConnKind) &&
    (forall k :: k in ip.conns && ip.conns[k].pool.Some? ==> ip.conns[k].pool.value.kind == PoolKind)
  }

  /**
   * The lists of the keys of order, one after another: what a loop over a
   * table does when it visits the keys in that order (a key with no list
   * adds nothing).
   */
  function Gather<T>(per: map<string, seq<T>>, order: seq<string>): seq<T>
    decreases |order|
  {
    if order == [] then []
    else
      var k := order[|order| - 1];
      Gather(per, order[..|order| - 1]) + (if k in per then per[k] else [])
  }

  /** Visiting the key at index i appends its list to what the keys before it gathered. */
  lemma GatherStep<T>(per: map<string, seq<T>>, order: seq<string>, i: nat)
    requires i < |order| && order[i] in per
    ensures Gather(per, order[..i + 1]) == Gather(per, order[..i]) + per[order[i]]
  {
    assert order[..i + 1][..i] == order[..i];
  }

  /** The entries of table under the keys of order, in that order. */
  function Pick<T>(table: map<string, T>, order: seq<string>): (r: seq<T>)
    requires forall j :: 0 <= j < |order| ==> order[j] in table
    ensures |r| == |order| && forall j :: 0 <= j < |order| ==> r[j] == table[order[j]]
    decreases |order|
  {
    if order == [] then [] else Pick(table, order[..|order| - 1]) + [table[order[|order| - 1]]]
  }

  /** What f gives for each element of xs, in order. */
  function Images<S, T>(xs: seq<S>, f: S -> T): (r: seq<T>)
    ensures |r| == |xs| && forall j :: 0 <= j < |xs| ==> r[j] == f(xs[j])
    decreases |xs|
  {
    if xs == [] then [] else Images(xs[..|xs| - 1], f) + [f(xs[|xs| - 1])]
  }

  /** The lists f gives the elements of xs, one after another: a loop over xs in order. */
  function Each<S, T>(xs: seq<S>, f: S -> seq<T>): seq<T>
    decreases |xs|
  {
    if xs == [] then [] else Each(xs[..|xs| - 1], f) + f(xs[|xs| - 1])
  }

  /** Visiting the element at index i appends its list to what the elements before it gave. */
  lemma EachStep<S, T>(xs: seq<S>, i: nat, f: S -> seq<T>)
    requires i < |xs|
    ensures Each(xs[..i + 1], f) == Each(xs[..i], f) + f(xs[i])
  {
    assert xs[..i + 1][..i] == xs[..i];
  }

  /** Gathering a table's lists in an order is a loop over the entries in that order. */
  lemma {:induction false} GatherEach<S, T>(per: map<string, seq<T>>, order: seq<string>, xs: seq<S>, f: S -> seq<T>)
    requires |xs| == |order|
    requires forall j :: 0 <= j < |order| ==> order[j] in per && per[order[j]] == f(xs[j])
    ensures Gather(per, order) == Each(xs, f)
    decreases |order|
  {
    if order != [] {
      GatherEach(per, order[..|order| - 1], xs[..|xs| - 1], f);
    }
  }

  /** Every element of a visited key's list is in the gathered list. */
  lemma {:induction false} GatherHas<T>(per: map<string, seq<T>>, order: seq<string>, k: string, x: T)
    requires k in order && k in per && x in per[k]
    ensures x in Gather(per, order)
    decreases |order|
  {
    var last := order[|order| - 1];
    if last != k {
      assert k in order[..|order| - 1] by {
        var i :| 0 <= i < |order| && order[i] == k;
        assert order[..|order| - 1][i] == k;
      }
      GatherHas(per, order[..|order| - 1], k, x);
    }
  }

  /** When every list holds objects of one phase, so does the gathered list. */
  lemma {:induction false} GatherRanks(per: map<string, seq<Ref>>, order: seq<string>, p: nat)
    requires forall k, r :: k in per && r in per[k] ==> Rank(r) == p
    ensures forall r :: r in Gather(per, order) ==> Rank(r) == p
    decreases |order|
  {
    if order != [] {
      GatherRanks(per, order[..|order| - 1], p);
    }
  }

  /**
   * order lists every key of keys exactly once (as many entries as keys,
   * and no other key): the order in which a Tcl hash table's search
   * (Tcl_FirstHashEntry, Tcl_NextHashEntry) yields them.
   */
  predicate Enumerates(order: seq<string>, keys: set<string>)
  {
    (set k | k in order) == keys && |order| == |keys|
  }

  /** Every finite set of keys has an order that enumerates it. */
  lemma {:induction false} EnumerationExists(keys: set<string>) returns (order: seq<string>)
    ensures Enumerates(order, keys)
    decreases |keys|
  {
    if keys == {} {
      order := [];
    } else {
      var k :| k in keys;
      var rest := EnumerationExists(keys - {k});
      order := rest + [k];
      assert (set j | j in order) == (set j | j in rest) + {k};
    }
  }

  /** A list that enumerates a set names exactly its keys, and none twice. */
  lemma {:induction false} EnumeratesFacts(order: seq<string>, keys: set<string>)
    requires Enumerates(order, keys)
    ensures forall i :: 0 <= i < |order| ==> order[i] in keys
    ensures forall k :: k in keys ==> k in order
    ensures forall i, j :: 0 <= i < j < |order| ==> order[i] != order[j]
    decreases |order|
  {
    if order != [] {
      var last := order[|order| - 1];
      var init := order[..|order| - 1];
      assert order == init + [last];
      var rest := set k | k in init;
      assert keys == rest + {last};
      if last in rest {
        assert keys == rest;
        SetOfLength(init);
        assert false;
      }
      assert rest == keys - {last};
      EnumeratesFacts(init, rest);
      forall i, j | 0 <= i < j < |order| ensures order[i] != order[j] {
        if j == |order| - 1 {
          assert order[i] == init[i] && init[i] in rest;
        } else {
          assert order[i] == init[i] && order[j] == init[j];
        }
      }
    }
  }

  /** A list has at least as many entries as the set of its keys. */
  lemma {:induction false} SetOfLength(order: seq<string>)
    ensures |set k | k in order| <= |order|
    decreases |order|
  {
    if order != [] {
      var init := order[..|order| - 1];
      assert order == init + [order[|order| - 1]];
      assert (set k | k in order) == (set k | k in init) + {order[|order| - 1]};
      SetOfLength(init);
    }
  }

  /** The native LOB of each LOB handle, as a list of at most one. */
  ghost function LobNatives(ip: Interp): map<string, seq<Ref>>
    reads ip, ip.lobs.Values
  {
    map k | k in ip.lobs :: Present(ip.lobs[k].lob)
  }

  /** Every LOB handle holds a native LOB, so the first loop closes only LOBs; the natives are keyed by the handles' keys. */
  lemma LobRanks(ip: Interp, lp: map<string, seq<Ref>>, order: seq<string>)
    requires LobsTyped(ip) && lp == LobNatives(ip) && Enumerates(order, ip.lobs.Keys)
    ensures Enumerates(order, lp.Keys)
    ensures forall r :: r in Gather(lp, order) ==> Rank(r) == 0
  {
    forall k, r | k in lp && r in lp[k] ensures Rank(r) == 0 {
      assert lp[k] == Present(ip.lobs[k].lob);
    }
    GatherRanks(lp, order, 0);
  }

  /**
   * The first loop of Oradpi_DeleteInterpData: free every LOB handle, in
   * the order the table yields its keys; the LOBs closed and released are
   * exactly the handles' native LOBs, in that order.
   */
  method FreeAllLobs(ip: Interp, drv: Driver, order: seq<string>, ghost per: map<string, seq<Ref>>)
    requires Named(ip) && LobsTyped(ip) && per == LobNatives(ip) && Enumerates(order, ip.lobs.Keys)
    modifies ip.lobs.Values`lob, drv`refs, drv`closed
    ensures forall k :: k in ip.lobs ==> ip.lobs[k].lob == None
    ensures drv.closed == old(drv.closed) + Gather(per, order)
    ensures drv.refs == ReleasedAll(old(drv.refs), Gather(per, order))
  {
    LobOrder(ip, order);
    for i := 0 to |order|
      invariant LobsRound(ip, drv, order, per, i, old(drv.closed), old(drv.refs))
    {
      OthersApart(ip.lobs, order, i);
      FreeLobRound(ip, drv, order, per, i, old(drv.closed), old(drv.refs));
    }
    assert order[..|order|] == order;
  }

  /**
   * Where the first loop stands after its first i rounds: the LOBs under
   * the first i keys are freed, the rest still hold what the snapshot
   * says, and both logs hold the first i keys' parts.
   */
  ghost predicate LobsRound(ip: Interp, drv: Driver, order: seq<string>, per: map<string, seq<Ref>>, i: nat, closed: seq<Ref>, refs: map<Ref, int>)
    reads ip, ip.lobs.Values, drv
  {
    i <= |order| && (forall j :: 0 <= j < |order| ==> order[j] in ip.lobs && order[j] in per) &&
    (forall j :: 0 <= j < i ==> ip.lobs[order[j]].lob == None) &&
    (forall j :: i <= j < |order| ==> Present(ip.lobs[order[j]].lob) == per[order[j]]) &&
    drv.closed == closed + Gather(per, order[..i]) &&
    drv.refs == ReleasedAll(refs, Gather(per, order[..i]))
  }

  /** Round i of the first loop: free the LOB under the i-th key, taking the loop from i rounds done to i + 1. */
  method FreeLobRound(ip: Interp, drv: Driver, order: seq<string>, ghost per: map<string, seq<Ref>>, i: nat, ghost closed: seq<Ref>, ghost refs: map<Ref, int>)
    requires i < |order| && LobsRound(ip, drv, order, per, i, closed, refs)
    requires forall j :: 0 <= j < |order| && j != i ==> ip.lobs[order[j]] != ip.lobs[order[i]]
    modifies {ip.lobs[order[i]]}`lob, drv`refs, drv`closed
    ensures LobsRound(ip, drv, order, per, i + 1, closed, refs)
  {
    FreeLob(ip.lobs[order[i]], drv);
    GatherStep(per, order, i);
    AppendAssoc(closed, Gather(per, order[..i]), per[order[i]]);
    ReleasedAllAppend(refs, Gather(per, order[..i]), per[order[i]]);
  }

  /** With the handles under an order's keys pairwise distinct, every other one differs from the i-th. */
  lemma OthersApart<T>(m: map<string, T>, order: seq<string>, i: nat)
    requires i < |order| && forall j :: 0 <= j < |order| ==> order[j] in m
    requires forall a, b :: 0 <= a < b < |order| ==> m[order[a]] != m[order[b]]
    ensures forall j :: 0 <= j < |order| && j != i ==> m[order[j]] != m[order[i]]
  {
    forall j | 0 <= j < |order| && j != i
      ensures m[order[j]] != m[order[i]]
    {
      if j < i { assert m[order[j]] != m[order[i]]; } else { assert m[order[i]] != m[order[j]]; }
    }
  }

  /** An order of a table's keys whose handles are distinct objects reaches each handle once, at one position. */
  lemma OrderReaches<T>(m: map<string, T>, order: seq<string>)
    requires Enumerates(order, m.Keys)
    requires forall a, b :: a in m && b in m && a != b ==> m[a] != m[b]
    ensures forall i :: 0 <= i < |order| ==> order[i] in m
    ensures forall k :: k in m ==> k in order
    ensures forall i, j :: 0 <= i < j < |order| ==> m[order[i]] != m[order[j]]
  {
    EnumeratesFacts(order, m.Keys);
  }

  /** The LOB table's order reaches every handle once. */
  lemma LobOrder(ip: Interp, order: seq<string>)
    requires Named(ip) && Enumerates(order, ip.lobs.Keys)
    ensures forall i :: 0 <= i < |order| ==> order[i] in ip.lobs
    ensures forall k :: k in ip.lobs ==> k in order
    ensures forall i, j :: 0 <= i < j < |order| ==> ip.lobs[order[i]] != ip.lobs[order[j]]
  {
    forall a, b | a in ip.lobs && b in ip.lobs && a != b ensures ip.lobs[a] != ip.lobs[b] {
      assert ip.lobs[a].name == a && ip.lobs[b].name == b;
    }
    OrderReaches(ip.lobs, order);
  }

  /** The statement table's order reaches every handle once. */
  lemma StmtOrder(ip: Interp, order: seq<string>)
    requires Named(ip) && Enumerates(order, ip.stmts.Keys)
    ensures forall i :: 0 <= i < |order| ==> order[i] in ip.stmts
    ensures forall k :: k in ip.stmts ==> k in order
    ensures forall i, j :: 0 <= i < j < |order| ==> ip.stmts[order[i]] != ip.stmts[order[j]]
  {
    forall a, b | a in ip.stmts && b in ip.stmts && a != b ensures ip.stmts[a] != ip.stmts[b] {
      assert ip.stmts[a].name == a && ip.stmts[b].name == b;
    }
    OrderReaches(ip.stmts, order);
  }

  /** The connection table's order reaches every handle once. */
  lemma ConnOrder(ip: Interp, order: seq<string>)
    requires Named(ip) && Enumerates(order, ip.conns.Keys)
    ensures forall i :: 0 <= i < |order| ==> order[i] in ip.conns
    ensures forall k :: k in ip.conns ==> k in order
    ensures forall i, j :: 0 <= i < j < |order| ==> ip.conns[order[i]] != ip.conns[order[j]]
  {
    forall a, b | a in ip.conns && b in ip.conns && a != b ensures ip.conns[a] != ip.conns[b] {
      assert ip.conns[a].name == a && ip.conns[b].name == b;
    }
    OrderReaches(ip.conns, order);
  }

  /** What freeing one statement handle works from: its native statement, its asynchronous entry, and how its worker runs. */
  datatype StmtSnap = StmtSnap(native: Option<Ref>, entry: Option<AsyncEntry>, run: WorkerRun)

  /** Each statement handle's snapshot, as the second loop finds it. */
  ghost function StmtSnaps(ip: Interp, reg: AsyncRegistry, runs: Stmt -> WorkerRun): map<string, StmtSnap>
    reads ip, ip.stmts.Values, reg
  {
    map k | k in ip.stmts :: StmtSnap(ip.stmts[k].stmt, reg.Lookup(ip.stmts[k]), runs(ip.stmts[k]))
  }

  /** What Oradpi_FreeStmt closes: the native statement, if any. */
  function StmtClosedOf(sn: StmtSnap): seq<Ref>
  {
    Present(sn.native)
  }

  /** What Oradpi_FreeStmt releases: the entry's references, then the native statement. */
  function StmtReleasedOf(sn: StmtSnap): seq<Ref>
  {
    if sn.native.Some? then HeldBy(sn.entry) + [sn.native.value] else []
  }

  /** The break Oradpi_FreeStmt asks for: the entry's session, when there is an entry. */
  function StmtBreakOf(sn: StmtSnap): seq<Ref>
  {
    if sn.native.Some? then BreakOf(sn.entry) else []
  }

  /** The execution Oradpi_FreeStmt lets finish: the worker's, when the entry is still running. */
  function StmtRunOf(sn: StmtSnap): seq<Execution>
  {
    if sn.native.Some? then RunOf(sn.entry, sn.run) else []
  }

  function StmtClosed(ss: map<string, StmtSnap>): map<string, seq<Ref>>
  {
    map k | k in ss :: StmtClosedOf(ss[k])
  }

  function StmtReleased(ss: map<string, StmtSnap>): map<string, seq<Ref>>
  {
    map k | k in ss :: StmtReleasedOf(ss[k])
  }

  function StmtBreaks(ss: map<string, StmtSnap>): map<string, seq<Ref>>
  {
    map k | k in ss :: StmtBreakOf(ss[k])
  }

  function StmtRuns(ss: map<string, StmtSnap>): map<string, seq<Execution>>
  {
    map k | k in ss :: StmtRunOf(ss[k])
  }

  /**
   * The second loop of Oradpi_DeleteInterpData: free every statement
   * handle, in the order the table yields its keys.  Each one's entry is
   * cancelled, joined and removed, and what each closes, releases, breaks
   * and lets execute is gathered in that order.
   */
  method FreeAllStmts(ip: Interp, reg: AsyncRegistry, drv: Driver, runs: Stmt -> WorkerRun, order: seq<string>, ghost ss: map<string, StmtSnap>)
    requires Named(ip) && StmtsTyped(ip) && reg.Valid() && ss == StmtSnaps(ip, reg, runs) && Enumerates(order, ip.stmts.Keys)
    modifies ip.stmts.Values`stmt, reg`entries, drv`refs, drv`executed, drv`breaks, drv`closed
    ensures reg.Valid()
    ensures forall k :: k in old(ip.stmts) ==> old(ip.stmts)[k].stmt == None
    ensures forall k :: k in old(ip.stmts) && ss[k].native.Some? ==> old(ip.stmts)[k] !in reg.entries
    ensures forall t :: t in reg.entries ==> t in old(reg.entries) && reg.entries[t] == old(reg.entries[t])
    ensures drv.closed == old(drv.closed) + Gather(StmtClosed(ss), order)
    ensures drv.refs == ReleasedAll(old(drv.refs), Gather(StmtReleased(ss), order))
    ensures drv.breaks == old(drv.breaks) + Gather(StmtBreaks(ss), order)
    ensures drv.executed == old(drv.executed) + Gather(StmtRuns(ss), order)
  {
    StmtOrder(ip, order);
    var table := ip.stmts;
    var sts := Pick(table, order);
    var rs := Images(sts, runs);
    ghost var sns := Pick(ss, order);
    StmtsLined(ip, reg, runs, ss, order, sts, rs, sns);
    FreeEachStmt(reg, drv, sts, rs, sns, table.Values);
    StmtsFreed(table, reg, ss, order, sts, sns);
    StmtLogsInOrder(ss, order, sns);
  }

  /** The handles in visiting order are distinct table entries, lined up with their snapshots. */
  lemma StmtsLined(ip: Interp, reg: AsyncRegistry, runs: Stmt -> WorkerRun, ss: map<string, StmtSnap>, order: seq<string>, sts: seq<Stmt>, rs: seq<WorkerRun>, sns: seq<StmtSnap>)
    requires ss == StmtSnaps(ip, reg, runs) && forall j :: 0 <= j < |order| ==> order[j] in ip.stmts
    requires forall i, j :: 0 <= i < j < |order| ==> ip.stmts[order[i]] != ip.stmts[order[j]]
    requires sts == Pick(ip.stmts, order) && rs == Images(sts, runs) && sns == Pick(ss, order)
    ensures |sns| == |sts| == |rs| && forall j :: 0 <= j < |sts| ==> sts[j] in ip.stmts.Values
    ensures forall a, b :: 0 <= a < b < |sts| ==> sts[a] != sts[b]
    ensures forall j :: 0 <= j < |sts| ==> sns[j] == StmtSnap(sts[j].stmt, reg.Lookup(sts[j]), rs[j])
  {
  }

  /** What the loop did to the handles in visiting order, it did to every handle of the table. */
  lemma StmtsFreed(table: map<string, Stmt>, reg: AsyncRegistry, ss: map<string, StmtSnap>, order: seq<string>, sts: seq<Stmt>, sns: seq<StmtSnap>)
    requires |sts| == |order| == |sns| && forall k :: k in table ==> k in order
    requires forall j :: 0 <= j < |order| ==> order[j] in table && sts[j] == table[order[j]] && order[j] in ss && sns[j] == ss[order[j]]
    requires forall j :: 0 <= j < |sts| ==> sts[j].stmt == None
    requires forall j :: 0 <= j < |sts| && sns[j].native.Some? ==> sts[j] !in reg.entries
    ensures forall k :: k in table ==> table[k].stmt == None
    ensures forall k :: k in table && k in ss && ss[k].native.Some? ==> table[k] !in reg.entries
  {
    forall k | k in table ensures table[k].stmt == None && (k in ss && ss[k].native.Some? ==> table[k] !in reg.entries) {
      var j :| 0 <= j < |order| && order[j] == k;
    }
  }

  /** The statement snapshots in visiting order give the four logs gathered by key. */
  lemma StmtLogsInOrder(ss: map<string, StmtSnap>, order: seq<string>, sns: seq<StmtSnap>)
    requires |sns| == |order| && forall j :: 0 <= j < |order| ==> order[j] in ss && sns[j] == ss[order[j]]
    ensures Gather(StmtClosed(ss), order) == Each(sns, StmtClosedOf)
    ensures Gather(StmtReleased(ss), order) == Each(sns, StmtReleasedOf)
    ensures Gather(StmtBreaks(ss), order) == Each(sns, StmtBreakOf)
    ensures Gather(StmtRuns(ss), order) == Each(sns, StmtRunOf)
  {
    GatherEach(StmtClosed(ss), order, sns, StmtClosedOf);
    GatherEach(StmtReleased(ss), order, sns, StmtReleasedOf);
    GatherEach(StmtBreaks(ss), order, sns, StmtBreakOf);
    GatherEach(StmtRuns(ss), order, sns, StmtRunOf);
  }

  /** Every statement handle holds a native statement, so the second loop closes only statements; the snapshots are keyed by the handles' keys. */
  lemma StmtRanks(ip: Interp, reg: AsyncRegistry, runs: Stmt -> WorkerRun, ss: map<string, StmtSnap>, order: seq<string>)
    requires StmtsTyped(ip) && ss == StmtSnaps(ip, reg, runs) && Enumerates(order, ip.stmts.Keys)
    ensures Enumerates(order, ss.Keys)
    ensures forall r :: r in Gather(StmtClosed(ss), order) ==> Rank(r) == 1
  {
    forall k, r | k in StmtClosed(ss) && r in StmtClosed(ss)[k] ensures Rank(r) == 1 {
      assert ss[k].native == ip.stmts[k].stmt;
    }
    GatherRanks(StmtClosed(ss), order, 1);
  }

  /**
   * The second loop itself, over the handles in visiting order and their
   * snapshots: each is freed in turn, and the four logs grow by what each
   * snapshot says it closes, releases, breaks and lets execute.
   */
  method FreeEachStmt(reg: AsyncRegistry, drv: Driver, sts: seq<Stmt>, rs: seq<WorkerRun>, ghost sns: seq<StmtSnap>, ghost handles: set<Stmt>)
    requires reg.Valid() && |sns| == |sts| == |rs| && forall j :: 0 <= j < |sts| ==> sts[j] in handles
    requires forall a, b :: 0 <= a < b < |sts| ==> sts[a] != sts[b]
    requires forall j :: 0 <= j < |sts| ==> sns[j] == StmtSnap(sts[j].stmt, reg.Lookup(sts[j]), rs[j])
    modifies handles`stmt, reg`entries, drv`refs, drv`executed, drv`breaks, drv`closed
    ensures reg.Valid()
    ensures forall j :: 0 <= j < |sts| ==> sts[j].stmt == None
    ensures forall j :: 0 <= j < |sts| && sns[j].native.Some? ==> sts[j] !in reg.entries
    ensures forall t :: t in reg.entries ==> t in old(reg.entries) && reg.entries[t] == old(reg.entries[t])
    ensures drv.closed == old(drv.closed) + Each(sns, StmtClosedOf)
    ensures drv.refs == ReleasedAll(old(drv.refs), Each(sns, StmtReleasedOf))
    ensures drv.breaks == old(drv.breaks) + Each(sns, StmtBreakOf)
    ensures drv.executed == old(drv.executed) + Each(sns, StmtRunOf)
  {
    ghost var gone: set<Stmt> := {};
    for i := 0 to |sts|
      invariant StmtsRound(reg, drv, sts, rs, sns, i, old(reg.entries), gone, old(drv.closed), old(drv.refs), old(drv.breaks), old(drv.executed))
    {
      Apart(sts, i);
      gone := FreeStmtRound(reg, drv, sts, rs, sns, i, old(reg.entries), gone, old(drv.closed), old(drv.refs), old(drv.breaks), old(drv.executed));
    }
    assert sns[..|sts|] == sns;
  }

  /**
   * Where the second loop stands after its first i rounds: the first i
   * handles are freed and those that held a statement have lost their
   * registry entries, the rest are as their snapshots say, and the four
   * logs hold the first i snapshots' parts.
   */
  ghost predicate StmtsRound(reg: AsyncRegistry, drv: Driver, sts: seq<Stmt>, rs: seq<WorkerRun>, sns: seq<StmtSnap>, i: nat,
                             entries: map<Stmt, AsyncEntry>, gone: set<Stmt>,
                             closed: seq<Ref>, refs: map<Ref, int>, breaks: seq<Ref>, executed: seq<Execution>)
    reads reg, drv, sts
  {
    i <= |sts| == |sns| == |rs| && reg.Valid() && reg.entries == entries - gone &&
    (forall j :: i <= j < |sts| ==> sns[j] == StmtSnap(sts[j].stmt, reg.Lookup(sts[j]), rs[j])) &&
    (forall j :: i <= j < |sts| ==> sts[j] !in gone) &&
    (forall j :: 0 <= j < i ==> sts[j].stmt == None) &&
    (forall j :: 0 <= j < i && sns[j].native.Some? ==> sts[j] in gone) &&
    drv.closed == closed + Each(sns[..i], StmtClosedOf) &&
    drv.refs == ReleasedAll(refs, Each(sns[..i], StmtReleasedOf)) &&
    drv.breaks == breaks + Each(sns[..i], StmtBreakOf) &&
    drv.executed == executed + Each(sns[..i], StmtRunOf)
  }

  /** Round i of the second loop: free the i-th handle, taking the loop from i rounds done to i + 1. */
  method FreeStmtRound(reg: AsyncRegistry, drv: Driver, sts: seq<Stmt>, rs: seq<WorkerRun>, ghost sns: seq<StmtSnap>, i: nat,
                       ghost entries: map<Stmt, AsyncEntry>, ghost gone: set<Stmt>,
                       ghost closed: seq<Ref>, ghost refs: map<Ref, int>, ghost breaks: seq<Ref>, ghost executed: seq<Execution>)
    returns (ghost gone': set<Stmt>)
    requires i < |sts| && StmtsRound(reg, drv, sts, rs, sns, i, entries, gone, closed, refs, breaks, executed)
    requires forall j :: 0 <= j < |sts| && j != i ==> sts[j] != sts[i]
    modifies {sts[i]}`stmt, reg`entries, drv`refs, drv`executed, drv`breaks, drv`closed
    ensures StmtsRound(reg, drv, sts, rs, sns, i + 1, entries, gone', closed, refs, breaks, executed)
  {
    FreeStmtAt(reg, drv, sts[i], rs[i], sns[i]);
    StmtLogsStep(sns, i, closed, refs, breaks, executed);
    gone' := gone;
    if sns[i].native.Some? {
      RemoveMore(entries, gone, sts[i]);
      gone' := gone + {sts[i]};
    }
  }

  /** With the elements of xs pairwise distinct, every other one differs from the i-th. */
  lemma Apart<T>(xs: seq<T>, i: nat)
    requires i < |xs| && forall a, b :: 0 <= a < b < |xs| ==> xs[a] != xs[b]
    ensures forall j :: 0 <= j < |xs| && j != i ==> xs[j] != xs[i]
  {
    forall j | 0 <= j < |xs| && j != i
      ensures xs[j] != xs[i]
    {
      if j < i { assert xs[j] != xs[i]; } else { assert xs[i] != xs[j]; }
    }
  }

  /** The four logs after freeing the statement at index i: each grows by that statement's part. */
  lemma StmtLogsStep(sns: seq<StmtSnap>, i: nat, closed: seq<Ref>, refs: map<Ref, int>, breaks: seq<Ref>, executed: seq<Execution>)
    requires i < |sns|
    ensures closed + Each(sns[..i], StmtClosedOf) + StmtClosedOf(sns[i]) == closed + Each(sns[..i + 1], StmtClosedOf)
    ensures ReleasedAll(ReleasedAll(refs, Each(sns[..i], StmtReleasedOf)), StmtReleasedOf(sns[i]))
      == ReleasedAll(refs, Each(sns[..i + 1], StmtReleasedOf))
    ensures breaks + Each(sns[..i], StmtBreakOf) + StmtBreakOf(sns[i]) == breaks + Each(sns[..i + 1], StmtBreakOf)
    ensures executed + Each(sns[..i], StmtRunOf) + StmtRunOf(sns[i]) == executed + Each(sns[..i + 1], StmtRunOf)
  {
    EachStep(sns, i, StmtClosedOf);
    EachStep(sns, i, StmtReleasedOf);
    EachStep(sns, i, StmtBreakOf);
    EachStep(sns, i, StmtRunOf);
    AppendAssoc(closed, Each(sns[..i], StmtClosedOf), StmtClosedOf(sns[i]));
    ReleasedAllAppend(refs, Each(sns[..i], StmtReleasedOf), StmtReleasedOf(sns[i]));
    AppendAssoc(breaks, Each(sns[..i], StmtBreakOf), StmtBreakOf(sns[i]));
    AppendAssoc(executed, Each(sns[..i], StmtRunOf), StmtRunOf(sns[i]));
  }

  /** One round of the second loop: free st, given as its snapshot; only st's registry entry changes. */
  method FreeStmtAt(reg: AsyncRegistry, drv: Driver, st: Stmt, run: WorkerRun, ghost sn: StmtSnap)
    requires reg.Valid() && sn == StmtSnap(st.stmt, reg.Lookup(st), run)
    modifies st`stmt, reg`entries, drv`refs, drv`executed, drv`breaks, drv`closed
    ensures reg.Valid() && st.stmt == None
    ensures reg.entries == if sn.native.Some? then old(reg.entries) - {st} else old(reg.entries)
    ensures drv.closed == old(drv.closed) + StmtClosedOf(sn)
    ensures drv.refs == ReleasedAll(old(drv.refs), StmtReleasedOf(sn))
    ensures drv.breaks == old(drv.breaks) + StmtBreakOf(sn)
    ensures drv.executed == old(drv.executed) + StmtRunOf(sn)
  {
    FreeStmt(reg, drv, st, run);
  }


  /** A connection after Oradpi_FreeConn: no session, no pool, no failover callback or pending message. */
  predicate Freed(co: Conn)
    reads co
  {
    co.conn == None && co.pool == None && co.failoverCallback == None && co.foPendingMsg == None
  }

  /** What freeing one connection handle works from: whether it owns its session, its session and its pool. */
  datatype ConnSnap = ConnSnap(owner: bool, session: Option<Ref>, pool: Option<Ref>)

  /**
   * A handle named name, found as cn, that Oradpi_FreeConn may close while
   * the directory holds entries: an owner's session is published under its
   * name and no other, and its natives are of their kinds.
   */
  predicate ClosableSnap(entries: map<string, GlobalConnRec>, name: string, cn: ConnSnap)
  {
    (cn.owner && cn.session.Some? ==>
      name in entries && entries[name].conn == cn.session && forall n :: n in entries && entries[n].conn == cn.session ==> n == name) &&
    (cn.session.Some? ==> cn.session.value.kind == ConnKind) && (cn.pool.Some? ==> cn.pool.value.kind == PoolKind)
  }

  /** Each connection handle's snapshot, as the third loop finds it. */
  ghost function ConnSnaps(ip: Interp): map<string, ConnSnap>
    reads ip, ip.conns.Values
  {
    map k | k in ip.conns :: ConnSnap(ip.conns[k].ownerClose, ip.conns[k].conn, ip.conns[k].pool)
  }

  /** What Oradpi_FreeConn closes: an owner's session, then the pool. */
  function ConnClosedOf(cn: ConnSnap): seq<Ref>
  {
    (if cn.owner then Present(cn.session) else []) + Present(cn.pool)
  }

  /** What Oradpi_FreeConn releases: the session, then the pool. */
  function ConnReleasedOf(cn: ConnSnap): seq<Ref>
  {
    Present(cn.session) + Present(cn.pool)
  }

  function ConnClosed(cs: map<string, ConnSnap>): map<string, seq<Ref>>
  {
    map k | k in cs :: ConnClosedOf(cs[k])
  }

  function ConnReleased(cs: map<string, ConnSnap>): map<string, seq<Ref>>
  {
    map k | k in cs :: ConnReleasedOf(cs[k])
  }

  /**
   * The third loop's handles in visiting order, as the loop starts: cos
   * are the table's handles under the keys of order, with distinct names,
   * each closable and described by its snapshot in cns.
   */
  lemma ConnsLined(ip: Interp, dir: ConnDirectory, cs: map<string, ConnSnap>, order: seq<string>, cos: seq<Conn>, cns: seq<ConnSnap>)
    requires Named(ip) && ConnsTyped(ip) && Owned(ip, dir) && cs == ConnSnaps(ip) && Enumerates(order, ip.conns.Keys)
    requires forall j :: 0 <= j < |order| ==> order[j] in ip.conns
    requires cos == Pick(ip.conns, order) && cns == Pick(cs, order)
    ensures |cns| == |cos| == |order| && forall j :: 0 <= j < |cos| ==> cos[j] in ip.conns.Values
    ensures forall a, b :: 0 <= a < b < |cos| ==> cos[a].name != cos[b].name
    ensures Enumerates(order, cs.Keys)
    ensures forall j :: 0 <= j < |cos| ==> ClosableSnap(dir.entries, cos[j].name, cns[j]) && cns[j] == ConnSnap(cos[j].ownerClose, cos[j].conn, cos[j].pool)
  {
    ConnOrder(ip, order);
    ConnsDistinct(ip.conns, order, cos);
  }

  /** The names of the owning connections among cos: the directory entries the third loop erases. */
  function OwnerNames(cos: seq<Conn>): set<string>
    decreases |cos|
  {
    if cos == [] then {}
    else
      var last := cos[|cos| - 1];
      OwnerNames(cos[..|cos| - 1]) + (if last.ownerClose then {last.name} else {})
  }

  /** A name is erased exactly when some owning connection among cos has it. */
  lemma {:induction false} OwnerNamesHas(cos: seq<Conn>, n: string)
    ensures n in OwnerNames(cos) <==> exists j :: 0 <= j < |cos| && cos[j].ownerClose && cos[j].name == n
    decreases |cos|
  {
    if cos != [] {
      var init := cos[..|cos| - 1];
      OwnerNamesHas(init, n);
      if exists j :: 0 <= j < |init| && init[j].ownerClose && init[j].name == n {
        var j :| 0 <= j < |init| && init[j].ownerClose && init[j].name == n;
        assert cos[j] == init[j];
      }
    }
  }

  /**
   * The third loop of Oradpi_DeleteInterpData, over the connection handles
   * in the order the table yields them and their snapshots: each is freed
   * in turn, the logs grow by what each snapshot says it closes and
   * releases, and exactly the owners' directory entries are erased.
   */
  method FreeEachConn(dir: ConnDirectory, drv: Driver, cos: seq<Conn>, ghost cns: seq<ConnSnap>, ghost handles: set<Conn>)
    requires |cns| == |cos| && (forall j :: 0 <= j < |cos| ==> cos[j] in handles) && dir.Valid() && dir.Safe(drv) && SessionsOnly(dir)
    requires forall a, b :: 0 <= a < b < |cos| ==> cos[a].name != cos[b].name
    requires forall j :: 0 <= j < |cos| ==> ClosableSnap(dir.entries, cos[j].name, cns[j]) && cns[j] == ConnSnap(cos[j].ownerClose, cos[j].conn, cos[j].pool)
    modifies handles`foTimer, handles`foTimerScheduled, handles`foPendingMsg
    modifies handles`failoverCallback, handles`conn, handles`pool
    modifies dir`entries, drv`refs, drv`closed
    ensures dir.Valid() && dir.Safe(drv) && SessionsOnly(dir)
    ensures forall j :: 0 <= j < |cos| ==> Freed(cos[j])
    ensures dir.entries == old(dir.entries) - OwnerNames(cos)
    ensures drv.closed == old(drv.closed) + Each(cns, ConnClosedOf)
    ensures drv.refs == ReleasedAll(old(drv.refs), Each(cns, ConnReleasedOf))
  {
    ghost var gone: set<string> := {};
    for i := 0 to |cos|
      invariant ConnsRound(dir, drv, cos, cns, i, old(dir.entries), gone, old(drv.closed), old(drv.refs))
    {
      OthersNamed(cos, i);
      gone := FreeConnRound(dir, drv, cos, cns, i, old(dir.entries), gone, old(drv.closed), old(drv.refs));
    }
    assert cos[..|cos|] == cos && cns[..|cns|] == cns;
  }

  /**
   * Where the third loop stands after its first i rounds: the first i
   * handles are freed, the owners among them have lost their directory
   * entries, the rest are as they were, and both logs hold the first i
   * snapshots' parts.
   */
  ghost predicate ConnsRound(dir: ConnDirectory, drv: Driver, cos: seq<Conn>, cns: seq<ConnSnap>, i: nat,
                             entries: map<string, GlobalConnRec>, gone: set<string>, closed: seq<Ref>, refs: map<Ref, int>)
    reads dir, drv, cos
  {
    i <= |cos| == |cns| && dir.Valid() && dir.Safe(drv) && SessionsOnly(dir) &&
    gone == OwnerNames(cos[..i]) && dir.entries == entries - gone &&
    (forall j :: i <= j < |cos| ==> cos[j].name !in gone) &&
    (forall j :: i <= j < |cos| ==> cns[j] == ConnSnap(cos[j].ownerClose, cos[j].conn, cos[j].pool)) &&
    (forall j :: 0 <= j < i ==> Freed(cos[j])) &&
    drv.closed == closed + Each(cns[..i], ConnClosedOf) &&
    drv.refs == ReleasedAll(refs, Each(cns[..i], ConnReleasedOf))
  }

  /** Round i of the third loop: free the i-th handle, taking the loop from i rounds done to i + 1. */
  method FreeConnRound(dir: ConnDirectory, drv: Driver, cos: seq<Conn>, ghost cns: seq<ConnSnap>, i: nat,
                       ghost entries: map<string, GlobalConnRec>, ghost gone: set<string>, ghost closed: seq<Ref>, ghost refs: map<Ref, int>)
    returns (ghost gone': set<string>)
    requires i < |cos| && ConnsRound(dir, drv, cos, cns, i, entries, gone, closed, refs)
    requires ClosableSnap(entries, cos[i].name, cns[i])
    requires forall j :: 0 <= j < |cos| && j != i ==> cos[j].name != cos[i].name
    modifies {cos[i]}`foTimer, {cos[i]}`foTimerScheduled, {cos[i]}`foPendingMsg, {cos[i]}`failoverCallback, {cos[i]}`conn, {cos[i]}`pool
    modifies dir`entries, drv`refs, drv`closed
    ensures ConnsRound(dir, drv, cos, cns, i + 1, entries, gone', closed, refs)
  {
    ClosableWithout(entries, gone, cos[i].name, cns[i]);
    FreeConnAt(dir, drv, cos[i], cns[i]);
    gone' := GoneStep(cos, i, entries, gone);
    ConnLogsStep(cns, i, closed, refs);
  }

  /** The owners' names erased after round i: the i-th handle's name joins them when it owns its session. */
  lemma GoneStep(cos: seq<Conn>, i: nat, entries: map<string, GlobalConnRec>, gone: set<string>) returns (gone': set<string>)
    requires i < |cos| && gone == OwnerNames(cos[..i]) && forall j :: i <= j < |cos| ==> cos[j].name !in gone
    requires forall j :: 0 <= j < |cos| && j != i ==> cos[j].name != cos[i].name
    ensures gone' == OwnerNames(cos[..i + 1]) && forall j :: i + 1 <= j < |cos| ==> cos[j].name !in gone'
    ensures entries - gone' == if cos[i].ownerClose then (entries - gone) - {cos[i].name} else entries - gone
  {
    assert cos[..i + 1][..i] == cos[..i];
    gone' := gone;
    if cos[i].ownerClose {
      RemoveMore(entries, gone, cos[i].name);
      gone' := gone + {cos[i].name};
    }
  }

  /** With distinct names, every other handle is named apart from the i-th. */
  lemma OthersNamed(cos: seq<Conn>, i: nat)
    requires i < |cos| && forall a, b :: 0 <= a < b < |cos| ==> cos[a].name != cos[b].name
    ensures forall j :: 0 <= j < |cos| && j != i ==> cos[j].name != cos[i].name
  {
    forall j | 0 <= j < |cos| && j != i
      ensures cos[j].name != cos[i].name
    {
      if j < i { assert cos[j].name != cos[i].name; } else { assert cos[i].name != cos[j].name; }
    }
  }

  /** Erasing other names' entries keeps a handle closable. */
  lemma ClosableWithout(entries: map<string, GlobalConnRec>, gone: set<string>, name: string, cn: ConnSnap)
    requires ClosableSnap(entries, name, cn) && name !in gone
    ensures ClosableSnap(entries - gone, name, cn)
  {
  }

  /** One round of the third loop: free co, given as its snapshot; only co's own directory entry can go. */
  method FreeConnAt(dir: ConnDirectory, drv: Driver, co: Conn, ghost cn: ConnSnap)
    requires ClosableSnap(dir.entries, co.name, cn) && cn == ConnSnap(co.ownerClose, co.conn, co.pool)
    requires dir.Valid() && dir.Safe(drv) && SessionsOnly(dir)
    modifies co`foTimer, co`foTimerScheduled, co`foPendingMsg, co`failoverCallback, co`conn, co`pool
    modifies dir`entries, drv`refs, drv`closed
    ensures dir.Valid() && dir.Safe(drv) && SessionsOnly(dir) && Freed(co)
    ensures dir.entries == if co.ownerClose then old(dir.entries) - {co.name} else old(dir.entries)
    ensures drv.closed == old(drv.closed) + ConnClosedOf(cn)
    ensures drv.refs == ReleasedAll(old(drv.refs), ConnReleasedOf(cn))
  {
    ghost var _ := FreeConn(co, dir, drv);
  }

  /** Both logs after freeing the connection at index i: each grows by that connection's part. */
  lemma ConnLogsStep(cns: seq<ConnSnap>, i: nat, closed: seq<Ref>, refs: map<Ref, int>)
    requires i < |cns|
    ensures closed + Each(cns[..i], ConnClosedOf) + ConnClosedOf(cns[i]) == closed + Each(cns[..i + 1], ConnClosedOf)
    ensures ReleasedAll(ReleasedAll(refs, Each(cns[..i], ConnReleasedOf)), ConnReleasedOf(cns[i]))
      == ReleasedAll(refs, Each(cns[..i + 1], ConnReleasedOf))
  {
    EachStep(cns, i, ConnClosedOf);
    EachStep(cns, i, ConnReleasedOf);
    AppendAssoc(closed, Each(cns[..i], ConnClosedOf), ConnClosedOf(cns[i]));
    ReleasedAllAppend(refs, Each(cns[..i], ConnReleasedOf), ConnReleasedOf(cns[i]));
  }

  /** The connection snapshots in visiting order give both logs gathered by key. */
  lemma ConnLogsInOrder(cs: map<string, ConnSnap>, order: seq<string>, cns: seq<ConnSnap>)
    requires |cns| == |order| && forall j :: 0 <= j < |order| ==> order[j] in cs && cns[j] == cs[order[j]]
    ensures Gather(ConnClosed(cs), order) == Each(cns, ConnClosedOf)
    ensures Gather(ConnReleased(cs), order) == Each(cns, ConnReleasedOf)
  {
    GatherEach(ConnClosed(cs), order, cns, ConnClosedOf);
    GatherEach(ConnReleased(cs), order, cns, ConnReleasedOf);
  }

  /** Every connection handle holds a session and a pool, if any, so the third loop closes only those. */
  lemma ConnRanks(ip: Interp, cs: map<string, ConnSnap>, order: seq<string>)
    requires ConnsTyped(ip) && cs == ConnSnaps(ip)
    ensures forall r :: r in Gather(ConnClosed(cs), order) ==> Rank(r) == 2
  {
    forall k, r | k in ConnClosed(cs) && r in ConnClosed(cs)[k] ensures Rank(r) == 2 {
      assert cs[k].session == ip.conns[k].conn && cs[k].pool == ip.conns[k].pool;
    }
    GatherRanks(ConnClosed(cs), order, 2);
  }

  /** Handles registered under distinct keys of a named table have distinct names. */
  lemma ConnsDistinct(table: map<string, Conn>, order: seq<string>, cos: seq<Conn>)
    requires forall k :: k in table ==> table[k].name == k
    requires |cos| == |order| && forall j :: 0 <= j < |order| ==> order[j] in table && cos[j] == table[order[j]]
    requires forall a, b :: 0 <= a < b < |order| ==> table[order[a]] != table[order[b]]
    ensures forall a, b :: 0 <= a < b < |cos| ==> cos[a].name != cos[b].name
  {
  }

  /** The names the loop erases, those of the owners among the handles in visiting order, are the owners' keys in the table. */
  lemma OwnersErased(table: map<string, Conn>, order: seq<string>, cos: seq<Conn>)
    requires forall k :: k in table ==> table[k].name == k
    requires |cos| == |order| && forall k :: k in table ==> k in order
    requires forall j :: 0 <= j < |order| ==> order[j] in table && cos[j] == table[order[j]]
    ensures OwnerNames(cos) == set k | k in table && table[k].ownerClose
  {
    forall n | n in OwnerNames(cos) ensures n in table && table[n].ownerClose {
      OwnerNamesHas(cos, n);
    }
    forall k | k in table && table[k].ownerClose ensures k in OwnerNames(cos) {
      var j :| 0 <= j < |order| && order[j] == k;
      OwnerNamesHas(cos, k);
    }
  }

  /** The three loops' logs, one after the other, are in teardown order and hold everything the first two closed. */
  lemma TeardownOrder(lobs: seq<Ref>, stmts: seq<Ref>, conns: seq<Ref>)
    requires forall r :: r in lobs ==> Rank(r) == 0
    requires forall r :: r in stmts ==> Rank(r) == 1
    requires forall r :: r in conns ==> Rank(r) == 2
    ensures RankOrdered(lobs + stmts + conns)
    ensures forall r :: r in lobs || r in stmts ==> r in lobs + stmts + conns
  {
    assert lobs == [] + lobs;
    RankOrderedAppend([], lobs, 0);
    RankOrderedAppend(lobs, stmts, 1);
    RankOrderedAppend(lobs + stmts, conns, 2);
  }

  /** The first two loops of Oradpi_DeleteInterpData: every LOB, then every statement. */
  method FreeLobsAndStmts(ip: Interp, reg: AsyncRegistry, drv: Driver, runs: Stmt -> WorkerRun, lo: seq<string>, so: seq<string>,
                          ghost lp: map<string, seq<Ref>>, ghost ss: map<string, StmtSnap>)
    requires Named(ip) && LobsTyped(ip) && StmtsTyped(ip) && reg.Valid()
    requires lp == LobNatives(ip) && ss == StmtSnaps(ip, reg, runs) && Enumerates(lo, ip.lobs.Keys) && Enumerates(so, ip.stmts.Keys)
    modifies ip.lobs.Values`lob, ip.stmts.Values`stmt
    modifies reg`entries, drv`refs, drv`executed, drv`breaks, drv`closed
    ensures reg.Valid()
    ensures drv.closed == old(drv.closed) + (Gather(lp, lo) + Gather(StmtClosed(ss), so))
    ensures drv.refs == ReleasedAll(old(drv.refs), Gather(lp, lo) + Gather(StmtReleased(ss), so))
    ensures drv.breaks == old(drv.breaks) + Gather(StmtBreaks(ss), so)
    ensures drv.executed == old(drv.executed) + Gather(StmtRuns(ss), so)
    ensures forall k :: k in old(ip.stmts) && ss[k].native.Some? ==> old(ip.stmts)[k] !in reg.entries
  {
    FreeAllLobs(ip, drv, lo, lp);
    FreeAllStmts(ip, reg, drv, runs, so, ss);
    AppendAssoc(old(drv.closed), Gather(lp, lo), Gather(StmtClosed(ss), so));
    ReleasedAllAppend(old(drv.refs), Gather(lp, lo), Gather(StmtReleased(ss), so));
  }

  /** The natives teardown closes, visiting the LOB, statement and connection tables in the given orders. */
  function TeardownLog(lp: map<string, seq<Ref>>, ss: map<string, StmtSnap>, cs: map<string, ConnSnap>,
                       lo: seq<string>, so: seq<string>, co: seq<string>): seq<Ref>
  {
    Gather(lp, lo) + Gather(StmtClosed(ss), so) + Gather(ConnClosed(cs), co)
  }

  /** The references teardown releases, visiting the tables in the given orders. */
  function TeardownReleased(lp: map<string, seq<Ref>>, ss: map<string, StmtSnap>, cs: map<string, ConnSnap>,
                            lo: seq<string>, so: seq<string>, co: seq<string>): seq<Ref>
  {
    Gather(lp, lo) + Gather(StmtReleased(ss), so) + Gather(ConnReleased(cs), co)
  }

  /**
   * Whatever order the tables are visited in, the close log holds every
   * native LOB, statement and pool the handles held, and every session of
   * an owning handle; the released list also holds every session.
   */
  lemma TeardownHolds(lp: map<string, seq<Ref>>, ss: map<string, StmtSnap>, cs: map<string, ConnSnap>,
                      lo: seq<string>, so: seq<string>, co: seq<string>)
    requires Enumerates(lo, lp.Keys) && Enumerates(so, ss.Keys) && Enumerates(co, cs.Keys)
    ensures forall k, r :: k in lp && r in lp[k] ==> r in TeardownLog(lp, ss, cs, lo, so, co)
    ensures forall k :: k in ss && ss[k].native.Some? ==> ss[k].native.value in TeardownLog(lp, ss, cs, lo, so, co)
    ensures forall k :: k in cs && cs[k].owner && cs[k].session.Some? ==> cs[k].session.value in TeardownLog(lp, ss, cs, lo, so, co)
    ensures forall k :: k in cs && cs[k].pool.Some? ==> cs[k].pool.value in TeardownLog(lp, ss, cs, lo, so, co)
    ensures forall k :: k in cs && cs[k].session.Some? ==> cs[k].session.value in TeardownReleased(lp, ss, cs, lo, so, co)
  {
    var log := TeardownLog(lp, ss, cs, lo, so, co);
    var rel := TeardownReleased(lp, ss, cs, lo, so, co);
    forall k, r | k in lp && r in lp[k] ensures r in log {
      GatherHas(lp, lo, k, r);
    }
    forall k | k in ss && ss[k].native.Some? ensures ss[k].native.value in log {
      GatherHas(StmtClosed(ss), so, k, ss[k].native.value);
    }
    forall k | k in cs && cs[k].owner && cs[k].session.Some? ensures cs[k].session.value in log {
      GatherHas(ConnClosed(cs), co, k, cs[k].session.value);
    }
    forall k | k in cs && cs[k].pool.Some? ensures cs[k].pool.value in log {
      GatherHas(ConnClosed(cs), co, k, cs[k].pool.value);
    }
    forall k | k in cs && cs[k].session.Some? ensures cs[k].session.value in rel {
      GatherHas(ConnReleased(cs), co, k, cs[k].session.value);
    }
  }

  /**
   * The three loops' logs put together: a close log and reference counts
   * that grew by the first two loops' parts and then by the connection
   * snapshots cns (the table's in the order co) are the teardown log, in
   * phase order, holding every owner's session; each count dropped by the
   * number of times the released list names it.
   */
  lemma TeardownAssembled(lp: map<string, seq<Ref>>, ss: map<string, StmtSnap>, cs: map<string, ConnSnap>,
                          lo: seq<string>, so: seq<string>, co: seq<string>, cns: seq<ConnSnap>,
                          closed0: seq<Ref>, refs0: map<Ref, int>, closed: seq<Ref>, refs: map<Ref, int>)
    requires Enumerates(lo, lp.Keys) && Enumerates(so, ss.Keys) && Enumerates(co, cs.Keys)
    requires forall r :: r in Gather(lp, lo) ==> Rank(r) == 0
    requires forall r :: r in Gather(StmtClosed(ss), so) ==> Rank(r) == 1
    requires forall r :: r in Gather(ConnClosed(cs), co) ==> Rank(r) == 2
    requires |cns| == |co| && forall j :: 0 <= j < |co| ==> co[j] in cs && cns[j] == cs[co[j]]
    requires closed == closed0 + (Gather(lp, lo) + Gather(StmtClosed(ss), so)) + Each(cns, ConnClosedOf)
    requires refs == ReleasedAll(ReleasedAll(refs0, Gather(lp, lo) + Gather(StmtReleased(ss), so)), Each(cns, ConnReleasedOf))
    ensures closed == closed0 + TeardownLog(lp, ss, cs, lo, so, co)
    ensures RankOrdered(TeardownLog(lp, ss, cs, lo, so, co))
    ensures refs == ReleasedAll(refs0, TeardownReleased(lp, ss, cs, lo, so, co))
    ensures forall r :: CountOf(refs, r) == CountOf(refs0, r) - Occurrences(TeardownReleased(lp, ss, cs, lo, so, co), r)
    ensures forall k :: k in cs && cs[k].owner && cs[k].session.Some? ==> cs[k].session.value in closed
  {
    ConnLogsInOrder(cs, co, cns);
    var lobs, stmts, conns := Gather(lp, lo), Gather(StmtClosed(ss), so), Gather(ConnClosed(cs), co);
    var released := TeardownReleased(lp, ss, cs, lo, so, co);
    TeardownOrder(lobs, stmts, conns);
    AppendAssoc(closed0, lobs + stmts, conns);
    ReleasedAllAppend(refs0, Gather(lp, lo) + Gather(StmtReleased(ss), so), Gather(ConnReleased(cs), co));
    forall r ensures CountOf(ReleasedAll(refs0, released), r) == CountOf(refs0, r) - Occurrences(released, r) {
      ReleasedAllCounts(refs0, released, r);
    }
    TeardownHolds(lp, ss, cs, lo, so, co);
  }

  /**
   * Closing LOBs and statements closes no published session: the
   * directory publishes sessions only, and none of the added natives is one.
   */
  lemma SessionsStayOpen(dir: ConnDirectory, drv: Driver, before: seq<Ref>, lobs: seq<Ref>, stmts: seq<Ref>)
    requires SessionsOnly(dir) && drv.closed == before + (lobs + stmts)
    requires (forall r :: r in lobs ==> Rank(r) == 0) && (forall r :: r in stmts ==> Rank(r) == 1)
    requires forall n :: n in dir.entries && dir.entries[n].ownerAlive && dir.entries[n].conn.Some? ==> dir.entries[n].conn.value !in before
    ensures dir.Safe(drv)
  {
  }

  /**
   * The three loops of Oradpi_DeleteInterpData: every LOB, every statement,
   * then the connection handles cos in the order the table yields them,
   * found as cns.  The logs grow by the first two loops' parts and then by
   * the third's, and exactly the owners' directory entries are erased.
   */
  method FreeHandles(ip: Interp, reg: AsyncRegistry, dir: ConnDirectory, drv: Driver, runs: Stmt -> WorkerRun,
                     lo: seq<string>, so: seq<string>, cos: seq<Conn>,
                     ghost lp: map<string, seq<Ref>>, ghost ss: map<string, StmtSnap>, ghost cns: seq<ConnSnap>, ghost handles: set<Conn>)
    requires Named(ip) && LobsTyped(ip) && StmtsTyped(ip) && reg.Valid()
    requires lp == LobNatives(ip) && ss == StmtSnaps(ip, reg, runs) && Enumerates(lo, ip.lobs.Keys) && Enumerates(so, ip.stmts.Keys)
    requires (forall r :: r in Gather(lp, lo) ==> Rank(r) == 0) && (forall r :: r in Gather(StmtClosed(ss), so) ==> Rank(r) == 1)
    requires |cns| == |cos| && (forall j :: 0 <= j < |cos| ==> cos[j] in handles) && dir.Valid() && dir.Safe(drv) && SessionsOnly(dir)
    requires forall a, b :: 0 <= a < b < |cos| ==> cos[a].name != cos[b].name
    requires forall j :: 0 <= j < |cos| ==> ClosableSnap(dir.entries, cos[j].name, cns[j]) && cns[j] == ConnSnap(cos[j].ownerClose, cos[j].conn, cos[j].pool)
    modifies ip`lobs, ip`stmts, ip`conns, ip.lobs.Values`lob, ip.stmts.Values`stmt
    modifies handles`foTimer, handles`foTimerScheduled, handles`foPendingMsg
    modifies handles`failoverCallback, handles`conn, handles`pool
    modifies reg`entries, dir`entries, drv`refs, drv`executed, drv`breaks, drv`closed
    ensures ip.lobs == map[] && ip.stmts == map[] && ip.conns == map[]
    ensures reg.Valid() && dir.Valid() && dir.Safe(drv) && SessionsOnly(dir)
    ensures dir.entries == old(dir.entries) - OwnerNames(cos)
    ensures drv.closed == old(drv.closed) + (Gather(lp, lo) + Gather(StmtClosed(ss), so)) + Each(cns, ConnClosedOf)
    ensures drv.refs == ReleasedAll(ReleasedAll(old(drv.refs), Gather(lp, lo) + Gather(StmtReleased(ss), so)), Each(cns, ConnReleasedOf))
    ensures drv.breaks == old(drv.breaks) + Gather(StmtBreaks(ss), so)
    ensures drv.executed == old(drv.executed) + Gather(StmtRuns(ss), so)
    ensures forall k :: k in old(ip.stmts) && ss[k].native.Some? ==> old(ip.stmts)[k] !in reg.entries
  {
    FreeLobsAndStmts(ip, reg, drv, runs, lo, so, lp, ss);
    SessionsStayOpen(dir, drv, old(drv.closed), Gather(lp, lo), Gather(StmtClosed(ss), so));
    FreeConnsAndClear(ip, dir, drv, cos, cns, handles);
  }

  /** The third loop of Oradpi_DeleteInterpData, then deleting the three tables. */
  method FreeConnsAndClear(ip: Interp, dir: ConnDirectory, drv: Driver, cos: seq<Conn>, ghost cns: seq<ConnSnap>, ghost handles: set<Conn>)
    requires |cns| == |cos| && (forall j :: 0 <= j < |cos| ==> cos[j] in handles) && dir.Valid() && dir.Safe(drv) && SessionsOnly(dir)
    requires forall a, b :: 0 <= a < b < |cos| ==> cos[a].name != cos[b].name
    requires forall j :: 0 <= j < |cos| ==> ClosableSnap(dir.entries, cos[j].name, cns[j]) && cns[j] == ConnSnap(cos[j].ownerClose, cos[j].conn, cos[j].pool)
    modifies ip`lobs, ip`stmts, ip`conns
    modifies handles`foTimer, handles`foTimerScheduled, handles`foPendingMsg
    modifies handles`failoverCallback, handles`conn, handles`pool
    modifies dir`entries, drv`refs, drv`closed
    ensures ip.lobs == map[] && ip.stmts == map[] && ip.conns == map[]
    ensures dir.Valid() && dir.Safe(drv) && SessionsOnly(dir)
    ensures dir.entries == old(dir.entries) - OwnerNames(cos)
    ensures drv.closed == old(drv.closed) + Each(cns, ConnClosedOf)
    ensures drv.refs == ReleasedAll(old(drv.refs), Each(cns, ConnReleasedOf))
  {
    FreeEachConn(dir, drv, cos, cns, handles);
    ClearTables(ip);
  }

  /** Deleting the three hash tables once their handles are freed. */
  method ClearTables(ip: Interp)
    modifies ip`lobs, ip`stmts, ip`conns
    ensures ip.lobs == map[] && ip.stmts == map[] && ip.conns == map[]
  {
    ip.lobs, ip.stmts, ip.conns := map[], map[], map[];
  }

  /**
   * Oradpi_DeleteInterpData: free every LOB, then every statement, then
   * every connection, and empty the three tables.  Each table is visited
   * once per key, in the order it yields them (lo, so, co); the natives
   * closed come LOBs first, then statements, then connections, and are
   * exactly what the handles held (TeardownHolds: every LOB, statement and
   * pool, and the sessions of owning handles).  Each reference count drops
   * by the number of times the released natives name it; every
   * statement's asynchronous entry is cancelled, joined and gone; exactly
   * the owners' directory entries are erased.
   */
  method DeleteInterpData(ip: Interp, reg: AsyncRegistry, dir: ConnDirectory, drv: Driver, runs: Stmt -> WorkerRun,
                          lo: seq<string>, so: seq<string>, co: seq<string>,
                          ghost lp: map<string, seq<Ref>>, ghost ss: map<string, StmtSnap>, ghost cs: map<string, ConnSnap>)
    requires Named(ip) && LobsTyped(ip) && StmtsTyped(ip) && ConnsTyped(ip) && Owned(ip, dir)
    requires reg.Valid() && dir.Valid() && dir.Safe(drv) && SessionsOnly(dir)
    requires Enumerates(lo, ip.lobs.Keys) && Enumerates(so, ip.stmts.Keys) && Enumerates(co, ip.conns.Keys)
    requires lp == LobNatives(ip) && ss == StmtSnaps(ip, reg, runs) && cs == ConnSnaps(ip)
    modifies ip`lobs, ip`stmts, ip`conns, ip.lobs.Values`lob, ip.stmts.Values`stmt
    modifies ip.conns.Values`foTimer, ip.conns.Values`foTimerScheduled, ip.conns.Values`foPendingMsg
    modifies ip.conns.Values`failoverCallback, ip.conns.Values`conn, ip.conns.Values`pool
    modifies reg`entries, dir`entries, drv`refs, drv`executed, drv`breaks, drv`closed
    ensures ip.lobs == map[] && ip.stmts == map[] && ip.conns == map[]
    ensures reg.Valid() && dir.Valid() && dir.Safe(drv) && SessionsOnly(dir)
    ensures drv.closed == old(drv.closed) + TeardownLog(lp, ss, cs, lo, so, co)
    ensures RankOrdered(TeardownLog(lp, ss, cs, lo, so, co))
    ensures drv.refs == ReleasedAll(old(drv.refs), TeardownReleased(lp, ss, cs, lo, so, co))
    ensures forall r :: CountOf(drv.refs, r) == CountOf(old(drv.refs), r) - Occurrences(TeardownReleased(lp, ss, cs, lo, so, co), r)
    ensures drv.breaks == old(drv.breaks) + Gather(StmtBreaks(ss), so)
    ensures drv.executed == old(drv.executed) + Gather(StmtRuns(ss), so)
    ensures forall k :: k in cs && cs[k].owner && cs[k].session.Some? ==> cs[k].session.value in drv.closed
    ensures forall k :: k in ss && ss[k].native.Some? ==> old(ip.stmts)[k] !in reg.entries
    ensures forall k :: k in old(ip.conns) && old(ip.conns[k]).ownerClose ==> k !in dir.entries
    ensures forall n :: n in dir.entries ==> n in old(dir.entries) && dir.entries[n] == old(dir.entries[n])
    ensures forall n :: n in old(dir.entries) && !(n in old(ip.conns) && old(ip.conns[n]).ownerClose) ==> n in dir.entries
  {
    LobRanks(ip, lp, lo);
    StmtRanks(ip, reg, runs, ss, so);
    ConnRanks(ip, cs, co);
    ConnOrder(ip, co);
    var table := ip.conns;
    var cos := Pick(table, co);
    ghost var cns := Pick(cs, co);
    ConnsLined(ip, dir, cs, co, cos, cns);
    FreeHandles(ip, reg, dir, drv, runs, lo, so, cos, lp, ss, cns, table.Values);
    OwnersErased(table, co, cos);
    TeardownAssembled(lp, ss, cs, lo, so, co, cns, old(drv.closed), old(drv.refs), drv.closed, drv.refs);
  }
}
