/**
 * The ODPI-C driver as the bridge sees it: opaque native objects with
 * reference counts, a close operation, and calls that either succeed or
 * fail with error information.  Whether a call succeeds is never decided
 * here: the commands receive the driver's answers as parameters.
 */
module Native {
  import opened Wrappers
  import opened Tcl

  datatype Kind = ConnKind | PoolKind | StmtKind | VarKind | LobKind

  /** A native handle (dpiConn*, dpiPool*, dpiStmt*, dpiVar*, dpiLob*). */
  datatype Ref = Ref(kind: Kind, id: nat)

  /** dpiErrorInfo, as far as the bridge reads it. */
  datatype ErrorInfo = ErrorInfo(
    code: int,
    message: Option<string>,
    sqlState: Option<string>,
    offset: nat,
    isRecoverable: bool)

  /** dpiStmtInfo flags. */
  datatype StmtInfo = StmtInfo(isQuery: bool, isPLSQL: bool, isDML: bool, isDDL: bool, isReturning: bool)

  /** The answer of one driver call: its result, or the error dpiContext_getError reports. */
  datatype Reply<T> = Done(value: T) | Failed(err: ErrorInfo)

  /** The driver's answers for executing a statement once: dpiStmt_getInfo, dpiStmt_execute (None for success), dpiStmt_getRowCount (None when it fails). */
  datatype ExecAnswers = ExecAnswers(info: Reply<StmtInfo>, execute: Option<ErrorInfo>, rowCount: Option<nat>)

  /** An execution request handed to dpiStmt_execute (iters == 1) or dpiStmt_executeMany. */
  datatype Execution = Execution(stmt: Ref, iters: nat, commitOnSuccess: bool, batchErrors: bool)

  /**
   * dpiData as the bridge fills it: a 64-bit integer, a double (kept as
   * its text; floating point is not modelled), bytes, or a cell the bridge
   * never wrote.
   */
  datatype NativeValue = Int64Data(i: int) | DoubleData(text: string) | BytesData(data: seq<byte>) | Indeterminate

  /** What is bound to a placeholder: a value (dpiStmt_bindValueByName) or a variable (dpiStmt_bindByName). */
  datatype BindTarget = ByValue(value: NativeValue) | ByVar(v: Ref)

  /** The Oracle and native type numbers dpiConn_newVar is asked for by the array binds. */
  datatype OracleType = OracleVarchar | OracleNumber
  datatype NativeType = NativeInt64 | NativeDouble | NativeBytes

  /** The arguments of dpiConn_newVar: types, maxArraySize (rows), size and sizeIsBytes. */
  datatype VarShape = VarShape(oracle: OracleType, native: NativeType, rows: nat, size: nat, sizeIsBytes: bool)

  /** An array variable: the shape it was created with and the cells the bridge wrote into it. */
  datatype ArrayVar = ArrayVar(shape: VarShape, cells: seq<NativeValue>)

  /** One successful bind call on a statement, under the name the driver accepted. */
  datatype Binding = Binding(stmt: Ref, name: string, target: BindTarget)

  /**
   * The error a call on a null handle reports.  ODPI-C's own code and
   * message for it are not part of this model.
   */
  const NullHandleError: ErrorInfo := ErrorInfo(0, None, None, 0, false)

  class Driver {
    /** Reference count of every native object ever created. */
    var refs: map<Ref, int>
    /** Close calls (session, pool, statement, LOB), in the order they are made. */
    var closed: seq<Ref>
    /** Executions requested, in order. */
    var executed: seq<Execution>
    /** dpiConn_breakExecution requests, in order. */
    var breaks: seq<Ref>
    /** Successful bind calls, in order. */
    var bound: seq<Binding>
    /** The array variables created, with their shapes and the cells written into them. */
    var arrays: map<Ref, ArrayVar>
    /** Identifier for the next object the driver creates. */
    var next: nat
    /** The SQL text each statement was prepared from (dpiConn_prepareStmt). */
    var prepared: map<Ref, string>

    ghost predicate Valid()
      reads this
    {
      (forall r :: r in refs ==> r.id < next) && (forall k :: 0 <= k < |closed| ==> closed[k].id < next)
    }

    constructor ()
      ensures Valid() && refs == map[] && closed == [] && executed == [] && breaks == []
      ensures bound == [] && arrays == map[] && prepared == map[]
    {
      refs, closed, executed, breaks, next := map[], [], [], [], 0;
      bound, arrays, prepared := [], map[], map[];
    }

    function Count(r: Ref): int
      reads this
    {
      CountOf(refs, r)
    }

    /** A successful create call: a new object holding one reference. */
    method Create(kind: Kind) returns (r: Ref)
      requires Valid()
      modifies this`refs, this`next
      ensures Valid() && r.kind == kind && r.id == old(next) && next == old(next) + 1
      ensures r !in old(refs) && r !in old(closed)
      ensures refs == old(refs)[r := 1]
    {
      r := Ref(kind, next);
      refs := refs[r := 1];
      next := next + 1;
    }

    /** A successful dpiConn_prepareStmt: a new statement holding one reference, prepared from sql. */
    method Prepare(sql: string) returns (r: Ref)
      requires Valid()
      modifies this`refs, this`next, this`prepared
      ensures Valid() && r == Ref(StmtKind, old(next)) && next == old(next) + 1
      ensures r !in old(refs) && refs == old(refs)[r := 1] && prepared == old(prepared)[r := sql]
    {
      r := Ref(StmtKind, next);
      refs := refs[r := 1];
      prepared := prepared[r := sql];
      next := next + 1;
    }

    /** dpi*_addRef */
    method AddRef(r: Ref)
      modifies this`refs
      ensures refs == old(refs)[r := old(Count(r)) + 1]
    {
      refs := refs[r := Count(r) + 1];
    }

    /** dpi*_release */
    method Release(r: Ref)
      modifies this`refs
      ensures refs == old(refs)[r := old(Count(r)) - 1]
      ensures old(Valid()) && r.id < next ==> Valid()
    {
      refs := refs[r := Count(r) - 1];
    }

    /** dpiConn_close, dpiPool_close, dpiStmt_close, dpiLob_close */
    method Close(r: Ref)
      modifies this`closed
      ensures closed == old(closed) + [r]
    {
      closed := closed + [r];
    }

    /** dpiStmt_execute / dpiStmt_executeMany, recorded in the order they are made. */
    method Execute(e: Execution)
      modifies this`executed
      ensures executed == old(executed) + [e]
    {
      executed := executed + [e];
    }

    /** dpiStmt_bindByName / dpiStmt_bindValueByName, when the driver accepts the name. */
    method Bind(b: Binding)
      modifies this`bound
      ensures bound == old(bound) + [b]
    {
      bound := bound + [b];
    }

    /**
     * A successful dpiConn_newVar for an array, followed by the bridge
     * writing its cells: a new variable holding one reference.
     */
    method CreateArray(shape: VarShape, cells: seq<NativeValue>) returns (r: Ref)
      requires Valid()
      modifies this`refs, this`next, this`arrays
      ensures Valid() && r == Ref(VarKind, old(next)) && next == old(next) + 1
      ensures r !in old(refs) && refs == old(refs)[r := 1] && arrays == old(arrays)[r := ArrayVar(shape, cells)]
    {
      r := Ref(VarKind, next);
      refs := refs[r := 1];
      arrays := arrays[r := ArrayVar(shape, cells)];
      next := next + 1;
    }

    /** dpiConn_breakExecution */
    method Break(r: Ref)
      modifies this`breaks
      ensures breaks == old(breaks) + [r]
    {
      breaks := breaks + [r];
    }
  }

  /** The handle an optional pointer holds, as a list of zero or one element. */
  function Present(o: Option<Ref>): (r: seq<Ref>)
    ensures (o.Some? ==> r == [o.value]) && (o.None? ==> r == [])
  {
    if o.Some? then [o.value] else []
  }

  /** Every object of rs was created by a driver whose next identifier is next. */
  ghost predicate AllIssued(rs: seq<Ref>, next: nat)
  {
    forall k :: 0 <= k < |rs| ==> rs[k].id < next
  }

  /** Issued objects stay issued as the counter grows, and appending issued objects keeps them all issued. */
  lemma IssuedGrow(rs: seq<Ref>, more: seq<Ref>, next: nat, next2: nat)
    requires next <= next2 && AllIssued(more, next2)
    ensures AllIssued(rs, next) ==> AllIssued(rs + more, next2)
  {
  }

  /** The reference count a map records for r (0 for an object it does not know). */
  function CountOf(m: map<Ref, int>, r: Ref): int
  {
    if r in m then m[r] else 0
  }

  /** The counts after one more reference to r. */
  function Bumped(m: map<Ref, int>, r: Ref): (b: map<Ref, int>)
    ensures CountOf(b, r) == CountOf(m, r) + 1
    ensures forall x :: x != r ==> CountOf(b, x) == CountOf(m, x)
  {
    m[r := CountOf(m, r) + 1]
  }

  /** The counts after releasing each reference of rs once, in order. */
  function ReleasedAll(m: map<Ref, int>, rs: seq<Ref>): map<Ref, int>
    decreases |rs|
  {
    if rs == [] then m
    else
      var prev := ReleasedAll(m, rs[..|rs| - 1]);
      var r := rs[|rs| - 1];
      prev[r := (if r in prev then prev[r] else 0) - 1]
  }

  /** The counts after one more reference to each object of rs, in order (dpi*_addRef on each). */
  function BumpedAll(m: map<Ref, int>, rs: seq<Ref>): map<Ref, int>
    decreases |rs|
  {
    if rs == [] then m else Bumped(BumpedAll(m, rs[..|rs| - 1]), rs[|rs| - 1])
  }

  /** Adding references to a list and then releasing the same list leaves every count as it was. */
  lemma {:induction false} ReleaseUndoesBumpAll(m: map<Ref, int>, rs: seq<Ref>, r: Ref)
    ensures CountOf(BumpedAll(m, rs), r) == CountOf(m, r) + Occurrences(rs, r)
    ensures CountOf(ReleasedAll(BumpedAll(m, rs), rs), r) == CountOf(m, r)
    decreases |rs|
  {
    if rs != [] {
      ReleaseUndoesBumpAll(m, rs[..|rs| - 1], r);
    }
    ReleasedAllCounts(BumpedAll(m, rs), rs, r);
  }

  function Occurrences(rs: seq<Ref>, r: Ref): nat
    decreases |rs|
  {
    if rs == [] then 0
    else Occurrences(rs[..|rs| - 1], r) + (if rs[|rs| - 1] == r then 1 else 0)
  }

  /** A list's occurrences of r are those of its two halves. */
  lemma {:induction false} OccurrencesAppend(xs: seq<Ref>, ys: seq<Ref>, r: Ref)
    ensures Occurrences(xs + ys, r) == Occurrences(xs, r) + Occurrences(ys, r)
    decreases |ys|
  {
    if ys != [] {
      var zs := xs + ys;
      assert zs[..|zs| - 1] == xs + ys[..|ys| - 1];
      OccurrencesAppend(xs, ys[..|ys| - 1], r);
    } else {
      assert xs + ys == xs;
    }
  }

  /** Releasing a list lowers each count by the number of times the list holds it, and touches nothing else. */
  lemma {:induction false} ReleasedAllCounts(m: map<Ref, int>, rs: seq<Ref>, r: Ref)
    ensures r in ReleasedAll(m, rs) <==> r in m || r in rs
    ensures (if r in ReleasedAll(m, rs) then ReleasedAll(m, rs)[r] else 0)
         == (if r in m then m[r] else 0) - Occurrences(rs, r)
    decreases |rs|
  {
    if rs != [] {
      ReleasedAllCounts(m, rs[..|rs| - 1], r);
      assert rs == rs[..|rs| - 1] + [rs[|rs| - 1]];
    }
  }

  /** Releasing two lists in turn is releasing their concatenation. */
  lemma {:induction false} ReleasedAllAppend(m: map<Ref, int>, xs: seq<Ref>, ys: seq<Ref>)
    ensures ReleasedAll(ReleasedAll(m, xs), ys) == ReleasedAll(m, xs + ys)
    decreases |ys|
  {
    if ys != [] {
      var zs := xs + ys;
      assert zs[..|zs| - 1] == xs + ys[..|ys| - 1];
      assert zs[|zs| - 1] == ys[|ys| - 1];
      ReleasedAllAppend(m, xs, ys[..|ys| - 1]);
    } else {
      assert xs + ys == xs;
    }
  }

  /** Releasing a one-element list lowers that one count. */
  lemma ReleasedOne(m: map<Ref, int>, r: Ref)
    ensures ReleasedAll(m, [r]) == m[r := CountOf(m, r) - 1]
  {
    assert [r][..0] == [];
  }

  /** A reference added and then released leaves every count as it was. */
  lemma ReleaseUndoesBump(m: map<Ref, int>, r: Ref)
    ensures forall x :: CountOf(ReleasedAll(Bumped(m, r), [r]), x) == CountOf(m, x)
  {
    ReleasedOne(Bumped(m, r), r);
  }
}
