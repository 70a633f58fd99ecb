/**
 * The -arraydml path of Oradpi_Cmd_Orabindexec (cmd_bind.c): each leading
 * ":name list" pair becomes one array variable whose type is inferred
 * from the list, every list must be as long as the first, the variables
 * are bound by name and the statement runs once per row with
 * dpiStmt_executeMany.
 */
module ArrayDml {
  import opened Wrappers
  import opened Tcl
  import opened Native
  import opened Handles
  import opened Status
  import opened Bind
  import opened BindCmd
  import opened ExecRules

  // ---------------------------------------------------------------------
  // The type a list binds as
  // ---------------------------------------------------------------------

  /** The variable type chosen for a list: NUMBER/INT64, NUMBER/DOUBLE, or VARCHAR/BYTES of elemSize bytes. */
  datatype ArrType = Int64Array | DoubleArray | BytesArray(elemSize: nat)

  function Max(a: nat, b: nat): nat
  {
    if a < b then b else a
  }

  /**
   * The type the inference loop holds after the elements of elems:
   * VARCHAR sized for the longest string form so far (at least 1) until an
   * element reads as a number, then NUMBER, as INT64 when that element
   * reads as a 64-bit integer and as DOUBLE otherwise; later elements
   * leave a NUMBER type as it is.
   */
  function Inferred(elems: seq<Value>): ArrType
    decreases |elems|
  {
    if elems == [] then BytesArray(1)
    else
      var t := Inferred(elems[..|elems| - 1]);
      var e := elems[|elems| - 1];
      if !t.BytesArray? then t
      else if GetWide(e).Some? then Int64Array
      else if IsDouble(e) then DoubleArray
      else BytesArray(Max(t.elemSize, Width(e)))
  }

  /** Once a NUMBER type is chosen, the elements after it change nothing. */
  lemma {:induction false} InferredSettles(elems: seq<Value>, n: nat)
    requires n <= |elems| && !Inferred(elems[..n]).BytesArray?
    ensures Inferred(elems) == Inferred(elems[..n])
    decreases |elems|
  {
    if n < |elems| {
      var init := elems[..|elems| - 1];
      assert init[..n] == elems[..n];
      InferredSettles(init, n);
    } else {
      assert elems[..n] == elems;
    }
  }

  /** The length of a word's string form in bytes, as Tcl_GetStringFromObj reports it. */
  function Width(v: Value): nat
  {
    |Rep(Text(v))|
  }

  /** A list binds as VARCHAR exactly when none of its elements reads as a number. */
  lemma {:induction false} InferredBytesIff(elems: seq<Value>)
    ensures Inferred(elems).BytesArray? <==> forall p :: 0 <= p < |elems| ==> !IsDouble(elems[p])
    decreases |elems|
  {
    if elems != [] {
      var init := elems[..|elems| - 1];
      var e := elems[|elems| - 1];
      InferredBytesIff(init);
      assert forall p :: 0 <= p < |init| ==> init[p] == elems[p];
      if GetWide(e).Some? {
        assert ParseInt(Text(e)).Some?;
      }
    }
  }

  /**
   * A VARCHAR list's element size is at least 1, holds the string form of
   * every element, and is 1 or the length of one of them.
   */
  lemma {:induction false} InferredWidth(elems: seq<Value>)
    requires Inferred(elems).BytesArray?
    ensures var n := Inferred(elems).elemSize;
      1 <= n && (forall p :: 0 <= p < |elems| ==> Width(elems[p]) <= n) &&
      (n == 1 || exists p :: 0 <= p < |elems| && Width(elems[p]) == n)
    decreases |elems|
  {
    if elems != [] {
      var init := elems[..|elems| - 1];
      var e := elems[|elems| - 1];
      var t := Inferred(init);
      assert t.BytesArray? && Inferred(elems) == BytesArray(Max(t.elemSize, Width(e)));
      InferredWidth(init);
      assert forall p :: 0 <= p < |init| ==> init[p] == elems[p];
      if t.elemSize != 1 && t.elemSize >= Width(e) {
        var p :| 0 <= p < |init| && Width(init[p]) == t.elemSize;
        assert elems[p] == init[p];
      }
    }
  }

  /** The first element that reads as a number decides: INT64 if it reads as a 64-bit integer, DOUBLE otherwise. */
  lemma InferredNumeric(elems: seq<Value>, p: nat)
    requires p < |elems| && IsDouble(elems[p]) && forall q :: 0 <= q < p ==> !IsDouble(elems[q])
    ensures Inferred(elems) == if GetWide(elems[p]).Some? then Int64Array else DoubleArray
  {
    var pre := elems[..p + 1];
    assert pre[..p] == elems[..p] && pre[p] == elems[p];
    InferredBytesIff(elems[..p]);
    InferredSettles(elems, p + 1);
  }

  /** The inference loop: element by element, until one reads as a number. */
  method InferType(elems: seq<Value>) returns (t: ArrType)
    ensures t == Inferred(elems)
  {
    t := BytesArray(1);
    var p := 0;
    while p < |elems|
      invariant p <= |elems| && t == Inferred(elems[..p]) && t.BytesArray?
    {
      var e := elems[p];
      assert elems[..p + 1][..p] == elems[..p];
      if GetWide(e).Some? {
        t := Int64Array;
        InferredSettles(elems, p + 1);
        return;
      }
      if IsDouble(e) {
        t := DoubleArray;
        InferredSettles(elems, p + 1);
        return;
      }
      var sl := |Rep(Text(e))|;
      assert sl == Width(e);
      if sl > t.elemSize {
        t := BytesArray(sl);
      }
      p := p + 1;
    }
    assert elems[..p] == elems;
  }

  // ---------------------------------------------------------------------
  // The cells and the variable of one list
  // ---------------------------------------------------------------------

  /**
   * The cell written for element e of a list of type t.  The parse status
   * is ignored, as the code ignores it: an element of a NUMBER list that
   * does not read as that kind of number leaves its cell unwritten.
   */
  function Cell(t: ArrType, e: Value): NativeValue
  {
    match t
    case Int64Array => if GetWide(e).Some? then Int64Data(GetWide(e).value) else Indeterminate
    case DoubleArray => if IsDouble(e) then DoubleData(Text(e)) else Indeterminate
    case BytesArray(_) => BytesData(Rep(Text(e)))
  }

  /** The cells of the first rows elements. */
  function CellsOf(t: ArrType, elems: seq<Value>, rows: nat): seq<NativeValue>
    requires rows <= |elems|
  {
    seq(rows, k requires 0 <= k < rows => Cell(t, elems[k]))
  }

  /** The fill loop: row by row, each cell from its element. */
  method WriteCells(t: ArrType, elems: seq<Value>, rows: nat) returns (cells: seq<NativeValue>)
    requires rows <= |elems|
    ensures cells == CellsOf(t, elems, rows)
  {
    cells := [];
    var r := 0;
    while r < rows
      invariant r <= rows && cells == CellsOf(t, elems, r)
    {
      cells := cells + [Cell(t, elems[r])];
      r := r + 1;
    }
  }

  /**
   * Every cell fits the variable made for its list: a VARCHAR list's cells
   * are the string forms of its elements, none longer than the element
   * size; a NUMBER list's cell holds the number its element reads as, and
   * is unwritten exactly when the element does not read as that kind.
   */
  lemma CellsFit(elems: seq<Value>, rows: nat, r: nat)
    requires r < rows <= |elems|
    ensures var t := Inferred(elems); var c := CellsOf(t, elems, rows)[r];
      (t.BytesArray? ==> c == BytesData(Rep(Text(elems[r]))) && |c.data| <= t.elemSize) &&
      (t.Int64Array? && GetWide(elems[r]).Some? ==> c == Int64Data(GetWide(elems[r]).value)) &&
      (t.DoubleArray? && IsDouble(elems[r]) ==> c == DoubleData(Text(elems[r]))) &&
      (c == Indeterminate <==> (t.Int64Array? && GetWide(elems[r]).None?) || (t.DoubleArray? && !IsDouble(elems[r])))
  {
    if Inferred(elems).BytesArray? {
      InferredWidth(elems);
    }
  }

  /** The dpiConn_newVar arguments for a list of type t: rows elements, a size only for bytes. */
  function ShapeOf(t: ArrType, rows: nat): VarShape
  {
    match t
    case Int64Array => VarShape(OracleNumber, NativeInt64, rows, 0, false)
    case DoubleArray => VarShape(OracleNumber, NativeDouble, rows, 0, false)
    case BytesArray(n) => VarShape(OracleVarchar, NativeBytes, rows, n, true)
  }

  // ---------------------------------------------------------------------
  // Collecting the ":name list" pairs
  // ---------------------------------------------------------------------

  /** One ":name list" pair: the name without its colon, the list's elements, the type inferred from them. */
  datatype ArrSpec = ArrSpec(name: string, elems: seq<Value>, ty: ArrType)

  function SpecOf(pair: (string, Value)): ArrSpec
  {
    ArrSpec(pair.0, GetList(pair.1), Inferred(GetList(pair.1)))
  }

  function SpecsOf(pairs: seq<(string, Value)>): (r: seq<ArrSpec>)
    ensures |r| == |pairs|
  {
    seq(|pairs|, k requires 0 <= k < |pairs| => SpecOf(pairs[k]))
  }

  /** The first pair from k on whose list is not as long as the first pair's. */
  function MismatchFrom(pairs: seq<(string, Value)>, k: nat): (r: Option<nat>)
    requires k <= |pairs|
    ensures r.Some? ==> k <= r.value < |pairs|
    decreases |pairs| - k
  {
    if k == |pairs| then None
    else if |GetList(pairs[k].1)| != |GetList(pairs[0].1)| then Some(k)
    else MismatchFrom(pairs, k + 1)
  }

  /** The error for the first list whose length differs from the first list's, if any. */
  function MismatchOutcome(pairs: seq<(string, Value)>): Option<Outcome>
  {
    match MismatchFrom(pairs, 0)
    case None => None
    case Some(k) => Some(MismatchError(pairs[k].0, |GetList(pairs[k].1)|, |GetList(pairs[0].1)|))
  }

  function MismatchError(name: string, count: nat, expected: nat): Outcome
  {
    Failure("-arraydml list lengths mismatch: :" + name + " has " + IntText(count) + " vs expected " + IntText(expected))
  }

  const NoArrayPairs: string := "orabindexec -arraydml requires :name list pairs"

  /** Every list from k on that is as long as the first leaves the search for a mismatch to the rest. */
  lemma {:induction false} MismatchFromSpec(pairs: seq<(string, Value)>, k: nat)
    requires k <= |pairs| && forall q :: 0 <= q < k ==> |GetList(pairs[q].1)| == |GetList(pairs[0].1)|
    ensures MismatchFrom(pairs, k).None? <==> forall q :: 0 <= q < |pairs| ==> |GetList(pairs[q].1)| == |GetList(pairs[0].1)|
    ensures MismatchFrom(pairs, k).Some? ==> var m := MismatchFrom(pairs, k).value;
      |GetList(pairs[m].1)| != |GetList(pairs[0].1)| && forall q :: 0 <= q < m ==> |GetList(pairs[q].1)| == |GetList(pairs[0].1)|
    decreases |pairs| - k
  {
    if k < |pairs| && |GetList(pairs[k].1)| == |GetList(pairs[0].1)| {
      MismatchFromSpec(pairs, k + 1);
    }
  }

  /**
   * The lists are refused exactly when one is not as long as the first,
   * and then with the error naming the first such list, its length and
   * the first list's.
   */
  lemma MismatchSpec(pairs: seq<(string, Value)>)
    ensures MismatchOutcome(pairs).None? <==> forall q :: 0 <= q < |pairs| ==> |GetList(pairs[q].1)| == |GetList(pairs[0].1)|
    ensures MismatchOutcome(pairs).Some? ==>
      exists m :: (0 < m < |pairs| &&
        |GetList(pairs[m].1)| != |GetList(pairs[0].1)| &&
        (forall q :: 0 <= q < m ==> |GetList(pairs[q].1)| == |GetList(pairs[0].1)|) &&
        MismatchOutcome(pairs).value == MismatchError(pairs[m].0, |GetList(pairs[m].1)|, |GetList(pairs[0].1)|))
  {
    MismatchFromSpec(pairs, 0);
  }

  /** The collecting loop: the first list fixes the expected length, each list's type is inferred in turn. */
  method CollectSpecs(pairs: seq<(string, Value)>) returns (specs: seq<ArrSpec>, err: Option<Outcome>)
    ensures err == MismatchOutcome(pairs)
    ensures err.None? ==> specs == SpecsOf(pairs)
  {
    specs, err := [], None;
    var expected: int := -1;
    var k := 0;
    while k < |pairs|
      invariant k <= |pairs| && |specs| == k
      invariant forall q :: 0 <= q < k ==> specs[q] == SpecOf(pairs[q])
      invariant MismatchFrom(pairs, 0) == MismatchFrom(pairs, k)
      invariant expected == if k == 0 then -1 else |GetList(pairs[0].1)|
    {
      var elems := GetList(pairs[k].1);
      if expected < 0 {
        expected := |elems|;
      }
      if |elems| != expected {
        err := Some(MismatchError(pairs[k].0, |elems|, expected));
        return;
      }
      var t := InferType(elems);
      specs := specs + [ArrSpec(pairs[k].0, elems, t)];
      k := k + 1;
    }
  }

  // ---------------------------------------------------------------------
  // Making and binding the variables
  // ---------------------------------------------------------------------

  /** The driver's side of the array path: counts, counter, array variables and bind calls. */
  datatype ArrView = ArrView(refs: map<Ref, int>, next: nat, arrays: map<Ref, ArrayVar>, bound: seq<Binding>)

  /** Every list has at least rows elements. */
  predicate RowsFit(specs: seq<ArrSpec>, rows: nat)
  {
    forall k :: 0 <= k < |specs| ==> rows <= |specs[k].elems|
  }

  /** The first failing step of making and binding one variable, with the call the status block names. */
  function VarFailure(stmt: Option<Ref>, name: string, ans: BindAnswers): Option<(ErrorInfo, string)>
  {
    if ans.newVar.Some? then Some((ans.newVar.value, "dpiConn_newVar(array)"))
    else if AcceptedName(stmt, name, FromBind, ans).None? then Some((Refusal(stmt, ans), "dpiStmt_bindByName(array)"))
    else None
  }

  function VarOutcome(stmt: Option<Ref>, name: string, ans: BindAnswers): Outcome
  {
    match VarFailure(stmt, name, ans)
    case Some(f) => DriverFailure(f.0, f.1)
    case None => Ok(Empty)
  }

  function VarMsg(msg0: Msg, stmt: Option<Ref>, name: string, ans: BindAnswers): Msg
  {
    match VarFailure(stmt, name, ans)
    case Some(f) => DriverMsg(msg0, f.0, f.1)
    case None => msg0
  }

  /** The bind call the driver accepts for variable v under name, if any. */
  function VarBinding(stmt: Option<Ref>, name: string, ans: BindAnswers, v: Ref): seq<Binding>
  {
    var n := AcceptedName(stmt, name, FromBind, ans);
    if n.Some? then [Binding(stmt.value, n.value, ByVar(v))] else []
  }

  /** How many specs, from the first, get their variable made and bound before one fails. */
  function BoundSpecs(stmt: Option<Ref>, specs: seq<ArrSpec>, answers: seq<BindAnswers>): (n: nat)
    requires |specs| <= |answers|
    ensures n <= |specs|
    decreases |specs|
  {
    if specs == [] || VarFailure(stmt, specs[0].name, answers[0]).Some? then 0
    else 1 + BoundSpecs(stmt, specs[1..], answers[1..])
  }

  /** How many variables are made: the bound ones, and the one refused a bind after dpiConn_newVar. */
  function Made(stmt: Option<Ref>, specs: seq<ArrSpec>, answers: seq<BindAnswers>): (n: nat)
    requires |specs| <= |answers|
    ensures n <= |specs|
  {
    var b := BoundSpecs(stmt, specs, answers);
    b + (if b < |specs| && answers[b].newVar.None? then 1 else 0)
  }

  /** The k-th variable the driver creates from counter value next on. */
  function VarAt(next: nat, k: nat): Ref
  {
    Ref(VarKind, next + k)
  }

  /** The variables the driver creates from counter value next on: one per spec, in order. */
  function VarsFrom(next: nat, n: nat): (r: seq<Ref>)
    ensures |r| == n
  {
    seq(n, k requires 0 <= k < n => VarAt(next, k))
  }

  /** The array variable a spec makes: its shape and the cells of its first rows elements. */
  function ArrayOf(spec: ArrSpec, rows: nat): ArrayVar
    requires rows <= |spec.elems|
  {
    ArrayVar(ShapeOf(spec.ty, rows), CellsOf(spec.ty, spec.elems, rows))
  }

  /** The bind calls the first n specs make, variable k being the k-th made. */
  function ArrayBindings(stmt: Option<Ref>, specs: seq<ArrSpec>, answers: seq<BindAnswers>, next: nat, n: nat): seq<Binding>
    requires n <= |specs| <= |answers|
    decreases n
  {
    if n == 0 then []
    else ArrayBindings(stmt, specs, answers, next, n - 1) + VarBinding(stmt, specs[n - 1].name, answers[n - 1], VarAt(next, n - 1))
  }

  /** The array variables after the first n specs made theirs. */
  function Filled(arrays: map<Ref, ArrayVar>, specs: seq<ArrSpec>, rows: nat, next: nat, n: nat): map<Ref, ArrayVar>
    requires n <= |specs| && RowsFit(specs, rows)
    decreases n
  {
    if n == 0 then arrays
    else Filled(arrays, specs, rows, next, n - 1)[VarAt(next, n - 1) := ArrayOf(specs[n - 1], rows)]
  }

  /**
   * The specs bound are those before the first failing one: every spec
   * before BoundSpecs passes, and the spec at BoundSpecs, if any, fails.
   */
  lemma {:induction false} BoundSpecsSpec(stmt: Option<Ref>, specs: seq<ArrSpec>, answers: seq<BindAnswers>)
    requires |specs| <= |answers|
    ensures var b := BoundSpecs(stmt, specs, answers);
      (forall q :: 0 <= q < b ==> VarFailure(stmt, specs[q].name, answers[q]).None?) &&
      (b < |specs| ==> VarFailure(stmt, specs[b].name, answers[b]).Some?)
    decreases |specs|
  {
    if specs != [] && VarFailure(stmt, specs[0].name, answers[0]).None? {
      BoundSpecsSpec(stmt, specs[1..], answers[1..]);
      var b := BoundSpecs(stmt, specs, answers);
      forall q | 0 < q < b
        ensures VarFailure(stmt, specs[q].name, answers[q]).None?
      {
        assert specs[1..][q - 1] == specs[q] && answers[1..][q - 1] == answers[q];
      }
    }
  }

  /** Every one of the first k specs gets its variable made and bound. */
  ghost predicate Passed(stmt: Option<Ref>, specs: seq<ArrSpec>, answers: seq<BindAnswers>, k: nat)
    requires k <= |specs| <= |answers|
  {
    forall q :: 0 <= q < k ==> VarFailure(stmt, specs[q].name, answers[q]).None?
  }

  /** A spec count k with every spec before it passing and the one at k failing (or none left) is BoundSpecs. */
  lemma {:induction false} BoundSpecsAt(stmt: Option<Ref>, specs: seq<ArrSpec>, answers: seq<BindAnswers>, k: nat)
    requires k <= |specs| <= |answers|
    requires Passed(stmt, specs, answers, k)
    requires k == |specs| || VarFailure(stmt, specs[k].name, answers[k]).Some?
    ensures BoundSpecs(stmt, specs, answers) == k
    decreases k
  {
    if k > 0 {
      forall q | 0 <= q < k - 1
        ensures VarFailure(stmt, specs[1..][q].name, answers[1..][q]).None?
      {
        assert specs[1..][q] == specs[q + 1] && answers[1..][q] == answers[q + 1];
      }
      if k < |specs| {
        assert specs[1..][k - 1] == specs[k] && answers[1..][k - 1] == answers[k];
      }
      BoundSpecsAt(stmt, specs[1..], answers[1..], k - 1);
    }
  }

  /** Variable k of the first n made holds spec k's shape and cells. */
  lemma {:induction false} FilledAt(arrays: map<Ref, ArrayVar>, specs: seq<ArrSpec>, rows: nat, next: nat, n: nat, k: nat)
    requires k < n <= |specs| && RowsFit(specs, rows)
    ensures var m := Filled(arrays, specs, rows, next, n);
      VarAt(next, k) in m && m[VarAt(next, k)] == ArrayOf(specs[k], rows)
    decreases n
  {
    if k < n - 1 {
      FilledAt(arrays, specs, rows, next, n - 1, k);
    }
  }

  /** A variable outside the n made keeps its entry. */
  lemma {:induction false} FilledOther(arrays: map<Ref, ArrayVar>, specs: seq<ArrSpec>, rows: nat, next: nat, n: nat, r: Ref)
    requires n <= |specs| && RowsFit(specs, rows) && !(r.kind == VarKind && next <= r.id < next + n)
    ensures var m := Filled(arrays, specs, rows, next, n);
      (r in m <==> r in arrays) && (r in m ==> m[r] == arrays[r])
    decreases n
  {
    if n > 0 {
      FilledOther(arrays, specs, rows, next, n - 1, r);
    }
  }

  /**
   * The array variables after n specs: variable k holds spec k's shape and
   * cells for every k < n, and every other variable is as before.
   */
  lemma FilledSpec(arrays: map<Ref, ArrayVar>, specs: seq<ArrSpec>, rows: nat, next: nat, n: nat)
    requires n <= |specs| && RowsFit(specs, rows)
    ensures forall k :: 0 <= k < n ==>
      VarAt(next, k) in Filled(arrays, specs, rows, next, n) &&
      Filled(arrays, specs, rows, next, n)[VarAt(next, k)] == ArrayOf(specs[k], rows)
    ensures forall r: Ref :: !(r.kind == VarKind && next <= r.id < next + n) ==>
      (r in Filled(arrays, specs, rows, next, n) <==> r in arrays) &&
      (r in arrays ==> Filled(arrays, specs, rows, next, n)[r] == arrays[r])
  {
    forall k | 0 <= k < n
      ensures VarAt(next, k) in Filled(arrays, specs, rows, next, n) &&
        Filled(arrays, specs, rows, next, n)[VarAt(next, k)] == ArrayOf(specs[k], rows)
    {
      FilledAt(arrays, specs, rows, next, n, k);
    }
    forall r: Ref | !(r.kind == VarKind && next <= r.id < next + n)
      ensures (r in Filled(arrays, specs, rows, next, n) <==> r in arrays) &&
        (r in arrays ==> Filled(arrays, specs, rows, next, n)[r] == arrays[r])
    {
      FilledOther(arrays, specs, rows, next, n, r);
    }
  }

  /** Each count of now is that of before plus the times vars holds it, and one more fresh variable adds one. */
  lemma CountsAddFresh(m0: map<Ref, int>, m1: map<Ref, int>, vars: seq<Ref>, x: Ref)
    requires CountsAdd(m1, m0, vars) && x !in m1
    ensures CountsAdd(m1[x := 1], m0, vars + [x])
  {
    forall r
      ensures CountOf(m1[x := 1], r) == CountOf(m0, r) + Occurrences(vars + [x], r)
    {
      OccurrencesAppend(vars, [x], r);
      assert [x][..0] == [];
    }
  }

  /** What making the variables did, besides the outcome: the variables, counter, arrays and bind calls. */
  ghost predicate VarsState(stmt: Option<Ref>, specs: seq<ArrSpec>, rows: nat, answers: seq<BindAnswers>,
                            d0: ArrView, d: ArrView, vars: seq<Ref>)
    requires |specs| <= |answers| && RowsFit(specs, rows)
  {
    var n := Made(stmt, specs, answers);
    vars == VarsFrom(d0.next, n) && d.next == d0.next + n &&
    d.arrays == Filled(d0.arrays, specs, rows, d0.next, n) &&
    d.bound == d0.bound + ArrayBindings(stmt, specs, answers, d0.next, BoundSpecs(stmt, specs, answers))
  }

  /** One turn of the making loop: dpiConn_newVar, the cells, the bind under either spelling. */
  method MakeVar(s: Stmt, drv: Driver, spec: ArrSpec, rows: nat, ans: BindAnswers, ghost stmt: Option<Ref>, ghost d1: ArrView,
                 ghost q: set<EventQueue>)
    returns (o: Outcome, made: bool, x: Ref)
    requires drv.Valid() && stmt == s.stmt && rows <= |spec.elems| && q == QueueOf(PostTarget(StmtH(s)))
    requires d1 == ArrView(drv.refs, drv.next, drv.arrays, drv.bound)
    requires s.owner != null // dpiConn_newVar is called on s->owner->conn unchecked
    modifies drv`refs, drv`next, drv`arrays, drv`bound, s`msg, q
    ensures drv.Valid() && made == ans.newVar.None?
    ensures x == Ref(VarKind, d1.next) && (made ==> x !in d1.refs)
    ensures ArrView(drv.refs, drv.next, drv.arrays, drv.bound)
         == if made then MadeOne(d1, stmt, spec, rows, ans, x) else d1
    ensures o == VarOutcome(stmt, spec.name, ans) && s.msg == VarMsg(old(s.msg), stmt, spec.name, ans)
  {
    if ans.newVar.Some? {
      o := SetErrorFromODPI(StmtH(s), ans.newVar.value, "dpiConn_newVar(array)");
      return o, false, Ref(VarKind, drv.next);
    }
    var cells := WriteCells(spec.ty, spec.elems, rows);
    x := drv.CreateArray(ShapeOf(spec.ty, rows), cells);
    o := BindByNameDual(s, drv, spec.name, ByVar(x), FromBind, ans, "dpiStmt_bindByName(array)");
    made := true;
  }

  /** What making the variables answers: the first failure, or success when every spec got its variable bound. */
  function MakeOutcome(stmt: Option<Ref>, specs: seq<ArrSpec>, answers: seq<BindAnswers>): Outcome
    requires |specs| <= |answers|
  {
    var b := BoundSpecs(stmt, specs, answers);
    if b == |specs| then Ok(Empty) else VarOutcome(stmt, specs[b].name, answers[b])
  }

  function MakeMsg(msg0: Msg, stmt: Option<Ref>, specs: seq<ArrSpec>, answers: seq<BindAnswers>): Msg
    requires |specs| <= |answers|
  {
    var b := BoundSpecs(stmt, specs, answers);
    if b == |specs| then msg0 else VarMsg(msg0, stmt, specs[b].name, answers[b])
  }

  /** One more variable made: the list of those made grows by the next one the counter names. */
  lemma VarsFromNext(next: nat, k: nat)
    ensures VarsFrom(next, k) + [VarAt(next, k)] == VarsFrom(next, k + 1)
  {
  }

  /** The state after the first k specs all got their variables made and bound. */
  ghost predicate MadeSoFar(stmt: Option<Ref>, specs: seq<ArrSpec>, rows: nat, answers: seq<BindAnswers>,
                            d0: ArrView, d: ArrView, vars: seq<Ref>, k: nat)
  {
    k <= |specs| <= |answers| && RowsFit(specs, rows) && Passed(stmt, specs, answers, k) &&
    vars == VarsFrom(d0.next, k) && d.next == d0.next + k &&
    d.arrays == Filled(d0.arrays, specs, rows, d0.next, k) &&
    d.bound == d0.bound + ArrayBindings(stmt, specs, answers, d0.next, k) &&
    CountsAdd(d.refs, d0.refs, vars)
  }

  /** The view after variable x for spec k is made, filled and offered for binding. */
  function MadeOne(d: ArrView, stmt: Option<Ref>, spec: ArrSpec, rows: nat, ans: BindAnswers, x: Ref): ArrView
    requires rows <= |spec.elems|
  {
    ArrView(d.refs[x := 1], d.next + 1, d.arrays[x := ArrayOf(spec, rows)], d.bound + VarBinding(stmt, spec.name, ans, x))
  }

  /** One more passing spec extends the passing prefix. */
  lemma PassedNext(stmt: Option<Ref>, specs: seq<ArrSpec>, answers: seq<BindAnswers>, k: nat)
    requires k < |specs| <= |answers| && Passed(stmt, specs, answers, k)
    requires VarFailure(stmt, specs[k].name, answers[k]).None?
    ensures Passed(stmt, specs, answers, k + 1)
  {
  }

  /** Spec k's variable x adds its bind call to those of the first k. */
  lemma BindingsNext(stmt: Option<Ref>, specs: seq<ArrSpec>, answers: seq<BindAnswers>, next: nat, k: nat,
                     b0: seq<Binding>, b1: seq<Binding>)
    requires k < |specs| <= |answers| && b1 == b0 + ArrayBindings(stmt, specs, answers, next, k)
    ensures b1 + VarBinding(stmt, specs[k].name, answers[k], VarAt(next, k)) == b0 + ArrayBindings(stmt, specs, answers, next, k + 1)
  {
  }

  /** Spec k passing moves the loop state on to k + 1. */
  lemma MadeStep(stmt: Option<Ref>, specs: seq<ArrSpec>, rows: nat, answers: seq<BindAnswers>,
                 d0: ArrView, d1: ArrView, vars: seq<Ref>, k: nat)
    requires MadeSoFar(stmt, specs, rows, answers, d0, d1, vars, k) && k < |specs|
    requires VarFailure(stmt, specs[k].name, answers[k]).None? && VarAt(d0.next, k) !in d1.refs
    ensures MadeSoFar(stmt, specs, rows, answers, d0, MadeOne(d1, stmt, specs[k], rows, answers[k], VarAt(d0.next, k)),
                      vars + [VarAt(d0.next, k)], k + 1)
  {
    var x := VarAt(d0.next, k);
    PassedNext(stmt, specs, answers, k);
    CountsAddFresh(d0.refs, d1.refs, vars, x);
    VarsFromNext(d0.next, k);
    BindingsNext(stmt, specs, answers, d0.next, k, d0.bound, d1.bound);
  }

  /** Spec k failing makes it the one the outcome and the status block report. */
  lemma StopOutcome(stmt: Option<Ref>, specs: seq<ArrSpec>, answers: seq<BindAnswers>, k: nat, msg0: Msg)
    requires k < |specs| <= |answers| && Passed(stmt, specs, answers, k)
    requires VarFailure(stmt, specs[k].name, answers[k]).Some?
    ensures BoundSpecs(stmt, specs, answers) == k
    ensures MakeOutcome(stmt, specs, answers) == VarOutcome(stmt, specs[k].name, answers[k])
    ensures MakeMsg(msg0, stmt, specs, answers) == VarMsg(msg0, stmt, specs[k].name, answers[k])
  {
    BoundSpecsAt(stmt, specs, answers, k);
  }

  /** dpiConn_newVar failing for spec k ends the loop with the variables of the first k. */
  lemma NoVarStop(stmt: Option<Ref>, specs: seq<ArrSpec>, rows: nat, answers: seq<BindAnswers>,
                  d0: ArrView, d1: ArrView, vars: seq<Ref>, k: nat)
    requires MadeSoFar(stmt, specs, rows, answers, d0, d1, vars, k) && k < |specs|
    requires answers[k].newVar.Some? && BoundSpecs(stmt, specs, answers) == k
    ensures VarsState(stmt, specs, rows, answers, d0, d1, vars)
  {
  }

  /** Spec k's variable made but its bind refused ends the loop holding that variable too. */
  lemma RefusedStop(stmt: Option<Ref>, specs: seq<ArrSpec>, rows: nat, answers: seq<BindAnswers>,
                    d0: ArrView, d1: ArrView, vars: seq<Ref>, k: nat)
    requires MadeSoFar(stmt, specs, rows, answers, d0, d1, vars, k) && k < |specs|
    requires answers[k].newVar.None? && VarFailure(stmt, specs[k].name, answers[k]).Some?
    requires BoundSpecs(stmt, specs, answers) == k && VarAt(d0.next, k) !in d1.refs
    ensures var x := VarAt(d0.next, k);
      var d2 := MadeOne(d1, stmt, specs[k], rows, answers[k], x);
      VarsState(stmt, specs, rows, answers, d0, d2, vars + [x]) && CountsAdd(d2.refs, d0.refs, vars + [x])
  {
    var x := VarAt(d0.next, k);
    CountsAddFresh(d0.refs, d1.refs, vars, x);
    VarsFromNext(d0.next, k);
    assert VarBinding(stmt, specs[k].name, answers[k], x) == [];
    assert d1.bound + [] == d1.bound;
  }

  /** Every spec passing ends the loop in the state VarsState describes, with success. */
  lemma MadeAll(stmt: Option<Ref>, specs: seq<ArrSpec>, rows: nat, answers: seq<BindAnswers>,
                d0: ArrView, d: ArrView, vars: seq<Ref>, msg0: Msg)
    requires MadeSoFar(stmt, specs, rows, answers, d0, d, vars, |specs|)
    ensures VarsState(stmt, specs, rows, answers, d0, d, vars) && CountsAdd(d.refs, d0.refs, vars)
    ensures MakeOutcome(stmt, specs, answers) == Ok(Empty) && MakeMsg(msg0, stmt, specs, answers) == msg0
  {
    BoundSpecsAt(stmt, specs, answers, |specs|);
  }

  /**
   * One turn of the loop over the specs, for spec k: on success the state
   * moves on to k + 1; on failure it is the final one, spec k's error.
   */
  method MakeNext(s: Stmt, drv: Driver, specs: seq<ArrSpec>, rows: nat, answers: seq<BindAnswers>, k: nat, vars: seq<Ref>,
                  ghost stmt: Option<Ref>, ghost d0: ArrView, ghost msg0: Msg, ghost q: set<EventQueue>)
    returns (o: Outcome, vars2: seq<Ref>)
    requires drv.Valid() && stmt == s.stmt && s.owner != null && q == QueueOf(PostTarget(StmtH(s)))
    requires k < |specs| && msg0 == s.msg
    requires MadeSoFar(stmt, specs, rows, answers, d0, ArrView(drv.refs, drv.next, drv.arrays, drv.bound), vars, k)
    modifies drv`refs, drv`next, drv`arrays, drv`bound, s`msg, q
    ensures drv.Valid()
    ensures o.Ok? ==> s.msg == msg0 && MadeSoFar(stmt, specs, rows, answers, d0, ArrView(drv.refs, drv.next, drv.arrays, drv.bound), vars2, k + 1)
    ensures o.Error? ==>
      VarsState(stmt, specs, rows, answers, d0, ArrView(drv.refs, drv.next, drv.arrays, drv.bound), vars2) &&
      CountsAdd(drv.refs, d0.refs, vars2) &&
      o == MakeOutcome(stmt, specs, answers) && s.msg == MakeMsg(msg0, stmt, specs, answers)
  {
    ghost var d1 := ArrView(drv.refs, drv.next, drv.arrays, drv.bound);
    var made, x;
    o, made, x := MakeVar(s, drv, specs[k], rows, answers[k], stmt, d1, q);
    assert x == VarAt(d0.next, k);
    vars2 := if made then vars + [x] else vars;
    if o.Error? {
      StopOutcome(stmt, specs, answers, k, msg0);
      if made {
        RefusedStop(stmt, specs, rows, answers, d0, d1, vars, k);
      } else {
        NoVarStop(stmt, specs, rows, answers, d0, d1, vars, k);
      }
    } else {
      MadeStep(stmt, specs, rows, answers, d0, d1, vars, k);
    }
  }

  /**
   * The loop over the specs: for each, dpiConn_newVar, the cells and the
   * bind, stopping at the first failure with the variables made so far
   * still held (vars, each counted once more than before).
   */
  method MakeVars(s: Stmt, drv: Driver, specs: seq<ArrSpec>, rows: nat, answers: seq<BindAnswers>,
                  ghost stmt: Option<Ref>, ghost d0: ArrView, ghost msg0: Msg, ghost q: set<EventQueue>)
    returns (o: Outcome, vars: seq<Ref>)
    requires drv.Valid() && stmt == s.stmt && s.owner != null && q == QueueOf(PostTarget(StmtH(s)))
    requires |specs| <= |answers| && RowsFit(specs, rows)
    requires d0 == ArrView(drv.refs, drv.next, drv.arrays, drv.bound) && msg0 == s.msg
    modifies drv`refs, drv`next, drv`arrays, drv`bound, s`msg, q
    ensures drv.Valid() && CountsAdd(drv.refs, d0.refs, vars)
    ensures VarsState(stmt, specs, rows, answers, d0, ArrView(drv.refs, drv.next, drv.arrays, drv.bound), vars)
    ensures o == MakeOutcome(stmt, specs, answers) && s.msg == MakeMsg(msg0, stmt, specs, answers)
  {
    vars := [];
    var k := 0;
    while k < |specs|
      invariant drv.Valid() && s.stmt == stmt && s.msg == msg0 && q == QueueOf(PostTarget(StmtH(s)))
      invariant MadeSoFar(stmt, specs, rows, answers, d0, ArrView(drv.refs, drv.next, drv.arrays, drv.bound), vars, k)
    {
      o, vars := MakeNext(s, drv, specs, rows, answers, k, vars, stmt, d0, msg0, q);
      if o.Error? {
        return;
      }
      k := k + 1;
    }
    o := Ok(Empty);
    MadeAll(stmt, specs, rows, answers, d0, ArrView(drv.refs, drv.next, drv.arrays, drv.bound), vars, msg0);
  }

  // ---------------------------------------------------------------------
  // Running the statement once per row
  // ---------------------------------------------------------------------

  /**
   * The execution the array path asks for: all rows at once, batch errors
   * for DML, commit-on-success by the commit rule; none when the info call
   * fails.
   */
  function ManyExecs(stmt: Option<Ref>, autocommit: bool, doCommit: bool, rows: nat, ans: ExecAnswers): seq<Execution>
  {
    match InfoReply(stmt, ans)
    case Failed(_) => []
    case Done(info) => [Execution(stmt.value, rows, CommitOnSuccess(doCommit, autocommit, info), info.isDML)]
  }

  /** What the run returns: the info call's error, dpiStmt_executeMany's error, or 0. */
  function ManyOutcome(stmt: Option<Ref>, ans: ExecAnswers): Outcome
  {
    match InfoReply(stmt, ans)
    case Failed(e) => DriverFailure(e, "dpiStmt_getInfo")
    case Done(_) => if ans.execute.Some? then DriverFailure(ans.execute.value, "dpiStmt_executeMany") else Ok(Int(0))
  }

  /** The status block after the run: a failing call's error, or the row count when the driver reports one. */
  function ManyMsg(msg0: Msg, stmt: Option<Ref>, ans: ExecAnswers): Msg
  {
    match InfoReply(stmt, ans)
    case Failed(e) => DriverMsg(msg0, e, "dpiStmt_getInfo")
    case Done(_) =>
      if ans.execute.Some? then DriverMsg(msg0, ans.execute.value, "dpiStmt_executeMany")
      else if ans.rowCount.Some? then msg0.(rows := ans.rowCount.value) else msg0
  }

  /**
   * The array run succeeds exactly when the statement exists, the info
   * call answers and dpiStmt_executeMany succeeds; it executes the
   * statement at most once, for all rows, with batch errors exactly for
   * DML and commit-on-success when asked or under autocommit for DML and
   * PL/SQL.  Unlike a single execution it leaves the statement type as it
   * was.
   */
  lemma ManySpec(msg0: Msg, stmt: Option<Ref>, autocommit: bool, doCommit: bool, rows: nat, ans: ExecAnswers)
    ensures var execs, o, m := ManyExecs(stmt, autocommit, doCommit, rows, ans), ManyOutcome(stmt, ans), ManyMsg(msg0, stmt, ans);
      (o.Ok? <==> stmt.Some? && ans.info.Done? && ans.execute.None?) &&
      (o.Ok? ==> o == Ok(Int(0)) && m == (if ans.rowCount.Some? then msg0.(rows := ans.rowCount.value) else msg0)) &&
      (o.Error? ==> m.rows == msg0.rows && m.sqltype == msg0.sqltype &&
                    (m.fn == Some("dpiStmt_getInfo") || m.fn == Some("dpiStmt_executeMany"))) &&
      |execs| <= 1 && (execs != [] <==> stmt.Some? && ans.info.Done?) &&
      (execs != [] ==> execs[0].stmt == stmt.value && execs[0].iters == rows &&
                       (execs[0].batchErrors <==> ans.info.value.isDML) &&
                       (execs[0].commitOnSuccess <==> doCommit || (autocommit && (ans.info.value.isDML || ans.info.value.isPLSQL))))
  {
  }

  /** dpiStmt_getInfo, the mode, dpiStmt_executeMany over rows iterations, then the row count. */
  method RunMany(s: Stmt, drv: Driver, doCommit: bool, rows: nat, ans: ExecAnswers, ghost q: set<EventQueue>,
                 ghost stmt: Option<Ref>, ghost autocommit: bool, ghost msg0: Msg, ghost execs0: seq<Execution>)
    returns (o: Outcome)
    requires q == QueueOf(PostTarget(StmtH(s))) && stmt == s.stmt && autocommit == Autocommit(s.owner)
    requires msg0 == s.msg && execs0 == drv.executed
    modifies s`msg, drv`executed, q
    ensures o == ManyOutcome(stmt, ans) && s.msg == ManyMsg(msg0, stmt, ans)
    ensures drv.executed == execs0 + ManyExecs(stmt, autocommit, doCommit, rows, ans)
  {
    var info := InfoReply(s.stmt, ans);
    if info.Failed? {
      o := SetErrorFromODPI(StmtH(s), info.err, "dpiStmt_getInfo");
      return;
    }
    var commit := CommitOnSuccess(doCommit, s.owner != null && s.owner.autocommit, info.value);
    drv.Execute(Execution(s.stmt.value, rows, commit, info.value.isDML));
    if ans.execute.Some? {
      o := SetErrorFromODPI(StmtH(s), ans.execute.value, "dpiStmt_executeMany");
      return;
    }
    if ans.rowCount.Some? {
      RecordRows(StmtH(s), ans.rowCount.value);
    }
    o := Ok(Int(0));
  }

  // ---------------------------------------------------------------------
  // The whole array run, as written and as evidently intended
  // ---------------------------------------------------------------------

  /** The variables the driver made are all issued by it. */
  lemma VarsIssued(next: nat, n: nat)
    ensures AllIssued(VarsFrom(next, n), next + n)
  {
  }

  /** Each variable made appears once in the list of those made. */
  lemma {:induction false} VarsOnce(next: nat, n: nat, k: nat)
    requires k < n
    ensures Occurrences(VarsFrom(next, n), VarAt(next, k)) == 1
    decreases n
  {
    var vs := VarsFrom(next, n);
    assert vs[..n - 1] == VarsFrom(next, n - 1);
    if k < n - 1 {
      VarsOnce(next, n - 1, k);
    } else {
      VarsAbsent(next, n - 1, VarAt(next, k));
    }
  }

  /** A variable with an identifier at or past next + n is not among the first n made. */
  lemma {:induction false} VarsAbsent(next: nat, n: nat, r: Ref)
    requires r.id >= next + n
    ensures Occurrences(VarsFrom(next, n), r) == 0
    decreases n
  {
    if n > 0 {
      assert VarsFrom(next, n)[..n - 1] == VarsFrom(next, n - 1);
      VarsAbsent(next, n - 1, r);
    }
  }

  /** dpiVar_release on every variable made, in order. */
  method ReleaseVars(drv: Driver, vars: seq<Ref>)
    requires drv.Valid() && AllIssued(vars, drv.next)
    modifies drv`refs
    ensures drv.Valid() && drv.refs == ReleasedAll(old(drv.refs), vars)
  {
    var k := 0;
    while k < |vars|
      invariant k <= |vars| && drv.Valid() && drv.refs == ReleasedAll(old(drv.refs), vars[..k])
    {
      drv.Release(vars[k]);
      assert vars[..k + 1][..k] == vars[..k];
      k := k + 1;
    }
    assert vars[..k] == vars;
  }

  /** What the array run returns: the first failure making the variables, else the run's. */
  function ArrayOutcome(stmt: Option<Ref>, specs: seq<ArrSpec>, answers: seq<BindAnswers>, ans: ExecAnswers): Outcome
    requires |specs| <= |answers|
  {
    var m := MakeOutcome(stmt, specs, answers);
    if m.Error? then m else ManyOutcome(stmt, ans)
  }

  function ArrayMsg(msg0: Msg, stmt: Option<Ref>, specs: seq<ArrSpec>, answers: seq<BindAnswers>, ans: ExecAnswers): Msg
    requires |specs| <= |answers|
  {
    if MakeOutcome(stmt, specs, answers).Error? then MakeMsg(msg0, stmt, specs, answers) else ManyMsg(msg0, stmt, ans)
  }

  function ArrayExecs(stmt: Option<Ref>, specs: seq<ArrSpec>, answers: seq<BindAnswers>, ans: ExecAnswers,
                      autocommit: bool, doCommit: bool, rows: nat): seq<Execution>
    requires |specs| <= |answers|
  {
    if MakeOutcome(stmt, specs, answers).Error? then [] else ManyExecs(stmt, autocommit, doCommit, rows, ans)
  }

  /**
   * What the array run does besides the reference counts: the variables
   * made, the array variables and bind calls, the outcome, the status block
   * and the executions.
   */
  ghost predicate ArrayDone(stmt: Option<Ref>, specs: seq<ArrSpec>, rows: nat, answers: seq<BindAnswers>, ans: ExecAnswers,
                            autocommit: bool, doCommit: bool, d0: ArrView, d: ArrView, vars: seq<Ref>,
                            msg0: Msg, msg: Msg, execs0: seq<Execution>, execs: seq<Execution>, o: Outcome)
    requires |specs| <= |answers| && RowsFit(specs, rows)
  {
    VarsState(stmt, specs, rows, answers, d0, d, vars) &&
    o == ArrayOutcome(stmt, specs, answers, ans) && msg == ArrayMsg(msg0, stmt, specs, answers, ans) &&
    execs == execs0 + ArrayExecs(stmt, specs, answers, ans, autocommit, doCommit, rows)
  }

  /** Making the variables, then, when all are bound, running the statement over the rows. */
  method MakeAndRun(s: Stmt, drv: Driver, specs: seq<ArrSpec>, rows: nat, doCommit: bool,
                    answers: seq<BindAnswers>, ans: ExecAnswers,
                    ghost stmt: Option<Ref>, ghost ac: bool, ghost d0: ArrView, ghost msg0: Msg,
                    ghost execs0: seq<Execution>, ghost q: set<EventQueue>)
    returns (o: Outcome, vars: seq<Ref>)
    requires drv.Valid() && stmt == s.stmt && s.owner != null && q == QueueOf(PostTarget(StmtH(s)))
    requires ac == Autocommit(s.owner) && execs0 == drv.executed
    requires |specs| <= |answers| && RowsFit(specs, rows)
    requires d0 == ArrView(drv.refs, drv.next, drv.arrays, drv.bound) && msg0 == s.msg
    modifies drv`refs, drv`next, drv`arrays, drv`bound, drv`executed, s`msg, q
    ensures drv.Valid() && CountsAdd(drv.refs, d0.refs, vars) && AllIssued(vars, drv.next)
    ensures ArrayDone(stmt, specs, rows, answers, ans, ac, doCommit, d0, ArrView(drv.refs, drv.next, drv.arrays, drv.bound), vars,
                      msg0, s.msg, execs0, drv.executed, o)
  {
    o, vars := MakeVars(s, drv, specs, rows, answers, stmt, d0, msg0, q);
    VarsIssued(d0.next, |vars|);
    if o.Ok? {
      o := RunMany(s, drv, doCommit, rows, ans, q, stmt, ac, msg0, execs0);
    }
  }

  /**
   * The array path after the specs are collected, as cmd_bind.c writes
   * it: the variables are released only after a successful run, so every
   * failure from a refused bind on leaves the variables made so far
   * holding their reference.
   */
  method ArrayRunAsWritten(s: Stmt, drv: Driver, specs: seq<ArrSpec>, rows: nat, doCommit: bool,
                           answers: seq<BindAnswers>, ans: ExecAnswers,
                           ghost stmt: Option<Ref>, ghost ac: bool, ghost d0: ArrView, ghost msg0: Msg,
                           ghost execs0: seq<Execution>, ghost q: set<EventQueue>)
    returns (o: Outcome, vars: seq<Ref>, ghost d: ArrView)
    requires drv.Valid() && stmt == s.stmt && s.owner != null && q == QueueOf(PostTarget(StmtH(s)))
    requires ac == Autocommit(s.owner) && execs0 == drv.executed
    requires |specs| <= |answers| && RowsFit(specs, rows)
    requires d0 == ArrView(drv.refs, drv.next, drv.arrays, drv.bound) && msg0 == s.msg
    modifies drv`refs, drv`next, drv`arrays, drv`bound, drv`executed, s`msg, q
    ensures drv.Valid() && d == ArrView(d.refs, drv.next, drv.arrays, drv.bound) && CountsAdd(d.refs, d0.refs, vars)
    ensures ArrayDone(stmt, specs, rows, answers, ans, ac, doCommit, d0, d, vars, msg0, s.msg, execs0, drv.executed, o)
    ensures drv.refs == if o.Ok? then ReleasedAll(d.refs, vars) else d.refs
  {
    o, vars := MakeAndRun(s, drv, specs, rows, doCommit, answers, ans, stmt, ac, d0, msg0, execs0, q);
    d := ArrView(drv.refs, drv.next, drv.arrays, drv.bound);
    if o.Ok? {
      ReleaseVars(drv, vars);
    }
  }

  /**
   * The array path after the specs are collected, with every variable
   * made released on every path: the reference counts end as they began.
   */
  method ArrayRun(s: Stmt, drv: Driver, specs: seq<ArrSpec>, rows: nat, doCommit: bool,
                  answers: seq<BindAnswers>, ans: ExecAnswers,
                  ghost stmt: Option<Ref>, ghost ac: bool, ghost d0: ArrView, ghost msg0: Msg,
                  ghost execs0: seq<Execution>, ghost q: set<EventQueue>)
    returns (o: Outcome, vars: seq<Ref>, ghost d: ArrView)
    requires drv.Valid() && stmt == s.stmt && s.owner != null && q == QueueOf(PostTarget(StmtH(s)))
    requires ac == Autocommit(s.owner) && execs0 == drv.executed
    requires |specs| <= |answers| && RowsFit(specs, rows)
    requires d0 == ArrView(drv.refs, drv.next, drv.arrays, drv.bound) && msg0 == s.msg
    modifies drv`refs, drv`next, drv`arrays, drv`bound, drv`executed, s`msg, q
    ensures drv.Valid() && d == ArrView(d.refs, drv.next, drv.arrays, drv.bound) && CountsAdd(d.refs, d0.refs, vars)
    ensures ArrayDone(stmt, specs, rows, answers, ans, ac, doCommit, d0, d, vars, msg0, s.msg, execs0, drv.executed, o)
    ensures drv.refs == ReleasedAll(d.refs, vars)
    ensures forall r :: CountOf(drv.refs, r) == CountOf(d0.refs, r)
  {
    o, vars := MakeAndRun(s, drv, specs, rows, doCommit, answers, ans, stmt, ac, d0, msg0, execs0, q);
    d := ArrView(drv.refs, drv.next, drv.arrays, drv.bound);
    ReleaseVars(drv, vars);
    ReleaseBalance(d0.refs, d.refs, vars, []);
  }

  /**
   * As written, a failed array run keeps one reference on each variable
   * it made, none of which existed before: nothing releases them.
   */
  lemma AsWrittenLeaks(stmt: Option<Ref>, specs: seq<ArrSpec>, rows: nat, answers: seq<BindAnswers>,
                       d0: ArrView, d: ArrView, vars: seq<Ref>, refs: map<Ref, int>, o: Outcome, k: nat)
    requires |specs| <= |answers| && RowsFit(specs, rows) && forall r :: r in d0.refs ==> r.id < d0.next
    requires VarsState(stmt, specs, rows, answers, d0, d, vars) && CountsAdd(d.refs, d0.refs, vars)
    requires refs == (if o.Ok? then ReleasedAll(d.refs, vars) else d.refs)
    requires o.Error? && k < Made(stmt, specs, answers)
    ensures VarAt(d0.next, k) !in d0.refs && CountOf(refs, VarAt(d0.next, k)) == 1
  {
    VarsOnce(d0.next, Made(stmt, specs, answers), k);
  }

  /**
   * An input that shows the leak: one ":x {1}" spec whose variable
   * dpiConn_newVar makes but whose bind the statement refuses under both
   * spellings.  The run fails at the bind with one variable made, which
   * AsWrittenLeaks shows is never released.
   */
  lemma RefusedBindLeaksOne(e: ErrorInfo)
    ensures var specs := [ArrSpec("x", [Int(1)], Int64Array)];
      var answers := [BindAnswers(None, None, None, None, {}, e)];
      var stmt := Some(Ref(StmtKind, 0));
      MakeOutcome(stmt, specs, answers) == DriverFailure(e, "dpiStmt_bindByName(array)") &&
      BoundSpecs(stmt, specs, answers) == 0 && Made(stmt, specs, answers) == 1
  {
    var specs := [ArrSpec("x", [Int(1)], Int64Array)];
    var answers := [BindAnswers(None, None, None, None, {}, e)];
    var stmt := Some(Ref(StmtKind, 0));
    assert AcceptedName(stmt, "x", FromBind, answers[0]).None?;
    assert VarFailure(stmt, "x", answers[0]) == Some((e, "dpiStmt_bindByName(array)"));
  }

  // ---------------------------------------------------------------------
  // The -arraydml path
  // ---------------------------------------------------------------------

  /** The errors the path gives before any variable is made: a list length mismatch, or no pair at all. */
  function CollectOutcome(pairs: seq<(string, Value)>): Option<Outcome>
  {
    if MismatchOutcome(pairs).Some? then MismatchOutcome(pairs)
    else if pairs == [] then Some(Failure(NoArrayPairs))
    else None
  }

  /** The row count: the length every list shares with the first (iters). */
  function RowCount(pairs: seq<(string, Value)>): nat
    requires pairs != []
  {
    |GetList(pairs[0].1)|
  }

  /** Lists that all match the first give every spec at least the row count of elements. */
  lemma SpecsFit(pairs: seq<(string, Value)>)
    requires pairs != [] && MismatchOutcome(pairs).None?
    ensures RowsFit(SpecsOf(pairs), RowCount(pairs))
  {
    MismatchSpec(pairs);
  }

  /**
   * What the -arraydml path does, from the driver's view d0 before to fin
   * after: a collecting error returns with nothing changed; otherwise the
   * array run over the specs, d being the view before the variables are
   * released and vars the variables made, every count ending as it began.
   */
  ghost predicate ArrayPathDone(stmt: Option<Ref>, pairs: seq<(string, Value)>, answers: seq<BindAnswers>, ans: ExecAnswers,
                                autocommit: bool, doCommit: bool, d0: ArrView, d: ArrView, vars: seq<Ref>, fin: ArrView,
                                msg0: Msg, msg: Msg, execs0: seq<Execution>, execs: seq<Execution>, o: Outcome)
    requires |pairs| <= |answers|
  {
    if CollectOutcome(pairs).Some? then
      o == CollectOutcome(pairs).value && fin == d0 && msg == msg0 && execs == execs0
    else
      pairs != [] && RowsFit(SpecsOf(pairs), RowCount(pairs)) &&
      ArrayDone(stmt, SpecsOf(pairs), RowCount(pairs), answers, ans, autocommit, doCommit, d0, d, vars, msg0, msg, execs0, execs, o) &&
      CountsAdd(d.refs, d0.refs, vars) &&
      fin == ArrView(ReleasedAll(d.refs, vars), d.next, d.arrays, d.bound) &&
      forall r :: CountOf(fin.refs, r) == CountOf(d0.refs, r)
  }

  /**
   * The -arraydml path of orabindexec over the leading ":name list" pairs:
   * collect the specs, refuse a length mismatch or an empty pair list, and
   * otherwise run the array binds with every variable released again.
   */
  method ArrayPath(s: Stmt, drv: Driver, pairs: seq<(string, Value)>, doCommit: bool,
                   answers: seq<BindAnswers>, ans: ExecAnswers,
                   ghost stmt: Option<Ref>, ghost ac: bool, ghost d0: ArrView, ghost msg0: Msg,
                   ghost execs0: seq<Execution>, ghost q: set<EventQueue>)
    returns (o: Outcome, ghost vars: seq<Ref>, ghost d: ArrView)
    requires drv.Valid() && stmt == s.stmt && s.owner != null && q == QueueOf(PostTarget(StmtH(s)))
    requires ac == Autocommit(s.owner) && execs0 == drv.executed && |pairs| <= |answers|
    requires d0 == ArrView(drv.refs, drv.next, drv.arrays, drv.bound) && msg0 == s.msg
    modifies drv`refs, drv`next, drv`arrays, drv`bound, drv`executed, s`msg, q
    ensures drv.Valid()
    ensures ArrayPathDone(stmt, pairs, answers, ans, ac, doCommit, d0, d, vars, ArrView(drv.refs, drv.next, drv.arrays, drv.bound),
                          msg0, s.msg, execs0, drv.executed, o)
  {
    var specs, err := CollectSpecs(pairs);
    if err.Some? {
      return err.value, [], d0;
    }
    if |specs| == 0 {
      return Failure(NoArrayPairs), [], d0;
    }
    var rows := |specs[0].elems|;
    SpecsFit(pairs);
    o, vars, d := ArrayRun(s, drv, specs, rows, doCommit, answers, ans, stmt, ac, d0, msg0, execs0, q);
  }
}
