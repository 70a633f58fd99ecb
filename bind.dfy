/**
 * Binding one value to a statement, as BindOneByValue_Pending does in both
 * cmd_bind.c and cmd_exec.c: decide how the value is bound
 * (BindRules.ScalarBind), build a temporary LOB variable when needed, hand
 * the value or the variable to the driver under ":name" or the bare name
 * (the two files try them in opposite orders), and keep a LOB variable
 * referenced in a pending list until the statement runs.  Every failing
 * driver call leaves its error on the statement.
 */
module Bind {
  import opened Wrappers
  import opened Tcl
  import opened Native
  import opened Pending
  import opened Handles
  import opened Status
  import opened BindRules

  /** The driver's answers for binding one value. */
  datatype BindAnswers = BindAnswers(
    /** dpiConn_newVar: None for success. */
    newVar: Option<ErrorInfo>,
    /** dpiConn_newTempLob */
    tempLob: Option<ErrorInfo>,
    /** dpiLob_setFromBytes */
    setBytes: Option<ErrorInfo>,
    /** dpiVar_setFromLob */
    setLob: Option<ErrorInfo>,
    /** The names dpiStmt_bindByName and dpiStmt_bindValueByName accept for the statement. */
    accepts: set<string>,
    /** What the driver reports when it refuses a name. */
    refused: ErrorInfo)

  /** Which file's helpers bind: they differ in the order of the two spellings and in the call names they report. */
  datatype Source = FromBind | FromExec

  function OrderOf(src: Source): BindOrder
  {
    if src == FromBind then ColonFirst else BareFirst
  }

  /** The call named in the status block when no spelling of the name is accepted for a plain value. */
  function ValueCall(src: Source, nv: NativeValue): string
  {
    match (src, nv)
    case (FromBind, Int64Data(_)) => "dpiStmt_bindValueByName(int64)"
    case (FromBind, DoubleData(_)) => "dpiStmt_bindValueByName(double)"
    case (FromBind, _) => "dpiStmt_bindValueByName(bytes)"
    case (FromExec, Int64Data(_)) => "dpiStmt_bindValueByName(INT64)"
    case (FromExec, DoubleData(_)) => "dpiStmt_bindValueByName(DOUBLE)"
    case (FromExec, _) => "dpiStmt_bindValueByName(BYTES)"
  }

  /** The first failing step of building a temporary LOB variable holding data, with the call it names. */
  function LobFailure(ans: BindAnswers, data: seq<byte>): Option<(ErrorInfo, string)>
  {
    if ans.newVar.Some? then Some((ans.newVar.value, "dpiConn_newVar(LOB)"))
    else if ans.tempLob.Some? then Some((ans.tempLob.value, "dpiConn_newTempLob"))
    else if |data| > 0 && ans.setBytes.Some? then Some((ans.setBytes.value, "dpiLob_setFromBytes"))
    else if ans.setLob.Some? then Some((ans.setLob.value, "dpiVar_setFromLob"))
    else None
  }

  /** How many objects building a LOB variable creates: the variable, then the temporary LOB. */
  function Created(ans: BindAnswers): nat
  {
    if ans.newVar.Some? then 0 else if ans.tempLob.Some? then 1 else 2
  }

  /** How far binding name = v moves the driver's object counter. */
  function Advance(name: string, v: Value, ans: BindAnswers): nat
  {
    if ScalarBind(name, v).LobBind? then Created(ans) else 0
  }

  /** The spelling the statement takes the bind under: none on a null statement. */
  function AcceptedName(stmt: Option<Ref>, name: string, src: Source, ans: BindAnswers): Option<string>
  {
    if stmt.None? then None else FirstAccepted(Attempts(name, OrderOf(src)), ans.accepts)
  }

  /** The error of a refused bind: the driver's, or a null statement's. */
  function Refusal(stmt: Option<Ref>, ans: BindAnswers): ErrorInfo
  {
    if stmt.None? then NullHandleError else ans.refused
  }

  /** The result of binding one value: the spelling and target bound, or the error and the call it names. */
  datatype BindOutcome = BoundAs(name: string, target: BindTarget) | BindFailed(err: ErrorInfo, call: string)

  /** What binding name = v does, given the driver's answers; newVar is the variable a LOB bind would create. */
  function PlanBind(stmt: Option<Ref>, name: string, v: Value, src: Source, ans: BindAnswers, newVar: Ref): BindOutcome
  {
    var d := ScalarBind(name, v);
    var accepted := AcceptedName(stmt, name, src, ans);
    if d.LobBind? then
      if LobFailure(ans, d.data).Some? then BindFailed(LobFailure(ans, d.data).value.0, LobFailure(ans, d.data).value.1)
      else if accepted.Some? then BoundAs(accepted.value, ByVar(newVar))
      else BindFailed(Refusal(stmt, ans), "dpiStmt_bindByName(LOB)")
    else if accepted.Some? then BoundAs(accepted.value, ByValue(d.value))
    else BindFailed(Refusal(stmt, ans), ValueCall(src, d.value))
  }

  /**
   * A bind succeeds under a spelling of the placeholder that strips back to
   * it, holding the value chosen by the bind decision, and only on a
   * statement the driver has.
   */
  lemma PlanBindSpec(stmt: Option<Ref>, name: string, v: Value, src: Source, ans: BindAnswers, newVar: Ref)
    requires !(|name| > 0 && name[0] == ':')
    ensures var p := PlanBind(stmt, name, v, src, ans, newVar);
      (p.BoundAs? ==> stmt.Some? && p.name in ans.accepts && StripColon(p.name) == name) &&
      (p.BoundAs? && p.target.ByValue? ==> ScalarBind(name, v) == ValueBind(p.target.value)) &&
      (p.BoundAs? && p.target.ByVar? ==> ScalarBind(name, v).LobBind?) &&
      (stmt.Some? && name in ans.accepts && !ScalarBind(name, v).LobBind? ==> p.BoundAs?) &&
      (stmt.None? ==> p.BindFailed?)
  {
    var p := PlanBind(stmt, name, v, src, ans, newVar);
    var names := Attempts(name, OrderOf(src));
    if p.BoundAs? {
      assert p.name in names;
      if WithColon(name, NameBufferSize).Some? && p.name != name {
        assert p.name == WithColon(name, NameBufferSize).value;
        StripWithColon(name, NameBufferSize);
      }
    }
    if stmt.Some? && name in ans.accepts {
      var k :| 0 <= k < |names| && names[k] == name;
    }
  }

  /**
   * The driver's side of BindOneLobScalar_Pending up to the bind: a new
   * variable and a temporary LOB, the LOB released again once it is in the
   * variable or on failure, and the variable released too on failure.
   */
  method NewLobVar(drv: Driver, data: seq<byte>, ans: BindAnswers) returns (v: Option<Ref>)
    requires drv.Valid()
    modifies drv`refs, drv`next
    ensures drv.Valid() && drv.next == old(drv.next) + Created(ans)
    ensures v.Some? <==> LobFailure(ans, data).None?
    ensures v.Some? ==> v.value == Ref(VarKind, old(drv.next))
    ensures forall r :: CountOf(drv.refs, r) == CountOf(old(drv.refs), r) + (if v == Some(r) then 1 else 0)
  {
    v := None;
    if ans.newVar.None? {
      var x := drv.Create(VarKind);
      if ans.tempLob.None? {
        var lob := drv.Create(LobKind);
        drv.Release(lob);
      }
      if LobFailure(ans, data).None? {
        v := Some(x);
      } else {
        drv.Release(x);
      }
    }
  }

  /**
   * BindOneLobScalar_Pending up to the bind: a new variable and a
   * temporary LOB holding data, the LOB put into the variable and released.
   * On any failure everything created so far is released and the error is
   * left on the statement.  v is the variable, holding one reference.
   */
  method MakeLobVar(s: Stmt, drv: Driver, data: seq<byte>, ans: BindAnswers) returns (v: Option<Ref>, o: Outcome)
    requires drv.Valid()
    modifies drv`refs, drv`next, s`msg, QueueOf(PostTarget(StmtH(s)))
    ensures drv.Valid() && drv.next == old(drv.next) + Created(ans)
    ensures v.Some? <==> LobFailure(ans, data).None?
    ensures v.Some? ==> v.value == Ref(VarKind, old(drv.next)) && s.msg == old(s.msg) && o == Ok(Empty)
    ensures v.None? ==> var f := LobFailure(ans, data).value;
      o == DriverFailure(f.0, f.1) && s.msg == DriverMsg(old(s.msg), f.0, f.1)
    ensures forall r :: CountOf(drv.refs, r) == CountOf(old(drv.refs), r) + (if v == Some(r) then 1 else 0)
  {
    v := NewLobVar(drv, data, ans);
    o := Ok(Empty);
    if v.None? {
      var f := LobFailure(ans, data).value;
      o := SetErrorFromODPI(StmtH(s), f.0, f.1);
    }
  }

  /**
   * BindVarByNameDual / BindValueByNameDual: offer the target under each
   * spelling in turn; fail with the driver's error, reported as call, only
   * when neither is accepted.
   */
  method BindByNameDual(s: Stmt, drv: Driver, name: string, target: BindTarget, src: Source, ans: BindAnswers, call: string)
    returns (o: Outcome)
    modifies drv`bound, s`msg, QueueOf(PostTarget(StmtH(s)))
    ensures var n := AcceptedName(s.stmt, name, src, ans);
      (n.Some? ==> o == Ok(Empty) && drv.bound == old(drv.bound) + [Binding(s.stmt.value, n.value, target)] && s.msg == old(s.msg)) &&
      (n.None? ==> o == DriverFailure(Refusal(s.stmt, ans), call) && drv.bound == old(drv.bound) &&
                   s.msg == DriverMsg(old(s.msg), Refusal(s.stmt, ans), call))
  {
    var names := Attempts(name, OrderOf(src));
    if s.stmt.Some? && names[0] in ans.accepts {
      drv.Bind(Binding(s.stmt.value, names[0], target));
      return Ok(Empty);
    }
    if s.stmt.Some? && |names| == 2 && names[1] in ans.accepts {
      assert FirstAccepted(names, ans.accepts) == FirstAccepted(names[1..], ans.accepts);
      drv.Bind(Binding(s.stmt.value, names[1], target));
      return Ok(Empty);
    }
    o := SetErrorFromODPI(StmtH(s), Refusal(s.stmt, ans), call);
  }

  /** The variable a planned bind keeps referenced until the statement runs. */
  function Kept(p: BindOutcome): Option<Ref>
  {
    if p.BoundAs? && p.target.ByVar? then Some(p.target.v) else None
  }

  /**
   * BindOneLobScalar_Pending: a LOB variable holding data, bound under the
   * first accepted spelling; released again when no spelling is accepted.
   */
  method BindLob(s: Stmt, drv: Driver, name: string, data: seq<byte>, src: Source, ans: BindAnswers)
    returns (o: Outcome, kept: Option<Ref>)
    requires drv.Valid()
    modifies drv`refs, drv`next, drv`bound, s`msg, QueueOf(PostTarget(StmtH(s)))
    ensures drv.Valid() && drv.next == old(drv.next) + Created(ans)
    ensures var f := LobFailure(ans, data); var n := AcceptedName(old(s.stmt), name, src, ans);
      var x := Ref(VarKind, old(drv.next));
      (f.Some? ==> o == DriverFailure(f.value.0, f.value.1) && s.msg == DriverMsg(old(s.msg), f.value.0, f.value.1) &&
                   drv.bound == old(drv.bound) && kept == None) &&
      (f.None? && n.Some? ==> o == Ok(Empty) && s.msg == old(s.msg) && kept == Some(x) &&
                              drv.bound == old(drv.bound) + [Binding(s.stmt.value, n.value, ByVar(x))]) &&
      (f.None? && n.None? ==> o == DriverFailure(Refusal(s.stmt, ans), "dpiStmt_bindByName(LOB)") && kept == None &&
                              s.msg == DriverMsg(old(s.msg), Refusal(s.stmt, ans), "dpiStmt_bindByName(LOB)") &&
                              drv.bound == old(drv.bound))
    ensures forall r :: CountOf(drv.refs, r) == CountOf(old(drv.refs), r) + (if kept == Some(r) then 1 else 0)
  {
    var x;
    x, o := MakeLobVar(s, drv, data, ans);
    kept := None;
    if x.Some? {
      o := BindByNameDual(s, drv, name, ByVar(x.value), src, ans, "dpiStmt_bindByName(LOB)");
      if o.Error? {
        drv.Release(x.value);
      } else {
        kept := x;
      }
    }
  }

  /**
   * BindOneByValue_Pending up to the pending list: bind name = v as
   * PlanBind says, releasing every object created on the way except a LOB
   * variable that was bound, which is returned in kept.
   */
  method BindScalar(s: Stmt, drv: Driver, name: string, v: Value, src: Source, ans: BindAnswers)
    returns (o: Outcome, kept: Option<Ref>)
    requires drv.Valid()
    modifies drv`refs, drv`next, drv`bound, s`msg, QueueOf(PostTarget(StmtH(s)))
    ensures drv.Valid() && drv.next == old(drv.next) + Advance(name, v, ans)
    ensures var p := PlanBind(old(s.stmt), name, v, src, ans, Ref(VarKind, old(drv.next)));
      (p.BoundAs? ==> o == Ok(Empty) && s.msg == old(s.msg) &&
                      drv.bound == old(drv.bound) + [Binding(s.stmt.value, p.name, p.target)]) &&
      (p.BindFailed? ==> o == DriverFailure(p.err, p.call) && s.msg == DriverMsg(old(s.msg), p.err, p.call) &&
                         drv.bound == old(drv.bound)) &&
      kept == Kept(p) &&
      forall r :: CountOf(drv.refs, r) == CountOf(old(drv.refs), r) + (if kept == Some(r) then 1 else 0)
  {
    var d := ScalarBind(name, v);
    if d.LobBind? {
      o, kept := BindLob(s, drv, name, d.data, src, ans);
    } else {
      o := BindByNameDual(s, drv, name, ByValue(d.value), src, ans, ValueCall(src, d.value));
      kept := None;
    }
  }

  /**
   * BindOneByValue_Pending: bind name = v as PlanBind says.  A LOB
   * variable that was bound joins the pending list pr (cmd_bind.c reaches
   * the same list again through GetPendings); every other object created on
   * the way is released again, and no earlier count changes.
   */
  method BindOneByValue(s: Stmt, pr: PendingRefs, drv: Driver, name: string, v: Value, src: Source, ans: BindAnswers)
    returns (o: Outcome)
    requires pr.Valid() && pr.Capacity() > 0 && drv.Valid()
    modifies pr, pr.vars, drv`refs, drv`next, drv`bound, s`msg, QueueOf(PostTarget(StmtH(s)))
    ensures pr.Valid() && pr.Capacity() > 0 && (pr.vars == old(pr.vars) || fresh(pr.vars))
    ensures drv.Valid() && drv.next == old(drv.next) + Advance(name, v, ans)
    ensures var p := PlanBind(old(s.stmt), name, v, src, ans, Ref(VarKind, old(drv.next)));
      (p.BoundAs? ==> o == Ok(Empty) && s.msg == old(s.msg) &&
                      drv.bound == old(drv.bound) + [Binding(s.stmt.value, p.name, p.target)]) &&
      (p.BindFailed? ==> o == DriverFailure(p.err, p.call) && s.msg == DriverMsg(old(s.msg), p.err, p.call) &&
                         drv.bound == old(drv.bound)) &&
      pr.Items() == old(pr.Items()) + (if p.BoundAs? && p.target.ByVar? then [p.target.v] else []) &&
      forall r :: CountOf(drv.refs, r) == CountOf(old(drv.refs), r) + (if p.BoundAs? && p.target == ByVar(r) then 1 else 0)
  {
    var kept;
    o, kept := BindScalar(s, drv, name, v, src, ans);
    if kept.Some? {
      pr.Add(kept.value);
    }
  }
}
