/**
 * The orabind command of cmd_bind.c: it binds the leading ":name value"
 * pairs of its words and remembers them for later executions.  The
 * binding steps here are shared with orabindexec (module BindExec), which
 * binds the same way and executes the statement once, or with -arraydml
 * binds whole columns and executes them as a batch (module ArrayDml).
 */
module BindCmd {
  import opened Wrappers
  import opened Tcl
  import opened Native
  import opened Pending
  import opened Handles
  import opened Status
  import opened State
  import opened BindState
  import opened BindRules
  import opened Bind

  const OrabindUsage: string := "statement-handle :name value ? :name value ... ?"

  // ---------------------------------------------------------------------
  // The ":name value" pairs and what binding them does
  // ---------------------------------------------------------------------

  /** The leading ":name value" pairs of objv from word i on, each name without its colon. */
  function LeadingPairs(objv: seq<Value>, i: nat): (r: seq<(string, Value)>)
    ensures r != [] ==> i + 2 * |r| <= |objv|
    decreases |objv| - i
  {
    if i + 1 < |objv| && FirstChar(objv[i]) == ':' then
      [(StripColon(Text(objv[i])), objv[i + 1])] + LeadingPairs(objv, i + 2)
    else []
  }

  /** Pair k comes from words i + 2k, a name starting with ':', and i + 2k + 1, its value. */
  lemma {:induction false} LeadingPairAt(objv: seq<Value>, i: nat, k: nat)
    requires k < |LeadingPairs(objv, i)|
    ensures i + 2 * k + 1 < |objv| && FirstChar(objv[i + 2 * k]) == ':'
    ensures LeadingPairs(objv, i)[k] == (StripColon(Text(objv[i + 2 * k])), objv[i + 2 * k + 1])
    decreases k
  {
    if k > 0 {
      LeadingPairAt(objv, i + 2, k - 1);
      assert i + 2 * k == (i + 2) + 2 * (k - 1);
    }
  }

  /** The pairs end at the first word that is not a name followed by a value. */
  lemma {:induction false} LeadingPairsStop(objv: seq<Value>, i: nat)
    ensures var n := |LeadingPairs(objv, i)|; !(i + 2 * n + 1 < |objv| && FirstChar(objv[i + 2 * n]) == ':')
    decreases |objv| - i
  {
    if i + 1 < |objv| && FirstChar(objv[i]) == ':' {
      LeadingPairsStop(objv, i + 2);
    }
  }

  /**
   * Pair k comes from words i + 2k (a name starting with ':') and
   * i + 2k + 1, and the pairs end at the first word that is not a name
   * followed by a value.
   */
  lemma LeadingPairsWords(objv: seq<Value>, i: nat)
    ensures var r := LeadingPairs(objv, i);
      (forall k :: 0 <= k < |r| ==>
        i + 2 * k + 1 < |objv| && FirstChar(objv[i + 2 * k]) == ':' &&
        r[k] == (StripColon(Text(objv[i + 2 * k])), objv[i + 2 * k + 1])) &&
      !(i + 2 * |r| + 1 < |objv| && FirstChar(objv[i + 2 * |r|]) == ':')
  {
    forall k | 0 <= k < |LeadingPairs(objv, i)|
      ensures i + 2 * k + 1 < |objv| && FirstChar(objv[i + 2 * k]) == ':' &&
        LeadingPairs(objv, i)[k] == (StripColon(Text(objv[i + 2 * k])), objv[i + 2 * k + 1])
    {
      LeadingPairAt(objv, i, k);
    }
    LeadingPairsStop(objv, i);
  }

  /**
   * The plans of binding the pairs in order, pair k with the driver's
   * answers answers[k], stopping after the first that fails; next is the
   * driver's object counter when the first pair is bound.
   */
  function PlanPairs(stmt: Option<Ref>, pairs: seq<(string, Value)>, src: Source, answers: seq<BindAnswers>, next: nat)
    : (r: seq<BindOutcome>)
    requires |pairs| <= |answers|
    ensures |r| <= |pairs|
    decreases |pairs|
  {
    if pairs == [] then []
    else
      var p := PlanBind(stmt, pairs[0].0, pairs[0].1, src, answers[0], Ref(VarKind, next));
      if p.BindFailed? then [p]
      else [p] + PlanPairs(stmt, pairs[1..], src, answers[1..], next + Advance(pairs[0].0, pairs[0].1, answers[0]))
  }

  /**
   * Binding stops at the first failure and only there: every plan but the
   * last is a bound pair, and fewer plans than pairs means the last failed.
   */
  lemma {:induction false} PlanPairsShape(stmt: Option<Ref>, pairs: seq<(string, Value)>, src: Source, answers: seq<BindAnswers>, next: nat)
    requires |pairs| <= |answers|
    ensures var r := PlanPairs(stmt, pairs, src, answers, next);
      (forall k :: 0 <= k < |r| - 1 ==> r[k].BoundAs?) && (|r| < |pairs| ==> r != [] && r[|r| - 1].BindFailed?)
  {
    forall k | 0 <= k < |PlanPairs(stmt, pairs, src, answers, next)| - 1
      ensures PlanPairs(stmt, pairs, src, answers, next)[k].BoundAs?
    {
      PlanPairsBoundAt(stmt, pairs, src, answers, next, k);
    }
    PlanPairsShort(stmt, pairs, src, answers, next);
  }

  /** Every plan before the last one bound its variable. */
  lemma {:induction false} PlanPairsBoundAt(stmt: Option<Ref>, pairs: seq<(string, Value)>, src: Source, answers: seq<BindAnswers>, next: nat, k: nat)
    requires |pairs| <= |answers| && k < |PlanPairs(stmt, pairs, src, answers, next)| - 1
    ensures PlanPairs(stmt, pairs, src, answers, next)[k].BoundAs?
    decreases k
  {
    var p := PlanBind(stmt, pairs[0].0, pairs[0].1, src, answers[0], Ref(VarKind, next));
    var next2 := next + Advance(pairs[0].0, pairs[0].1, answers[0]);
    PlanPairsUnfold(stmt, pairs, src, answers, next, p, next2);
    if k > 0 {
      PlanPairsBoundAt(stmt, pairs[1..], src, answers[1..], next2, k - 1);
    }
  }

  /** A plan list shorter than the pairs ends with the failure that stopped it. */
  lemma {:induction false} PlanPairsShort(stmt: Option<Ref>, pairs: seq<(string, Value)>, src: Source, answers: seq<BindAnswers>, next: nat)
    requires |pairs| <= |answers|
    ensures var r := PlanPairs(stmt, pairs, src, answers, next);
      |r| < |pairs| ==> r != [] && r[|r| - 1].BindFailed?
    decreases |pairs|
  {
    if pairs != [] {
      var p := PlanBind(stmt, pairs[0].0, pairs[0].1, src, answers[0], Ref(VarKind, next));
      if p.BoundAs? {
        var next2 := next + Advance(pairs[0].0, pairs[0].1, answers[0]);
        PlanPairsShort(stmt, pairs[1..], src, answers[1..], next2);
        assert PlanPairs(stmt, pairs, src, answers, next) == [p] + PlanPairs(stmt, pairs[1..], src, answers[1..], next2);
      }
    }
  }


  /** The plan that failed, if any: it is the last. */
  function FailureOf(plans: seq<BindOutcome>): Option<BindOutcome>
  {
    if plans != [] && plans[|plans| - 1].BindFailed? then Some(plans[|plans| - 1]) else None
  }

  /** How many pairs were bound. */
  function BoundCount(plans: seq<BindOutcome>): nat
  {
    if FailureOf(plans).Some? then |plans| - 1 else |plans|
  }

  /** The bind call the driver accepted for one plan, if any. */
  function BindingOf(stmt: Option<Ref>, p: BindOutcome): seq<Binding>
  {
    if p.BoundAs? && stmt.Some? then [Binding(stmt.value, p.name, p.target)] else []
  }

  /** The bind calls the driver accepted, in order. */
  function BindingsOf(stmt: Option<Ref>, plans: seq<BindOutcome>): seq<Binding>
    decreases |plans|
  {
    if plans == [] then [] else BindingsOf(stmt, plans[..|plans| - 1]) + BindingOf(stmt, plans[|plans| - 1])
  }

  /** The LOB variables the bound pairs keep referenced, in order. */
  function KeptOf(plans: seq<BindOutcome>): seq<Ref>
    decreases |plans|
  {
    if plans == [] then [] else KeptOf(plans[..|plans| - 1]) + Present(Kept(plans[|plans| - 1]))
  }

  /** A bind store after remembering the pairs in order: a later pair for a name replaces an earlier one. */
  function Stored(m: map<string, Value>, pairs: seq<(string, Value)>): map<string, Value>
    decreases |pairs|
  {
    if pairs == [] then m else Stored(m, pairs[..|pairs| - 1])[pairs[|pairs| - 1].0 := pairs[|pairs| - 1].1]
  }

  /** The store holds a name iff it held it before or a pair names it. */
  lemma {:induction false} StoredHas(m: map<string, Value>, pairs: seq<(string, Value)>, name: string)
    ensures name in Stored(m, pairs) <==> name in m || exists k :: 0 <= k < |pairs| && pairs[k].0 == name
    decreases |pairs|
  {
    if pairs != [] {
      var init := pairs[..|pairs| - 1];
      StoredHas(m, init, name);
      if exists k :: 0 <= k < |pairs| && pairs[k].0 == name {
        var k :| 0 <= k < |pairs| && pairs[k].0 == name;
        if k < |init| {
          assert init[k].0 == name;
        }
      }
    }
  }

  /** A name takes the value of the last pair naming it. */
  lemma {:induction false} StoredLast(m: map<string, Value>, pairs: seq<(string, Value)>, name: string, k: nat)
    requires k < |pairs| && pairs[k].0 == name && forall j :: k < j < |pairs| ==> pairs[j].0 != name
    ensures name in Stored(m, pairs) && Stored(m, pairs)[name] == pairs[k].1
    decreases |pairs|
  {
    var init := pairs[..|pairs| - 1];
    if k < |init| {
      StoredLast(m, init, name, k);
    }
  }

  /** A name no pair names keeps its value. */
  lemma {:induction false} StoredUntouched(m: map<string, Value>, pairs: seq<(string, Value)>, name: string)
    requires name in m && forall k :: 0 <= k < |pairs| ==> pairs[k].0 != name
    ensures name in Stored(m, pairs) && Stored(m, pairs)[name] == m[name]
    decreases |pairs|
  {
    if pairs != [] {
      StoredUntouched(m, pairs[..|pairs| - 1], name);
    }
  }

  /**
   * The store holds a name iff it held it before or a pair names it, and
   * then the value of the last such pair, or else its old value.
   */
  lemma StoredLastWins(m: map<string, Value>, pairs: seq<(string, Value)>, name: string)
    ensures name in Stored(m, pairs) <==> name in m || exists k :: 0 <= k < |pairs| && pairs[k].0 == name
    ensures forall k :: 0 <= k < |pairs| && pairs[k].0 == name && (forall j :: k < j < |pairs| ==> pairs[j].0 != name) ==>
      Stored(m, pairs)[name] == pairs[k].1
    ensures (forall k :: 0 <= k < |pairs| ==> pairs[k].0 != name) && name in m ==> Stored(m, pairs)[name] == m[name]
  {
    StoredHas(m, pairs, name);
    forall k | 0 <= k < |pairs| && pairs[k].0 == name && (forall j :: k < j < |pairs| ==> pairs[j].0 != name)
      ensures Stored(m, pairs)[name] == pairs[k].1
    {
      StoredLast(m, pairs, name, k);
    }
    if (forall k :: 0 <= k < |pairs| ==> pairs[k].0 != name) && name in m {
      StoredUntouched(m, pairs, name);
    }
  }

  /** Each count of now is that of before plus the times kept holds it. */
  ghost predicate CountsAdd(now: map<Ref, int>, before: map<Ref, int>, kept: seq<Ref>)
  {
    forall r :: CountOf(now, r) == CountOf(before, r) + Occurrences(kept, r)
  }

  /** One more pair planned: the folds grow by that plan. */
  lemma PlansGrow(stmt: Option<Ref>, done: seq<BindOutcome>, p: BindOutcome, m0: map<Ref, int>, m1: map<Ref, int>, m2: map<Ref, int>)
    requires CountsAdd(m1, m0, KeptOf(done))
    requires forall r :: CountOf(m2, r) == CountOf(m1, r) + (if Kept(p) == Some(r) then 1 else 0)
    ensures KeptOf(done + [p]) == KeptOf(done) + Present(Kept(p))
    ensures BindingsOf(stmt, done + [p]) == BindingsOf(stmt, done) + BindingOf(stmt, p)
    ensures CountsAdd(m2, m0, KeptOf(done + [p]))
  {
    assert (done + [p])[..|done|] == done;
    forall r
      ensures CountOf(m2, r) == CountOf(m0, r) + Occurrences(KeptOf(done + [p]), r)
    {
      OccurrencesAppend(KeptOf(done), Present(Kept(p)), r);
      assert Occurrences(Present(Kept(p)), r) == if Kept(p) == Some(r) then 1 else 0 by {
        if Kept(p).Some? {
          assert Present(Kept(p))[..0] == [];
        }
      }
    }
  }

  /** Planning a nonempty list of pairs: the first pair's plan, then the rest unless it failed. */
  lemma PlanPairsUnfold(stmt: Option<Ref>, q: seq<(string, Value)>, src: Source, a: seq<BindAnswers>, next: nat, p: BindOutcome, next2: nat)
    requires 0 < |q| <= |a|
    requires p == PlanBind(stmt, q[0].0, q[0].1, src, a[0], Ref(VarKind, next)) && next2 == next + Advance(q[0].0, q[0].1, a[0])
    ensures PlanPairs(stmt, q, src, a, next) == if p.BindFailed? then [p] else [p] + PlanPairs(stmt, q[1..], src, a[1..], next2)
  {
  }

  /** Planning the pairs from j on stops at once when pair j is refused. */
  lemma PlanPairsFails(stmt: Option<Ref>, pairs: seq<(string, Value)>, src: Source, answers: seq<BindAnswers>, j: nat, next: nat,
                       p: BindOutcome)
    requires j < |pairs| <= |answers|
    requires p == PlanBind(stmt, pairs[j].0, pairs[j].1, src, answers[j], Ref(VarKind, next)) && p.BindFailed?
    ensures PlanPairs(stmt, pairs[j..], src, answers[j..], next) == [p]
  {
    assert pairs[j..][0] == pairs[j] && answers[j..][0] == answers[j];
  }

  /** Planning the pairs from j on, when pair j is bound: its plan, then the rest planned with the counter it left. */
  lemma PlanPairsGoesOn(stmt: Option<Ref>, pairs: seq<(string, Value)>, src: Source, answers: seq<BindAnswers>, j: nat, next: nat,
                        p: BindOutcome, next2: nat)
    requires j < |pairs| <= |answers|
    requires p == PlanBind(stmt, pairs[j].0, pairs[j].1, src, answers[j], Ref(VarKind, next)) && p.BoundAs?
    requires next2 == next + Advance(pairs[j].0, pairs[j].1, answers[j])
    ensures PlanPairs(stmt, pairs[j..], src, answers[j..], next) == [p] + PlanPairs(stmt, pairs[j + 1..], src, answers[j + 1..], next2)
  {
    var q, a := pairs[j..], answers[j..];
    assert q[0] == pairs[j] && q[1..] == pairs[j + 1..];
    assert a[0] == answers[j] && a[1..] == answers[j + 1..];
    PlanPairsUnfold(stmt, q, src, a, next, p, next2);
  }

  // ---------------------------------------------------------------------
  // The binding loop shared by orabind and orabindexec
  // ---------------------------------------------------------------------

  /** What the binding loop looks at: the bind stores, the pending list, the driver's binds, counts and counter. */
  datatype View = View(binds: map<string, map<string, Value>>, items: seq<Ref>, bound: seq<Binding>, refs: map<Ref, int>, next: nat)

  /**
   * One pair's effect on the view, p being its plan: its store entry when
   * bound, its kept variable, its bind call, its count and the objects it
   * created.
   */
  ghost predicate Stepped(stmt: Option<Ref>, key: string, name: string, v: Value, p: BindOutcome, ans: BindAnswers, vb: View, va: View)
  {
    key in vb.binds &&
    va.next == vb.next + Advance(name, v, ans) &&
    (p.BoundAs? ==> va.binds == vb.binds[key := vb.binds[key][name := v]]) &&
    (p.BindFailed? ==> va.binds == vb.binds) &&
    va.items == vb.items + Present(Kept(p)) && va.bound == vb.bound + BindingOf(stmt, p) &&
    forall r :: CountOf(va.refs, r) == CountOf(vb.refs, r) + (if Kept(p) == Some(r) then 1 else 0)
  }

  /** One turn of the binding loop: BindOneByValue_Pending, then StoreBind when it succeeded. */
  method BindStep(ip: Interp, key: string, s: Stmt, pr: PendingRefs, drv: Driver, name: string, v: Value, src: Source, ans: BindAnswers)
    returns (o: Outcome)
    requires pr.Valid() && pr.Capacity() > 0 && drv.Valid() && key in ip.binds
    modifies ip`binds, pr, pr.vars, drv`refs, drv`next, drv`bound, s`msg, QueueOf(PostTarget(StmtH(s)))
    ensures pr.Valid() && pr.Capacity() > 0 && (pr.vars == old(pr.vars) || fresh(pr.vars))
    ensures drv.Valid()
    ensures var p := PlanBind(old(s.stmt), name, v, src, ans, Ref(VarKind, old(drv.next)));
      (p.BoundAs? ==> o == Ok(Empty) && s.msg == old(s.msg)) &&
      (p.BindFailed? ==> o == DriverFailure(p.err, p.call) && s.msg == DriverMsg(old(s.msg), p.err, p.call)) &&
      Stepped(old(s.stmt), key, name, v, p, ans, View(old(ip.binds), old(pr.Items()), old(drv.bound), old(drv.refs), old(drv.next)),
              View(ip.binds, pr.Items(), drv.bound, drv.refs, drv.next))
  {
    o := BindOneByValue(s, pr, drv, name, v, src, ans);
    if o.Ok? {
      StoreBind(ip, key, name, v);
    }
  }

  /** The view after the bound plans done, starting from v0 with the pairs bound so far. */
  ghost predicate Reached(stmt: Option<Ref>, key: string, pairs: seq<(string, Value)>, done: seq<BindOutcome>, v0: View, v: View)
    requires |done| <= |pairs|
  {
    key in v0.binds &&
    v.binds == v0.binds[key := Stored(v0.binds[key], pairs[..|done|])] &&
    v.items == v0.items + KeptOf(done) &&
    v.bound == v0.bound + BindingsOf(stmt, done) &&
    CountsAdd(v.refs, v0.refs, KeptOf(done))
  }

  /** The loop invariant: the pairs before |done| bound as planned, the rest of the plan still ahead. */
  ghost predicate Progress(stmt: Option<Ref>, key: string, pairs: seq<(string, Value)>, src: Source, answers: seq<BindAnswers>,
                           plans: seq<BindOutcome>, done: seq<BindOutcome>, v0: View, v: View)
  {
    |done| <= |pairs| <= |answers| &&
    plans == done + PlanPairs(stmt, pairs[|done|..], src, answers[|done|..], v.next) &&
    (done != [] ==> done[|done| - 1].BoundAs?) &&
    Reached(stmt, key, pairs, done, v0, v) && Issues(v0, v)
  }

  /** The driver's counter only grows, and variables it had issued stay issued. */
  ghost predicate Issues(v0: View, v: View)
  {
    v0.next <= v.next && (AllIssued(v0.items, v0.next) ==> AllIssued(v.items, v.next))
  }

  /** What the binding loop returns: the first failing plan's error, or TCL_OK. */
  function PairsResult(plans: seq<BindOutcome>): Outcome
  {
    if FailureOf(plans).Some? then DriverFailure(FailureOf(plans).value.err, FailureOf(plans).value.call) else Ok(Empty)
  }

  /** The statement's status block after the loop: the first failing plan's error recorded on it. */
  function PairsMsg(plans: seq<BindOutcome>, msg0: Msg): Msg
  {
    if FailureOf(plans).Some? then DriverMsg(msg0, FailureOf(plans).value.err, FailureOf(plans).value.call) else msg0
  }

  /**
   * What binding the pairs did: the first failing plan's error left on the
   * statement, and the view reached by the pairs bound before it (all of
   * them when none failed).
   */
  ghost predicate PairsBound(stmt: Option<Ref>, key: string, pairs: seq<(string, Value)>, src: Source, answers: seq<BindAnswers>,
                             v0: View, v: View, o: Outcome, msg0: Msg, msg: Msg)
    requires |pairs| <= |answers|
  {
    var plans := PlanPairs(stmt, pairs, src, answers, v0.next);
    o == PairsResult(plans) && msg == PairsMsg(plans, msg0) &&
    Reached(stmt, key, pairs, plans[..BoundCount(plans)], v0, v) && Issues(v0, v) &&
    (FailureOf(plans).None? ==> plans[..BoundCount(plans)] == plans)
  }

  /** Remembering one more pair updates the store by that pair. */
  lemma StoredGrow(m: map<string, Value>, pairs: seq<(string, Value)>, j: nat)
    requires j < |pairs|
    ensures Stored(m, pairs[..j + 1]) == Stored(m, pairs[..j])[pairs[j].0 := pairs[j].1]
  {
    assert pairs[..j + 1][..j] == pairs[..j];
  }

  /** A bound pair grows the reached view by its store entry, its kept variable, its bind call and its count. */
  lemma ReachedGrow(stmt: Option<Ref>, key: string, pairs: seq<(string, Value)>, done: seq<BindOutcome>, p: BindOutcome,
                    ans: BindAnswers, v0: View, vb: View, va: View)
    requires |done| < |pairs| && Reached(stmt, key, pairs, done, v0, vb) && p.BoundAs?
    requires Stepped(stmt, key, pairs[|done|].0, pairs[|done|].1, p, ans, vb, va)
    ensures Reached(stmt, key, pairs, done + [p], v0, va)
  {
    var j := |done|;
    var m := v0.binds[key];
    StoredGrow(m, pairs, j);
    UpdateTwice(v0.binds, key, Stored(m, pairs[..j]), Stored(m, pairs[..j + 1]));
    PlansGrow(stmt, done, p, v0.refs, vb.refs, va.refs);
    AppendAssoc(v0.items, KeptOf(done), Present(Kept(p)));
    AppendAssoc(v0.bound, BindingsOf(stmt, done), BindingOf(stmt, p));
  }

  /** One turn of the loop keeps the invariant when its pair was bound. */
  lemma ProgressStep(stmt: Option<Ref>, key: string, pairs: seq<(string, Value)>, src: Source, answers: seq<BindAnswers>,
                     plans: seq<BindOutcome>, done: seq<BindOutcome>, v0: View, vb: View, p: BindOutcome, va: View)
    requires Progress(stmt, key, pairs, src, answers, plans, done, v0, vb) && |done| < |pairs|
    requires p == PlanBind(stmt, pairs[|done|].0, pairs[|done|].1, src, answers[|done|], Ref(VarKind, vb.next)) && p.BoundAs?
    requires Stepped(stmt, key, pairs[|done|].0, pairs[|done|].1, p, answers[|done|], vb, va)
    ensures Progress(stmt, key, pairs, src, answers, plans, done + [p], v0, va)
  {
    var j := |done|;
    PlanPairsGoesOn(stmt, pairs, src, answers, j, vb.next, p, va.next);
    AppendAssoc(done, [p], PlanPairs(stmt, pairs[j + 1..], src, answers[j + 1..], va.next));
    ReachedGrow(stmt, key, pairs, done, p, answers[j], v0, vb, va);
    KeptIssued(stmt, pairs[j].0, pairs[j].1, src, answers[j], vb.next);
    IssuedGrow(vb.items, Present(Kept(p)), vb.next, va.next);
  }

  /** A kept variable is one the driver created for this bind, so the counter has moved past it. */
  lemma KeptIssued(stmt: Option<Ref>, name: string, v: Value, src: Source, ans: BindAnswers, next: nat)
    ensures AllIssued(Present(Kept(PlanBind(stmt, name, v, src, ans, Ref(VarKind, next)))), next + Advance(name, v, ans))
  {
  }

  /** A refused pair leaves the reached view as it was, but for the counts' map representation. */
  lemma FailedKeeps(stmt: Option<Ref>, key: string, pairs: seq<(string, Value)>, done: seq<BindOutcome>, p: BindOutcome,
                    ans: BindAnswers, v0: View, vb: View, va: View)
    requires |done| < |pairs| && Reached(stmt, key, pairs, done, v0, vb) && p.BindFailed?
    requires Stepped(stmt, key, pairs[|done|].0, pairs[|done|].1, p, ans, vb, va)
    ensures Reached(stmt, key, pairs, done, v0, va)
  {
    assert va.items == vb.items && va.bound == vb.bound;
  }

  /** A turn whose pair was refused ends the loop with what the pairs before it reached. */
  lemma FailedStep(stmt: Option<Ref>, key: string, pairs: seq<(string, Value)>, src: Source, answers: seq<BindAnswers>,
                   done: seq<BindOutcome>, v0: View, vb: View, p: BindOutcome, va: View, o: Outcome, msg0: Msg, msg: Msg)
    requires |pairs| <= |answers|
    requires Progress(stmt, key, pairs, src, answers, PlanPairs(stmt, pairs, src, answers, v0.next), done, v0, vb) && |done| < |pairs|
    requires p == PlanBind(stmt, pairs[|done|].0, pairs[|done|].1, src, answers[|done|], Ref(VarKind, vb.next)) && p.BindFailed?
    requires Stepped(stmt, key, pairs[|done|].0, pairs[|done|].1, p, answers[|done|], vb, va)
    requires o == DriverFailure(p.err, p.call) && msg == DriverMsg(msg0, p.err, p.call)
    ensures PairsBound(stmt, key, pairs, src, answers, v0, va, o, msg0, msg)
  {
    var j := |done|;
    var plans := PlanPairs(stmt, pairs, src, answers, v0.next);
    PlanPairsFails(stmt, pairs, src, answers, j, vb.next, p);
    assert plans == done + [p];
    assert (done + [p])[..j] == done;
    FailedKeeps(stmt, key, pairs, done, p, answers[j], v0, vb, va);
    IssuedGrow(vb.items, [], vb.next, va.next);
  }

  /** A loop that bound every pair reached the whole plan. */
  lemma AllBound(stmt: Option<Ref>, key: string, pairs: seq<(string, Value)>, src: Source, answers: seq<BindAnswers>,
                 done: seq<BindOutcome>, v0: View, v: View, msg0: Msg)
    requires |pairs| <= |answers|
    requires Progress(stmt, key, pairs, src, answers, PlanPairs(stmt, pairs, src, answers, v0.next), done, v0, v) && |done| == |pairs|
    ensures PairsBound(stmt, key, pairs, src, answers, v0, v, Ok(Empty), msg0, msg0)
  {
    var plans := PlanPairs(stmt, pairs, src, answers, v0.next);
    assert pairs[|done|..] == [] && plans == done;
    assert FailureOf(plans) == None && BoundCount(plans) == |pairs| && plans[..|pairs|] == plans;
  }

  /**
   * The state the binding loop keeps: the statement's native handle and
   * status block as they were, the pending list and the driver well
   * formed, the store present, and v the current view.
   */
  ghost predicate BindingLoop(ip: Interp, key: string, s: Stmt, pr: PendingRefs, drv: Driver,
                          stmt: Option<Ref>, msg0: Msg, v: View)
    reads ip, s, pr, pr.vars, drv
  {
    s.stmt == stmt && s.msg == msg0 && pr.Valid() && pr.Capacity() > 0 && drv.Valid() && key in ip.binds &&
    v == View(ip.binds, pr.Items(), drv.bound, drv.refs, drv.next)
  }

  /**
   * One turn of the binding loop: pair |done| bound and remembered.  A
   * bound pair moves the loop invariant on; a refused one ends the loop as
   * PairsBound states.
   */
  method BindNext(ip: Interp, key: string, s: Stmt, pr: PendingRefs, drv: Driver,
                  pairs: seq<(string, Value)>, src: Source, answers: seq<BindAnswers>, j: nat,
                  ghost stmt: Option<Ref>, ghost msg0: Msg, ghost plans: seq<BindOutcome>, ghost done: seq<BindOutcome>,
                  ghost v0: View, ghost v: View)
    returns (o: Outcome, ghost p: BindOutcome, ghost va: View)
    requires j == |done| < |pairs| <= |answers| && plans == PlanPairs(stmt, pairs, src, answers, v0.next)
    requires BindingLoop(ip, key, s, pr, drv, stmt, msg0, v) && Progress(stmt, key, pairs, src, answers, plans, done, v0, v)
    modifies ip`binds, pr, pr.vars, drv`refs, drv`next, drv`bound, s`msg, QueueOf(PostTarget(StmtH(s)))
    ensures pr.vars == old(pr.vars) || fresh(pr.vars)
    ensures o.Error? ==>
      pr.Valid() && pr.Capacity() > 0 && drv.Valid() && va == View(ip.binds, pr.Items(), drv.bound, drv.refs, drv.next) &&
      PairsBound(stmt, key, pairs, src, answers, v0, va, o, msg0, s.msg)
    ensures !o.Error? ==>
      o == Ok(Empty) && BindingLoop(ip, key, s, pr, drv, stmt, msg0, va) && Progress(stmt, key, pairs, src, answers, plans, done + [p], v0, va)
  {
    p := PlanBind(stmt, pairs[j].0, pairs[j].1, src, answers[j], Ref(VarKind, v.next));
    o := BindStep(ip, key, s, pr, drv, pairs[j].0, pairs[j].1, src, answers[j]);
    va := View(ip.binds, pr.Items(), drv.bound, drv.refs, drv.next);
    if o.Error? {
      FailedStep(stmt, key, pairs, src, answers, done, v0, v, p, va, o, msg0, s.msg);
    } else {
      ProgressStep(stmt, key, pairs, src, answers, plans, done, v0, v, p, va);
    }
  }

  /**
   * The loop of Oradpi_Cmd_Orabind and of orabindexec's scalar path: bind
   * each pair with BindOneByValue_Pending into the pending list pr and
   * remember it in the statement's bind store, stopping at the first bind
   * that fails.
   */
  method BindPairs(ip: Interp, key: string, s: Stmt, pr: PendingRefs, drv: Driver,
                   pairs: seq<(string, Value)>, src: Source, answers: seq<BindAnswers>)
    returns (o: Outcome)
    requires pr.Valid() && pr.Capacity() > 0 && drv.Valid() && key in ip.binds && |pairs| <= |answers|
    modifies ip`binds, pr, pr.vars, drv`refs, drv`next, drv`bound, s`msg, QueueOf(PostTarget(StmtH(s)))
    ensures pr.Valid() && pr.Capacity() > 0 && (pr.vars == old(pr.vars) || fresh(pr.vars))
    ensures drv.Valid()
    ensures PairsBound(old(s.stmt), key, pairs, src, answers,
                       View(old(ip.binds), old(pr.Items()), old(drv.bound), old(drv.refs), old(drv.next)),
                       View(ip.binds, pr.Items(), drv.bound, drv.refs, drv.next), o, old(s.msg), s.msg)
  {
    ghost var stmt := s.stmt;
    ghost var msg0 := s.msg;
    ghost var v0 := View(ip.binds, pr.Items(), drv.bound, drv.refs, drv.next);
    ghost var v := v0;
    ghost var plans := PlanPairs(stmt, pairs, src, answers, v0.next);
    ghost var done: seq<BindOutcome> := [];
    var j := 0;
    assert pairs[0..] == pairs && answers[0..] == answers && pairs[..0] == [];
    while j < |pairs|
      invariant j == |done| && (pr.vars == old(pr.vars) || fresh(pr.vars))
      invariant BindingLoop(ip, key, s, pr, drv, stmt, msg0, v) && Progress(stmt, key, pairs, src, answers, plans, done, v0, v)
    {
      ghost var p, va;
      o, p, va := BindNext(ip, key, s, pr, drv, pairs, src, answers, j, stmt, msg0, plans, done, v0, v);
      if o.Error? {
        return;
      }
      done := done + [p];
      v := va;
      j := j + 1;
    }
    AllBound(stmt, key, pairs, src, answers, done, v0, v, msg0);
    o := Ok(Empty);
  }

  // ---------------------------------------------------------------------
  // orabind
  // ---------------------------------------------------------------------

  /**
   * The pending list accounts for every reference binding took: each count
   * less the times the new list holds the object is the count before less
   * the times the old list held it.
   */
  lemma PendingBalance(m0: map<Ref, int>, before: seq<Ref>, m2: map<Ref, int>, kept: seq<Ref>)
    requires CountsAdd(m2, ReleasedAll(m0, before), kept)
    ensures forall r :: CountOf(m2, r) - Occurrences(kept, r) == CountOf(m0, r) - Occurrences(before, r)
  {
    forall r
      ensures CountOf(m2, r) - Occurrences(kept, r) == CountOf(m0, r) - Occurrences(before, r)
    {
      ReleasedAllCounts(m0, before, r);
    }
  }

  /**
   * The view orabind binds from, given the view before the command: the
   * statement's store made (empty when new), its pending variables
   * released and its pending list emptied.
   */
  function Prepared(before: View, key: string): View
  {
    View(before.binds[key := if key in before.binds then before.binds[key] else map[]], [], before.bound,
         ReleasedAll(before.refs, before.items), before.next)
  }

  /**
   * What Oradpi_Cmd_Orabind does to the statement found under key, from
   * the view before (its items being the statement's pending list) to the
   * view after: the leading pairs bound in turn from the prepared view as
   * BindPairs does, stopping at the first failure with its error; without
   * any pair the command fails with the usage message after all; and the
   * pending list accounts for every reference the binds took.
   */
  ghost predicate OrabindDone(stmt: Option<Ref>, key: string, objv: seq<Value>, answers: seq<BindAnswers>,
                              before: View, after: View, msg0: Msg, msg: Msg, o: Outcome)
    requires |objv| >= 1 && |LeadingPairs(objv, 2)| <= |answers|
  {
    var pairs := LeadingPairs(objv, 2);
    var plans := PlanPairs(stmt, pairs, FromBind, answers, before.next);
    o == (if PairsResult(plans).Error? then PairsResult(plans) else if pairs == [] then WrongArgs(objv, OrabindUsage) else Ok(Int(0))) &&
    msg == PairsMsg(plans, msg0) &&
    Reached(stmt, key, pairs, plans[..BoundCount(plans)], Prepared(before, key), after) &&
    (FailureOf(plans).None? ==> plans[..BoundCount(plans)] == plans) &&
    before.next <= after.next && AllIssued(after.items, after.next) &&
    forall r :: CountOf(after.refs, r) - Occurrences(after.items, r) == CountOf(before.refs, r) - Occurrences(before.items, r)
  }

  /** Binding the pairs from the prepared view v0 does what orabind promises. */
  lemma OrabindFinish(stmt: Option<Ref>, key: string, objv: seq<Value>, answers: seq<BindAnswers>,
                      before: View, v0: View, after: View, msg0: Msg, msg: Msg, bound: Outcome, o: Outcome)
    requires |objv| >= 1 && |LeadingPairs(objv, 2)| <= |answers| && v0 == Prepared(before, key)
    requires PairsBound(stmt, key, LeadingPairs(objv, 2), FromBind, answers, v0, after, bound, msg0, msg)
    requires o == if bound.Error? then bound else if LeadingPairs(objv, 2) == [] then WrongArgs(objv, OrabindUsage) else Ok(Int(0))
    ensures OrabindDone(stmt, key, objv, answers, before, after, msg0, msg, o)
  {
    var plans := PlanPairs(stmt, LeadingPairs(objv, 2), FromBind, answers, before.next);
    assert after.items == KeptOf(plans[..BoundCount(plans)]);
    PendingBalance(before.refs, before.items, after.refs, KeptOf(plans[..BoundCount(plans)]));
  }

  /**
   * The start of Oradpi_Cmd_Orabind: the statement's pending list (made on
   * first use) with every variable in it released, and its bind store.
   * before is the view the command started from, v0 the prepared one.
   */
  method PrepareBinds(ip: Interp, key: string, drv: Driver) returns (pr: PendingRefs, ghost before: View, ghost v0: View)
    requires PendingsValid(ip) && drv.Valid() && AllIssued(PendingsOf(ip, key), drv.next)
    modifies ip`binds, ip`pendings, (if key in ip.pendings then {ip.pendings[key]} else {}), drv`refs
    ensures PendingsValid(ip) && drv.Valid() && key in ip.pendings && pr == ip.pendings[key] && ip.stmts == old(ip.stmts)
    ensures ip.pendings == old(ip.pendings)[key := pr]
    ensures if key in old(ip.pendings) then pr == old(ip.pendings[key]) && pr.vars == old(pr.vars) else fresh(pr) && fresh(pr.vars)
    ensures before == View(old(ip.binds), old(PendingsOf(ip, key)), old(drv.bound), old(drv.refs), old(drv.next))
    ensures v0 == Prepared(before, key) && v0 == View(ip.binds, PendingsOf(ip, key), drv.bound, drv.refs, drv.next)
  {
    before := View(ip.binds, PendingsOf(ip, key), drv.bound, drv.refs, drv.next);
    pr := GetPendings(ip, key);
    pr.ReleaseKeep(drv);
    GetBindStore(ip, key);
    v0 := View(ip.binds, pr.Items(), drv.bound, drv.refs, drv.next);
  }

  /**
   * BindPairs on the pending list the interpreter holds for key: the list
   * stays where it is and every other list is untouched.
   */
  method BindPending(ip: Interp, key: string, s: Stmt, drv: Driver,
                     pairs: seq<(string, Value)>, src: Source, answers: seq<BindAnswers>, ghost v0: View)
    returns (o: Outcome, ghost after: View)
    requires PendingsValid(ip) && key in ip.pendings && key in ip.binds && drv.Valid() && |pairs| <= |answers|
    requires v0 == View(ip.binds, PendingsOf(ip, key), drv.bound, drv.refs, drv.next)
    modifies ip`binds, ip.pendings[key], ip.pendings[key].vars
    modifies drv`refs, drv`next, drv`bound, s`msg, QueueOf(PostTarget(StmtH(s)))
    ensures PendingsValid(ip) && drv.Valid() && ip.pendings == old(ip.pendings) && ip.stmts == old(ip.stmts)
    ensures ip.pendings[key].vars == old(ip.pendings[key].vars) || fresh(ip.pendings[key].vars)
    ensures after == View(ip.binds, PendingsOf(ip, key), drv.bound, drv.refs, drv.next)
    ensures PairsBound(old(s.stmt), key, pairs, src, answers, v0, after, o, old(s.msg), s.msg)
  {
    var pr := ip.pendings[key];
    o := BindPairs(ip, key, s, pr, drv, pairs, src, answers);
    after := View(ip.binds, pr.Items(), drv.bound, drv.refs, drv.next);
  }

  /**
   * Oradpi_Cmd_Orabind once the statement handle s is found under key;
   * stmt, msg0 and before are the statement's native handle, its status
   * block and the bind view at the start.
   */
  method OrabindStmt(ip: Interp, drv: Driver, s: Stmt, key: string, objv: seq<Value>, answers: seq<BindAnswers>,
                     ghost stmt: Option<Ref>, ghost msg0: Msg, ghost before: View)
    returns (o: Outcome)
    requires PendingsValid(ip) && drv.Valid() && AllIssued(PendingsOf(ip, key), drv.next)
    requires |objv| >= 1 && |LeadingPairs(objv, 2)| <= |answers|
    requires stmt == s.stmt && msg0 == s.msg && before == View(ip.binds, PendingsOf(ip, key), drv.bound, drv.refs, drv.next)
    modifies ip`binds, ip`pendings, (if key in ip.pendings then {ip.pendings[key], ip.pendings[key].vars} else {})
    modifies drv`refs, drv`next, drv`bound, s`msg, QueueOf(PostTarget(StmtH(s)))
    ensures PendingsValid(ip) && drv.Valid() && key in ip.pendings && ip.stmts == old(ip.stmts)
    ensures ip.pendings == old(ip.pendings)[key := ip.pendings[key]]
    ensures OrabindDone(stmt, key, objv, answers, before, View(ip.binds, PendingsOf(ip, key), drv.bound, drv.refs, drv.next),
                        msg0, s.msg, o)
  {
    var pairs := LeadingPairs(objv, 2);
    var pr; ghost var b0, v0;
    pr, b0, v0 := PrepareBinds(ip, key, drv);
    var bound; ghost var after;
    bound, after := BindPending(ip, key, s, drv, pairs, FromBind, answers, v0);
    o := if bound.Error? then bound else if pairs == [] then WrongArgs(objv, OrabindUsage) else Ok(Int(0));
    OrabindFinish(stmt, key, objv, answers, before, v0, after, msg0, s.msg, bound, o);
  }

  /**
   * Oradpi_Cmd_Orabind: "orabind statement-handle :name value ...".  Fewer
   * than three words, or an unknown handle, fail with nothing changed;
   * otherwise the statement's pending variables are released and the
   * leading :name value pairs bound and remembered (OrabindDone).
   */
  method Orabind(ip: Interp, drv: Driver, objv: seq<Value>, answers: seq<BindAnswers>, ghost q: set<EventQueue>)
    returns (o: Outcome, ghost found: Option<(Stmt, string)>, ghost stmt: Option<Ref>, ghost before: View, ghost after: View,
             ghost msg0: Msg, ghost msg: Msg)
    requires |objv| >= 3 && Text(objv[1]) in ip.stmts ==> QueueOf(PostTarget(StmtH(ip.stmts[Text(objv[1])]))) <= q
    requires |objv| >= 1 && PendingsValid(ip) && drv.Valid() && |LeadingPairs(objv, 2)| <= |answers|
    requires |objv| >= 3 ==> AllIssued(PendingsOf(ip, Text(objv[1])), drv.next)
    modifies ip`binds, ip`pendings
    modifies if |objv| >= 2 then HeldList(ip, Text(objv[1])) else {}
    modifies drv`refs, drv`next, drv`bound, NamedStmt(ip, objv)`msg
    modifies q
    ensures PendingsValid(ip) && drv.Valid() && ip.stmts == old(ip.stmts)
    ensures |objv| < 3 ==> o == WrongArgs(objv, OrabindUsage) && found == None && unchanged(ip, drv) && unchanged(ip.stmts.Values)
    ensures |objv| >= 3 && Text(objv[1]) !in ip.stmts ==>
      o == ClientFailure("invalid statement handle") && found == None && unchanged(ip, drv) && unchanged(ip.stmts.Values)
    ensures |objv| >= 3 && Text(objv[1]) in ip.stmts ==> found == Some((ip.stmts[Text(objv[1])], Text(objv[1])))
    ensures found.Some? ==>
      var (s, key) := found.value;
      key in ip.pendings && ip.pendings == old(ip.pendings)[key := ip.pendings[key]] &&
      before == View(old(ip.binds), old(PendingsOf(ip, key)), old(drv.bound), old(drv.refs), old(drv.next)) &&
      after == View(ip.binds, PendingsOf(ip, key), drv.bound, drv.refs, drv.next) &&
      stmt == old(s.stmt) && msg0 == old(s.msg) && msg == s.msg &&
      OrabindDone(stmt, key, objv, answers, before, after, msg0, msg, o)
  {
    before := View(ip.binds, [], drv.bound, drv.refs, drv.next);
    after := before;
    if |objv| < 3 {
      return WrongArgs(objv, OrabindUsage), None, None, before, after, ZeroMsg, ZeroMsg;
    }
    var key := Text(objv[1]);
    var s := LookupStmt(ip, key);
    if s == null {
      return ClientFailure("invalid statement handle"), None, None, before, after, ZeroMsg, ZeroMsg;
    }
    found := Some((s, key));
    stmt, msg0 := s.stmt, s.msg;
    before := View(ip.binds, PendingsOf(ip, key), drv.bound, drv.refs, drv.next);
    o := OrabindStmt(ip, drv, s, key, objv, answers, stmt, msg0, before);
    after, msg := View(ip.binds, PendingsOf(ip, key), drv.bound, drv.refs, drv.next), s.msg;
  }
}
