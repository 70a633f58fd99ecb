/**
 * PendingRefs: the growable list of native bind variables (dpiVar) that
 * must stay referenced until the statement has executed.  cmd_bind.c keeps
 * one per statement in each interpreter (initial capacity 4, release keeps
 * the buffer); cmd_exec.c builds a local one per execution (initial
 * capacity 8, release frees the buffer).
 */
module Pending {
  import opened Native

  const BindInitialCapacity: nat := 4
  const ExecInitialCapacity: nat := 8

  class PendingRefs {
    /** Number of variables held. */
    var n: nat
    /** The buffer; its length is the capacity. */
    var vars: array<Ref>

    ghost predicate Valid()
      reads this
    {
      n <= vars.Length
    }

    /** The variables held, oldest first. */
    function Items(): seq<Ref>
      reads this, vars
      requires Valid()
    {
      vars[..n]
    }

    function Capacity(): nat
      reads this
    {
      vars.Length
    }

    /** An empty list with the given capacity (GetPendings, Pendings_Init). */
    constructor (cap: nat)
      ensures Valid() && fresh(vars)
      ensures Items() == [] && Capacity() == cap
    {
      n := 0;
      vars := new Ref[cap];
    }

    /** Pending_Add / Pendings_Add: append, doubling the capacity when full. */
    method Add(v: Ref)
      requires Valid() && Capacity() > 0
      modifies this, vars
      ensures fresh(vars) || vars == old(vars)
      ensures Valid()
      ensures Items() == old(Items()) + [v]
      ensures Capacity() == if old(n) == old(Capacity()) then 2 * old(Capacity()) else old(Capacity())
    {
      if n == vars.Length {
        var bigger := new Ref[2 * vars.Length];
        forall k | 0 <= k < n {
          bigger[k] := vars[k];
        }
        vars := bigger;
      }
      vars[n] := v;
      n := n + 1;
    }

    /** Pendings_ReleaseAll of cmd_bind.c: release every variable and empty the list, keeping the buffer. */
    method ReleaseKeep(drv: Driver)
      requires Valid()
      modifies this`n, drv`refs
      ensures Valid() && Items() == [] && Capacity() == old(Capacity())
      ensures drv.refs == ReleasedAll(old(drv.refs), old(Items()))
      ensures old(drv.Valid()) && AllIssued(old(Items()), drv.next) ==> drv.Valid()
    {
      var i := 0;
      while i < n
        invariant n == old(n) && Valid() && 0 <= i <= n
        invariant drv.refs == ReleasedAll(old(drv.refs), vars[..i])
        invariant old(drv.Valid()) && AllIssued(old(Items()), drv.next) ==> drv.Valid()
      {
        assert vars[..i + 1][..i] == vars[..i];
        drv.Release(vars[i]);
        i := i + 1;
      }
      assert vars[..n] == old(Items());
      n := 0;
    }

    /** Pendings_ReleaseAll of cmd_exec.c: release every variable and free the buffer (n = cap = 0). */
    method ReleaseFree(drv: Driver)
      requires Valid()
      modifies this, drv`refs
      ensures Valid() && Items() == [] && Capacity() == 0
      ensures drv.refs == ReleasedAll(old(drv.refs), old(Items()))
      ensures old(drv.Valid()) && AllIssued(old(Items()), drv.next) ==> drv.Valid()
    {
      ReleaseKeep(drv);
      vars := new Ref[0];
    }
  }
}
