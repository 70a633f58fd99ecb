/**
 * The per-interpreter stores of cmd_bind.c: for each statement key, the
 * name -> value map of remembered binds (an upsert map) and the list of
 * native variables that must stay referenced until the statement runs.
 */
module BindState {
  import opened Wrappers
  import opened Tcl
  import opened Native
  import opened Pending
  import opened Handles

  /** The binds remembered for a statement key (empty when none). */
  function BindsOf(ip: Interp, key: string): map<string, Value>
    reads ip
  {
    if key in ip.binds then ip.binds[key] else map[]
  }

  /** Every pending list is well formed and has room to grow (its capacity never drops below the initial 4). */
  ghost predicate PendingsValid(ip: Interp)
    reads ip, ip.pendings.Values
  {
    forall k :: k in ip.pendings ==> ip.pendings[k].Valid() && ip.pendings[k].Capacity() > 0
  }

  /** The pending variables held for a statement key (none when absent). */
  function PendingsOf(ip: Interp, key: string): seq<Ref>
    reads ip, ip.pendings.Values, (if key in ip.pendings then {ip.pendings[key].vars} else {})
    requires PendingsValid(ip)
  {
    if key in ip.pendings then ip.pendings[key].Items() else []
  }

  /** The pending list held for key. */
  function ListOf(ip: Interp, key: string): set<PendingRefs>
    reads ip
  {
    if key in ip.pendings then {ip.pendings[key]} else {}
  }

  /** The pending list of the statement a command's second word names, under that statement's own name. */
  function NamedStmtList(ip: Interp, objv: seq<Value>): set<PendingRefs>
    reads ip, NamedStmt(ip, objv)
  {
    if |objv| >= 2 && Text(objv[1]) in ip.stmts then ListOf(ip, ip.stmts[Text(objv[1])].name) else {}
  }

  /** The pending list held for key, with its buffer. */
  function HeldList(ip: Interp, key: string): set<object>
    reads ip, (if key in ip.pendings then {ip.pendings[key]} else {})
  {
    if key in ip.pendings then {ip.pendings[key], ip.pendings[key].vars} else {}
  }

  /** GetBindStore: the statement's store, created empty on first use. */
  method GetBindStore(ip: Interp, key: string)
    modifies ip`binds
    ensures key in ip.binds && ip.binds == old(ip.binds)[key := old(BindsOf(ip, key))]
  {
    if key !in ip.binds {
      ip.binds := ip.binds[key := map[]];
    }
  }

  /** GetBindStore + StoreBind: remember value v for name under the statement key, replacing any earlier value. */
  method StoreBind(ip: Interp, key: string, name: string, v: Value)
    modifies ip`binds
    ensures ip.binds == old(ip.binds)[key := old(BindsOf(ip, key))[name := v]]
    ensures BindsOf(ip, key)[name] == v
    ensures forall n :: n != name && n in old(BindsOf(ip, key)) ==> n in BindsOf(ip, key) && BindsOf(ip, key)[n] == old(BindsOf(ip, key))[n]
  {
    var store := BindsOf(ip, key);
    ip.binds := ip.binds[key := store[name := v]];
  }

  /**
   * Oradpi_BindStoreForget (cmd_bind.c) and ClearBindStoreForStmt
   * (cmd_exec.c): drop the statement's whole store; no-op for an unknown key.
   */
  method BindStoreForget(ip: Interp, key: string)
    modifies ip`binds
    ensures ip.binds == old(ip.binds) - {key}
    ensures BindsOf(ip, key) == map[]
    ensures old(PendingsValid(ip)) ==> PendingsValid(ip) && forall k :: PendingsOf(ip, k) == old(PendingsOf(ip, k))
  {
    if key in ip.binds {
      ip.binds := ip.binds - {key};
    }
  }

  /** LookupBindStore (cmd_exec.c): the statement's store, if one was created. */
  function LookupBindStore(ip: Interp, key: string): (r: Option<map<string, Value>>)
    reads ip
    ensures r.Some? <==> key in ip.binds
    ensures r.Some? ==> r.value == BindsOf(ip, key)
  {
    if key in ip.binds then Some(ip.binds[key]) else None
  }

  /** GetPendings: the statement's pending list, created empty with capacity 4 on first use. */
  method GetPendings(ip: Interp, key: string) returns (pr: PendingRefs)
    requires PendingsValid(ip)
    modifies ip`pendings
    ensures PendingsValid(ip) && key in ip.pendings && pr == ip.pendings[key]
    ensures key in old(ip.pendings) ==> ip.pendings == old(ip.pendings)
    ensures key !in old(ip.pendings) ==>
      fresh(pr) && fresh(pr.vars) && pr.Items() == [] && pr.Capacity() == BindInitialCapacity &&
      ip.pendings == old(ip.pendings)[key := pr]
  {
    if key in ip.pendings {
      pr := ip.pendings[key];
    } else {
      pr := new PendingRefs(BindInitialCapacity);
      ip.pendings := ip.pendings[key := pr];
    }
  }

  /** Oradpi_PendingsForget: release every pending variable of the statement and drop its list; no-op for an unknown key. */
  method PendingsForget(ip: Interp, key: string, drv: Driver)
    requires PendingsValid(ip)
    modifies ip`pendings, drv`refs, ListOf(ip, key)
    ensures PendingsValid(ip)
    ensures ip.pendings == old(ip.pendings) - {key}
    ensures drv.refs == ReleasedAll(old(drv.refs), old(PendingsOf(ip, key)))
    ensures old(drv.Valid()) && old(AllIssued(PendingsOf(ip, key), drv.next)) ==> drv.Valid()
  {
    if key in ip.pendings {
      var pr := ip.pendings[key];
      pr.ReleaseKeep(drv);
      ip.pendings := ip.pendings - {key};
    }
  }
}
