/**
 * Failover notification of util.c.  A recoverable driver error posts an
 * event to the owner thread of the connection (Status.Post); delivering it
 * in the owner interpreter replaces the connection's pending message and
 * arms a debounce timer unless one is already armed; when the timer fires
 * the failover callback is evaluated once with the connection name,
 * "recoverable" and the last pending message.  A burst of errors therefore
 * yields one callback carrying the last message.
 */
module Failover {
  import opened Wrappers
  import opened Tcl
  import opened Native
  import opened Handles
  import opened Directory
  import opened State

  /** The debounce delay used when foDebounceMs is 0. */
  const DefaultDebounceMs: nat := 250

  /** The debounce state of a connection: the armed timer (its delay), foTimerScheduled, foPendingMsg. */
  datatype FoState = FoState(timer: Option<nat>, scheduled: bool, pending: Option<string>)

  /** No timer armed and no message pending. */
  const Idle: FoState := FoState(None, false, None)

  function FoStateOf(co: Conn): FoState
    reads co
  {
    FoState(co.foTimer, co.foTimerScheduled, co.foPendingMsg)
  }

  /** The delay a timer is armed with. */
  function Delay(debounceMs: nat): (d: nat)
    ensures d > 0
    ensures debounceMs > 0 ==> d == debounceMs
  {
    if debounceMs == 0 then DefaultDebounceMs else debounceMs
  }

  /** One accepted event: replace the pending message; arm a timer only if none is scheduled. */
  function Arm(st: FoState, debounceMs: nat, message: string): FoState
  {
    FoState(if st.scheduled then st.timer else Some(Delay(debounceMs)), true, Some(message))
  }

  /** A run of accepted events on the same connection, oldest first. */
  function ArmAll(st: FoState, debounceMs: nat, messages: seq<string>): FoState
    decreases |messages|
  {
    if messages == [] then st
    else Arm(ArmAll(st, debounceMs, messages[..|messages| - 1]), debounceMs, messages[|messages| - 1])
  }

  /**
   * Debounce: however many events arrive, exactly one timer is armed (the
   * one already scheduled, or a new one with the configured delay), and it
   * holds the last message.
   */
  lemma {:induction false} Burst(st: FoState, debounceMs: nat, messages: seq<string>)
    requires |messages| > 0
    ensures ArmAll(st, debounceMs, messages) ==
      FoState(if st.scheduled then st.timer else Some(Delay(debounceMs)), true, Some(messages[|messages| - 1]))
    decreases |messages|
  {
    if |messages| > 1 {
      Burst(st, debounceMs, messages[..|messages| - 1]);
    }
  }

  /** The command the timer evaluates: the callback's words followed by the name, "recoverable" and the message ("" if none). */
  function CallbackCommand(callback: Value, name: string, pending: Option<string>): (cmd: Value)
    ensures cmd.List? && |cmd.items| == |GetList(callback)| + 3
    ensures cmd.items[..|GetList(callback)|] == GetList(callback)
    ensures cmd.items[|GetList(callback)|..] == [Str(name), Str("recoverable"), Str(pending.GetOr(""))]
  {
    List(GetList(callback) + [Str(name), Str("recoverable"), Str(pending.GetOr(""))])
  }

  /** Whether a firing timer reaches the callback: an owner interpreter, not deleted, and a callback. */
  predicate Fires(co: Conn)
    reads co, OwnerInterp(co)
  {
    co.ownerIp != null && co.failoverCallback.Some? && !co.ownerIp.deleted
  }

  function OwnerInterp(co: Conn): set<Interp>
    reads co
  {
    if co.ownerIp != null then {co.ownerIp} else {}
  }

  /**
   * Oradpi_FailoverTimerProc: the timer is gone and the pending message
   * dropped; the callback is evaluated in the owner interpreter only when
   * the connection fires.  (What the script itself does is not modelled.)
   */
  method FailoverTimerProc(co: Conn)
    modifies co`foTimer, co`foTimerScheduled, co`foPendingMsg, OwnerInterp(co)`evals
    ensures FoStateOf(co) == Idle
    ensures co.ownerIp != null ==>
      co.ownerIp.evals == old(co.ownerIp.evals) +
        (if old(Fires(co)) then [CallbackCommand(co.failoverCallback.value, co.name, old(co.foPendingMsg))] else [])
  {
    co.foTimer := None;
    co.foTimerScheduled := false;
    if co.ownerIp == null || co.failoverCallback.None? {
      co.foPendingMsg := None;
      return;
    }
    if co.ownerIp.deleted {
      co.foPendingMsg := None;
      return;
    }
    var cmd := CallbackCommand(co.failoverCallback.value, co.name, co.foPendingMsg);
    co.ownerIp.evals := co.ownerIp.evals + [cmd];
    co.foPendingMsg := None;
  }

  /** The name resolves in the interpreter without consulting the directory. */
  predicate LocalHit(ip: Interp, name: string)
    reads ip, ip.conns.Values
  {
    name in ip.conns && ip.conns[name].conn.Some?
  }

  /**
   * Oradpi_FailoverEventProc: an event for a deleted interpreter, or whose
   * connection name does not resolve there (Oradpi_LookupConn, which may
   * adopt the session), changes no debounce state; otherwise the resolved
   * connection is armed with the event's message.  co is the connection
   * armed, null when the event was discarded.
   */
  method FailoverEventProc(ev: Event, dir: ConnDirectory, drv: Driver) returns (co: Conn?)
    requires dir.Valid() && dir.Safe(drv) && Owned(ev.ip, dir) && Named(ev.ip)
    modifies ev.ip`conns, drv`refs
    modifies ev.ip.conns.Values`foPendingMsg, ev.ip.conns.Values`foTimer, ev.ip.conns.Values`foTimerScheduled
    ensures Owned(ev.ip, dir) && Named(ev.ip)
    ensures old(ev.ip.deleted) ==> co == null && ev.ip.conns == old(ev.ip.conns) && drv.refs == old(drv.refs)
    ensures !old(ev.ip.deleted) ==> Resolved(ev.ip, dir, drv, ev.ldaName, co)
    ensures !old(ev.ip.deleted) && old(LocalHit(ev.ip, ev.ldaName)) ==>
      co == old(ev.ip.conns[ev.ldaName]) && FoStateOf(co) == Arm(old(FoStateOf(co)), co.foDebounceMs, ev.message)
    ensures !old(ev.ip.deleted) && !old(LocalHit(ev.ip, ev.ldaName)) ==>
      (co != null <==> dir.Lookup(ev.ldaName).conn.Some? && dir.Lookup(ev.ldaName).ownerAlive) &&
      (co != null ==> fresh(co) && FoStateOf(co) == FoState(Some(DefaultDebounceMs), true, Some(ev.message)))
    ensures co != null ==> co.name == ev.ldaName && ev.ldaName in ev.ip.conns && ev.ip.conns[ev.ldaName] == co
    ensures forall c :: c in old(ev.ip.conns.Values) && c != co ==> FoStateOf(c) == old(FoStateOf(c))
  {
    if ev.ip.deleted {
      return null;
    }
    co := LookupConn(ev.ip, ev.ldaName, dir, drv);
    if co == null {
      return;
    }
    co.foPendingMsg := Some(ev.message);
    if !co.foTimerScheduled {
      co.foTimer := Some(Delay(co.foDebounceMs));
      co.foTimerScheduled := true;
    }
  }

  /**
   * The thread's event loop serving one event: the oldest queued event is
   * removed and handled.
   */
  method DeliverNext(q: EventQueue, dir: ConnDirectory, drv: Driver) returns (co: Conn?)
    requires |q.queued| > 0
    requires dir.Valid() && dir.Safe(drv) && Owned(q.queued[0].ip, dir) && Named(q.queued[0].ip)
    modifies q, q.queued[0].ip`conns, drv`refs
    modifies q.queued[0].ip.conns.Values`foPendingMsg, q.queued[0].ip.conns.Values`foTimer
    modifies q.queued[0].ip.conns.Values`foTimerScheduled
    ensures q.queued == old(q.queued[1..])
    ensures co != null ==> co.name == old(q.queued[0].ldaName) && co.foPendingMsg == Some(old(q.queued[0].message))
    ensures co != null ==> co.foTimerScheduled
    ensures var ev := old(q.queued[0]);
      if old(ev.ip.deleted) then co == null && ev.ip.conns == old(ev.ip.conns) && drv.refs == old(drv.refs)
      else Resolved(ev.ip, dir, drv, ev.ldaName, co)
    ensures var ev := old(q.queued[0]);
      forall c :: c in old(ev.ip.conns.Values) && c != co ==> FoStateOf(c) == old(FoStateOf(c))
  {
    var ev := q.queued[0];
    q.queued := q.queued[1..];
    co := FailoverEventProc(ev, dir, drv);
  }
}
