/**
 * The process-wide connection directory of state.c (gConnByName): for each
 * published connection name, the native session and whether the interpreter
 * that created it still owns it.  The hash table is created lazily by the
 * first publish; every other operation is a no-op before that.
 */
module Directory {
  import opened Wrappers
  import opened Native
  import opened Handles

  /** GlobalConnRec */
  datatype GlobalConnRec = GlobalConnRec(conn: Option<Ref>, ownerAlive: bool)

  /** What GlobalConn_Lookup reports: the session (None when unknown) and the ownerAlive flag (false when unknown). */
  datatype Found = Found(conn: Option<Ref>, ownerAlive: bool)

  class ConnDirectory {
    /** gConnMapInited */
    var inited: bool
    /** gConnByName */
    var entries: map<string, GlobalConnRec>

    ghost predicate Valid()
      reads this
    {
      !inited ==> entries == map[]
    }

    constructor ()
      ensures Valid() && !inited
    {
      inited := false;
      entries := map[];
    }

    /** GlobalConn_Lookup */
    function Lookup(name: string): (r: Found)
      reads this
      ensures r.ownerAlive ==> name in entries && entries[name].ownerAlive && r.conn == entries[name].conn
      ensures !inited || name !in entries ==> r == Found(None, false)
    {
      if inited && name in entries then Found(entries[name].conn, entries[name].ownerAlive)
      else Found(None, false)
    }

    /** GlobalConn_Publish: create or overwrite the entry, always with ownerAlive set. */
    method Publish(name: string, conn: Option<Ref>)
      requires Valid()
      modifies this
      ensures Valid() && inited
      ensures entries == old(entries)[name := GlobalConnRec(conn, true)]
      ensures Lookup(name) == Found(conn, true)
      ensures forall n :: n != name ==> Lookup(n) == old(Lookup(n))
    {
      inited := true;
      entries := entries[name := GlobalConnRec(conn, true)];
    }

    /** GlobalConn_MarkOwnerGone: clear ownerAlive, keep the entry; no-op for an unknown name. */
    method MarkOwnerGone(name: string)
      requires Valid()
      modifies this`entries
      ensures Valid()
      ensures entries == if name in old(entries) then old(entries)[name := GlobalConnRec(old(entries)[name].conn, false)] else old(entries)
      ensures Lookup(name) == Found(old(Lookup(name)).conn, false)
      ensures forall n :: n != name ==> Lookup(n) == old(Lookup(n))
    {
      if inited && name in entries {
        entries := entries[name := GlobalConnRec(entries[name].conn, false)];
      }
    }

    /** GlobalConn_Erase: drop the entry; no-op for an unknown name. */
    method Erase(name: string)
      requires Valid()
      modifies this`entries
      ensures Valid()
      ensures entries == old(entries) - {name}
      ensures Lookup(name) == Found(None, false)
      ensures forall n :: n != name ==> Lookup(n) == old(Lookup(n))
    {
      if inited && name in entries {
        entries := entries - {name};
      }
    }

    /**
     * No live entry names a closed session: adopting through the directory
     * never takes a reference to a session its owner has closed.
     */
    ghost predicate Safe(drv: Driver)
      reads this, drv
    {
      forall n :: n in entries && entries[n].ownerAlive && entries[n].conn.Some? ==> entries[n].conn.value !in drv.closed
    }

    /** Every published session was created by the driver. */
    ghost predicate Known(drv: Driver)
      reads this, drv
    {
      forall n :: n in entries && entries[n].conn.Some? ==> entries[n].conn.value.id < drv.next
    }

    /**
     * An owning connection's session is published under its own name and
     * under no other name.
     */
    ghost predicate OwnsEntry(co: Conn)
      reads this, co
    {
      co.ownerClose && co.conn.Some? ==>
        co.name in entries && entries[co.name].conn == co.conn &&
        forall n :: n in entries && entries[n].conn == co.conn ==> n == co.name
    }
  }

  /** Two owning connections of one session carry the one name the directory publishes it under. */
  lemma OneOwnerName(dir: ConnDirectory, c1: Conn, c2: Conn)
    requires dir.OwnsEntry(c1) && dir.OwnsEntry(c2)
    requires c1.ownerClose && c2.ownerClose && c1.conn.Some? && c1.conn == c2.conn
    ensures c1.name == c2.name
  {
  }
}
