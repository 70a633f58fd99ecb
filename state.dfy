/**
 * The handle registry of state.c: each interpreter's conns/stmts/lobs
 * tables, creation of owning connections (published in the process-wide
 * directory), adoption of another interpreter's connection as a
 * non-owning proxy, and freeing a connection or a LOB.
 *
 * The invariant kept here is that each published session has exactly one
 * owning handle, whose name the directory publishes it under, and that an
 * owner marks its entry gone before it closes the session, so that no
 * adoption can reach a closed session; adopters only release.
 */
module State {
  import opened Wrappers
  import opened Tcl
  import opened Native
  import opened Handles
  import opened Naming
  import opened Directory

  /** Each table is keyed by its handles' own names. */
  ghost predicate Named(ip: Interp)
    reads ip
  {
    (forall k :: k in ip.conns ==> ip.conns[k].name == k) &&
    (forall k :: k in ip.stmts ==> ip.stmts[k].name == k) &&
    (forall k :: k in ip.lobs ==> ip.lobs[k].name == k)
  }

  /** Every owning connection of the interpreter holds its directory entry. */
  ghost predicate Owned(ip: Interp, dir: ConnDirectory)
    reads ip, ip.conns.Values, dir
  {
    forall k :: k in ip.conns ==> dir.OwnsEntry(ip.conns[k])
  }

  /** Every published name was drawn from the counter. */
  ghost predicate Issued(dir: ConnDirectory, namer: Namer)
    reads dir, namer
  {
    forall n :: n in dir.entries ==> HandleNumber(n) <= namer.counter
  }

  /** The directory publishes sessions only. */
  ghost predicate SessionsOnly(dir: ConnDirectory)
    reads dir
  {
    forall n :: n in dir.entries && dir.entries[n].conn.Some? ==> dir.entries[n].conn.value.kind == ConnKind
  }

  /** The connection machinery as one interpreter sees it. */
  ghost predicate Coherent(ip: Interp, dir: ConnDirectory, namer: Namer, drv: Driver)
    reads ip, ip.conns.Values, ip.stmts.Values, ip.lobs.Values, dir, namer, drv
  {
    drv.Valid() && dir.Valid() && dir.Safe(drv) && dir.Known(drv) && SessionsOnly(dir) &&
    Issued(dir, namer) && Owned(ip, dir) && Named(ip)
  }

  /** A session nobody has published or closed yet (what dpiConn_create or dpiPool_acquireConnection hands to Oradpi_NewConn). */
  ghost predicate Unpublished(dir: ConnDirectory, drv: Driver, conn: Option<Ref>)
    reads dir, drv
  {
    conn.Some? ==>
      conn.value.kind == ConnKind && conn.value.id < drv.next && conn.value !in drv.closed &&
      forall n :: n in dir.entries ==> dir.entries[n].conn != conn
  }

  /**
   * Oradpi_NewConn: an owning connection named "oraL<n>", with default
   * configuration (the statement cache size and call timeout are read from
   * the session when those calls succeed), registered locally and
   * published with ownerAlive set.
   */
  method NewConn(ip: Interp, namer: Namer, dir: ConnDirectory, drv: Driver,
                 conn: Option<Ref>, pool: Option<Ref>, cacheSize: Option<nat>, callTimeout: Option<nat>)
    returns (co: Conn)
    requires Coherent(ip, dir, namer, drv) && Unpublished(dir, drv, conn)
    modifies namer, ip`conns, dir
    ensures fresh(co) && Coherent(ip, dir, namer, drv)
    ensures namer.counter == old(namer.counter) + 1 && co.name == ConnPrefix + Digits(namer.counter)
    ensures co.ownerClose && co.conn == conn && co.pool == pool && !co.autocommit
    ensures co.fetchArraySize == DefaultFetchArraySize && co.prefetchRows == DefaultPrefetchRows
    ensures co.prefetchMemory == 0 && !co.inlineLobs
    ensures co.stmtCacheSize == (if conn.Some? && cacheSize.Some? then cacheSize.value else 0)
    ensures co.callTimeout == (if conn.Some? && callTimeout.Some? then callTimeout.value else 0)
    ensures co.msg == ZeroMsg && co.ownerIp == null && co.ownerTid == null && co.failoverCallback == None
    ensures co.foTimer == None && !co.foTimerScheduled && co.foPendingMsg == None && co.foDebounceMs == 0
    ensures co.name !in old(dir.entries)
    ensures ip.conns == old(ip.conns)[co.name := co]
    ensures dir.entries == old(dir.entries)[co.name := GlobalConnRec(conn, true)]
  {
    var name := namer.NewHandleName(ConnPrefix);
    assert HandleNumber(name) == namer.counter;
    assert name !in old(dir.entries);
    // dpiConn_getStmtCacheSize and dpiConn_getCallTimeout, when they succeed
    var cs := if conn.Some? && cacheSize.Some? then cacheSize.value else 0;
    var ct := if conn.Some? && callTimeout.Some? then callTimeout.value else 0;
    co := new Conn.Defaults(name, conn, pool, true, cs, ct);
    // Oradpi_RegisterConnInInterp
    ip.conns := ip.conns[name := co];
    dir.Publish(name, conn);
    forall k | k in ip.conns
      ensures dir.OwnsEntry(ip.conns[k])
    {
      if k != name {
        var other := ip.conns[k];
        assert other == old(ip.conns)[k];
        if other.ownerClose && other.conn.Some? {
          assert old(dir.OwnsEntry(other));
          assert HandleNumber(other.name) <= old(namer.counter);
          assert other.name != name;
          assert old(dir.entries)[other.name].conn == other.conn;
        }
      }
    }
  }

  /**
   * Oradpi_AdoptConn: a non-owning proxy under the owner's name, holding
   * one added reference to the owner's session; registered locally only.
   */
  method AdoptConn(ip: Interp, handleName: string, connFromOwner: Option<Ref>, drv: Driver) returns (co: Conn)
    modifies ip`conns, drv`refs
    ensures fresh(co) && co.name == handleName && !co.ownerClose
    ensures co.conn == connFromOwner && co.pool == None && !co.autocommit
    ensures co.fetchArraySize == DefaultFetchArraySize && co.prefetchRows == DefaultPrefetchRows
    ensures co.stmtCacheSize == 0 && co.callTimeout == 0 && co.prefetchMemory == 0 && !co.inlineLobs
    ensures co.ownerIp == null && co.ownerTid == null && co.failoverCallback == None
    ensures co.foTimer == None && !co.foTimerScheduled && co.foPendingMsg == None && co.foDebounceMs == 0
    ensures ip.conns == old(ip.conns)[handleName := co]
    ensures drv.refs == if connFromOwner.Some? then old(drv.refs)[connFromOwner.value := old(drv.Count(connFromOwner.value)) + 1] else old(drv.refs)
  {
    if connFromOwner.Some? {
      drv.AddRef(connFromOwner.value);
    }
    co := new Conn.Defaults(handleName, connFromOwner, None, false, 0, 0);
    ip.conns := ip.conns[handleName := co];
  }

  /**
   * What resolving a connection name leaves in the handle table and the
   * reference counts: nothing changes on a local hit; on adoption a fresh
   * proxy takes the name and the owner's session one more reference;
   * otherwise the name is dropped and no reference moves.
   */
  twostate predicate Resolved(ip: Interp, dir: ConnDirectory, drv: Driver, name: string, new co: Conn?)
    reads ip, dir, drv
  {
    if old(name in ip.conns && ip.conns[name].conn.Some?) then
      co == old(ip.conns[name]) && ip.conns == old(ip.conns) && drv.refs == old(drv.refs)
    else if old(dir.Lookup(name)).conn.Some? && old(dir.Lookup(name)).ownerAlive then
      var c := old(dir.Lookup(name)).conn.value;
      co != null && fresh(co) && ip.conns == old(ip.conns)[name := co] &&
      drv.refs == old(drv.refs)[c := old(drv.Count(c)) + 1]
    else
      co == null && ip.conns == old(ip.conns) - {name} && drv.refs == old(drv.refs)
  }

  /**
   * Oradpi_LookupConn: a local handle with a session is returned as is; a
   * local handle without one is dropped from the table; on a local miss the
   * directory is consulted and a live entry is adopted.
   */
  method LookupConn(ip: Interp, name: string, dir: ConnDirectory, drv: Driver) returns (co: Conn?)
    requires dir.Valid() && dir.Safe(drv) && Owned(ip, dir) && Named(ip)
    modifies ip`conns, drv`refs
    ensures Owned(ip, dir) && Named(ip)
    ensures Resolved(ip, dir, drv, name, co)
    ensures co != null && !old(name in ip.conns && ip.conns[name].conn.Some?) ==>
      var f := dir.Lookup(name);
      co.name == name && !co.ownerClose && co.conn == f.conn && co.conn.value !in drv.closed &&
      co.fetchArraySize == DefaultFetchArraySize && !co.autocommit &&
      co.pool == None && co.ownerIp == null && co.ownerTid == null && co.failoverCallback == None &&
      co.foTimer == None && !co.foTimerScheduled && co.foPendingMsg == None && co.foDebounceMs == 0
    ensures co != null ==> co.conn.Some? && name in ip.conns && ip.conns[name] == co
  {
    if name in ip.conns {
      var local := ip.conns[name];
      if local.conn.Some? {
        return local;
      }
      ip.conns := ip.conns - {name};
    }
    var f := dir.Lookup(name);
    if f.conn.Some? && f.ownerAlive {
      co := AdoptConn(ip, name, f.conn, drv);
    } else {
      co := null;
    }
  }

  /**
   * Oradpi_FreeConn: cancel the debounce timer, drop the pending message and
   * the callback; an owner marks its entry gone, closes the session,
   * releases it and finally erases the entry; an adopter only releases.
   * A pool is closed and released either way.  atClose is the directory at
   * the moment the session is closed.
   */
  method FreeConn(co: Conn, dir: ConnDirectory, drv: Driver) returns (ghost atClose: map<string, GlobalConnRec>)
    requires dir.Valid() && dir.OwnsEntry(co) && dir.Safe(drv) && SessionsOnly(dir)
    requires co.pool.Some? ==> co.pool.value.kind == PoolKind
    modifies co`foTimer, co`foTimerScheduled, co`foPendingMsg, co`failoverCallback, co`conn, co`pool
    modifies dir`entries, drv`refs, drv`closed
    ensures dir.Valid() && dir.Safe(drv) && SessionsOnly(dir)
    ensures co.foTimer == (if old(co.foTimerScheduled) && old(co.foTimer).Some? then None else old(co.foTimer))
    ensures co.foTimerScheduled == (old(co.foTimerScheduled) && old(co.foTimer).None?)
    ensures co.foPendingMsg == None && co.failoverCallback == None && co.conn == None && co.pool == None
    ensures drv.refs == ReleasedAll(old(drv.refs), Present(old(co.conn)) + Present(old(co.pool)))
    ensures drv.closed == old(drv.closed) + (if co.ownerClose then Present(old(co.conn)) else []) + Present(old(co.pool))
    ensures dir.entries == if co.ownerClose then old(dir.entries) - {co.name} else old(dir.entries)
    ensures co.ownerClose && old(co.conn).Some? ==>
      co.name in atClose && !atClose[co.name].ownerAlive &&
      forall n :: n in atClose && atClose[n].ownerAlive ==> atClose[n].conn != old(co.conn)
  {
    ClearFailover(co);
    ghost var refs0 := drv.refs;
    atClose := ReleaseSession(co, dir, drv);
    ReleasePool(co, drv);
    ReleasedAllAppend(refs0, Present(old(co.conn)), Present(old(co.pool)));
    if co.ownerClose {
      dir.Erase(co.name);
    }
  }

  /** The failover part of Oradpi_FreeConn: cancel a scheduled timer, drop the pending message and the callback. */
  method ClearFailover(co: Conn)
    modifies co`foTimer, co`foTimerScheduled, co`foPendingMsg, co`failoverCallback
    ensures co.foTimer == (if old(co.foTimerScheduled) && old(co.foTimer).Some? then None else old(co.foTimer))
    ensures co.foTimerScheduled == (old(co.foTimerScheduled) && old(co.foTimer).None?)
    ensures co.foPendingMsg == None && co.failoverCallback == None
  {
    if co.foTimerScheduled && co.foTimer.Some? {
      co.foTimer, co.foTimerScheduled := None, false;
    }
    co.foPendingMsg := None;
    co.failoverCallback := None;
  }

  /** The session part of Oradpi_FreeConn: an owner marks its entry gone and closes; either way the session is released. */
  method ReleaseSession(co: Conn, dir: ConnDirectory, drv: Driver) returns (ghost atClose: map<string, GlobalConnRec>)
    requires dir.Valid() && dir.OwnsEntry(co) && dir.Safe(drv)
    modifies co`conn, dir`entries, drv`refs, drv`closed
    ensures dir.Valid() && dir.Safe(drv) && co.conn == None
    ensures drv.refs == ReleasedAll(old(drv.refs), Present(old(co.conn)))
    ensures drv.closed == old(drv.closed) + (if co.ownerClose then Present(old(co.conn)) else [])
    ensures dir.entries == if co.ownerClose && old(co.conn).Some? && co.name in old(dir.entries)
      then old(dir.entries)[co.name := GlobalConnRec(old(co.conn), false)] else old(dir.entries)
    ensures co.ownerClose && old(co.conn).Some? ==>
      co.name in atClose && !atClose[co.name].ownerAlive &&
      forall n :: n in atClose && atClose[n].ownerAlive ==> atClose[n].conn != old(co.conn)
  {
    atClose := dir.entries;
    if co.conn.Some? {
      var c := co.conn.value;
      if co.ownerClose {
        dir.MarkOwnerGone(co.name);
        atClose := dir.entries;
        drv.Close(c);
      }
      drv.Release(c);
      co.conn := None;
    }
  }

  /** The pool part of Oradpi_FreeConn: close and release the pool, if any. */
  method ReleasePool(co: Conn, drv: Driver)
    modifies co`pool, drv`refs, drv`closed
    ensures co.pool == None
    ensures drv.refs == ReleasedAll(old(drv.refs), Present(old(co.pool)))
    ensures drv.closed == old(drv.closed) + Present(old(co.pool))
  {
    if co.pool.Some? {
      var p := co.pool.value;
      drv.Close(p);
      drv.Release(p);
      co.pool := None;
    }
  }

  /** Oradpi_NewStmt: a statement handle "oraS<n>" owned by co, registered locally. */
  method NewStmt(ip: Interp, namer: Namer, co: Conn?) returns (s: Stmt)
    modifies namer, ip`stmts
    ensures fresh(s) && namer.counter == old(namer.counter) + 1
    ensures s.name == StmtPrefix + Digits(namer.counter) && s.owner == co
    ensures s.stmt == None && s.msg == ZeroMsg && s.fetchArray == 0
    ensures ip.stmts == old(ip.stmts)[s.name := s]
  {
    var name := namer.NewHandleName(StmtPrefix);
    s := new Stmt.Zeroed(name);
    s.owner := co;
    ip.stmts := ip.stmts[name := s];
  }

  /** Oradpi_LookupStmt */
  function LookupStmt(ip: Interp, name: string): (s: Stmt?)
    reads ip
    ensures s != null <==> name in ip.stmts
    ensures s != null ==> s == ip.stmts[name]
  {
    if name in ip.stmts then ip.stmts[name] else null
  }

  /** Oradpi_NewLob: a LOB handle "oraB<n>" holding the given native LOB, registered locally. */
  method NewLob(ip: Interp, namer: Namer, lob: Option<Ref>) returns (l: Lob)
    modifies namer, ip`lobs
    ensures fresh(l) && namer.counter == old(namer.counter) + 1
    ensures l.name == LobPrefix + Digits(namer.counter) && l.lob == lob && l.msg == ZeroMsg
    ensures ip.lobs == old(ip.lobs)[l.name := l]
  {
    var name := namer.NewHandleName(LobPrefix);
    l := new Lob.Zeroed(name);
    l.lob := lob;
    ip.lobs := ip.lobs[name := l];
  }

  /** Oradpi_LookupLob */
  function LookupLob(ip: Interp, name: string): (l: Lob?)
    reads ip
    ensures l != null <==> name in ip.lobs
    ensures l != null ==> l == ip.lobs[name]
  {
    if name in ip.lobs then ip.lobs[name] else null
  }

  /** Oradpi_FreeLob: close and release the native LOB, if any. */
  method FreeLob(l: Lob, drv: Driver)
    modifies l`lob, drv`refs, drv`closed
    ensures l.lob == None
    ensures drv.closed == old(drv.closed) + Present(old(l.lob))
    ensures drv.refs == ReleasedAll(old(drv.refs), Present(old(l.lob)))
  {
    if l.lob.Some? {
      drv.Close(l.lob.value);
      drv.Release(l.lob.value);
      l.lob := None;
    }
  }
}
