/**
 * oramsg (cmd_msg.c): reading back a handle's status block, one field by
 * name or all of them as a key/value list.  The handle is resolved as a
 * connection first (which may adopt another interpreter's connection),
 * then as a statement.
 */
module MsgCmd {
  import opened Wrappers
  import opened Tcl
  import opened Native
  import opened Handles
  import opened Directory
  import opened Status
  import opened State

  const MsgUsage: string := "handle option"

  /** The keys "all" lists, in order. */
  const AllKeys: seq<string> := ["rc", "error", "rows", "peo", "ocicode", "sqltype"]

  /** The keys "allx" lists after those of "all". */
  const ExtraKeys: seq<string> := ["fn", "action", "sqlstate", "recoverable", "warning", "offset"]

  /** A text field of the status block; an absent one reads as the empty value. */
  function TextField(f: Option<string>): Value
  {
    if f.Some? then Str(f.value) else Empty
  }

  /** One field of the status block by its option name, none for any other word. */
  function Field(m: Msg, opt: string): Option<Value>
  {
    if opt == "rc" then Some(Int(m.rc))
    else if opt == "error" then Some(TextField(m.error))
    else if opt == "rows" then Some(Int(m.rows))
    else if opt == "peo" then Some(Int(m.peo))
    else if opt == "ocicode" then Some(Int(m.ocicode))
    else if opt == "sqltype" then Some(Int(m.sqltype))
    else if opt == "fn" then Some(TextField(m.fn))
    else if opt == "action" then Some(TextField(m.action))
    else if opt == "sqlstate" then Some(TextField(m.sqlstate))
    else if opt == "recoverable" then Some(Bool(m.recoverable))
    else if opt == "warning" then Some(Bool(m.warning))
    else if opt == "offset" then Some(Int(m.offset))
    else None
  }

  /** The single options are exactly the twelve keys of "allx". */
  lemma FieldNames(m: Msg, opt: string)
    ensures Field(m, opt).Some? <==> opt in AllKeys + ExtraKeys
  {
  }

  /** Key, value, key, value, ... for the given keys. */
  function Pairs(m: Msg, keys: seq<string>): (r: seq<Value>)
    requires forall k :: 0 <= k < |keys| ==> Field(m, keys[k]).Some?
    ensures |r| == 2 * |keys|
  {
    if keys == [] then [] else [Str(keys[0]), Field(m, keys[0]).value] + Pairs(m, keys[1..])
  }

  /** What oramsg answers for an option word: a field, the "all" or "allx" list, or nothing. */
  function Projection(m: Msg, opt: string): Option<Value>
  {
    FieldNames(m, "rc");
    if opt == "all" then Some(List(Pairs(m, AllKeys)))
    else if opt == "allx" then Some(List(Pairs(m, AllKeys + ExtraKeys)))
    else Field(m, opt)
  }

  /** Entry 2k of a pair list is key k and entry 2k + 1 its field. */
  lemma {:induction false} PairsAt(m: Msg, keys: seq<string>, k: nat)
    requires forall q :: 0 <= q < |keys| ==> Field(m, keys[q]).Some?
    requires k < |keys|
    ensures Pairs(m, keys)[2 * k] == Str(keys[k])
    ensures Pairs(m, keys)[2 * k + 1] == Field(m, keys[k]).value
    decreases k
  {
    if k > 0 {
      PairsAt(m, keys[1..], k - 1);
    }
  }

  /** The pairs of two key lists in turn are the pairs of the first followed by those of the second. */
  lemma {:induction false} PairsAppend(m: Msg, a: seq<string>, b: seq<string>)
    requires forall q :: 0 <= q < |a| ==> Field(m, a[q]).Some?
    requires forall q :: 0 <= q < |b| ==> Field(m, b[q]).Some?
    ensures forall q :: 0 <= q < |a + b| ==> Field(m, (a + b)[q]).Some?
    ensures Pairs(m, a + b) == Pairs(m, a) + Pairs(m, b)
    decreases |a|
  {
    assert forall q :: 0 <= q < |a + b| ==> (a + b)[q] == if q < |a| then a[q] else b[q - |a|];
    if a != [] {
      assert (a + b)[1..] == a[1..] + b;
      assert (a + b)[0] == a[0];
      PairsAppend(m, a[1..], b);
      calc {
        Pairs(m, a + b);
        [Str(a[0]), Field(m, a[0]).value] + Pairs(m, a[1..] + b);
        [Str(a[0]), Field(m, a[0]).value] + (Pairs(m, a[1..]) + Pairs(m, b));
        Pairs(m, a) + Pairs(m, b);
      }
    } else {
      assert a + b == b;
    }
  }

  /**
   * "all" lists rc, error, rows, peo, ocicode and sqltype, in that order,
   * each followed by exactly what the option of that name answers.
   */
  lemma AllAgreesWithFields(m: Msg, k: nat)
    requires k < |AllKeys|
    ensures Projection(m, "all").Some? && Projection(m, "all").value.List?
    ensures |Projection(m, "all").value.items| == 12
    ensures Projection(m, "all").value.items[2 * k] == Str(AllKeys[k])
    ensures Some(Projection(m, "all").value.items[2 * k + 1]) == Projection(m, AllKeys[k])
  {
    PairsAt(m, AllKeys, k);
  }

  /**
   * "allx" is the "all" list followed by fn, action, sqlstate, recoverable,
   * warning and offset, each followed by what the option of that name answers.
   */
  lemma AllxExtendsAll(m: Msg, k: nat)
    requires k < |ExtraKeys|
    ensures Projection(m, "allx").Some? && Projection(m, "allx").value.List?
    ensures Projection(m, "allx").value.items == Projection(m, "all").value.items + Pairs(m, ExtraKeys)
    ensures Pairs(m, ExtraKeys)[2 * k] == Str(ExtraKeys[k])
    ensures Some(Pairs(m, ExtraKeys)[2 * k + 1]) == Projection(m, ExtraKeys[k])
  {
    PairsAppend(m, AllKeys, ExtraKeys);
    PairsAt(m, ExtraKeys, k);
  }

  /** The options oramsg refuses: any word other than the twelve keys, "all" and "allx". */
  lemma UnknownOptions(m: Msg, opt: string)
    ensures Projection(m, opt).None? <==> opt !in AllKeys + ExtraKeys + ["all", "allx"]
  {
    FieldNames(m, opt);
  }

  /**
   * Oradpi_Cmd_Msg.  Fewer than three words is a usage error.  The handle
   * is resolved as a connection (LookupConn, which may adopt) and then as
   * a statement; neither gives "invalid handle".  A known option answers
   * from the status block m0 the handle had, leaving it as it was; an
   * unknown one records rc -1 and "unknown option" on the handle.
   */
  method Oramsg(ip: Interp, dir: ConnDirectory, drv: Driver, objv: seq<Value>)
    returns (o: Outcome, ghost h: Option<Handle>, ghost m0: Msg)
    requires |objv| >= 1
    requires dir.Valid() && dir.Safe(drv) && Owned(ip, dir) && Named(ip)
    modifies ip`conns, drv`refs, NamedConn(ip, objv)`msg, NamedStmt(ip, objv)`msg
    ensures Owned(ip, dir) && Named(ip) && ip.stmts == old(ip.stmts)
    ensures |objv| >= 3 ==> Resolved(ip, dir, drv, Text(objv[1]), if h.Some? && h.value.ConnH? then h.value.c else null)
    ensures |objv| < 3 ==> o == WrongArgs(objv, MsgUsage) && h == None && ip.conns == old(ip.conns) && drv.refs == old(drv.refs)
    ensures |objv| >= 3 && h == None ==>
      o == ClientFailure("invalid handle") && Text(objv[1]) !in ip.conns && Text(objv[1]) !in ip.stmts
    ensures |objv| >= 3 && old(Text(objv[1]) in ip.conns && ip.conns[Text(objv[1])].conn.Some?) ==>
      h == Some(ConnH(old(ip.conns[Text(objv[1])]))) && m0 == old(ip.conns[Text(objv[1])].msg)
    ensures h.Some? && h.value.ConnH? ==> Text(objv[1]) in ip.conns && ip.conns[Text(objv[1])] == h.value.c
    ensures h.Some? && h.value.StmtH? ==>
      Text(objv[1]) !in ip.conns && Text(objv[1]) in ip.stmts && h.value.s == ip.stmts[Text(objv[1])] && m0 == old(h.value.s.msg)
    ensures h.Some? ==>
      var answer := Projection(m0, Text(objv[2]));
      if answer.Some? then o == Ok(answer.value) && h.value.Status() == m0
      else o == ClientFailure("unknown option") && h.value.Status() == ClientMsg(m0, -1, "unknown option")
  {
    h, m0 := None, ZeroMsg;
    if |objv| < 3 {
      o := WrongArgs(objv, MsgUsage);
      return;
    }
    var name := Text(objv[1]);
    var b: Handle;
    var co := LookupConn(ip, name, dir, drv);
    if co != null {
      b := ConnH(co);
    } else {
      var s := LookupStmt(ip, name);
      if s == null {
        o := ClientFailure("invalid handle");
        return;
      }
      b := StmtH(s);
    }
    h := Some(b);
    var status := b.Status();
    m0 := status;
    var answer := Projection(status, Text(objv[2]));
    if answer.Some? {
      o := Ok(answer.value);
    } else {
      o := SetError(b, -1, "unknown option");
    }
  }
}
