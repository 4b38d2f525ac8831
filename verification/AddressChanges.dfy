/** The change-stream interpreter behind the IPv4 and IPv6 address subscriptions. Its
    accumulators outlive the records that set them, and an add or a remove fires on
    every record, so what a batch does to the store is not what its records say one by
    one. The calls it fires do not depend on the store; they are computed first. */
module AddressChanges {
  import opened Text
  import opened SysUtil
  import opened Sysrepo
  import opened ObjectStore

  /** The node a record is about, with its value. */
  datatype Leaf =
    | ListEntry
    | Ip(text: string)
    | PrefixLength(len: Byte)
    | Netmask(text: string)
    | OtherNode

  /** One record; `itf` is the interface key in its xpath. */
  datatype Change = Change(oper: Oper, itf: string, oldVal: Option<Leaf>, newVal: Option<Leaf>)

  // ----- the accumulators

  datatype Acc = Acc(
    create: bool, del: bool,
    newAddr: string, newLen: Byte,
    oldAddr: string, oldLen: Byte)

  const START := Acc(false, false, "", 0, "", 0)

  /** The length an IPv4 netmask text stands for; `None` when it does not parse. */
  function MaskLen(c: Codec, text: string): Option<Byte> {
    match c.parse(text)
    case Some(V4(q)) =>
      HostWordBits(q);
      Some(LastOctetBits(q))
    case _ => None
  }

  /** `parse_interface_ipv46_address`; an exception leaves both values as they were. */
  function ParseLeaf(c: Codec, leaf: Option<Leaf>, addr: string, len: Byte): (string, Byte) {
    match leaf
    case Some(ListEntry) => ("", len)
    case Some(Ip(text)) => (text, len)
    case Some(PrefixLength(n)) => (addr, n)
    case Some(Netmask(text)) => (addr, if MaskLen(c, text).Some? then MaskLen(c, text).value else len)
    case _ => (addr, len)
  }

  predicate Throws(c: Codec, leaf: Option<Leaf>) {
    leaf.None? || (leaf.value.Netmask? && MaskLen(c, leaf.value.text).None?)
  }

  function ParseNew(c: Codec, a: Acc, leaf: Option<Leaf>): Acc {
    var (addr, len) := ParseLeaf(c, leaf, a.newAddr, a.newLen);
    a.(newAddr := addr, newLen := len)
  }

  function ParseOld(c: Codec, a: Acc, leaf: Option<Leaf>): Acc {
    var (addr, len) := ParseLeaf(c, leaf, a.oldAddr, a.oldLen);
    a.(oldAddr := addr, oldLen := len)
  }

  function Absorb(c: Codec, a: Acc, ch: Change): Acc {
    match ch.oper
    case Created => ParseNew(c, a.(create := true), ch.newVal)
    case Modified =>
      var a1 := ParseOld(c, a.(create := true, del := true), ch.oldVal);
      if Throws(c, ch.oldVal) then a1 else ParseNew(c, a1, ch.newVal)
    case Deleted => ParseOld(c, a.(del := true), ch.oldVal)
    case Moved => a
  }

  // ----- the calls

  /** One call of `ipv46_config_add_remove`. */
  datatype Call = Call(add: bool, itf: string, ip: string, len: Byte)

  function Fired(a: Acc, itf: string): seq<Call> {
    (if a.del && a.oldAddr != "" then [Call(false, itf, a.oldAddr, a.oldLen)] else [])
    + (if a.create && a.newAddr != "" then [Call(true, itf, a.newAddr, a.newLen)] else [])
  }

  /** All calls of a batch, up to the first record without an interface key. */
  function Calls(c: Codec, a: Acc, chs: seq<Change>): seq<Call>
    decreases |chs|
  {
    if chs == [] || chs[0].itf == "" then []
    else
      var a1 := Absorb(c, a, chs[0]);
      Fired(a1, chs[0].itf) + Calls(c, a1, chs[1..])
  }

  /** `ipv46_config_add_remove`. */
  function Exec(c: Codec, hw: Hw, db: Db, call: Call): (Db, Rc) {
    if !Finds(db, call.itf) then (db, InvalArg)
    else
      match c.parse(call.ip)
      case None => (db, OperationFailed)
      case Some(addr) =>
        var p := RoutePrefix(addr, call.len);
        var k := L3Key(c, call.itf, p);
        if call.add then
          var db1 := Write(db, k, L3(call.itf, p));
          (db1, if hw(db1, k, L3(call.itf, p)) then Ok else OperationFailed)
        else (Remove(db, k), Ok)
  }

  /** The calls one after another; the code of the last one is what remains. */
  function ExecAll(c: Codec, hw: Hw, db: Db, rc: Rc, calls: seq<Call>): (Db, Rc)
    decreases |calls|
  {
    if calls == [] then (db, rc)
    else
      var (db1, rc1) := Exec(c, hw, db, calls[0]);
      ExecAll(c, hw, db1, rc1, calls[1..])
  }

  lemma {:induction false} ExecConcat(c: Codec, hw: Hw, db: Db, rc: Rc, xs: seq<Call>, ys: seq<Call>)
    ensures var r := ExecAll(c, hw, db, rc, xs);
      ExecAll(c, hw, db, rc, xs + ys) == ExecAll(c, hw, r.0, r.1, ys)
    decreases |xs|
  {
    if xs == [] {
      assert xs + ys == ys;
    } else {
      assert (xs + ys)[1..] == xs[1..] + ys;
      var (db1, rc1) := Exec(c, hw, db, xs[0]);
      ExecConcat(c, hw, db1, rc1, xs[1..], ys);
    }
  }

  lemma {:induction false} ExecFired(c: Codec, hw: Hw, db: Db, rc: Rc, a: Acc, itf: string)
    ensures
      var dels, adds := a.del && a.oldAddr != "", a.create && a.newAddr != "";
      var r1 := if dels then Exec(c, hw, db, Call(false, itf, a.oldAddr, a.oldLen)) else (db, rc);
      var r2 := if adds then Exec(c, hw, r1.0, Call(true, itf, a.newAddr, a.newLen)) else r1;
      ExecAll(c, hw, db, rc, Fired(a, itf)) == r2
  {
    var dels, adds := a.del && a.oldAddr != "", a.create && a.newAddr != "";
    var xs := if dels then [Call(false, itf, a.oldAddr, a.oldLen)] else [];
    var ys := if adds then [Call(true, itf, a.newAddr, a.newLen)] else [];
    ExecConcat(c, hw, db, rc, xs, ys);
  }

  lemma {:induction false} CallsStep(c: Codec, hw: Hw, db: Db, rc: Rc, a: Acc, chs: seq<Change>)
    requires chs != [] && chs[0].itf != ""
    ensures var a1 := Absorb(c, a, chs[0]);
      var r := ExecAll(c, hw, db, rc, Fired(a1, chs[0].itf));
      ExecAll(c, hw, db, rc, Calls(c, a, chs)) == ExecAll(c, hw, r.0, r.1, Calls(c, a1, chs[1..]))
  {
    var a1 := Absorb(c, a, chs[0]);
    ExecConcat(c, hw, db, rc, Fired(a1, chs[0].itf), Calls(c, a1, chs[1..]));
  }

  predicate Unkeyed(chs: seq<Change>) {
    exists i :: 0 <= i < |chs| && chs[i].itf == ""
  }

  /** The callback as a whole. */
  function Interpret(c: Codec, hw: Hw, db: Db, event: Event, iter: Rc, chs: seq<Change>): (Db, Rc) {
    if event == Apply then (db, Ok)
    else if iter != Ok then (db, iter)
    else if event == Abort then (db, Ok)
    else
      var (db1, rc) := ExecAll(c, hw, db, Ok, Calls(c, START, chs));
      (db1, if Unkeyed(chs) then OperationFailed else rc)
  }

  method ConfigAddRemove(c: Codec, om: OM, itf: string, addr: string, len: Byte, add: bool)
    returns (rc: Rc)
    modifies om
    ensures var r := Exec(c, om.hw, old(om.store.db), Call(add, itf, addr, len));
      om.store == old(om.store).(db := r.0) && rc == r.1
  {
    if !Finds(om.store.db, itf) {
      return InvalArg;
    }
    var parsed := c.parse(addr);
    if parsed.None? {
      return OperationFailed;
    }
    var l3 := L3(itf, RoutePrefix(parsed.value, len));
    if add {
      var ok := om.WriteObj(L3Key(c, itf, l3.pfx), l3);
      if !ok {
        return OperationFailed;
      }
    } else {
      om.RemoveKey(L3Key(c, itf, l3.pfx));
    }
    return Ok;
  }

  /** `parse_interface_ipv46_address` on its two reference parameters. */
  method ParseAddress(c: Codec, leaf: Option<Leaf>, addr: string, len: Byte)
    returns (addr': string, len': Byte, thrown: bool)
    ensures (addr', len') == ParseLeaf(c, leaf, addr, len)
    ensures thrown == Throws(c, leaf)
  {
    addr', len', thrown := addr, len, false;
    if leaf.None? {
      thrown := true;
      return;
    }
    match leaf.value {
      case ListEntry => addr' := "";
      case Ip(text) => addr' := text;
      case PrefixLength(n) => len' := n;
      case Netmask(text) =>
        match c.parse(text) {
          case Some(V4(q)) => len' := NetmaskToPlen(q);
          case _ => thrown := true;
        }
      case OtherNode =>
    }
  }

  /** What the callback does after each record. */
  method Fire(c: Codec, om: OM, a: Acc, itf: string, before: Rc) returns (rc: Rc)
    modifies om
    ensures var r := ExecAll(c, om.hw, old(om.store.db), before, Fired(a, itf));
      om.store == old(om.store).(db := r.0) && rc == r.1
  {
    ExecFired(c, om.hw, om.store.db, before, a, itf);
    rc := before;
    if a.del && a.oldAddr != "" {
      rc := ConfigAddRemove(c, om, itf, a.oldAddr, a.oldLen, false);
    }
    if a.create && a.newAddr != "" {
      rc := ConfigAddRemove(c, om, itf, a.newAddr, a.newLen, true);
    }
  }

  /** The switch over the operation of one record. */
  method AbsorbRecord(c: Codec, a: Acc, ch: Change) returns (a': Acc)
    ensures a' == Absorb(c, a, ch)
  {
    var create, del, thrown := a.create, a.del, false;
    var newAddr, newLen, oldAddr, oldLen := a.newAddr, a.newLen, a.oldAddr, a.oldLen;
    match ch.oper {
      case Created =>
        create := true;
        newAddr, newLen, thrown := ParseAddress(c, ch.newVal, newAddr, newLen);
      case Modified =>
        create := true;
        del := true;
        oldAddr, oldLen, thrown := ParseAddress(c, ch.oldVal, oldAddr, oldLen);
        if !thrown {
          newAddr, newLen, thrown := ParseAddress(c, ch.newVal, newAddr, newLen);
        }
      case Deleted =>
        del := true;
        oldAddr, oldLen, thrown := ParseAddress(c, ch.oldVal, oldAddr, oldLen);
      case Moved =>
    }
    a' := Acc(create, del, newAddr, newLen, oldAddr, oldLen);
  }

  /** The loop of the callback, up to the first record without an interface key. */
  method RunChanges(c: Codec, om: OM, chs: seq<Change>) returns (rc: Rc)
    modifies om
    ensures var r := ExecAll(c, om.hw, old(om.store.db), Ok, Calls(c, START, chs));
      && om.store == old(om.store).(db := r.0)
      && rc == if Unkeyed(chs) then OperationFailed else r.1
  {
    var a := START;
    rc := Ok;
    ghost var all := ExecAll(c, om.hw, om.store.db, Ok, Calls(c, START, chs));
    var i := 0;
    assert chs[0..] == chs;
    while i < |chs|
      invariant 0 <= i <= |chs|
      invariant om.store == old(om.store).(db := om.store.db)
      invariant forall j :: 0 <= j < i ==> chs[j].itf != ""
      invariant all == ExecAll(c, om.hw, om.store.db, rc, Calls(c, a, chs[i..]))
    {
      if chs[i].itf == "" {
        assert Calls(c, a, chs[i..]) == [];
        return OperationFailed;
      }
      CallsStep(c, om.hw, om.store.db, rc, a, chs[i..]);
      assert chs[i..][1..] == chs[i + 1..];
      a := AbsorbRecord(c, a, chs[i]);
      rc := Fire(c, om, a, chs[i].itf, rc);
      i := i + 1;
    }
  }

  /** `ietf_interface_ipv46_address_change_cb`. */
  method AddressChangeCb(c: Codec, om: OM, event: Event, iter: Rc, chs: seq<Change>)
    returns (rc: Rc)
    modifies om
    ensures var r := Interpret(c, om.hw, old(om.store.db), event, iter, chs);
      om.store == old(om.store).(db := r.0) && rc == r.1
  {
    if event == Apply {
      return Ok;
    }
    if iter != Ok {
      return iter;
    }
    if event == Abort {
      return Ok;
    }
    rc := RunChanges(c, om, chs);
  }
}
