/** The two interface callbacks: `ietf_interface_create_cb` and
    `oc_interfaces_config_cb`. Each fills a builder from a stream of records and commits
    once at the end. They are modelled separately, record by record, and compared. */
module InterfaceChanges {
  import opened Text
  import opened Sysrepo
  import opened ObjectStore

  /** The value of a type leaf: "iana-if-type:ethernetCsmacd" or some other identity. */
  datatype Identity = EthernetCsmacd | OtherIdentity(text: string)

  /** The leaf a record is about, with its value (the old one in a deletion). */
  datatype Leaf = Name(text: string) | Type(identity: Identity) | AdminUp(up: bool) | OtherNode

  /** One record; `key` is the interface key in its xpath. */
  datatype Change = Change(oper: Oper, key: string, leaf: Leaf)

  // ----- the builder

  datatype Fields = Fields(name: string, kind: Kind, up: bool)

  function WithType(f: Fields, t: Identity): Fields {
    if t == EthernetCsmacd then f.(kind := Ethernet) else f
  }

  function Built(f: Fields): Option<Attrs> {
    if f.name == "" || f.kind == Untyped then None else Some(Attrs(f.kind, f.up))
  }

  /** `interface_builder`; `m_state` is taken to start as false. */
  class InterfaceBuilder {
    var name: string
    var kind: Kind
    var up: bool

    ghost function Value(): Fields
      reads this
    {
      Fields(name, kind, up)
    }

    constructor ()
      ensures Value() == Fields("", Untyped, false)
    {
      name, kind, up := "", Untyped, false;
    }

    method SetName(n: string)
      modifies this
      ensures Value() == old(Value()).(name := n)
    {
      name := n;
    }

    method SetType(t: Identity)
      modifies this
      ensures Value() == WithType(old(Value()), t)
    {
      if t == EthernetCsmacd {
        kind := Ethernet;
      }
    }

    method SetState(enable: bool)
      modifies this
      ensures Value() == old(Value()).(up := enable)
    {
      up := enable;
    }

    method Build() returns (r: Option<Attrs>)
      ensures r == Built(Value())
    {
      if name == "" || kind == Untyped {
        return None;
      }
      return Some(Attrs(kind, up));
    }
  }

  // ----- the loops

  /** Builder and flags; `intf` is the interface last modified. */
  datatype Acc = Acc(b: Fields, create: bool, remove: bool, modified: bool, intf: string)

  const START := Acc(Fields("", Untyped, false), false, false, false, "")

  datatype Progress = Going(a: Acc, s: Store) | Stop(rc: Rc, s: Store) | Crash

  /** `intf->set(state)` on the shared instance. */
  function SetAdmin(s: Store, name: string, up: bool): Store {
    var kind := if name in s.attrs then s.attrs[name].kind else Untyped;
    s.(attrs := s.attrs[name := Attrs(kind, up)])
  }

  function OnCreated(a: Acc, leaf: Leaf): Acc {
    match leaf
    case Name(n) => a.(b := a.b.(name := n), create := true)
    case Type(t) => a.(b := WithType(a.b, t))
    case AdminUp(up) => a.(b := a.b.(up := up))
    case OtherNode => a
  }

  function OnDeleted(a: Acc, leaf: Leaf): Acc {
    if leaf.Name? then a.(b := a.b.(name := leaf.text), remove := true) else a
  }

  function OnModified(a: Acc, s: Store, ch: Change): Progress {
    if !ch.leaf.AdminUp? then Going(a, s)
    else if !Finds(s.db, ch.key) then Stop(OperationFailed, s)
    else Going(a.(modified := true, intf := ch.key), SetAdmin(s, ch.key, ch.leaf.up))
  }

  function IetfRecord(a: Acc, s: Store, ch: Change): Progress {
    match ch.oper
    case Modified => OnModified(a, s, ch)
    case Created => Going(OnCreated(a, ch.leaf), s)
    case Deleted => Going(OnDeleted(a, ch.leaf), s)
    case Moved => Stop(Unsupported, s)
  }

  /** A deletion has no new value, and the interface key is read from the new value's
      xpath before anything else. */
  function OcRecord(a: Acc, s: Store, ch: Change): Progress {
    if ch.oper == Deleted then Crash
    else if ch.key == "" then Stop(InvalArg, s)
    else
      match ch.oper
      case Created => Going(OnCreated(a, ch.leaf), s)
      case Modified => OnModified(a, s, ch)
      case Deleted => Going(OnDeleted(a, ch.leaf), s)
      case Moved => Stop(Unsupported, s)
  }

  function IetfLoop(a: Acc, s: Store, chs: seq<Change>): Progress
    decreases |chs|
  {
    if chs == [] then Going(a, s)
    else
      var p := IetfRecord(a, s, chs[0]);
      if p.Going? then IetfLoop(p.a, p.s, chs[1..]) else p
  }

  function OcLoop(a: Acc, s: Store, chs: seq<Change>): Progress
    decreases |chs|
  {
    if chs == [] then Going(a, s)
    else
      var p := OcRecord(a, s, chs[0]);
      if p.Going? then OcLoop(p.a, p.s, chs[1..]) else p
  }

  // ----- the commit

  datatype Outcome = Return(rc: Rc, s: Store) | Crashed

  function Commit(hw: Hw, s: Store, name: string, attrs: map<string, Attrs>): Outcome {
    var db := Write(s.db, name, Itf(name));
    Return(if hw(db, name, Itf(name)) then Ok else OperationFailed, Store(db, attrs))
  }

  function Finish(hw: Hw, p: Progress): Outcome {
    match p
    case Crash => Crashed
    case Stop(rc, s) => Return(rc, s)
    case Going(a, s) =>
      if a.create then
        match Built(a.b)
        case None => Return(InvalArg, s)
        case Some(attrs) => Commit(hw, s, a.b.name, s.attrs[a.b.name := attrs])
      else if a.modified then Commit(hw, s, a.intf, s.attrs)
      else if a.remove then Return(Ok, s.(db := Remove(s.db, a.b.name)))
      else Return(Ok, s)
  }

  function Ietf(hw: Hw, s: Store, event: Event, iterOk: bool, chs: seq<Change>): Outcome {
    if event != Verify then Return(Ok, s)
    else if !iterOk then Return(OperationFailed, s)
    else Finish(hw, IetfLoop(START, s, chs))
  }

  function Oc(hw: Hw, s: Store, event: Event, iterOk: bool, chs: seq<Change>): Outcome {
    if event != Verify || !iterOk then Return(Ok, s)
    else Finish(hw, OcLoop(START, s, chs))
  }

  // ----- the callbacks

  method CommitInterface(om: OM, name: string, attrs: Option<Attrs>) returns (rc: Rc)
    modifies om
    ensures Return(rc, om.store) == Commit(om.hw, old(om.store), name,
      if attrs.Some? then old(om.store.attrs)[name := attrs.value] else old(om.store.attrs))
  {
    if attrs.Some? {
      om.store := om.store.(attrs := om.store.attrs[name := attrs.value]);
    }
    var ok := om.WriteObj(name, Itf(name));
    rc := if ok then Ok else OperationFailed;
  }

  /** The tail both callbacks share, line for line. */
  method FinishChanges(om: OM, builder: InterfaceBuilder, create: bool, remove: bool, modified: bool, intf: string)
    returns (rc: Rc)
    modifies om
    ensures Return(rc, om.store)
      == Finish(om.hw, Going(Acc(builder.Value(), create, remove, modified, intf), old(om.store)))
  {
    if create {
      var attrs := builder.Build();
      if attrs.None? {
        return InvalArg;
      }
      rc := CommitInterface(om, builder.name, attrs);
    } else if modified {
      rc := CommitInterface(om, intf, None);
    } else if remove {
      om.RemoveKey(builder.name);
      rc := Ok;
    } else {
      rc := Ok;
    }
  }

  /** `ietf_interface_create_cb`. */
  method IetfInterfaceCreateCb(om: OM, event: Event, iterOk: bool, chs: seq<Change>) returns (rc: Rc)
    modifies om
    ensures Return(rc, om.store) == Ietf(om.hw, old(om.store), event, iterOk, chs)
  {
    if event != Verify {
      return Ok;
    }
    if !iterOk {
      return OperationFailed;
    }
    var builder := new InterfaceBuilder();
    var create, remove, modified, intf := false, false, false, "";
    ghost var all := IetfLoop(START, om.store, chs);
    var i := 0;
    assert chs[0..] == chs;
    while i < |chs|
      invariant 0 <= i <= |chs|
      invariant fresh(builder)
      invariant all == IetfLoop(Acc(builder.Value(), create, remove, modified, intf), om.store, chs[i..])
    {
      var ch := chs[i];
      assert chs[i..][1..] == chs[i + 1..];
      match ch.oper {
        case Modified =>
          if ch.leaf.AdminUp? {
            if !Finds(om.store.db, ch.key) {
              return OperationFailed;
            }
            intf := ch.key;
            om.store := SetAdmin(om.store, ch.key, ch.leaf.up);
            modified := true;
          }
        case Created =>
          match ch.leaf {
            case Name(n) =>
              builder.SetName(n);
              create := true;
            case Type(t) => builder.SetType(t);
            case AdminUp(up) => builder.SetState(up);
            case OtherNode =>
          }
        case Deleted =>
          if ch.leaf.Name? {
            builder.SetName(ch.leaf.text);
            remove := true;
          }
        case Moved =>
          return Unsupported;
      }
      i := i + 1;
    }
    rc := FinishChanges(om, builder, create, remove, modified, intf);
  }

  /** `oc_interfaces_config_cb`; `crashed` is the dereference of a missing new value. */
  method OcInterfacesConfigCb(om: OM, event: Event, iterOk: bool, chs: seq<Change>)
    returns (rc: Rc, crashed: bool)
    modifies om
    ensures (if crashed then Crashed else Return(rc, om.store))
      == Oc(om.hw, old(om.store), event, iterOk, chs)
  {
    rc, crashed := Ok, false;
    if event != Verify || !iterOk {
      return;
    }
    var builder := new InterfaceBuilder();
    var create, remove, modified, intf := false, false, false, "";
    ghost var all := OcLoop(START, om.store, chs);
    var i := 0;
    assert chs[0..] == chs;
    while i < |chs|
      invariant 0 <= i <= |chs| && rc == Ok && !crashed
      invariant fresh(builder)
      invariant all == OcLoop(Acc(builder.Value(), create, remove, modified, intf), om.store, chs[i..])
    {
      var ch := chs[i];
      assert chs[i..][1..] == chs[i + 1..];
      if ch.oper == Deleted {
        crashed := true;
        return;
      }
      if ch.key == "" {
        rc := InvalArg;
        return;
      }
      match ch.oper {
        case Created =>
          match ch.leaf {
            case Name(n) =>
              builder.SetName(n);
              create := true;
            case Type(t) => builder.SetType(t);
            case AdminUp(up) => builder.SetState(up);
            case OtherNode =>
          }
        case Modified =>
          if ch.leaf.AdminUp? {
            if !Finds(om.store.db, ch.key) {
              rc := OperationFailed;
              return;
            }
            intf := ch.key;
            om.store := SetAdmin(om.store, ch.key, ch.leaf.up);
            modified := true;
          }
        case _ =>
          rc := Unsupported;
          return;
      }
      i := i + 1;
    }
    rc := FinishChanges(om, builder, create, remove, modified, intf);
  }

  // ----- the two callbacks compared

  /** A record on which both loops give up. The database does not change while they
      run, so this can be told from the database at the start. */
  predicate Stops(db: Db, ch: Change) {
    ch.oper == Moved || (ch.oper == Modified && ch.leaf.AdminUp? && !Finds(db, ch.key))
  }

  /** A deletion comes up before either loop gives up. */
  predicate ReachesDeletion(db: Db, chs: seq<Change>)
    decreases |chs|
  {
    chs != [] && (chs[0].oper == Deleted || (!Stops(db, chs[0]) && ReachesDeletion(db, chs[1..])))
  }

  lemma {:induction false} LoopsAgree(a: Acc, s: Store, chs: seq<Change>)
    requires forall i :: 0 <= i < |chs| ==> chs[i].key != ""
    ensures OcLoop(a, s, chs) == if ReachesDeletion(s.db, chs) then Crash else IetfLoop(a, s, chs)
    ensures !IetfLoop(a, s, chs).Crash?
    decreases |chs|
  {
    if chs != [] {
      assert chs[0].key != "";
      if chs[0].oper == Deleted {
        LoopsAgree(OnDeleted(a, chs[0].leaf), s, chs[1..]);
      } else {
        var p := IetfRecord(a, s, chs[0]);
        if p.Going? {
          LoopsAgree(p.a, p.s, chs[1..]);
        }
      }
    }
  }

  /** The IETF and the OpenConfig callback return the same code and leave the same store,
      early failures included, if and only if no deletion comes up; on a deletion the
      OpenConfig callback dereferences a null value. */
  lemma {:induction false} CallbacksAgree(hw: Hw, s: Store, chs: seq<Change>)
    requires forall i :: 0 <= i < |chs| ==> chs[i].key != ""
    ensures Oc(hw, s, Verify, true, chs) == Ietf(hw, s, Verify, true, chs)
      <==> !ReachesDeletion(s.db, chs)
    ensures ReachesDeletion(s.db, chs) ==> Oc(hw, s, Verify, true, chs) == Crashed
  {
    LoopsAgree(START, s, chs);
  }

  // ----- one commit, one interface

  function Later<T>(later: Option<T>, earlier: Option<T>): Option<T> {
    if later.Some? then later else earlier
  }

  function OrElse<T>(o: Option<T>, default: T): T {
    if o.Some? then o.value else default
  }

  /** The name in the last record that creates or deletes one. */
  function LastName(chs: seq<Change>): Option<string> {
    if chs == [] then None
    else
      var ch := chs[0];
      Later(LastName(chs[1..]),
            if ch.leaf.Name? && (ch.oper == Created || ch.oper == Deleted) then Some(ch.leaf.text) else None)
  }

  /** The state in the last created enabled leaf. */
  function LastUp(chs: seq<Change>): Option<bool> {
    if chs == [] then None
    else
      var ch := chs[0];
      Later(LastUp(chs[1..]), if ch.leaf.AdminUp? && ch.oper == Created then Some(ch.leaf.up) else None)
  }

  /** The interface whose state was changed last. */
  function LastModified(chs: seq<Change>): Option<string> {
    if chs == [] then None
    else
      var ch := chs[0];
      Later(LastModified(chs[1..]), if ch.leaf.AdminUp? && ch.oper == Modified then Some(ch.key) else None)
  }

  /** The last state that one interface was changed to. */
  function LastState(chs: seq<Change>, name: string): Option<bool> {
    if chs == [] then None
    else
      var ch := chs[0];
      Later(LastState(chs[1..], name),
            if ch.leaf.AdminUp? && ch.oper == Modified && ch.key == name then Some(ch.leaf.up) else None)
  }

  predicate CreatesName(chs: seq<Change>) {
    exists i :: 0 <= i < |chs| && chs[i].oper == Created && chs[i].leaf.Name?
  }

  predicate CreatesEthernet(chs: seq<Change>) {
    exists i :: 0 <= i < |chs| && chs[i].oper == Created && chs[i].leaf == Type(EthernetCsmacd)
  }

  predicate DeletesName(chs: seq<Change>) {
    exists i :: 0 <= i < |chs| && chs[i].oper == Deleted && chs[i].leaf.Name?
  }

  predicate NeverStops(db: Db, chs: seq<Change>) {
    forall i :: 0 <= i < |chs| ==> !Stops(db, chs[i])
  }

  lemma {:induction false} HasFirst(chs: seq<Change>)
    requires chs != []
    ensures CreatesName(chs) <==> (chs[0].oper == Created && chs[0].leaf.Name?) || CreatesName(chs[1..])
    ensures CreatesEthernet(chs)
      <==> (chs[0].oper == Created && chs[0].leaf == Type(EthernetCsmacd)) || CreatesEthernet(chs[1..])
    ensures DeletesName(chs) <==> (chs[0].oper == Deleted && chs[0].leaf.Name?) || DeletesName(chs[1..])
  {
    assert chs == [chs[0]] + chs[1..];
  }

  /** What the loop has gathered at the end of a stream on which it does not give up. */
  lemma {:induction false} LoopGathers(a: Acc, s: Store, chs: seq<Change>)
    requires NeverStops(s.db, chs)
    ensures var p := IetfLoop(a, s, chs);
      && p.Going? && p.s.db == s.db
      && p.a.b.name == OrElse(LastName(chs), a.b.name)
      && p.a.b.kind == (if CreatesEthernet(chs) then Ethernet else a.b.kind)
      && p.a.create == (a.create || CreatesName(chs))
      && p.a.remove == (a.remove || DeletesName(chs))
    decreases |chs|
  {
    if chs != [] {
      assert !Stops(s.db, chs[0]);
      var p := IetfRecord(a, s, chs[0]);
      HasFirst(chs);
      LoopGathers(p.a, p.s, chs[1..]);
    }
  }

  lemma {:induction false} LoopGathersStates(a: Acc, s: Store, chs: seq<Change>)
    requires NeverStops(s.db, chs)
    ensures var p := IetfLoop(a, s, chs);
      && p.Going?
      && p.a.b.up == OrElse(LastUp(chs), a.b.up)
      && p.a.intf == OrElse(LastModified(chs), a.intf)
      && p.a.modified == (a.modified || LastModified(chs).Some?)
    decreases |chs|
  {
    if chs != [] {
      assert !Stops(s.db, chs[0]);
      var p := IetfRecord(a, s, chs[0]);
      LoopGathersStates(p.a, p.s, chs[1..]);
    }
  }

  /** The last state given for an interface is on it, and its type is as it was; without
      one it is as it was altogether. */
  predicate StateAfter(s: Store, s': Store, chs: seq<Change>, name: string) {
    match LastState(chs, name)
    case None => (name in s'.attrs <==> name in s.attrs) && (name in s.attrs ==> s'.attrs[name] == s.attrs[name])
    case Some(up) =>
      && name in s'.attrs
      && s'.attrs[name] == Attrs(if name in s.attrs then s.attrs[name].kind else Untyped, up)
  }

  /** ... and what it has set on the way. */
  lemma {:induction false} LoopSets(a: Acc, s: Store, chs: seq<Change>, name: string)
    requires NeverStops(s.db, chs)
    ensures var p := IetfLoop(a, s, chs);
      p.Going? && StateAfter(s, p.s, chs, name)
    decreases |chs|
  {
    if chs != [] {
      assert !Stops(s.db, chs[0]);
      var p := IetfRecord(a, s, chs[0]);
      LoopSets(p.a, p.s, chs[1..], name);
    }
  }

  /** However many interfaces a commit lists, at most one is created: the one whose name
      came last, even if that record was a deletion; and nothing is removed then. Changes
      of state in the same commit are made on all other interfaces. */
  lemma {:induction false} CommitCreatesLastName(hw: Hw, s: Store, chs: seq<Change>)
    requires NeverStops(s.db, chs) && CreatesName(chs)
    ensures var r, n := Ietf(hw, s, Verify, true, chs), OrElse(LastName(chs), "");
      if n == "" || !CreatesEthernet(chs) then
        && r.Return? && r.rc == InvalArg && r.s.db == s.db
        && forall name :: StateAfter(s, r.s, chs, name)
      else
        && r.Return? && r.s.db == Write(s.db, n, Itf(n))
        && r.rc == (if hw(r.s.db, n, Itf(n)) then Ok else OperationFailed)
        && n in r.s.attrs && r.s.attrs[n] == Attrs(Ethernet, OrElse(LastUp(chs), false))
        && forall name :: name != n ==> StateAfter(s, r.s, chs, name)
  {
    LoopGathers(START, s, chs);
    LoopGathersStates(START, s, chs);
    var p := IetfLoop(START, s, chs);
    var r := Ietf(hw, s, Verify, true, chs);
    forall name
      ensures StateAfter(s, p.s, chs, name)
      ensures name != OrElse(LastName(chs), "") ==> StateAfter(s, r.s, chs, name)
    {
      LoopSets(START, s, chs, name);
    }
  }

  /** A commit that only changes states sets, on every interface it names, the last state
      given for it, leaves all others alone, and files the last of them under its name. */
  lemma {:induction false} CommitSetsStates(hw: Hw, s: Store, chs: seq<Change>, name: string)
    requires NeverStops(s.db, chs) && !CreatesName(chs) && LastModified(chs).Some?
    ensures var r, n := Ietf(hw, s, Verify, true, chs), LastModified(chs).value;
      && r.Return? && r.s.db == Write(s.db, n, Itf(n))
      && r.rc == (if hw(r.s.db, n, Itf(n)) then Ok else OperationFailed)
      && StateAfter(s, r.s, chs, name)
  {
    LoopGathers(START, s, chs);
    LoopGathersStates(START, s, chs);
    LoopSets(START, s, chs, name);
  }

  /** Without a creation or a change of state, only the last of the deleted interfaces is
      removed. */
  lemma {:induction false} CommitRemovesLastName(hw: Hw, s: Store, chs: seq<Change>)
    requires NeverStops(s.db, chs) && !CreatesName(chs) && LastModified(chs).None? && DeletesName(chs)
    ensures var r := Ietf(hw, s, Verify, true, chs);
      r.Return? && r.rc == Ok && r.s.db == Remove(s.db, OrElse(LastName(chs), ""))
  {
    LoopGathers(START, s, chs);
    LoopGathersStates(START, s, chs);
  }

  /** Without any of these nothing happens. */
  lemma {:induction false} CommitWithoutEffect(hw: Hw, s: Store, chs: seq<Change>)
    requires NeverStops(s.db, chs) && !CreatesName(chs) && LastModified(chs).None? && !DeletesName(chs)
    ensures Ietf(hw, s, Verify, true, chs) == Return(Ok, s)
  {
    LoopGathers(START, s, chs);
    LoopGathersStates(START, s, chs);
    LoopLeaves(START, s, chs);
  }

  lemma {:induction false} LoopLeaves(a: Acc, s: Store, chs: seq<Change>)
    requires NeverStops(s.db, chs) && LastModified(chs).None?
    ensures IetfLoop(a, s, chs).Going? && IetfLoop(a, s, chs).s == s
    decreases |chs|
  {
    if chs != [] {
      assert !Stops(s.db, chs[0]);
      LoopLeaves(IetfRecord(a, s, chs[0]).a, s, chs[1..]);
    }
  }

  // ----- where a callback gives up

  lemma {:induction false} IetfConcat(a: Acc, s: Store, xs: seq<Change>, ys: seq<Change>)
    ensures IetfLoop(a, s, xs + ys)
      == var p := IetfLoop(a, s, xs); if p.Going? then IetfLoop(p.a, p.s, ys) else p
    decreases |xs|
  {
    if xs == [] {
      assert xs + ys == ys;
    } else {
      assert (xs + ys)[1..] == xs[1..] + ys;
      var p := IetfRecord(a, s, xs[0]);
      if p.Going? {
        IetfConcat(p.a, p.s, xs[1..], ys);
      }
    }
  }

  lemma {:induction false} OcConcat(a: Acc, s: Store, xs: seq<Change>, ys: seq<Change>)
    ensures OcLoop(a, s, xs + ys)
      == var p := OcLoop(a, s, xs); if p.Going? then OcLoop(p.a, p.s, ys) else p
    decreases |xs|
  {
    if xs == [] {
      assert xs + ys == ys;
    } else {
      assert (xs + ys)[1..] == xs[1..] + ys;
      var p := OcRecord(a, s, xs[0]);
      if p.Going? {
        OcConcat(p.a, p.s, xs[1..], ys);
      }
    }
  }

  /** The code a record on which both loops give up leads to. */
  function StopCode(ch: Change): Rc {
    if ch.oper == Moved then Unsupported else OperationFailed
  }

  /** At a moved record, or a change of state of an interface that does not exist, the IETF
      callback gives up: nothing is created or removed, whatever came before, but states
      changed before it stay changed. */
  lemma {:induction false} IetfStops(hw: Hw, s: Store, pre: seq<Change>, ch: Change, rest: seq<Change>, name: string)
    requires NeverStops(s.db, pre) && Stops(s.db, ch)
    ensures var r := Ietf(hw, s, Verify, true, pre + ([ch] + rest));
      r.Return? && r.rc == StopCode(ch) && r.s.db == s.db && StateAfter(s, r.s, pre, name)
  {
    IetfConcat(START, s, pre, [ch] + rest);
    LoopGathers(START, s, pre);
    LoopSets(START, s, pre, name);
  }

  /** A record on which the OpenConfig loop ends. */
  predicate OcEnds(db: Db, ch: Change) {
    ch.oper == Deleted || ch.key == "" || Stops(db, ch)
  }

  /** The OpenConfig callback ends at the first deletion, missing key, moved record or
      change of an unknown interface: it crashes at the first, and returns an error at the
      others, states changed before staying changed. */
  lemma {:induction false} OcStops(hw: Hw, s: Store, pre: seq<Change>, ch: Change, rest: seq<Change>, name: string)
    requires forall i :: 0 <= i < |pre| ==> !OcEnds(s.db, pre[i])
    requires OcEnds(s.db, ch)
    ensures var r := Oc(hw, s, Verify, true, pre + ([ch] + rest));
      if ch.oper == Deleted then r == Crashed
      else
        && r.Return? && r.rc == (if ch.key == "" then InvalArg else StopCode(ch))
        && r.s.db == s.db && StateAfter(s, r.s, pre, name)
  {
    OcConcat(START, s, pre, [ch] + rest);
    NoDeletion(s.db, pre);
    LoopsAgree(START, s, pre);
    LoopGathers(START, s, pre);
    LoopSets(START, s, pre, name);
  }

  lemma {:induction false} NoDeletion(db: Db, chs: seq<Change>)
    requires forall i :: 0 <= i < |chs| ==> chs[i].oper != Deleted
    ensures !ReachesDeletion(db, chs)
    decreases |chs|
  {
    if chs != [] {
      NoDeletion(db, chs[1..]);
    }
  }

  /** The first record on which the OpenConfig loop ends is a deletion. */
  predicate OcDies(db: Db, chs: seq<Change>)
    decreases |chs|
  {
    chs != [] && if OcEnds(db, chs[0]) then chs[0].oper == Deleted else OcDies(db, chs[1..])
  }

  lemma {:induction false} LoopCrashes(a: Acc, s: Store, chs: seq<Change>)
    ensures OcLoop(a, s, chs) == Crash <==> OcDies(s.db, chs)
    ensures IetfLoop(a, s, chs) != Crash
    decreases |chs|
  {
    if chs != [] {
      var p := OcRecord(a, s, chs[0]);
      if p.Going? {
        LoopCrashes(p.a, p.s, chs[1..]);
      }
      var q := IetfRecord(a, s, chs[0]);
      if q.Going? {
        LoopCrashes(q.a, q.s, chs[1..]);
      }
    }
  }

  /** The OpenConfig callback crashes exactly then, and the IETF one never. */
  lemma {:induction false} CrashExact(hw: Hw, s: Store, chs: seq<Change>)
    ensures Oc(hw, s, Verify, true, chs) == Crashed <==> OcDies(s.db, chs)
    ensures Ietf(hw, s, Verify, true, chs) != Crashed
  {
    LoopCrashes(START, s, chs);
  }

  /** Both callbacks look at verified commits only; if the changes cannot be had, one fails
      and the other does not. */
  lemma {:induction false} ByEvent(hw: Hw, s: Store, event: Event, iterOk: bool, chs: seq<Change>)
    ensures event != Verify ==>
      Ietf(hw, s, event, iterOk, chs) == Return(Ok, s) && Oc(hw, s, event, iterOk, chs) == Return(Ok, s)
    ensures event == Verify && !iterOk ==>
      && Ietf(hw, s, event, iterOk, chs) == Return(OperationFailed, s)
      && Oc(hw, s, event, iterOk, chs) == Return(Ok, s)
  {
  }
}
