/** Static NAT: the mapping builder, the mapping-table callback, and the mirror of VOM's
    NAT entries that the plugin keeps for itself. */
module NatChanges {
  import opened Text
  import opened SysUtil
  import opened Sysrepo
  import opened ObjectStore

  const UINT32 := 0x1_0000_0000

  type Index = n: nat | n < UINT32

  type Pair = (Addr, Addr)

  type Table = map<Index, Pair>

  // ----- nat_static_builder

  datatype Fields = Fields(
    kind: string,
    internalSrc: Prefix, externalSrc: Prefix,
    internalDest: Prefix, externalDest: Prefix)

  const NO_PREFIX := DefaultPrefix(0)

  const NO_FIELDS := Fields("", NO_PREFIX, NO_PREFIX, NO_PREFIX, NO_PREFIX)

  datatype Setter =
    | Type(text: string)
    | InternalSrc(text: string)
    | ExternalSrc(text: string)
    | InternalDest(text: string)
    | ExternalDest(text: string)

  /** One setter call; `None` is the exception on text that is no prefix. */
  function Set(c: Codec, f: Fields, call: Setter): Option<Fields> {
    if call.Type? then Some(f.(kind := call.text))
    else
      match ParsePrefix(c, call.text)
      case None => None
      case Some(p) =>
        Some(match call
             case InternalSrc(_) => f.(internalSrc := p)
             case ExternalSrc(_) => f.(externalSrc := p)
             case InternalDest(_) => f.(internalDest := p)
             case _ => f.(externalDest := p))
  }

  /** `build` as written, with its tests for empty prefixes. */
  function Build(c: Codec, f: Fields): Option<Pair> {
    if f.kind != "static" then None
    else if !EmptyPrefix(c, f.internalSrc) && !EmptyPrefix(c, f.externalSrc) then
      Some((f.internalSrc.addr, f.externalSrc.addr))
    else if !EmptyPrefix(c, f.internalDest) && !EmptyPrefix(c, f.externalDest) then
      Some((f.internalDest.addr, f.externalDest.addr))
    else None
  }

  lemma {:induction false} SourcePair(c: Codec, f: Fields)
    ensures Build(c, f) == if f.kind == "static" then Some((f.internalSrc.addr, f.externalSrc.addr)) else None
  {
    NeverEmpty(c, f.internalSrc);
    NeverEmpty(c, f.externalSrc);
  }

  class NatStaticBuilder {
    var kind: string
    var internalSrc: Prefix
    var externalSrc: Prefix
    var internalDest: Prefix
    var externalDest: Prefix

    ghost function Value(): Fields
      reads this
    {
      Fields(kind, internalSrc, externalSrc, internalDest, externalDest)
    }

    constructor ()
      ensures Value() == NO_FIELDS
    {
      kind := "";
      internalSrc, externalSrc := NO_PREFIX, NO_PREFIX;
      internalDest, externalDest := NO_PREFIX, NO_PREFIX;
    }

    /** Any of the setters; `thrown` when the text is no prefix. */
    method Call(c: Codec, call: Setter) returns (thrown: bool)
      modifies this
      ensures thrown <==> Set(c, old(Value()), call).None?
      ensures Value() == if thrown then old(Value()) else Set(c, old(Value()), call).value
    {
      if call.Type? {
        kind := call.text;
        return false;
      }
      var p := ParsePrefix(c, call.text);
      if p.None? {
        return true;
      }
      if call.InternalSrc? {
        internalSrc := p.value;
      } else if call.ExternalSrc? {
        externalSrc := p.value;
      } else if call.InternalDest? {
        internalDest := p.value;
      } else {
        externalDest := p.value;
      }
      return false;
    }

    /** No test for emptiness ever fires: a static entry pairs the source addresses, set
        or not, and never the destination ones. */
    method BuildPair(c: Codec) returns (r: Option<Pair>)
      ensures r.Some? <==> kind == "static"
      ensures r.Some? ==> r.value == (internalSrc.addr, externalSrc.addr)
    {
      NeverEmpty(c, internalSrc);
      NeverEmpty(c, externalSrc);
      if kind != "static" {
        return None;
      }
      if !EmptyPrefix(c, internalSrc) && !EmptyPrefix(c, externalSrc) {
        return Some((internalSrc.addr, externalSrc.addr));
      } else if !EmptyPrefix(c, internalDest) && !EmptyPrefix(c, externalDest) {
        return Some((internalDest.addr, externalDest.addr));
      } else {
        return None;
      }
    }
  }

  // ----- the builder as documented

  /** Which prefixes have been set, and to what. */
  datatype Given = Given(
    kind: string,
    internalSrc: Option<Prefix>, externalSrc: Option<Prefix>,
    internalDest: Option<Prefix>, externalDest: Option<Prefix>)

  function Record(c: Codec, g: Given, call: Setter): Given {
    match call
    case Type(text) => g.(kind := text)
    case InternalSrc(text) => g.(internalSrc := ParsePrefix(c, text))
    case ExternalSrc(text) => g.(externalSrc := ParsePrefix(c, text))
    case InternalDest(text) => g.(internalDest := ParsePrefix(c, text))
    case ExternalDest(text) => g.(externalDest := ParsePrefix(c, text))
  }

  /** The pairing the comment above the class describes: two source prefixes, or else two
      destination prefixes, or else nothing. */
  function Documented(g: Given): Option<Pair> {
    if g.kind != "static" then None
    else if g.internalSrc.Some? && g.externalSrc.Some? then
      Some((g.internalSrc.value.addr, g.externalSrc.value.addr))
    else if g.internalDest.Some? && g.externalDest.Some? then
      Some((g.internalDest.value.addr, g.externalDest.value.addr))
    else None
  }

  function SetAll(c: Codec, f: Fields, calls: seq<Setter>): Option<Fields>
    decreases |calls|
  {
    if calls == [] then Some(f)
    else
      match Set(c, f, calls[0])
      case None => None
      case Some(f1) => SetAll(c, f1, calls[1..])
  }

  function RecordAll(c: Codec, g: Given, calls: seq<Setter>): Given
    decreases |calls|
  {
    if calls == [] then g else RecordAll(c, Record(c, g, calls[0]), calls[1..])
  }

  const NOT_GIVEN := Given("", None, None, None, None)

  function OrDefault(p: Option<Prefix>): Prefix {
    if p.Some? then p.value else NO_PREFIX
  }

  function FieldsOf(g: Given): Fields {
    Fields(g.kind, OrDefault(g.internalSrc), OrDefault(g.externalSrc),
           OrDefault(g.internalDest), OrDefault(g.externalDest))
  }

  lemma {:induction false} SetterHistory(c: Codec, g: Given, calls: seq<Setter>)
    requires SetAll(c, FieldsOf(g), calls).Some?
    ensures SetAll(c, FieldsOf(g), calls).value == FieldsOf(RecordAll(c, g, calls))
    decreases |calls|
  {
    if calls != [] {
      assert Set(c, FieldsOf(g), calls[0]).value == FieldsOf(Record(c, g, calls[0]));
      SetterHistory(c, Record(c, g, calls[0]), calls[1..]);
    }
  }

  /** The empty tests never fire, so `build` always pairs the source prefixes, set or not.
      It agrees with the documentation exactly when the type is not "static", or both
      source prefixes were set, or both destination prefixes were set to the very
      addresses the source members hold (0.0.0.0 where unset). */
  lemma {:induction false} BuildExact(c: Codec, calls: seq<Setter>)
    requires SetAll(c, NO_FIELDS, calls).Some?
    ensures var f, g := SetAll(c, NO_FIELDS, calls).value, RecordAll(c, NOT_GIVEN, calls);
      Build(c, f) == Documented(g)
      <==>
      || g.kind != "static"
      || (g.internalSrc.Some? && g.externalSrc.Some?)
      || (&& g.internalDest.Some? && g.externalDest.Some?
          && g.internalDest.value.addr == OrDefault(g.internalSrc).addr
          && g.externalDest.value.addr == OrDefault(g.externalSrc).addr)
  {
    SetterHistory(c, NOT_GIVEN, calls);
    SourcePair(c, SetAll(c, NO_FIELDS, calls).value);
  }

  // ----- nat_mapping_table_config_cb

  /** The leaf a record is about; only the index of a deletion is read. */
  datatype Leaf = IndexLeaf(index: Index) | Field(setter: Setter) | OtherNode

  datatype Change = Change(oper: Oper, leaf: Leaf)

  datatype Acc = Acc(f: Fields, create: bool, remove: bool, index: Index)

  const START := Acc(NO_FIELDS, false, false, 0)

  /** `Threw` is an exception of a setter, which nothing catches. */
  datatype Progress = Going(a: Acc) | Stop(rc: Rc) | Threw

  function OnRecord(c: Codec, a: Acc, ch: Change): Progress {
    match ch.oper
    case Created =>
      (match ch.leaf
       case IndexLeaf(i) => Going(a.(index := i, create := true))
       case OtherNode => Going(a)
       case Field(setter) =>
         var f := Set(c, a.f, setter);
         if f.Some? then Going(a.(f := f.value)) else Threw)
    case Deleted =>
      if ch.leaf.IndexLeaf? then Going(a.(index := ch.leaf.index, remove := true)) else Going(a)
    case _ => Stop(Unsupported)
  }

  function Loop(c: Codec, a: Acc, chs: seq<Change>): Progress
    decreases |chs|
  {
    if chs == [] then Going(a)
    else
      var p := OnRecord(c, a, chs[0]);
      if p.Going? then Loop(c, p.a, chs[1..]) else p
  }

  datatype Outcome = Return(rc: Rc, db: Db, table: Table) | Thrown

  /** The commit; a write that VPP refuses stays in VOM but not in the mirror. */
  function Finish(c: Codec, hw: Hw, db: Db, table: Table, p: Progress): Outcome {
    match p
    case Threw => Thrown
    case Stop(rc) => Return(rc, db, table)
    case Going(a) =>
      var k := Dec(a.index);
      if a.create then
        match Build(c, a.f)
        case None => Return(InvalArg, db, table)
        case Some(pair) =>
          var o := Nat(pair.0, pair.1);
          var db1 := Write(db, k, o);
          if hw(db1, k, o) then Return(Ok, db1, table[a.index := pair])
          else Return(OperationFailed, db1, table)
      else if a.remove then Return(Ok, Remove(db, k), table - {a.index})
      else Return(Ok, db, table)
  }

  function NatBatch(c: Codec, hw: Hw, db: Db, table: Table, event: Event, iter: Rc, chs: seq<Change>): Outcome {
    if event != Verify then Return(Ok, db, table)
    else if iter != Ok then Return(iter, db, table)
    else Finish(c, hw, db, table, Loop(c, START, chs))
  }

  /** The callback's own static variable. */
  class MappingTable {
    var entries: Table

    constructor ()
      ensures entries == map[]
    {
      entries := map[];
    }
  }

  method NatMappingTableConfigCb(
    c: Codec, om: OM, mirror: MappingTable, event: Event, iter: Rc, chs: seq<Change>)
    returns (rc: Rc, thrown: bool)
    modifies om, mirror
    ensures om.store.attrs == old(om.store.attrs)
    ensures (if thrown then Thrown else Return(rc, om.store.db, mirror.entries))
      == NatBatch(c, om.hw, old(om.store.db), old(mirror.entries), event, iter, chs)
  {
    rc, thrown := Ok, false;
    if event != Verify {
      return;
    }
    if iter != Ok {
      rc := iter;
      return;
    }
    var builder := new NatStaticBuilder();
    var create, remove, index: Index := false, false, 0;
    ghost var all := Loop(c, START, chs);
    var i := 0;
    assert chs[0..] == chs;
    while i < |chs|
      invariant 0 <= i <= |chs| && rc == Ok && !thrown
      invariant fresh(builder)
      invariant om.store == old(om.store) && mirror.entries == old(mirror.entries)
      invariant all == Loop(c, Acc(builder.Value(), create, remove, index), chs[i..])
    {
      var ch := chs[i];
      assert chs[i..][1..] == chs[i + 1..];
      match ch.oper {
        case Created =>
          match ch.leaf {
            case IndexLeaf(n) =>
              index := n;
              create := true;
            case Field(setter) =>
              thrown := builder.Call(c, setter);
              if thrown {
                return;
              }
            case OtherNode =>
          }
        case Deleted =>
          if ch.leaf.IndexLeaf? {
            index := ch.leaf.index;
            remove := true;
          }
        case _ =>
          rc := Unsupported;
          return;
      }
      i := i + 1;
    }
    if create {
      SourcePair(c, builder.Value());
      var pair := builder.BuildPair(c);
      if pair.None? {
        rc := InvalArg;
        return;
      }
      var ok := om.WriteObj(Dec(index), Nat(pair.value.0, pair.value.1));
      if !ok {
        rc := OperationFailed;
        return;
      }
      mirror.entries := mirror.entries[index := pair.value];
    } else if remove {
      om.RemoveKey(Dec(index));
      mirror.entries := mirror.entries - {index};
    }
  }

  // ----- what a batch comes down to

  /** The index in the last record that creates or deletes one. */
  function LastIndex(chs: seq<Change>): Option<Index> {
    if chs == [] then None
    else
      var ch, later := chs[0], LastIndex(chs[1..]);
      if later.Some? then later
      else if ch.leaf.IndexLeaf? && (ch.oper == Created || ch.oper == Deleted) then Some(ch.leaf.index)
      else None
  }

  predicate HasIndex(chs: seq<Change>, oper: Oper) {
    exists i :: 0 <= i < |chs| && chs[i].oper == oper && chs[i].leaf.IndexLeaf?
  }

  /** The setter calls of a batch: its created fields, in order. */
  function Setters(chs: seq<Change>): seq<Setter> {
    if chs == [] then []
    else if chs[0].oper == Created && chs[0].leaf.Field? then [chs[0].leaf.setter] + Setters(chs[1..])
    else Setters(chs[1..])
  }

  /** The records before the first that neither creates nor deletes. */
  function SupportedPart(chs: seq<Change>): (pre: seq<Change>)
    ensures pre <= chs
    ensures forall i :: 0 <= i < |pre| ==> pre[i].oper == Created || pre[i].oper == Deleted
    ensures |pre| < |chs| ==> chs[|pre|].oper != Created && chs[|pre|].oper != Deleted
  {
    if chs == [] || (chs[0].oper != Created && chs[0].oper != Deleted) then []
    else [chs[0]] + SupportedPart(chs[1..])
  }

  /** Every setter but that of the type gets text that is a prefix. */
  predicate AllPrefixes(c: Codec, calls: seq<Setter>) {
    forall i :: 0 <= i < |calls| ==> calls[i].Type? || ParsePrefix(c, calls[i].text).Some?
  }

  datatype Which = OfType | OfInternalSrc | OfExternalSrc

  predicate Sets(call: Setter, which: Which) {
    match which
    case OfType => call.Type?
    case OfInternalSrc => call.InternalSrc?
    case OfExternalSrc => call.ExternalSrc?
  }

  /** The text of the last call of one setter. */
  function LastSet(calls: seq<Setter>, which: Which): Option<string> {
    if calls == [] then None
    else if Sets(calls[|calls| - 1], which) then Some(calls[|calls| - 1].text)
    else LastSet(calls[..|calls| - 1], which)
  }

  /** The address set last, 0.0.0.0 if none was. */
  function AddrOr0(c: Codec, text: Option<string>): Addr {
    if text.Some? && ParsePrefix(c, text.value).Some? then ParsePrefix(c, text.value).value.addr
    else V4(Quad(0, 0, 0, 0))
  }

  /** The pair that some setter calls make for: of the two source addresses given last, if
      the type given last is "static". */
  function PairOf(c: Codec, calls: seq<Setter>): Option<Pair> {
    if LastSet(calls, OfType) != Some("static") then None
    else
      Some((AddrOr0(c, LastSet(calls, OfInternalSrc)),
            AddrOr0(c, LastSet(calls, OfExternalSrc))))
  }

  lemma {:induction false} SetAllSnoc(c: Codec, f: Fields, front: seq<Setter>, last: Setter)
    ensures SetAll(c, f, front + [last])
      == match SetAll(c, f, front)
         case None => None
         case Some(f1) => Set(c, f1, last)
    decreases |front|
  {
    var calls := front + [last];
    if front == [] {
      assert calls[1..] == [];
    } else {
      assert calls[1..] == front[1..] + [last];
      match Set(c, f, front[0]) {
        case None =>
        case Some(f1) => SetAllSnoc(c, f1, front[1..], last);
      }
    }
  }

  lemma {:induction false} LastSetSnoc(front: seq<Setter>, last: Setter, which: Which)
    ensures LastSet(front + [last], which) == if Sets(last, which) then Some(last.text) else LastSet(front, which)
  {
    assert (front + [last])[..|front|] == front;
  }

  /** The fields after some setter calls are those given last; a text that is no prefix
      throws. */
  lemma {:induction false} SetAllGives(c: Codec, calls: seq<Setter>)
    ensures SetAll(c, NO_FIELDS, calls).Some? <==> AllPrefixes(c, calls)
    ensures AllPrefixes(c, calls) ==>
      var f := SetAll(c, NO_FIELDS, calls).value;
      && f.kind == (match LastSet(calls, OfType) case Some(text) => text case None => "")
      && f.internalSrc.addr == AddrOr0(c, LastSet(calls, OfInternalSrc))
      && f.externalSrc.addr == AddrOr0(c, LastSet(calls, OfExternalSrc))
    decreases |calls|
  {
    if calls != [] {
      var front, last := calls[..|calls| - 1], calls[|calls| - 1];
      assert calls == front + [last];
      SetAllGives(c, front);
      SetAllSnoc(c, NO_FIELDS, front, last);
      LastSetSnoc(front, last, OfType);
      LastSetSnoc(front, last, OfInternalSrc);
      LastSetSnoc(front, last, OfExternalSrc);
      assert AllPrefixes(c, calls) <==> AllPrefixes(c, front) && (last.Type? || ParsePrefix(c, last.text).Some?) by {
        assert forall i :: 0 <= i < |front| ==> calls[i] == front[i];
      }
    }
  }

  lemma {:induction false} PairIsBuilt(c: Codec, calls: seq<Setter>)
    requires AllPrefixes(c, calls)
    ensures SetAll(c, NO_FIELDS, calls).Some?
    ensures Build(c, SetAll(c, NO_FIELDS, calls).value) == PairOf(c, calls)
  {
    SetAllGives(c, calls);
    SourcePair(c, SetAll(c, NO_FIELDS, calls).value);
  }

  lemma {:induction false} HasFirst(chs: seq<Change>, oper: Oper)
    requires chs != []
    ensures HasIndex(chs, oper) <==> (chs[0].oper == oper && chs[0].leaf.IndexLeaf?) || HasIndex(chs[1..], oper)
  {
    assert chs == [chs[0]] + chs[1..];
  }

  /** The builder has seen all setters, unless one threw or a record came that is not
      supported. */
  lemma {:induction false} LoopBuilds(c: Codec, a: Acc, chs: seq<Change>)
    ensures var p, pre := Loop(c, a, chs), SupportedPart(chs);
      match SetAll(c, a.f, Setters(pre))
      case None => p == Threw
      case Some(f) => if pre == chs then p.Going? && p.a.f == f else p == Stop(Unsupported)
    decreases |chs|
  {
    if SupportedPart(chs) != [] {
      var p := OnRecord(c, a, chs[0]);
      assert SupportedPart(chs)[1..] == SupportedPart(chs[1..]);
      assert SupportedPart(chs) == chs <==> SupportedPart(chs[1..]) == chs[1..];
      if p.Going? {
        LoopBuilds(c, p.a, chs[1..]);
      }
    }
  }

  /** Flags and index at the end of the loop. */
  lemma {:induction false} LoopTracks(c: Codec, a: Acc, chs: seq<Change>)
    requires Loop(c, a, chs).Going?
    ensures var p := Loop(c, a, chs);
      && p.a.create == (a.create || HasIndex(chs, Created))
      && p.a.remove == (a.remove || HasIndex(chs, Deleted))
      && p.a.index == if LastIndex(chs).Some? then LastIndex(chs).value else a.index
    decreases |chs|
  {
    if chs != [] {
      HasFirst(chs, Created);
      HasFirst(chs, Deleted);
      LoopTracks(c, OnRecord(c, a, chs[0]).a, chs[1..]);
    }
  }

  lemma {:induction false} IndexFound(chs: seq<Change>)
    ensures HasIndex(chs, Created) || HasIndex(chs, Deleted) <==> LastIndex(chs).Some?
    decreases |chs|
  {
    if chs != [] {
      HasFirst(chs, Created);
      HasFirst(chs, Deleted);
      IndexFound(chs[1..]);
    }
  }

  /** Every batch, from its records alone. A field that is no prefix ends the process, and a
      record that neither creates nor deletes the batch, whichever comes first, before
      anything is done. Otherwise, however many entries are created and deleted, it comes
      down to one: the index of the last index record, with the fields of all created
      records together, created if any index was, else removed if any was. */
  lemma {:induction false} BatchHandlesLastIndex(c: Codec, hw: Hw, db: Db, table: Table, chs: seq<Change>)
    ensures var r, pre := NatBatch(c, hw, db, table, Verify, Ok, chs), SupportedPart(chs);
      var calls := Setters(pre);
      if !AllPrefixes(c, calls) then r == Thrown
      else if pre != chs then r == Return(Unsupported, db, table)
      else
        match LastIndex(chs)
        case None => r == Return(Ok, db, table)
        case Some(i) =>
          if HasIndex(chs, Created) then Creates(hw, db, table, i, PairOf(c, calls), r)
          else r == Return(Ok, Remove(db, Dec(i)), table - {i})
  {
    var calls := Setters(SupportedPart(chs));
    LoopBuilds(c, START, chs);
    SetAllGives(c, calls);
    IndexFound(chs);
    if Loop(c, START, chs).Going? {
      PairIsBuilt(c, calls);
      LoopTracks(c, START, chs);
    }
  }

  /** Only a verified commit is looked at, and only if its changes can be had. */
  lemma {:induction false} ByEvent(
    c: Codec, hw: Hw, db: Db, table: Table, event: Event, iter: Rc, chs: seq<Change>)
    ensures event != Verify ==> NatBatch(c, hw, db, table, event, iter, chs) == Return(Ok, db, table)
    ensures event == Verify && iter != Ok ==> NatBatch(c, hw, db, table, event, iter, chs) == Return(iter, db, table)
  {
  }

  /** Creating one entry: nothing without a pair; otherwise the object is written, and
      the table follows if VPP accepts it. */
  predicate Creates(hw: Hw, db: Db, table: Table, i: Index, built: Option<Pair>, r: Outcome) {
    match built
    case None => r == Return(InvalArg, db, table)
    case Some(pair) =>
      && r.Return? && r.db == Write(db, Dec(i), Nat(pair.0, pair.1))
      && if Accepted(hw, db, i, pair) then r.rc == Ok && r.table == table[i := pair]
         else r.rc == OperationFailed && r.table == table
  }

  // ----- the mirror

  function NatAt(db: Db, k: string): set<Obj> {
    set o | o in Get(db, k) && o.Nat?
  }

  function EntryFor(table: Table, i: Index): set<Obj> {
    if i in table then {Nat(table[i].0, table[i].1)} else {}
  }

  /** The table has exactly the indices whose key holds a NAT entry, each with that
      entry's addresses. */
  ghost predicate Mirror(db: Db, table: Table) {
    forall i: Index :: NatAt(db, Dec(i)) == EntryFor(table, i)
  }

  /** What a batch will try to create: its last index and the pair its fields make for. */
  function Creation(c: Codec, chs: seq<Change>): Option<(Index, Pair)> {
    if SupportedPart(chs) != chs || !AllPrefixes(c, Setters(chs)) || !HasIndex(chs, Created) then None
    else
      match (LastIndex(chs), PairOf(c, Setters(chs)))
      case (Some(i), Some(pair)) => Some((i, pair))
      case _ => None
  }

  /** VPP takes the entry. */
  predicate Accepted(hw: Hw, db: Db, index: Index, pair: Pair) {
    var o := Nat(pair.0, pair.1);
    hw(Write(db, Dec(index), o), Dec(index), o)
  }

  /** A creation is harmless to the mirror when it repeats an entry, or makes a fresh one
      that VPP accepts. */
  predicate KeepsMirror(c: Codec, hw: Hw, db: Db, table: Table, chs: seq<Change>) {
    match Creation(c, chs)
    case None => true
    case Some((i, pair)) =>
      if i in table then table[i] == pair else Accepted(hw, db, i, pair)
  }

  lemma {:induction false} NatAtWrite(db: Db, i: Index, o: Obj, j: Index)
    requires o.Nat?
    ensures NatAt(Write(db, Dec(i), o), Dec(j)) == NatAt(db, Dec(j)) + if i == j then {o} else {}
  {
    if Dec(i) == Dec(j) {
      DecInjective(i, j);
    }
  }

  lemma {:induction false} NatAtRemove(db: Db, i: Index, j: Index)
    ensures NatAt(Remove(db, Dec(i)), Dec(j)) == if i == j then {} else NatAt(db, Dec(j))
  {
    if Dec(i) == Dec(j) {
      DecInjective(i, j);
    }
  }

  lemma {:induction false} MirrorRemove(db: Db, table: Table, i: Index)
    requires Mirror(db, table)
    ensures Mirror(Remove(db, Dec(i)), table - {i})
  {
    forall j: Index ensures NatAt(Remove(db, Dec(i)), Dec(j)) == EntryFor(table - {i}, j) {
      NatAtRemove(db, i, j);
    }
  }

  lemma {:induction false} MirrorCreate(db: Db, table: Table, i: Index, pair: Pair, ok: bool)
    requires Mirror(db, table)
    ensures
      var table' := if ok then table[i := pair] else table;
      Mirror(Write(db, Dec(i), Nat(pair.0, pair.1)), table')
      <==> if i in table then table[i] == pair else ok
  {
    var o := Nat(pair.0, pair.1);
    var db' := Write(db, Dec(i), o);
    var table' := if ok then table[i := pair] else table;
    NatAtWrite(db, i, o, i);
    assert NatAt(db, Dec(i)) == EntryFor(table, i);
    assert o in NatAt(db', Dec(i));
    if i in table && table[i] != pair {
      assert Nat(table[i].0, table[i].1) in NatAt(db', Dec(i));
      assert NatAt(db', Dec(i)) != EntryFor(table', i);
    } else if i !in table && !ok {
      assert NatAt(db', Dec(i)) != EntryFor(table', i);
    } else {
      forall j: Index ensures NatAt(db', Dec(j)) == EntryFor(table', j) {
        NatAtWrite(db, i, o, j);
        assert NatAt(db, Dec(j)) == EntryFor(table, j);
      }
    }
  }

  /** From a faithful mirror, a batch leaves a faithful mirror if and only if what it
      creates repeats an entry or is fresh and accepted. */
  lemma {:induction false} MirrorExact(
    c: Codec, hw: Hw, db: Db, table: Table, event: Event, iter: Rc, chs: seq<Change>)
    requires Mirror(db, table)
    requires NatBatch(c, hw, db, table, event, iter, chs).Return?
    ensures var r := NatBatch(c, hw, db, table, event, iter, chs);
      Mirror(r.db, r.table)
      <==> event != Verify || iter != Ok || KeepsMirror(c, hw, db, table, chs)
  {
    if event == Verify && iter == Ok {
      BatchHandlesLastIndex(c, hw, db, table, chs);
      IndexFound(chs);
      if SupportedPart(chs) == chs && LastIndex(chs).Some? {
        var i := LastIndex(chs).value;
        if Creation(c, chs).Some? {
          var pair := Creation(c, chs).value.1;
          MirrorCreate(db, table, i, pair, Accepted(hw, db, i, pair));
        } else if !HasIndex(chs, Created) {
          MirrorRemove(db, table, i);
        }
      }
    }
  }
}
