/** VOM's object manager as the plugins use it: a database from string keys to sets of
    objects, and the attributes of the interface instances those objects share. */
module ObjectStore {
  import opened Text
  import opened SysUtil

  /** An address with the length VOM stores, unmasked. */
  datatype RoutePrefix = RoutePrefix(addr: Addr, len: Byte)

  datatype Obj =
    | Itf(name: string)
    | L3(itf: string, pfx: RoutePrefix)
    | Nat(inside: Addr, outside: Addr)

  type Db = map<string, set<Obj>>

  /** An interface type as the builders spell it: empty, or "ETHERNET". */
  datatype Kind = Untyped | Ethernet

  /** The attributes of an interface instance; all references share one instance. */
  datatype Attrs = Attrs(kind: Kind, up: bool)

  datatype Store = Store(db: Db, attrs: map<string, Attrs>)

  /** Whether VPP takes what `OM::write` pushes, depending on anything it may. */
  type Hw = (Db, string, Obj) -> bool

  function Get(db: Db, k: string): set<Obj> {
    if k in db then db[k] else {}
  }

  /** `OM::write`: the object joins those under the key, and is then pushed to VPP. */
  function Write(db: Db, k: string, o: Obj): Db {
    db[k := Get(db, k) + {o}]
  }

  /** `OM::remove`: the key goes, with everything under it. */
  function Remove(db: Db, k: string): Db {
    db - {k}
  }

  predicate Refers(o: Obj, name: string) {
    (o.Itf? && o.name == name) || (o.L3? && o.itf == name)
  }

  predicate Mentions(objs: set<Obj>, name: string) {
    exists o :: o in objs && Refers(o, name)
  }

  /** `interface::find`: some stored object keeps the interface alive. */
  predicate Finds(db: Db, name: string) {
    exists k :: k in db && Mentions(db[k], name)
  }

  // ----- keys

  function L3Key(c: Codec, itf: string, p: RoutePrefix): string {
    "l3_" + itf + "_" + c.show(p.addr) + "/" + Dec(p.len)
  }

  predicate IsL3Key(k: string) {
    |k| >= 3 && k[..3] == "l3_"
  }

  /** The key under which `OM::populate` files what VPP was already running. */
  const BOOT_KEY := "boot"

  /** Names that cannot be taken for the key of another kind of object. */
  predicate CleanName(name: string) {
    !AllDigits(name) && !IsL3Key(name) && name != BOOT_KEY
  }

  /** What such a key looks like. */
  lemma {:induction false} KeyText(c: Codec)
    requires DottedQuads(c)
    ensures L3Key(c, "eth0", RoutePrefix(V4(Quad(192, 168, 0, 1)), 24)) == "l3_eth0_192.168.0.1/24"
  {
    assert Dec(192) == "192" && Dec(168) == "168" && Dec(24) == "24";
    assert c.show(V4(Quad(192, 168, 0, 1))) == PrintQuad(Quad(192, 168, 0, 1)) == "192.168.0.1";
  }

  /** Two bindings share a key only if they are the same binding, whatever characters
      the interface names hold. */
  lemma {:induction false} L3KeyInjective(c: Codec, itf: string, p: RoutePrefix, itf': string, p': RoutePrefix)
    requires Sound(c)
    requires L3Key(c, itf, p) == L3Key(c, itf', p')
    ensures itf == itf' && p == p'
  {
    var a, a' := c.show(p.addr), c.show(p'.addr);
    var n, n' := Dec(p.len), Dec(p'.len);
    DigitsHave(n, '/');
    DigitsHave(n', '/');
    DigitsHave(n, '_');
    DigitsHave(n', '_');
    var k := L3Key(c, itf, p);
    assert k == ("l3_" + itf) + ['_'] + (a + ['/'] + n);
    assert k == ("l3_" + itf') + ['_'] + (a' + ['/'] + n');
    SplitUnique("l3_" + itf, a + ['/'] + n, "l3_" + itf', a' + ['/'] + n', '_');
    SplitUnique(a, n, a', n', '/');
    DecInjective(p.len, p'.len);
    assert c.parse(a) == Some(p.addr) && c.parse(a') == Some(p'.addr);
    assert ("l3_" + itf)[3..] == itf && ("l3_" + itf')[3..] == itf';
  }

  /** The key under which an interface, a binding and a NAT entry are stored never
      coincide, provided the interface's name is clean. */
  lemma {:induction false} KeysDisjoint(c: Codec, name: string, itf: string, p: RoutePrefix, index: nat)
    ensures IsL3Key(L3Key(c, itf, p))
    ensures !IsL3Key(Dec(index))
    ensures CleanName(name) ==> name != L3Key(c, itf, p) && name != Dec(index)
    ensures BOOT_KEY != L3Key(c, itf, p) && BOOT_KEY != Dec(index)
  {
    assert L3Key(c, itf, p)[..3] == "l3_";
    assert IsDigit(Dec(index)[0]);
    assert !IsDigit('l') && !IsDigit(BOOT_KEY[0]);
  }

  // ----- the shared object manager

  class OM {
    var store: Store
    const hw: Hw

    constructor (hw: Hw)
      ensures store == Store(map[], map[]) && this.hw == hw
    {
      store := Store(map[], map[]);
      this.hw := hw;
    }

    method WriteObj(k: string, o: Obj) returns (ok: bool)
      modifies this
      ensures store == old(store).(db := Write(old(store).db, k, o))
      ensures ok == hw(store.db, k, o)
    {
      store := store.(db := Write(store.db, k, o));
      ok := hw(store.db, k, o);
    }

    method RemoveKey(k: string)
      modifies this
      ensures store == old(store).(db := Remove(old(store).db, k))
    {
      store := store.(db := Remove(store.db, k));
    }
  }
}
