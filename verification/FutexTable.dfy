/**
 The two reference-counted tables of `kernel/futex.go` and the four operations
 that register and deregister a waiter.

 A channel is named by the order in which it was made: channel `c` is the
 `c`-th one, and `made[c]` is the address or the mask it was made for.
 */
module FutexTable {
  import opened Machine

  type Addr = u64
  type Mask = u32
  type Chan = nat

  /** `a & b != 0`: some bit is set in both masks. */
  predicate Meets(a: Mask, b: Mask)
    decreases a
  {
    a != 0 && b != 0 && ((a % 2 == 1 && b % 2 == 1) || Meets(a / 2, b / 2))
  }

  /** Some bit is set in both masks, bit by bit. */
  predicate ShareBit(a: Mask, b: Mask) {
    exists k :: 0 <= k < 32 && Bit(a, k) && Bit(b, k)
  }

  lemma {:induction false} MeetsBelow(a: Mask, b: Mask, n: nat)
    requires a < Pow2(n)
    ensures Meets(a, b) <==> exists k :: 0 <= k < n && Bit(a, k) && Bit(b, k)
    decreases n
  {
    if n > 0 {
      MeetsBelow(a / 2, b / 2, n - 1);
      if k :| 0 <= k < n && Bit(a, k) && Bit(b, k) {
        if k > 0 {
          NotZero(a, k);
          NotZero(b, k);
          assert Bit(a / 2, k - 1) && Bit(b / 2, k - 1);
        }
      }
      if k :| 0 <= k < n - 1 && Bit(a / 2, k) && Bit(b / 2, k) {
        assert Bit(a, k + 1) && Bit(b, k + 1);
      }
      if a % 2 == 1 && b % 2 == 1 {
        assert Bit(a, 0) && Bit(b, 0);
      }
    }
  }

  lemma {:induction false} NotZero(a: Mask, k: nat)
    requires Bit(a, k)
    ensures a != 0
  {
    if k > 0 {
      NotZero(a / 2, k - 1);
    }
  }

  /** The test that the code makes is the one for a common bit. */
  lemma MeetsBits(a: Mask, b: Mask)
    ensures Meets(a, b) <==> ShareBit(a, b)
  {
    assert Pow2(8) == 0x100 && Pow2(16) == 0x1_0000 && Pow2(24) == 0x100_0000 && Pow2(32) == TWO32;
    MeetsBelow(a, b, 32);
  }

  /** What a channel was made for: a futex word, or a wake-up mask. */
  datatype Key = AtAddr(addr: Addr) | AtMask(mask: Mask)

  datatype Entry = Entry(ch: Chan, ref: int)

  /** `nilled` says that the destructor has set both maps to nil. */
  datatype Tables = Tables(awaits: map<Addr, Entry>, bits: map<Mask, Entry>, made: seq<Key>, nilled: bool)

  const EMPTY := Tables(map[], map[], [], false)

  function AddAddr(tab: Tables, a: Addr): (Tables, Chan) {
    if a in tab.awaits then
      var e := tab.awaits[a];
      (tab.(awaits := tab.awaits[a := e.(ref := e.ref + 1)]), e.ch)
    else
      var c := |tab.made|;
      (tab.(awaits := tab.awaits[a := Entry(c, 1)], made := tab.made + [AtAddr(a)]), c)
  }

  function AddMask(tab: Tables, b: Mask): (Tables, Chan) {
    if b in tab.bits then
      var e := tab.bits[b];
      (tab.(bits := tab.bits[b := e.(ref := e.ref + 1)]), e.ch)
    else
      var c := |tab.made|;
      (tab.(bits := tab.bits[b := Entry(c, 1)], made := tab.made + [AtMask(b)]), c)
  }

  function DelAddr(tab: Tables, a: Addr): Tables {
    if a !in tab.awaits then tab else
    var e := tab.awaits[a];
    if e.ref - 1 <= 0 then tab.(awaits := tab.awaits - {a})
    else tab.(awaits := tab.awaits[a := e.(ref := e.ref - 1)])
  }

  function DelMask(tab: Tables, b: Mask): Tables {
    if b !in tab.bits then tab else
    var e := tab.bits[b];
    if e.ref - 1 <= 0 then tab.(bits := tab.bits - {b})
    else tab.(bits := tab.bits[b := e.(ref := e.ref - 1)])
  }

  function AllChans(tab: Tables): set<Chan> {
    (set a | a in tab.awaits :: tab.awaits[a].ch) + (set b | b in tab.bits :: tab.bits[b].ch)
  }

  predicate MadeFor(made: seq<Key>, c: Chan, k: Key) {
    c < |made| && made[c] == k
  }

  /** Every entry holds a channel that was made for its own key, so no channel has two entries. */
  ghost predicate Labelled(tab: Tables) {
    && (forall a :: a in tab.awaits ==> MadeFor(tab.made, tab.awaits[a].ch, AtAddr(a)))
    && (forall b :: b in tab.bits ==> MadeFor(tab.made, tab.bits[b].ch, AtMask(b)))
  }

  lemma LabelledAddAddr(tab: Tables, a: Addr)
    requires Labelled(tab)
    ensures Labelled(AddAddr(tab, a).0)
  {
  }

  lemma LabelledAddMask(tab: Tables, b: Mask)
    requires Labelled(tab)
    ensures Labelled(AddMask(tab, b).0)
  {
  }

  datatype Added = Added(ch: Chan) | AddPanic
  datatype AddedBoth = AddedBoth(ch1: Chan, ch2: Chan) | PanicBoth

  /** An entry object: `ref` is updated in place; the channel, and the key it was made for, never change. */
  class Await {
    const ch: Chan
    ghost const key: Key
    var ref: int

    constructor (ch: Chan, ghost key: Key)
      ensures this.ch == ch && this.key == key && ref == 1
    {
      this.ch, this.key, ref := ch, key, 1;
    }
  }

  /** The futex object itself. Every method runs under the lock, so it is one step of the protocol. */
  class Futex {
    var awaits: map<Addr, Await>
    var bitAwaits: map<Mask, Await>
    var nilled: bool
    var made: seq<Key>
    var closed: set<Chan>
    ghost var Repr: set<Await>
    ghost var tab: Tables  // the tables as values

    /** The entry object belongs to key `k`, shows as `e` and holds an open channel made for `k`. */
    ghost predicate Shows(o: Await, k: Key, e: Entry)
      reads this, Repr
    {
      o in Repr && o.key == k && e == Entry(o.ch, o.ref) && MadeFor(made, o.ch, k) && o.ch !in closed
    }

    ghost predicate Valid()
      reads this, Repr
    {
      && awaits.Keys == tab.awaits.Keys
      && bitAwaits.Keys == tab.bits.Keys
      && (forall a :: a in awaits ==> Shows(awaits[a], AtAddr(a), tab.awaits[a]))
      && (forall b :: b in bitAwaits ==> Shows(bitAwaits[b], AtMask(b), tab.bits[b]))
      && made == tab.made
      && nilled == tab.nilled
      && (forall c :: c in closed ==> c < |made|)
      && (nilled ==> awaits == map[] && bitAwaits == map[])
    }

    constructor ()
      ensures Valid() && tab == EMPTY && closed == {} && fresh(Repr)
    {
      awaits, bitAwaits, nilled, made, closed, Repr, tab := map[], map[], false, [], {}, {}, EMPTY;
    }

    /** `getAwait` */
    method GetAwait(a: Addr) returns (found: bool, ch: Chan)
      requires Valid()
      ensures found <==> a in tab.awaits
      ensures found ==> ch == tab.awaits[a].ch
    {
      if a in awaits {
        return true, awaits[a].ch;
      }
      return false, 0;
    }

    method InsertAddr(a: Addr) returns (r: Added)
      requires Valid() && a !in awaits && !nilled
      modifies this
      ensures Valid() && fresh(Repr - old(Repr)) && closed == old(closed)
      ensures r.Added? && (tab, r.ch) == AddAddr(old(tab), a)
    {
      var await := new Await(|made|, AtAddr(a));
      Repr := Repr + {await};
      made := made + [AtAddr(a)];
      awaits := awaits[a := await];
      r := Added(await.ch);
      tab := AddAddr(tab, a).0;
      assert Shows(await, AtAddr(a), tab.awaits[a]);
      forall x | x in awaits ensures Shows(awaits[x], AtAddr(x), tab.awaits[x]) {
        if x != a {
          assert old(Shows(awaits[x], AtAddr(x), tab.awaits[x]));
        }
      }
      forall b | b in bitAwaits ensures Shows(bitAwaits[b], AtMask(b), tab.bits[b]) {
        assert old(Shows(bitAwaits[b], AtMask(b), tab.bits[b]));
      }
    }

    /** `addAwait`; writing a new key into the nil map panics. */
    method AddAwait(a: Addr) returns (r: Added)
      requires Valid()
      modifies this, Repr
      ensures Valid() && fresh(Repr - old(Repr)) && closed == old(closed)
      ensures r.AddPanic? <==> old(nilled)
      ensures r.AddPanic? ==> tab == old(tab)
      ensures r.Added? ==> (tab, r.ch) == AddAddr(old(tab), a)
    {
      if a in awaits {
        var await := awaits[a];
        await.ref := await.ref + 1;
        r := Added(await.ch);
        tab := AddAddr(tab, a).0;
      } else if nilled {
        r := AddPanic;
      } else {
        r := InsertAddr(a);
      }
    }

    method InsertMask(b: Mask) returns (r: Added)
      requires Valid() && b !in bitAwaits && !nilled
      modifies this
      ensures Valid() && fresh(Repr - old(Repr)) && closed == old(closed)
      ensures r.Added? && (tab, r.ch) == AddMask(old(tab), b)
    {
      var await := new Await(|made|, AtMask(b));
      Repr := Repr + {await};
      made := made + [AtMask(b)];
      bitAwaits := bitAwaits[b := await];
      r := Added(await.ch);
      tab := AddMask(tab, b).0;
      assert Shows(await, AtMask(b), tab.bits[b]);
      forall a | a in awaits ensures Shows(awaits[a], AtAddr(a), tab.awaits[a]) {
        assert old(Shows(awaits[a], AtAddr(a), tab.awaits[a]));
      }
      forall x | x in bitAwaits ensures Shows(bitAwaits[x], AtMask(x), tab.bits[x]) {
        if x != b {
          assert old(Shows(bitAwaits[x], AtMask(x), tab.bits[x]));
        }
      }
    }

    /** The second half of `addBitAwait`, on the mask table. */
    method AddBit(b: Mask) returns (r: Added)
      requires Valid()
      modifies this, Repr
      ensures Valid() && fresh(Repr - old(Repr)) && closed == old(closed)
      ensures r.AddPanic? <==> old(nilled)
      ensures r.AddPanic? ==> tab == old(tab)
      ensures r.Added? ==> (tab, r.ch) == AddMask(old(tab), b)
    {
      if b in bitAwaits {
        var await := bitAwaits[b];
        await.ref := await.ref + 1;
        r := Added(await.ch);
        tab := AddMask(tab, b).0;
      } else if nilled {
        r := AddPanic;
      } else {
        r := InsertMask(b);
      }
    }

    /** `addBitAwait` registers at the address first and at the mask second. */
    method AddBitAwait(a: Addr, b: Mask) returns (r: AddedBoth)
      requires Valid()
      modifies this, Repr
      ensures Valid() && fresh(Repr - old(Repr)) && closed == old(closed)
      ensures r.PanicBoth? <==> old(nilled)
      ensures r.PanicBoth? ==> tab == old(tab)
      ensures r.AddedBoth? ==>
                var (t1, c1) := AddAddr(old(tab), a);
                (tab, r.ch1, r.ch2) == (AddMask(t1, b).0, c1, AddMask(t1, b).1)
    {
      var r1 := AddAwait(a);
      if r1.AddPanic? {
        return PanicBoth;
      }
      var r2 := AddBit(b);
      r := AddedBoth(r1.ch, r2.ch);
    }

    /** `delAwait`; on a missing key, so also after the destructor, it changes nothing. */
    method DelAwait(a: Addr)
      requires Valid()
      modifies this, Repr
      ensures Valid() && Repr == old(Repr) && closed == old(closed)
      ensures tab == DelAddr(old(tab), a)
    {
      if a in awaits {
        var await := awaits[a];
        await.ref := await.ref - 1;
        if await.ref <= 0 {
          awaits := awaits - {a};
        }
        tab := DelAddr(tab, a);
        forall x | x in awaits ensures Shows(awaits[x], AtAddr(x), tab.awaits[x]) {
          assert old(Shows(awaits[x], AtAddr(x), tab.awaits[x]));
        }
        forall x | x in bitAwaits ensures Shows(bitAwaits[x], AtMask(x), tab.bits[x]) {
          assert old(Shows(bitAwaits[x], AtMask(x), tab.bits[x]));
        }
      }
    }

    /** The second half of `delBitAwait`, on the mask table. */
    method DelBit(b: Mask)
      requires Valid()
      modifies this, Repr
      ensures Valid() && Repr == old(Repr) && closed == old(closed)
      ensures tab == DelMask(old(tab), b)
    {
      if b in bitAwaits {
        var await := bitAwaits[b];
        await.ref := await.ref - 1;
        if await.ref <= 0 {
          bitAwaits := bitAwaits - {b};
        }
        tab := DelMask(tab, b);
        forall x | x in awaits ensures Shows(awaits[x], AtAddr(x), tab.awaits[x]) {
          assert old(Shows(awaits[x], AtAddr(x), tab.awaits[x]));
        }
        forall x | x in bitAwaits ensures Shows(bitAwaits[x], AtMask(x), tab.bits[x]) {
          assert old(Shows(bitAwaits[x], AtMask(x), tab.bits[x]));
        }
      }
    }

    /** `delBitAwait` */
    method DelBitAwait(a: Addr, b: Mask)
      requires Valid()
      modifies this, Repr
      ensures Valid() && Repr == old(Repr) && closed == old(closed)
      ensures tab == DelMask(DelAddr(old(tab), a), b)
    {
      DelAwait(a);
      DelBit(b);
    }

    /** The builtin `close`, which panics on a channel that is closed already. */
    method CloseChan(c: Chan)
      requires c !in closed
      modifies `closed
      ensures closed == old(closed) + {c}
    {
      closed := closed + {c};
    }

    /** The first loop of `dtor`. */
    method CloseAddrs()
      requires Valid()
      modifies `closed
      ensures closed == old(closed) + (set a | a in tab.awaits :: tab.awaits[a].ch)
    {
      var todo := awaits.Keys;
      while todo != {}
        invariant todo <= awaits.Keys
        invariant closed == old(closed) + (set a | a in tab.awaits && a !in todo :: tab.awaits[a].ch)
      {
        var a :| a in todo;
        CloseChan(awaits[a].ch);
        todo := todo - {a};
      }
    }

    /** The second loop of `dtor`. */
    method CloseMasks()
      requires bitAwaits.Keys == tab.bits.Keys
      requires forall b :: b in bitAwaits ==>
                 MadeFor(made, bitAwaits[b].ch, AtMask(b)) && bitAwaits[b].ch == tab.bits[b].ch && bitAwaits[b].ch !in closed
      modifies `closed
      ensures closed == old(closed) + (set b | b in tab.bits :: tab.bits[b].ch)
    {
      var todo := bitAwaits.Keys;
      while todo != {}
        invariant todo <= bitAwaits.Keys
        invariant closed == old(closed) + (set b | b in tab.bits && b !in todo :: tab.bits[b].ch)
      {
        var b :| b in todo;
        CloseChan(bitAwaits[b].ch);
        todo := todo - {b};
      }
    }

    /** Both loops: no channel of one table is a channel of the other, so none is closed twice. */
    method CloseAll()
      requires Valid()
      modifies `closed
      ensures closed == old(closed) + AllChans(tab)
    {
      CloseAddrs();
      forall b | b in bitAwaits
        ensures MadeFor(made, bitAwaits[b].ch, AtMask(b)) && bitAwaits[b].ch == tab.bits[b].ch && bitAwaits[b].ch !in closed
      {
        assert old(Shows(bitAwaits[b], AtMask(b), tab.bits[b]));
        forall a | a in tab.awaits ensures tab.awaits[a].ch != bitAwaits[b].ch {
          assert old(Shows(awaits[a], AtAddr(a), tab.awaits[a]));
        }
      }
      CloseMasks();
    }

    /** `dtor` closes every channel of both tables, each exactly once, and drops the tables. */
    method Dtor()
      requires Valid()
      modifies this
      ensures Valid() && Repr == old(Repr) && closed == old(closed) + AllChans(old(tab))
      ensures tab == old(tab).(awaits := map[], bits := map[], nilled := true)
    {
      CloseAll();
      forall c | c in closed ensures c < |made| {
        StoredMade(c);
      }
      awaits, bitAwaits, nilled := map[], map[], true;
      tab := tab.(awaits := map[], bits := map[], nilled := true);
    }

    /** A channel of a table has been made. */
    twostate lemma StoredMade(c: Chan)
      requires old(Valid()) && tab == old(tab) && made == old(made)
      requires c in old(closed) + AllChans(tab)
      ensures c < |made|
    {
      if a :| a in tab.awaits && tab.awaits[a].ch == c {
        assert old(Shows(awaits[a], AtAddr(a), tab.awaits[a]));
      } else if b :| b in tab.bits && tab.bits[b].ch == c {
        assert old(Shows(bitAwaits[b], AtMask(b), tab.bits[b]));
      }
    }
  }
}
