/** The provided-buffer ring: a 16-bit tail over a power of two of slots. */
module BufferRing {
  import opened Words

  // Bytes in one provided buffer.
  const BUF_SIZE: nat := 16 * 1024

  /** What a slot tells the kernel about one buffer. */
  datatype Entry = Entry(addr: nat, len: nat, bid: nat)

  function EntryOf(bid: nat): Entry {
    Entry(bid * BUF_SIZE, BUF_SIZE, bid)
  }

  /** A byte of the pool is in the buffer its position says and in no other; no buffer reaches out of the pool. */
  lemma EveryByteInOneBuffer(bid: nat, at: nat, numBufs: nat)
    ensures var e := EntryOf(bid);
            && (e.addr <= at < e.addr + e.len <==> at / BUF_SIZE == bid)
            && (bid < numBufs ==> e.addr + e.len <= numBufs * BUF_SIZE)
  {
    var q, r := at / BUF_SIZE, at % BUF_SIZE;
    assert at == q * BUF_SIZE + r;
  }

  // ---- the ring as a value ----

  /**
   The kernel consumes slots from `head`, the server publishes up to `tail`; both count without bound.
   `held`: buffers out of the ring, each with the completion that reported it.
   */
  datatype Bufs = Bufs(slots: seq<Entry>, head: nat, tail: nat, held: set<nat>)
  {
    function N(): nat { |slots| }

    ghost predicate Framed() {
      N() > 0 && head <= tail
    }

    /** Buffer ids the kernel may still pick, oldest first. */
    ghost function Window(): seq<nat>
      requires Framed()
    {
      BidsIn(slots, head, tail - head)
    }

    /** Every buffer is exactly once in the window or held, and its slot describes it. */
    ghost predicate Ok() {
      && Framed()
      && multiset(Window()) + multiset(held) == multiset(AllBids(N()))
      && Described(slots, head, tail - head)
    }
  }

  ghost function BidsIn(slots: seq<Entry>, from: nat, count: nat): (bids: seq<nat>)
    requires slots != []
    ensures |bids| == count
    decreases count
  {
    if count == 0 then [] else [slots[from % |slots|].bid] + BidsIn(slots, from + 1, count - 1)
  }

  ghost predicate Described(slots: seq<Entry>, from: nat, count: nat)
    requires slots != []
    decreases count
  {
    count == 0 || (slots[from % |slots|] == EntryOf(slots[from % |slots|].bid) && Described(slots, from + 1, count - 1))
  }

  ghost function AllBids(n: nat): set<nat> {
    if n == 0 then {} else AllBids(n - 1) + {n - 1}
  }

  /** The kernel takes the oldest buffer for a recv. */
  ghost function Picked(b: Bufs): Bufs
    requires b.Framed() && b.head < b.tail
  {
    b.(head := b.head + 1, held := b.held + {b.Window()[0]})
  }

  /** A held buffer is put back at the tail. */
  ghost function Recycled(b: Bufs, bid: nat): Bufs
    requires b.Framed()
  {
    b.(slots := Staged(b.slots, b.tail, bid), tail := b.tail + 1, held := b.held - {bid})
  }

  function Staged(slots: seq<Entry>, tail: nat, bid: nat): seq<Entry>
    requires slots != []
  {
    slots[tail % |slots| := EntryOf(bid)]
  }

  lemma {:induction false} CountBids(n: nat)
    ensures |AllBids(n)| == n
    ensures forall bid: nat :: bid in AllBids(n) <==> bid < n
  {
    if n > 0 { CountBids(n - 1); }
  }

  /** No buffer is lost or made up. */
  lemma Conservation(b: Bufs)
    requires b.Ok()
    ensures (b.tail - b.head) + |b.held| == b.N()
    ensures forall bid: nat :: bid < b.N() <==> (bid in b.Window() || bid in b.held)
    ensures forall bid :: bid in b.held ==> bid !in b.Window()
    ensures forall i, j :: 0 <= i < j < |b.Window()| ==> b.Window()[i] != b.Window()[j]
  {
    CountBids(b.N());
    Conserved(b.Window(), b.held, AllBids(b.N()));
  }

  lemma Conserved(w: seq<nat>, held: set<nat>, bids: set<nat>)
    requires multiset(w) + multiset(held) == multiset(bids)
    ensures |w| + |held| == |bids|
    ensures forall bid: nat :: bid in bids <==> (bid in w || bid in held)
    ensures forall bid :: bid in held ==> bid !in w
    ensures forall i, j :: 0 <= i < j < |w| ==> w[i] != w[j]
  {
    var all := multiset(w) + multiset(held);
    assert |all| == |w| + |held| && |multiset(bids)| == |bids|;
    forall bid: nat ensures bid in bids <==> (bid in w || bid in held) {
      assert bid in multiset(bids) <==> bid in multiset(w) || bid in multiset(held);
      assert bid in w <==> bid in multiset(w);
    }
    forall bid | bid in held ensures bid !in w {
      assert all[bid] <= 1;
    }
    forall i, j | 0 <= i < j < |w| ensures w[i] != w[j] {
      assert all[w[i]] <= 1;
      if w[i] == w[j] { TwiceMeansTwo(w, i, j); }
    }
  }

  lemma TwiceMeansTwo(w: seq<nat>, i: nat, j: nat)
    requires i < j < |w| && w[i] == w[j]
    ensures multiset(w)[w[i]] >= 2
  {
    assert w == w[..i] + [w[i]] + w[i + 1..j] + [w[j]] + w[j + 1..];
  }

  lemma PickKeeps(b: Bufs)
    requires b.Ok() && b.head < b.tail
    ensures var x := b.Window()[0];
            && Picked(b).Ok() && b.Window() == [x] + Picked(b).Window()
            && x !in b.held && x < b.N() && b.slots[b.head % b.N()] == EntryOf(x)
            && Picked(b).N() == b.N()
  {
    Conservation(b);
    var x, rest := b.Window()[0], Picked(b).Window();
    assert b.Window() == [x] + rest;
    hide BidsIn, AllBids;
    assert x in b.Window();
    assert multiset([x] + rest) == multiset{x} + multiset(rest);
  }

  /** The slot written is not one the kernel has still to read. */
  lemma StagesOverConsumed(b: Bufs, bid: nat, i: nat)
    requires b.Ok() && bid in b.held && b.head <= i < b.tail
    ensures b.tail % b.N() != i % b.N()
  {
    Conservation(b);
    assert |b.held| > 0;
    CloseTogether(i, b.tail, b.N());
  }

  lemma CloseTogether(i: nat, t: nat, n: nat)
    requires n > 0 && i < t < i + n
    ensures t % n != i % n
  {
    if t % n == i % n {
      var d := t / n - i / n;
      assert d * n == t - i by { assert t == (t / n) * n + t % n && i == (i / n) * n + i % n; }
      Times(d, n);
      if d > 1 { Times(d - 1, n); }
    }
  }

  lemma RecycleKeeps(b: Bufs, bid: nat)
    requires b.Ok() && bid in b.held
    ensures Recycled(b, bid).Ok() && Recycled(b, bid).Window() == b.Window() + [bid]
    ensures Recycled(b, bid).N() == b.N()
  {
    var c := Recycled(b, bid);
    forall i | b.head <= i < b.tail ensures b.tail % b.N() != i % b.N() {
      StagesOverConsumed(b, bid, i);
    }
    Appended(b.slots, b.head, b.tail - b.head, bid);
    MovedBack(b.Window(), b.held, bid);
    assert c.Window() == BidsIn(c.slots, b.head, (b.tail - b.head) + 1);
    hide BidsIn, AllBids, Described, Staged;
  }

  lemma MovedBack(w: seq<nat>, held: set<nat>, bid: nat)
    requires bid in held
    ensures multiset(w + [bid]) + multiset(held - {bid}) == multiset(w) + multiset(held)
  {
    assert multiset(held) == multiset(held - {bid}) + multiset{bid};
    assert multiset(w + [bid]) == multiset(w) + multiset{bid};
  }

  lemma {:induction false} Appended(slots: seq<Entry>, from: nat, count: nat, bid: nat)
    requires slots != []
    requires forall i :: from <= i < from + count ==> (from + count) % |slots| != i % |slots|
    ensures BidsIn(Staged(slots, from + count, bid), from, count + 1) == BidsIn(slots, from, count) + [bid]
    ensures Described(slots, from, count) ==> Described(Staged(slots, from + count, bid), from, count + 1)
    decreases count
  {
    var s := Staged(slots, from + count, bid);
    if count > 0 {
      assert s[from % |slots|] == slots[from % |slots|];
      Appended(slots, from + 1, count - 1, bid);
      assert (from + 1) + (count - 1) == from + count;
    } else {
      assert BidsIn(s, from + 1, 0) == [];
    }
  }

  // ---- any run of picks and recycles ----

  datatype Move = Pick | Recycle(bid: nat)

  ghost predicate CanMove(b: Bufs, m: Move) {
    b.Ok() && if m.Pick? then b.head < b.tail else m.bid in b.held
  }

  ghost function Moved(b: Bufs, m: Move): Bufs
    requires CanMove(b, m)
  {
    if m.Pick? then Picked(b) else Recycled(b, m.bid)
  }

  ghost predicate CanRun(b: Bufs, moves: seq<Move>)
    decreases |moves|
  {
    moves == [] || (CanMove(b, moves[0]) && CanRun(Moved(b, moves[0]), moves[1..]))
  }

  ghost function After(b: Bufs, moves: seq<Move>): Bufs
    requires CanRun(b, moves)
    decreases |moves|
  {
    if moves == [] then b else After(Moved(b, moves[0]), moves[1..])
  }

  /** Over any run no buffer is lost, doubled or overwritten, however far the tail has wrapped. */
  lemma {:induction false} RunConserves(b: Bufs, moves: seq<Move>)
    requires b.Ok() && CanRun(b, moves)
    ensures After(b, moves).Ok() && After(b, moves).N() == b.N()
    decreases |moves|
  {
    hide Bufs.Ok;
    if moves != [] {
      if moves[0].Pick? { PickKeeps(b); } else { RecycleKeeps(b, moves[0].bid); }
      RunConserves(Moved(b, moves[0]), moves[1..]);
    }
  }

  /** The kernel can tell an empty ring from a full one by the 16-bit tail. */
  lemma WrappedTailIsEnough(b: Bufs)
    requires b.Ok() && b.N() < U16
    ensures (b.tail % U16 - b.head % U16) % U16 == b.tail - b.head
    ensures b.tail % U16 != b.head % U16 <==> b.head < b.tail
  {
    hide Bufs.Ok, BidsIn;
    Conservation(b);
    WrappedDifference(b.head, b.tail);
  }

  lemma WrappedDifference(head: nat, tail: nat)
    requires head <= tail < head + U16
    ensures (tail % U16 - head % U16) % U16 == tail - head
    ensures tail % U16 != head % U16 <==> head < tail
  {
    var q, r := head / U16, head % U16;
    var n := tail - head;
    if r + n < U16 {
      Remainder(tail, U16, q, r + n);
      Remainder(n, U16, 0, n);
    } else {
      Remainder(tail, U16, q + 1, r + n - U16);
      Remainder(n - U16, U16, -1, n);
    }
  }

  // ---- the ring in memory ----

  lemma {:induction false} Pow2Bound(k: nat)
    requires k <= 15
    ensures Pow2(k) <= 0x8000
  {
    Pow2Divides(k, 15);
    var m: nat :| Pow2(15) == m * Pow2(k) && m > 0;
    assert Pow2(15) == 0x8000;
    Times(m, Pow2(k));
  }

  lemma {:induction false} DoublePow2(j: nat, k: nat)
    ensures Pow2(j + k) == Pow2(j) * Pow2(k)
    decreases k
  {
    if k > 0 { DoublePow2(j, k - 1); }
  }

  /** The 16-bit tail masked is the slot of the tail that never wraps, the size being a power of two. */
  lemma SlotOfTail(t: nat, k: nat)
    requires k <= 15
    ensures BitAnd(t % U16, Pow2(k) - 1) == t % Pow2(k)
  {
    MaskIsRemainder(t % U16, k);
    Pow2Divides(k, 16);
    var m: nat :| Pow2(16) == m * Pow2(k) && m > 0;
    assert Pow2(16) == U16 by { assert Pow2(8) == 256; DoublePow2(8, 8); }
    WrapKeepsRemainder(t, Pow2(k), m);
  }

  /** With `bid` in slot `bid` for every buffer and all of them published, the ring is in order. */
  lemma FullRing(b: Bufs)
    requires b.N() > 0 && b.head == 0 && b.tail == b.N() && b.held == {}
    requires forall i :: 0 <= i < b.N() ==> b.slots[i] == EntryOf(i)
    ensures b.Ok()
  {
    hide BidsIn, AllBids, Described;
    CountUp(b.slots, b.N());
    assert b.Window() == BidsIn(b.slots, 0, b.N());
    assert multiset(b.Window()) + multiset(b.held) == multiset(b.Window());
  }

  lemma {:induction false} CountUp(slots: seq<Entry>, n: nat)
    requires slots != [] && n <= |slots|
    requires forall i :: 0 <= i < |slots| ==> slots[i] == EntryOf(i)
    ensures multiset(BidsIn(slots, 0, n)) == multiset(AllBids(n)) && Described(slots, 0, n)
    decreases n
  {
    if n > 0 {
      CountUp(slots, n - 1);
      CountBids(n - 1);
      assert AllBids(n) == AllBids(n - 1) + {n - 1};
      Remainder(n - 1, |slots|, 0, n - 1);
      assert Staged(slots, n - 1, n - 1) == slots;
      forall i | 0 <= i < n - 1 ensures (n - 1) % |slots| != i % |slots| { Remainder(i, |slots|, 0, i); }
      Appended(slots, 0, n - 1, n - 1);
      hide BidsIn, AllBids, Described;
      var before: seq<nat> := BidsIn(slots, 0, n - 1);
      assert BidsIn(slots, 0, n) == before + [n - 1];
    }
  }

  class BufRing {
    const slots: array<Entry>
    const mask: nat
    var localTail: nat
    var published: nat
    ghost const k: nat
    ghost var staged: nat
    var head: nat
    ghost var tail: nat
    ghost var held: set<nat>

    ghost function View(): Bufs
      reads this, slots
    {
      Bufs(slots[..], head, tail, held)
    }

    ghost predicate Sized()
      reads this
    {
      k <= 15 && slots.Length == Pow2(k) && mask == Pow2(k) - 1 && localTail == staged % U16
    }

    ghost predicate Valid()
      reads this, slots
    {
      Sized() && staged == tail && published == tail % U16 && View().Ok()
    }

    /** Every buffer starts in the ring; the tail is published once. */
    constructor (numBufs: nat, ghost k: nat)
      requires k <= 15 && numBufs == Pow2(k)
      ensures Valid() && View().N() == numBufs && held == {} && fresh(slots)
    {
      slots := new Entry[numBufs](_ => EntryOf(0));
      mask := numBufs - 1;
      localTail, published := 0, 0;
      this.k := k;
      staged, head, tail, held := 0, 0, 0, {};
      new;
      Pow2Bound(k);
      for bid := 0 to numBufs
        invariant Sized() && staged == bid && head == 0 && tail == 0 && published == 0 && held == {}
        invariant forall i :: 0 <= i < bid ==> slots[i] == EntryOf(i)
      {
        Stage(bid);
        Remainder(bid, numBufs, 0, bid);
      }
      Commit();
      FullRing(View());
    }

    /** Describe `bid` at the staged tail, without publishing it. */
    method Stage(bid: nat)
      requires Sized()
      modifies this`localTail, this`staged, slots
      ensures Sized() && staged == old(staged) + 1
      ensures slots[..] == Staged(old(slots[..]), old(staged), bid)
    {
      hide BitAnd, Pow2;
      var idx := BitAnd(localTail, mask);
      SlotOfTail(staged, k);
      slots[idx] := Entry(bid * BUF_SIZE, BUF_SIZE, bid);
      localTail := (localTail + 1) % U16;
      staged := staged + 1;
    }

    method Commit()
      requires Sized()
      modifies this`published, this`tail
      ensures Sized() && published == tail % U16 && tail == staged
    {
      published := localTail;
      tail := staged;
    }

    /** Give a held buffer back. */
    method Recycle(bid: nat)
      requires Valid() && bid in held
      modifies this, slots
      ensures Valid() && View() == Recycled(old(View()), bid)
    {
      hide Bufs.Ok, Pow2, BidsIn, Described, AllBids;
      RecycleKeeps(View(), bid);
      Stage(bid);
      held := held - {bid};
      Commit();
    }

    /** The kernel sees only the 16-bit tail that was published. */
    method HasBuffer() returns (yes: bool)
      requires Valid()
      ensures yes <==> head < tail
    {
      hide Bufs.Ok, Pow2;
      Pow2Bound(k);
      WrappedTailIsEnough(View());
      yes := published != head % U16;
    }

    /** What the slot of the next buffer tells the kernel: where it is and how much fits. */
    method Next() returns (e: Entry)
      requires Valid() && head < tail
      ensures e == EntryOf(View().Window()[0])
    {
      hide AllBids;
      PickKeeps(View());
      SlotOfTail(head, k);
      e := slots[BitAnd(head % U16, mask)];
    }

    /** The kernel takes the next buffer; `bid` is what its completion will report. */
    method Take() returns (e: Entry)
      requires Valid() && head < tail
      modifies this`head, this`held
      ensures Valid() && View() == Picked(old(View()))
      ensures e == EntryOf(e.bid) && old(View()).Window()[0] == e.bid && e.bid in held
    {
      PickKeeps(View());
      SlotOfTail(head, k);
      e := slots[BitAnd(head % U16, mask)];
      held := held + {e.bid};
      head := head + 1;
    }
  }
}
