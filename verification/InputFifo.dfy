/**
 The input FIFO between the audio interface and the talker: a ring buffer cut into slots, each of which holds
 one packet of samples with its timestamp and data block count
 (module_avb_audio/src/media_fifos/media_input_fifo.c).
 */
module InputFifo {
  import opened Bytes
  import opened Seqs

  datatype FifoPacket = FifoPacket(ts: uint32, dbc: uint32, samples: seq<uint32>)

  /** What a FIFO holds: complete packets, and the one being filled with its timestamp and block count. */
  datatype FifoState = FifoState(queue: seq<FifoPacket>, partial: seq<uint32>, stamp: uint32, dbc: uint32)

  /** The SYT_INTERVAL of each sample rate; 0 for rates the FIFO does not know. */
  function SytInterval(rate: int): nat {
    if rate == 8000 then 1
    else if rate == 16000 then 2
    else if rate == 32000 || rate == 44100 || rate == 48000 then 8
    else if rate == 88200 || rate == 96000 then 16
    else if rate == 176400 || rate == 192000 then 32
    else 0
  }

  /** The packet being filled is complete and joins the queue; a full round of slots is lost. */
  function Ended(f: FifoState, p: int, slots: nat): FifoState {
    FifoState(if |f.queue| + 1 >= slots then [] else f.queue + [FifoPacket(f.stamp, f.dbc, f.partial)],
              [], f.stamp, Wrap32(f.dbc + p))
  }

  /** A sample pushed into a FIFO of packets of `p` samples and `slots` slots. */
  function Pushed(f: FifoState, p: int, slots: nat, sample: uint32, ts: uint32): FifoState {
    var g := f.(partial := f.partial + [sample], stamp := if f.partial == [] then ts else f.stamp);
    if |g.partial| < p then g else Ended(g, p, slots)
  }

  // ---------- slots ----------

  /** How many packets, with their two words of header, fit before the last word of the buffer. */
  function Slots(size: nat, packetSize: int): nat
    requires size > 0 && packetSize > 0
  {
    (size - 1) / packetSize
  }

  /** Slot `j` lies behind slot `i`, immediately if it is the next one. */
  predicate Behind(bases: seq<int>, i: int, j: int, packetSize: int) {
    0 <= i < j < |bases| ==>
      bases[i] + packetSize <= bases[j] && (j == i + 1 ==> bases[j] == bases[i] + packetSize)
  }

  predicate Inside(bases: seq<int>, i: int, packetSize: int, size: nat) {
    0 <= i < |bases| ==> 0 <= bases[i] && bases[i] + packetSize <= size - 1
  }

  /** Where the slots begin: one behind the other, and no room for another before the last word. */
  ghost predicate Layout(bases: seq<int>, packetSize: int, size: nat) {
    && 3 <= packetSize < size && bases != [] && bases[0] == 0
    && (forall i, j :: Behind(bases, i, j, packetSize))
    && (forall i :: Inside(bases, i, packetSize, size))
    && size - 1 < bases[|bases| - 1] + 2 * packetSize
  }

  function Bases(size: nat, packetSize: int): seq<int>
    requires size > 0 && packetSize > 0
  {
    seq(Slots(size, packetSize), i => i * packetSize)
  }

  lemma BasesLayout(size: nat, packetSize: int)
    requires 3 <= packetSize < size
    ensures Layout(Bases(size, packetSize), packetSize, size)
  {
    var k, bases := Slots(size, packetSize), Bases(size, packetSize);
    SlotCount(size, packetSize);
    forall i, j ensures Behind(bases, i, j, packetSize) {
      if 0 <= i < j < k {
        Multiples(i, j, packetSize);
      }
    }
    forall i ensures Inside(bases, i, packetSize, size) {
      if 0 <= i < k {
        Multiples(-1, i, packetSize);
        Multiples(i, k, packetSize);
      }
    }
  }

  lemma SlotCount(size: nat, packetSize: int)
    requires 3 <= packetSize < size
    ensures var k := Slots(size, packetSize);
            1 <= k && k * packetSize <= size - 1 < (k - 1) * packetSize + 2 * packetSize
  {
    var k := Slots(size, packetSize);
    assert size - 1 == k * packetSize + (size - 1) % packetSize;
    assert (k - 1) * packetSize == k * packetSize - packetSize;
    if k < 1 {
      Multiples(k - 1, 0, packetSize);
    }
  }

  /** Words `at` onward hold packet `x`. */
  predicate Holds(words: seq<uint32>, at: int, x: FifoPacket) {
    && 0 <= at && at + 2 + |x.samples| <= |words|
    && words[at] == x.ts && words[at + 1] == x.dbc
    && forall j :: 0 <= j < |x.samples| ==> x.samples[j] == words[at + 2 + j]
  }

  /** The slots from `r` on hold the queue, in order. */
  predicate HoldsAll(words: seq<uint32>, bases: seq<int>, r: nat, queue: seq<FifoPacket>, packetSize: int) {
    && r < |bases| && |queue| < |bases|
    && forall i :: 0 <= i < |queue| ==> HoldsIn(words, bases, RingAt(r, i, |bases|), queue[i], packetSize)
  }

  predicate HoldsIn(words: seq<uint32>, bases: seq<int>, slot: int, x: FifoPacket, packetSize: int) {
    0 <= slot < |bases| && |x.samples| == packetSize - 2 && Holds(words, bases[slot], x)
  }

  predicate SameOutside(words: seq<uint32>, other: seq<uint32>, from: int, to: int) {
    |words| == |other| && forall k :: 0 <= k < |words| && !(from <= k < to) ==> words[k] == other[k]
  }

  lemma HoldsOutside(words: seq<uint32>, other: seq<uint32>, at: int, x: FifoPacket, from: int, to: int)
    requires Holds(words, at, x) && SameOutside(words, other, from, to)
    requires at + 2 + |x.samples| <= from || to <= at
    ensures Holds(other, at, x)
  {
  }

  /** Writing in the slot behind the queue leaves the queue alone. */
  lemma HoldsAllOutside(words: seq<uint32>, other: seq<uint32>, bases: seq<int>, r: nat, queue: seq<FifoPacket>,
                        packetSize: int, size: nat)
    requires Layout(bases, packetSize, size) && HoldsAll(words, bases, r, queue, packetSize)
    requires var from := bases[RingAt(r, |queue|, |bases|)]; SameOutside(words, other, from, from + packetSize)
    ensures HoldsAll(other, bases, r, queue, packetSize)
  {
    var from := bases[RingAt(r, |queue|, |bases|)];
    var last := RingAt(r, |queue|, |bases|);
    forall i | 0 <= i < |queue| ensures HoldsIn(other, bases, RingAt(r, i, |bases|), queue[i], packetSize) {
      var slot := RingAt(r, i, |bases|);
      assert HoldsIn(words, bases, slot, queue[i], packetSize);
      assert Behind(bases, slot, last, packetSize) && Behind(bases, last, slot, packetSize);
      HoldsOutside(words, other, bases[slot], queue[i], from, from + packetSize);
    }
  }

  /** A packet in the slot behind the queue joins it. */
  lemma HoldsAllSnoc(words: seq<uint32>, bases: seq<int>, r: nat, queue: seq<FifoPacket>, x: FifoPacket,
                     packetSize: int)
    requires HoldsAll(words, bases, r, queue, packetSize) && |queue| + 1 < |bases|
    requires HoldsIn(words, bases, RingAt(r, |queue|, |bases|), x, packetSize)
    ensures HoldsAll(words, bases, r, queue + [x], packetSize)
  {
    forall i | 0 <= i <= |queue|
      ensures HoldsIn(words, bases, RingAt(r, i, |bases|), (queue + [x])[i], packetSize)
    {
      assert i < |queue| ==> HoldsIn(words, bases, RingAt(r, i, |bases|), queue[i], packetSize);
    }
  }

  lemma RingAtNext(r: nat, k: nat, n: nat)
    requires r < n && k < n
    ensures RingAt(r, if k + 1 >= n then 0 else k + 1, n)
            == if k + 1 >= n then r else if RingAt(r, k, n) == n - 1 then 0 else RingAt(r, k, n) + 1
    ensures k + 1 >= n ==> r == if RingAt(r, k, n) == n - 1 then 0 else RingAt(r, k, n) + 1
  {
  }

  /** A packet completed in the slot behind the queue joins it, unless no slot is left; the writer moves on. */
  lemma HoldsOneMore(words: seq<uint32>, bases: seq<int>, packetSize: int, size: nat, r: nat, queue: seq<FifoPacket>,
                     x: FifoPacket, wr: int, kept: seq<FifoPacket>)
    requires Layout(bases, packetSize, size) && HoldsAll(words, bases, r, queue, packetSize)
    requires |x.samples| == packetSize - 2 && wr == bases[RingAt(r, |queue|, |bases|)] + packetSize
    requires Holds(words, bases[RingAt(r, |queue|, |bases|)], x)
    requires kept == if |queue| + 1 >= |bases| then [] else queue + [x]
    ensures HoldsAll(words, bases, r, kept, packetSize)
    ensures bases[RingAt(r, |kept|, |bases|)] == if wr + packetSize > size - 1 then 0 else wr
  {
    var slot := RingAt(r, |queue|, |bases|);
    WrapsAtLastSlot(bases, packetSize, size, slot);
    RingAtNext(r, |queue|, |bases|);
    if |queue| + 1 < |bases| {
      HoldsAllSnoc(words, bases, r, queue, x, packetSize);
    }
  }

  /** The first packet of the queue let go; the reader moves on. */
  lemma HoldsOneLess(words: seq<uint32>, bases: seq<int>, packetSize: int, size: nat, r: nat, queue: seq<FifoPacket>,
                     next: nat)
    requires Layout(bases, packetSize, size) && HoldsAll(words, bases, r, queue, packetSize) && queue != []
    requires next == if r == |bases| - 1 then 0 else r + 1
    ensures HoldsAll(words, bases, next, queue[1..], packetSize)
    ensures RingAt(next, |queue| - 1, |bases|) == RingAt(r, |queue|, |bases|)
    ensures bases[next] == if bases[r] + packetSize + packetSize > size - 1 then 0 else bases[r] + packetSize
  {
    WrapsAtLastSlot(bases, packetSize, size, r);
    forall i | 0 <= i < |queue| - 1 ensures HoldsIn(words, bases, RingAt(next, i, |bases|), queue[1..][i], packetSize) {
      assert HoldsIn(words, bases, RingAt(r, i + 1, |bases|), queue[i + 1], packetSize);
      assert RingAt(next, i, |bases|) == RingAt(r, i + 1, |bases|);
    }
  }

  // ---------- the FIFO ----------

  /** The halves of a FIFO's invariant. */
  datatype Half = Waiting | Arriving

  class MediaInputFifo {
    const buf: array<uint32>
    var rdIndex: int
    var wrIndex: int
    var startIndex: int
    var packetSize: int
    var sampleCountInPacket: int
    var dbc: uint32
    ghost var queue: seq<FifoPacket>
    ghost var partial: seq<uint32>
    ghost var stamp: uint32
    ghost var rdSlot: nat
    ghost var bases: seq<int>

    ghost function Current(): FifoState
      reads this
    {
      FifoState(queue, partial, stamp, dbc)
    }

    /**
     An enabled FIFO: its slots hold the queue in order, and the start of the next packet. The two halves are
     looked at by name, so that a client that only passes a FIFO on never sees into them.
     */
    ghost predicate Valid()
      reads this, buf
    {
      forall half: Half :: Sound(half)
    }

    ghost predicate Sound(half: Half)
      reads this, buf
    {
      match half
      case Waiting => Queued()
      case Arriving => FillsPacket()
    }

    ghost predicate Queued()
      reads this, buf
    {
      && Layout(bases, packetSize, buf.Length) && HoldsAll(buf[..], bases, rdSlot, queue, packetSize)
      && rdIndex == bases[rdSlot] && startIndex == bases[RingAt(rdSlot, |queue|, |bases|)]
    }

    ghost predicate FillsPacket()
      reads this, buf
    {
      && |partial| < packetSize - 2
      && sampleCountInPacket == (if partial == [] then 0 else 2 + |partial|)
      && (partial != [] ==> wrIndex == startIndex + 2 + |partial| && Holds(buf[..], startIndex, Filling()))
    }

    /** The packet being filled, as far as it has come. */
    ghost function Filling(): FifoPacket
      reads this
    {
      FifoPacket(stamp, dbc, partial)
    }

    /** `media_input_fifo_init`. */
    constructor (size: nat)
      ensures sampleCountInPacket == -1 && fresh(buf) && buf.Length == size
    {
      buf := new uint32[size](_ => 0);
      sampleCountInPacket, packetSize := -1, -1;
      rdIndex, wrIndex, startIndex, dbc := 0, 0, 0, 0;
      queue, partial, stamp, rdSlot, bases := [], [], 0, 0, [];
    }

    /** `media_input_fifo_disable`. */
    method Disable()
      modifies this
      ensures sampleCountInPacket == -1
    {
      sampleCountInPacket, packetSize := -1, -1;
    }

    /** `media_input_fifo_enable`: an empty FIFO for the packets of a rate, whose block count starts at 0. */
    method Enable(rate: int) returns (interval: int)
      requires SytInterval(rate) > 0 && buf.Length > SytInterval(rate) + 2
      modifies this
      ensures Valid() && interval == SytInterval(rate) == packetSize - 2
      ensures queue == [] && partial == [] && dbc == 0 && |bases| == Slots(buf.Length, packetSize)
    {
      interval := SytInterval(rate);
      packetSize := interval + 2;
      Flush();
    }

    /** `media_input_fifo_flush`. */
    method Flush()
      requires packetSize >= 3 && buf.Length > packetSize
      modifies this
      ensures Valid() && packetSize == old(packetSize)
      ensures queue == [] && partial == [] && dbc == 0 && |bases| == Slots(buf.Length, packetSize)
    {
      rdIndex, wrIndex, startIndex, dbc, sampleCountInPacket := 0, 0, 0, 0, 0;
      queue, partial, rdSlot, bases := [], [], 0, Bases(buf.Length, packetSize);
      BasesLayout(buf.Length, packetSize);
    }

    /** The space test at the beginning of a packet; the mask is the power of two less one. */
    predicate Rejects()
      reads this
    {
      buf.Length > 0 &&
      var spaceLeft := (rdIndex - startIndex) % buf.Length;
      spaceLeft != 0 && spaceLeft < packetSize
    }

    /** The space test never rejects anything: reader and writer are always whole slots apart. */
    lemma NeverRejects()
      requires Valid()
      ensures !Rejects()
    {
      assert Sound(Waiting);
      var start := RingAt(rdSlot, |queue|, |bases|);
      WholeSlotsApart(bases, packetSize, buf.Length, rdSlot, start);
    }

    /** The queue stands as before, and what there is of the next packet stands behind it. */
    ghost predicate Grown()
      reads this, buf
    {
      forall half: Half :: GrownFor(half)
    }

    ghost predicate GrownFor(half: Half)
      reads this, buf
    {
      match half
      case Waiting => Queued()
      case Arriving => Holds(buf[..], startIndex, Filling())
    }

    /** The first sample of a packet goes in with the timestamp and the block count. */
    method BeginPacket(sample: uint32, ts: uint32)
      requires Valid() && partial == []
      modifies this`wrIndex, this`sampleCountInPacket, this`partial, this`stamp, buf
      ensures Current() == old(Current()).(partial := [sample], stamp := ts)
      ensures sampleCountInPacket == 3 && wrIndex == startIndex + 3
      ensures Grown()
    {
      assert Sound(Waiting) && Sound(Arriving);
      ghost var was := buf[..];
      assert Inside(bases, RingAt(rdSlot, |queue|, |bases|), packetSize, buf.Length);
      wrIndex := startIndex;
      buf[wrIndex] := ts;
      buf[wrIndex + 1] := dbc;
      buf[wrIndex + 2] := sample;
      wrIndex := wrIndex + 3;
      sampleCountInPacket := 3;
      partial, stamp := [sample], ts;
      HoldsAllOutside(was, buf[..], bases, rdSlot, queue, packetSize, buf.Length);
      assert GrownFor(Waiting) && GrownFor(Arriving);
    }

    method ContinuePacket(sample: uint32)
      requires Valid() && partial != []
      modifies this`wrIndex, this`sampleCountInPacket, this`partial, buf
      ensures Current() == old(Current()).(partial := old(partial) + [sample])
      ensures sampleCountInPacket == 2 + |partial|
      ensures wrIndex == startIndex + 2 + |partial|
      ensures Grown()
    {
      assert Sound(Waiting) && Sound(Arriving);
      ghost var was := buf[..];
      assert Inside(bases, RingAt(rdSlot, |queue|, |bases|), packetSize, buf.Length);
      buf[wrIndex] := sample;
      HoldsAllOutside(was, buf[..], bases, rdSlot, queue, packetSize, buf.Length);
      wrIndex := wrIndex + 1;
      sampleCountInPacket := sampleCountInPacket + 1;
      partial := partial + [sample];
      assert GrownFor(Waiting) && GrownFor(Arriving);
    }

    /** The packet is complete: the next one starts in the next slot, which may be the reader's. */
    method EndPacket()
      requires Grown()
      requires |partial| == packetSize - 2 && wrIndex == startIndex + packetSize
      modifies this`wrIndex, this`startIndex, this`dbc, this`sampleCountInPacket, this`queue, this`partial
      ensures Valid() && Current() == Ended(old(Current()), packetSize - 2, |bases|)
    {
      ghost var ended := Ended(Current(), packetSize - 2, |bases|);
      NextStart(ended.queue, wrIndex);
      MoveOn();
      JoinQueue(ended.queue);
      assert Current() == ended;
    }

    /** The packet that ends at `at` joins the queue, which stands in the slots as before; the next start follows. */
    lemma NextStart(kept: seq<FifoPacket>, at: int)
      requires Grown()
      requires |partial| == packetSize - 2 && at == startIndex + packetSize
      requires kept == if |queue| + 1 >= |bases| then [] else queue + [Filling()]
      ensures Standing(kept, if at + packetSize > buf.Length - 1 then 0 else at) && packetSize > 2
    {
      assert GrownFor(Waiting) && GrownFor(Arriving);
      HoldsOneMore(buf[..], bases, packetSize, buf.Length, rdSlot, queue, Filling(), at, kept);
    }

    /** `kept` stands in the slots from the reader's on, and the packet behind it would start at `start`. */
    ghost predicate Standing(kept: seq<FifoPacket>, start: int)
      reads this`bases, this`packetSize, this`rdSlot, this`rdIndex, buf
    {
      forall half: Half :: StandsFor(half, kept, start)
    }

    ghost predicate StandsFor(half: Half, kept: seq<FifoPacket>, start: int)
      reads this`bases, this`packetSize, this`rdSlot, this`rdIndex, buf
    {
      match half
      case Waiting =>
        && Layout(bases, packetSize, buf.Length) && HoldsAll(buf[..], bases, rdSlot, kept, packetSize)
        && rdIndex == bases[rdSlot] && start == bases[RingAt(rdSlot, |kept|, |bases|)]
      case Arriving => true
    }

    /** The queue as it is once a packet is complete, with nothing of the next one there. */
    ghost method JoinQueue(kept: seq<FifoPacket>)
      requires Standing(kept, startIndex) && sampleCountInPacket == 0 && packetSize > 2
      modifies this`queue, this`partial
      ensures Valid() && queue == kept && partial == []
    {
      assert StandsFor(Waiting, kept, startIndex);
      queue, partial := kept, [];
      assert Sound(Waiting);
      assert Sound(Arriving);
    }

    /** The next packet starts behind this one, or at the beginning of the buffer, and counts on from its samples. */
    method MoveOn()
      modifies this`wrIndex, this`startIndex, this`dbc, this`sampleCountInPacket
      ensures wrIndex == startIndex == if old(wrIndex) + packetSize > buf.Length - 1 then 0 else old(wrIndex)
      ensures dbc == Wrap32(old(dbc) + (packetSize - 2)) && sampleCountInPacket == 0
    {
      if wrIndex + packetSize > buf.Length - 1 {
        wrIndex := 0;
      }
      startIndex := wrIndex;
      dbc := Wrap32(dbc + (packetSize - 2));
      sampleCountInPacket := 0;
    }

    /** `media_input_fifo_push_sample`. */
    method PushSample(sample: uint32, ts: uint32)
      requires sampleCountInPacket == -1 || Valid()
      modifies this, buf
      ensures old(sampleCountInPacket) == -1 ==> sampleCountInPacket == -1
      ensures old(sampleCountInPacket) != -1 ==>
        && Valid() && packetSize == old(packetSize) && bases == old(bases)
        && Current() == Pushed(old(Current()), packetSize - 2, |bases|, sample, ts)
    {
      if sampleCountInPacket == -1 {
        return;
      }
      NeverRejects();
      var rejected := sampleCountInPacket == 0 && Rejects();
      if !rejected {
        PushAccepted(sample, ts);
      }
    }

    method PushAccepted(sample: uint32, ts: uint32)
      requires Valid()
      modifies this, buf
      ensures Valid() && packetSize == old(packetSize) && bases == old(bases)
      ensures Current() == Pushed(old(Current()), packetSize - 2, |bases|, sample, ts)
    {
      assert Sound(Waiting) && Sound(Arriving);
      ghost var g := Current().(partial := partial + [sample], stamp := if partial == [] then ts else stamp);
      if sampleCountInPacket == 0 {
        BeginPacket(sample, ts);
      } else {
        ContinuePacket(sample);
      }
      assert Current() == g;
      if sampleCountInPacket == packetSize {
        EndPacket();
      } else {
        assert GrownFor(Waiting) && GrownFor(Arriving);
        assert Sound(Waiting) && Sound(Arriving);
      }
    }

    /** `media_input_fifo_fill_level`: the samples of the complete packets, counted slot by slot. */
    method FillLevel() returns (fill: int)
      requires Valid()
      ensures fill == Product(packetSize - 2, |queue|)
    {
      assert Sound(Waiting);
      var rd := rdIndex;
      fill := 0;
      assert Product(packetSize - 2, 0) == 0;
      ghost var i, slot := 0, rdSlot;
      while rd != startIndex
        invariant i <= |queue| && slot < |bases| && slot == RingAt(rdSlot, i, |bases|) && rd == bases[slot]
        invariant fill == Product(packetSize - 2, i)
        decreases |queue| - i
      {
        WrapsAtLastSlot(bases, packetSize, buf.Length, slot);
        rd := rd + packetSize;
        if rd + packetSize > buf.Length - 1 {
          rd := 0;
        }
        ProductStep(packetSize - 2, i);
        fill := fill + packetSize - 2;
        i, slot := i + 1, if slot == |bases| - 1 then 0 else slot + 1;
      }
      SameBase(bases, packetSize, buf.Length, rdSlot, i, |queue|);
    }

    /** `media_input_fifo_get_packet`, once there is one; the samples follow at the index returned. */
    method GetPacket() returns (src: int, ts: uint32, blockCount: uint32)
      requires Valid() && queue != []
      ensures ts == queue[0].ts && blockCount == queue[0].dbc && |queue[0].samples| == packetSize - 2
      ensures src == rdIndex + 2 && 0 <= src && src + packetSize - 2 <= buf.Length
      ensures buf[src..src + packetSize - 2] == queue[0].samples
    {
      assert Sound(Waiting);
      assert RingAt(rdSlot, 0, |bases|) == rdSlot;
      assert Holds(buf[..], bases[RingAt(rdSlot, 0, |bases|)], queue[0]);
      ts := buf[rdIndex];
      blockCount := buf[rdIndex + 1];
      src := rdIndex + 2;
    }

    /** `media_input_fifo_release_packet`. */
    method ReleasePacket()
      requires Valid() && queue != []
      modifies this`rdIndex, this`rdSlot, this`queue
      ensures Valid() && queue == old(queue[1..])
    {
      assert Sound(Waiting) && Sound(Arriving);
      ghost var next := if rdSlot == |bases| - 1 then 0 else rdSlot + 1;
      HoldsOneLess(buf[..], bases, packetSize, buf.Length, rdSlot, queue, next);
      var rd := rdIndex + packetSize;
      if rd + packetSize > buf.Length - 1 {
        rd := 0;
      }
      rdIndex := rd;
      rdSlot, queue := next, queue[1..];
    }
  }

  function Product(x: int, y: int): int {
    x * y
  }

  lemma ProductStep(x: int, i: int)
    ensures Product(x, i + 1) == Product(x, i) + x
  {
  }

  lemma WholeSlotsApart(bases: seq<int>, packetSize: int, size: nat, a: nat, b: nat)
    requires Layout(bases, packetSize, size) && a < |bases| && b < |bases|
    ensures var space := (bases[a] - bases[b]) % size; space == 0 || space >= packetSize
  {
    assert Behind(bases, a, b, packetSize) && Behind(bases, b, a, packetSize);
    assert Inside(bases, a, packetSize, size) && Inside(bases, b, packetSize, size);
    Modulo(bases[a] - bases[b], size);
  }

  lemma Modulo(x: int, n: int)
    requires -n <= x < n
    ensures n > 0 ==> x % n == if x >= 0 then x else x + n
  {
    if n > 0 {
      if x >= 0 {
        assert x / n == 0 && x == n * (x / n) + x % n;
      } else {
        assert x + n == n * ((x + n) / n) + (x + n) % n;
        assert x == n * (x / n) + x % n;
      }
    }
  }

  /** The wrap test recognises the last slot, and otherwise the next slot follows. */
  lemma WrapsAtLastSlot(bases: seq<int>, packetSize: int, size: nat, slot: nat)
    requires Layout(bases, packetSize, size) && slot < |bases|
    ensures bases[slot] + 2 * packetSize > size - 1 <==> slot == |bases| - 1
    ensures slot < |bases| - 1 ==> bases[slot + 1] == bases[slot] + packetSize
  {
    assert Behind(bases, slot, slot + 1, packetSize) && Behind(bases, slot, |bases| - 1, packetSize);
    assert Inside(bases, slot + 1, packetSize, size);
  }

  /** Walking `i` slots arrives where walking `n` does, fewer than a round, only after `n` slots. */
  lemma SameBase(bases: seq<int>, packetSize: int, size: nat, r: nat, i: nat, n: nat)
    requires Layout(bases, packetSize, size) && r < |bases| && i <= n < |bases|
    requires bases[RingAt(r, i, |bases|)] == bases[RingAt(r, n, |bases|)]
    ensures i == n
  {
    var a, b := RingAt(r, i, |bases|), RingAt(r, n, |bases|);
    assert Behind(bases, a, b, packetSize) && Behind(bases, b, a, packetSize);
  }

  // ---------- over whole runs ----------

  /** A sample and the time it was pushed at. */
  datatype Stamped = Stamped(sample: uint32, ts: uint32)

  datatype Operation = Push(x: Stamped) | Take

  function Samples(xs: seq<Stamped>): seq<uint32> {
    seq(|xs|, i requires 0 <= i < |xs| => xs[i].sample)
  }

  /** A stream cut into groups of `p`: each complete group a packet, and what is left over. */
  datatype Cutting = Cutting(packets: seq<FifoPacket>, rest: seq<Stamped>, dbc: uint32)

  function Cut(xs: seq<Stamped>, p: nat, dbc: uint32): Cutting
    requires p > 0
    decreases |xs|
  {
    if |xs| < p then Cutting([], xs, dbc)
    else
      var c := Cut(xs[p..], p, Wrap32(dbc + p));
      c.(packets := [FifoPacket(xs[0].ts, dbc, Samples(xs[..p]))] + c.packets)
  }

  lemma SamplesSnoc(xs: seq<Stamped>, x: Stamped)
    ensures Samples(xs + [x]) == Samples(xs) + [x.sample]
  {
  }

  /** One more sample either joins the rest or completes a packet. */
  lemma {:induction false} CutSnoc(xs: seq<Stamped>, x: Stamped, p: nat, dbc: uint32)
    requires p > 0
    ensures var c, d := Cut(xs, p, dbc), Cut(xs + [x], p, dbc);
            && |c.rest| < p
            && d == if |c.rest| + 1 < p then c.(rest := c.rest + [x])
                    else var group := c.rest + [x];
                         Cutting(c.packets + [FifoPacket(group[0].ts, c.dbc, Samples(group))], [], Wrap32(c.dbc + p))
    decreases |xs|
  {
    if |xs| < p {
      if |xs| + 1 == p {
        assert (xs + [x])[..p] == xs + [x] && (xs + [x])[p..] == [];
      }
    } else {
      assert (xs + [x])[p..] == xs[p..] + [x] && (xs + [x])[..p] == xs[..p];
      CutSnoc(xs[p..], x, p, Wrap32(dbc + p));
    }
  }

  /** Every packet has `p` samples, and block counts follow each other in steps of `p`. */
  lemma {:induction false} CutShape(xs: seq<Stamped>, p: nat, dbc: uint32)
    requires p > 0
    ensures var c := Cut(xs, p, dbc);
            && (forall i :: 0 <= i < |c.packets| ==> |c.packets[i].samples| == p)
            && (c.packets != [] ==> c.packets[0].dbc == dbc)
            && (forall i :: 0 < i < |c.packets| ==> c.packets[i].dbc == Wrap32(c.packets[i - 1].dbc + p))
    decreases |xs|
  {
    if |xs| < p {
    } else {
      CutShape(xs[p..], p, Wrap32(dbc + p));
    }
  }

  /** Packet `i` has the time of its first sample, which is number `p * i` of the stream. */
  lemma {:induction false} CutAt(xs: seq<Stamped>, p: nat, dbc: uint32, i: nat)
    requires p > 0 && i < |Cut(xs, p, dbc).packets|
    ensures 0 <= Product(p, i) && Product(p, i) + p <= |xs| && Cut(xs, p, dbc).packets[i].ts == xs[Product(p, i)].ts
    decreases |xs|
  {
    if i == 0 {
    } else {
      CutAt(xs[p..], p, Wrap32(dbc + p), i - 1);
      ProductStep(p, i - 1);
    }
  }

  lemma {:induction false} CutLength(xs: seq<Stamped>, p: nat, dbc: uint32)
    requires p > 0
    ensures var c := Cut(xs, p, dbc); |xs| == Product(p, |c.packets|) + |c.rest| && |c.rest| < p
    decreases |xs|
  {
    if |xs| < p {
    } else {
      var c := Cut(xs[p..], p, Wrap32(dbc + p));
      CutLength(xs[p..], p, Wrap32(dbc + p));
      ProductStep(p, |c.packets|);
    }
  }

  /** The samples of a queue of FIFO packets, in order. */
  function Flat(q: seq<FifoPacket>): seq<uint32> {
    if q == [] then [] else q[0].samples + Flat(q[1..])
  }

  /** Cutting loses and reorders nothing. */
  lemma {:induction false} CutKeepsAll(xs: seq<Stamped>, p: nat, dbc: uint32)
    requires p > 0
    ensures var c := Cut(xs, p, dbc);
            Flat(c.packets) + Samples(c.rest) == Samples(xs)
    decreases |xs|
  {
    if |xs| < p {
    } else {
      var c := Cut(xs[p..], p, Wrap32(dbc + p));
      CutKeepsAll(xs[p..], p, Wrap32(dbc + p));
      assert Samples(xs) == Samples(xs[..p]) + Samples(xs[p..]);
      assert Cut(xs, p, dbc).packets[1..] == c.packets;
      Assoc(Samples(xs[..p]), Flat(c.packets), Samples(c.rest));
    }
  }

  function Stepped(f: FifoState, taken: seq<FifoPacket>, p: nat, slots: nat, o: Operation)
    : (FifoState, seq<FifoPacket>)
  {
    match o
    case Push(x) => (Pushed(f, p, slots, x.sample, x.ts), taken)
    case Take => if f.queue == [] then (f, taken) else (f.(queue := f.queue[1..]), taken + [f.queue[0]])
  }

  /** A run from an enabled FIFO: its state, and the packets the reader has got and released. */
  function Run(p: nat, slots: nat, ops: seq<Operation>): (FifoState, seq<FifoPacket>) {
    if ops == [] then (FifoState([], [], 0, 0), [])
    else
      var (f, taken) := Run(p, slots, ops[..|ops| - 1]);
      Stepped(f, taken, p, slots, ops[|ops| - 1])
  }

  function AllPushed(ops: seq<Operation>): seq<Stamped> {
    if ops == [] then []
    else AllPushed(ops[..|ops| - 1]) + if ops[|ops| - 1].Push? then [ops[|ops| - 1].x] else []
  }

  /** No packet is completed while all slots but one are queued. */
  predicate NeverFull(p: nat, slots: nat, ops: seq<Operation>) {
    ops == [] ||
    (NeverFull(p, slots, ops[..|ops| - 1])
     && var f := Run(p, slots, ops[..|ops| - 1]).0;
        ops[|ops| - 1].Push? && |f.partial| + 1 == p ==> |f.queue| + 1 < slots)
  }

  lemma NeverFullSnoc(p: nat, slots: nat, ops: seq<Operation>, o: Operation)
    ensures NeverFull(p, slots, ops + [o])
            <==> NeverFull(p, slots, ops)
                 && var f := Run(p, slots, ops).0; o.Push? && |f.partial| + 1 == p ==> |f.queue| + 1 < slots
  {
    assert (ops + [o])[..|ops|] == ops;
  }

  /** The FIFO holds exactly the part of the cut stream that has not been taken. */
  predicate HoldsStream(f: FifoState, taken: seq<FifoPacket>, c: Cutting) {
    && taken + f.queue == c.packets && f.partial == Samples(c.rest) && f.dbc == c.dbc
    && (c.rest != [] ==> f.stamp == c.rest[0].ts)
  }

  lemma StepHoldsStream(f: FifoState, taken: seq<FifoPacket>, p: nat, slots: nat, o: Operation, xs: seq<Stamped>)
    requires p > 0 && HoldsStream(f, taken, Cut(xs, p, 0))
    requires o.Push? && |f.partial| + 1 == p ==> |f.queue| + 1 < slots
    ensures var (g, t) := Stepped(f, taken, p, slots, o);
            HoldsStream(g, t, Cut(if o.Push? then xs + [o.x] else xs, p, 0))
  {
    if o.Push? {
      var c := Cut(xs, p, 0);
      CutSnoc(xs, o.x, p, 0);
      SamplesSnoc(c.rest, o.x);
      if |f.partial| + 1 == p {
        var x := FifoPacket((c.rest + [o.x])[0].ts, c.dbc, Samples(c.rest + [o.x]));
        Assoc(taken, f.queue, [x]);
      }
    } else if f.queue != [] {
      assert f.queue == [f.queue[0]] + f.queue[1..];
      Assoc(taken, [f.queue[0]], f.queue[1..]);
    }
  }

  /** While the reader keeps up, the FIFO holds what the stream cut into packets says. */
  lemma {:induction false} KeptStreamIsHeld(p: nat, slots: nat, ops: seq<Operation>)
    requires p > 0 && NeverFull(p, slots, ops)
    ensures var (f, taken) := Run(p, slots, ops); HoldsStream(f, taken, Cut(AllPushed(ops), p, 0))
  {
    if ops == [] {
    } else {
      var shorter, last := ops[..|ops| - 1], ops[|ops| - 1];
      KeptStreamIsHeld(p, slots, shorter);
      var (f, taken) := Run(p, slots, shorter);
      StepHoldsStream(f, taken, p, slots, last, AllPushed(shorter));
      PushedSnoc(shorter, last);
    }
  }

  lemma PushedSnoc(shorter: seq<Operation>, last: Operation)
    ensures AllPushed(shorter + [last]) == if last.Push? then AllPushed(shorter) + [last.x] else AllPushed(shorter)
  {
    assert (shorter + [last])[..|shorter|] == shorter;
  }

  /** The FIFO fills its packets in step with the cut stream, whatever becomes of them. */
  predicate InStep(f: FifoState, c: Cutting) {
    |f.partial| == |c.rest|
  }

  /** The packets of the stream that are neither read nor queued. */
  function Missing(f: FifoState, taken: seq<FifoPacket>, c: Cutting): int {
    |c.packets| - |taken| - |f.queue|
  }

  lemma StepMisses(f: FifoState, taken: seq<FifoPacket>, p: nat, slots: nat, o: Operation, xs: seq<Stamped>)
    requires p > 0 && InStep(f, Cut(xs, p, 0)) && Missing(f, taken, Cut(xs, p, 0)) >= 0
    ensures var (g, t) := Stepped(f, taken, p, slots, o);
            var c, d := Cut(xs, p, 0), Cut(if o.Push? then xs + [o.x] else xs, p, 0);
            InStep(g, d) && Missing(g, t, d) >= Missing(f, taken, c)
            && (o.Push? && |f.partial| + 1 == p && |f.queue| + 1 >= slots ==>
                  Missing(g, t, d) == Missing(f, taken, c) + |f.queue| + 1)
  {
    if o.Push? {
      CutSnoc(xs, o.x, p, 0);
    }
  }

  /**
   A packet completed with all slots but one queued is missing for ever, and so is all that was queued before it: as
   many packets as there are slots.
   */
  lemma {:induction false} OverflowIsForGood(p: nat, slots: nat, ops: seq<Operation>)
    requires p > 0
    ensures var (f, taken) := Run(p, slots, ops);
            var c := Cut(AllPushed(ops), p, 0);
            && InStep(f, c) && Missing(f, taken, c) >= 0
            && (!NeverFull(p, slots, ops) ==> Missing(f, taken, c) > 0 && Missing(f, taken, c) >= slots)
  {
    if ops == [] {
    } else {
      var shorter, last := ops[..|ops| - 1], ops[|ops| - 1];
      OverflowIsForGood(p, slots, shorter);
      var (f, taken) := Run(p, slots, shorter);
      StepMisses(f, taken, p, slots, last, AllPushed(shorter));
      assert shorter + [last] == ops;
      PushedSnoc(shorter, last);
    }
  }

  /**
   What the reader gets, followed by what is queued, are the packets of the pushed stream cut into groups of the SYT
   interval, each with the time of its first sample, none lost, none twice, none overwritten, exactly when no packet
   was ever completed with all slots but one queued. One such packet, and the two never agree again.
   */
  lemma QueueIsTheStream(p: nat, slots: nat, ops: seq<Operation>)
    requires p > 0
    ensures var (f, taken) := Run(p, slots, ops);
            HoldsStream(f, taken, Cut(AllPushed(ops), p, 0)) <==> NeverFull(p, slots, ops)
  {
    if NeverFull(p, slots, ops) {
      KeptStreamIsHeld(p, slots, ops);
    } else {
      OverflowIsForGood(p, slots, ops);
    }
  }

  // ---------- a run that overflows ----------

  /** `n` samples pushed, and nothing read. */
  function Flood(n: nat): seq<Operation> {
    if n == 0 then [] else Flood(n - 1) + [Push(Stamped(0, 0))]
  }

  lemma {:induction false} Flooded(p: nat, slots: nat, n: nat)
    requires slots > 0
    ensures var (f, taken) := Run(p, slots, Flood(n));
            taken == [] && |f.queue| < slots && |AllPushed(Flood(n))| == n
  {
    if n == 0 {
    } else {
      var shorter, last := Flood(n - 1), Push(Stamped(0, 0));
      var (f, taken) := Run(p, slots, shorter);
      Flooded(p, slots, n - 1);
      PushedSnoc(shorter, last);
      RunAddsStep(p, slots, shorter, last);
      PushKeepsSlot(f, taken, p, slots, Stamped(0, 0));
    }
  }

  lemma RunAddsStep(p: nat, slots: nat, ops: seq<Operation>, o: Operation)
    ensures var (f, taken) := Run(p, slots, ops); Run(p, slots, ops + [o]) == Stepped(f, taken, p, slots, o)
  {
    assert (ops + [o])[..|ops|] == ops;
  }

  lemma PushKeepsSlot(f: FifoState, taken: seq<FifoPacket>, p: nat, slots: nat, x: Stamped)
    requires |f.queue| < slots
    ensures var (g, more) := Stepped(f, taken, p, slots, Push(x)); more == taken && |g.queue| < slots
  {
  }

  /** As many samples as fill every slot: with nobody reading the last one overflows, and all of them are lost. */
  lemma FloodOverflows(p: nat, slots: nat)
    requires p > 0 && slots > 0
    ensures 0 <= Product(p, slots) && !NeverFull(p, slots, Flood(Product(p, slots)))
    ensures var (f, taken) := Run(p, slots, Flood(Product(p, slots)));
            taken == [] && f.queue == [] && f.partial == []
  {
    if slots > 1 {
      Multiples(1, slots, p);
    }
    var n := Product(p, slots);
    var c := Cut(AllPushed(Flood(n)), p, 0);
    Flooded(p, slots, n);
    CutLength(AllPushed(Flood(n)), p, 0);
    SameMultiple(p, slots, |c.packets|, |c.rest|);
    OverflowIsForGood(p, slots, Flood(n));
    if NeverFull(p, slots, Flood(n)) {
      KeptStreamIsHeld(p, slots, Flood(n));
      assert false;
    }
  }

  lemma SameMultiple(p: nat, a: nat, b: nat, rest: nat)
    requires p > 0 && rest < p && Product(p, a) == Product(p, b) + rest
    ensures a == b && rest == 0
  {
    if a < b {
      Multiples(a, b, p);
    } else if b < a {
      Multiples(b, a, p);
    }
  }
}
