/**
 What the output FIFO promises: it is a bounded queue, its zeroing phase zeroes every cell, and its marker records
 the playout time of the sample the timestamp belongs to.
 */
module OutputFifoRuns {
  import opened Bytes
  import opened Wrappers
  import opened Seqs
  import opened OutputFifo

  // ---------- a bounded queue ----------

  /** The first `n` elements: what a queue with room for `n` keeps. */
  function Capped(s: seq<uint32>, n: int): seq<uint32> {
    if 0 <= n <= |s| then s[..n] else s
  }

  /** What becomes of samples that are pushed: silence while the FIFO is zeroed. */
  function Heard(r: Ring, xs: seq<uint32>): seq<uint32> {
    if r.mode.Zeroing? then seq(|xs|, k => 0) else xs
  }

  lemma QueueAt(r: Ring, k: int)
    requires InRange(r) && 0 <= k < FillLevel(r)
    ensures Queue(r)[k] == r.cells[RingAt(r.dptr, k, |r.cells|)]
  {
  }

  /** A pushed sample joins the queue, unless all cells but one are in use. */
  lemma PushRefines(r: Ring, sample: uint32)
    requires InRange(r)
    ensures Queue(PushedOne(r, sample)) == Capped(Queue(r) + Heard(r, [sample]), |r.cells| - 1)
  {
    var n, s := |r.cells|, PushedOne(r, sample);
    var q, t := Queue(r), Queue(s);
    var x := Heard(r, [sample])[0];
    assert Heard(r, [sample]) == [x];
    if Next(r.wrptr, n) == r.dptr {
      assert (q + [x])[..n - 1] == q;
    } else {
      assert FillLevel(s) == FillLevel(r) + 1;
      forall k | 0 <= k < |t| ensures t[k] == (q + [x])[k] {
        QueueAt(s, k);
        if k < |q| {
          QueueAt(r, k);
        }
      }
    }
  }

  lemma HeardSnoc(r: Ring, xs: seq<uint32>, x: uint32)
    ensures Heard(r, xs + [x]) == Heard(r, xs) + Heard(r, [x])
  {
  }

  lemma CappedSnoc(q: seq<uint32>, a: seq<uint32>, b: seq<uint32>, n: int)
    requires 0 <= n
    ensures Capped(Capped(q + a, n) + b, n) == Capped(q + (a + b), n)
  {
    assert q + (a + b) == q + a + b;
  }

  lemma PushOneMore(s: Ring, x: uint32, q: seq<uint32>, a: seq<uint32>, b: seq<uint32>)
    requires InRange(s) && Queue(s) == Capped(q + a, |s.cells| - 1) && b == a + Heard(s, [x])
    ensures Queue(PushedOne(s, x)) == Capped(q + b, |s.cells| - 1)
  {
    PushRefines(s, x);
    CappedSnoc(q, a, Heard(s, [x]), |s.cells| - 1);
  }

  /** Pushing samples keeps the oldest: what does not fit is dropped from the end. */
  lemma {:induction false} PushAllRefines(r: Ring, xs: seq<uint32>)
    requires InRange(r)
    ensures Queue(Pushed(r, xs)) == Capped(Queue(r) + Heard(r, xs), |r.cells| - 1)
    ensures Pushed(r, xs).mode == r.mode && Pushed(r, xs).dptr == r.dptr
    decreases |xs|
  {
    if xs == [] {
      assert Queue(r) + Heard(r, xs) == Queue(r);
    } else {
      var shorter, x := xs[..|xs| - 1], xs[|xs| - 1];
      PushAllRefines(r, shorter);
      assert xs == shorter + [x];
      HeardSnoc(r, shorter, x);
      PushOneMore(Pushed(r, shorter), x, Queue(r), Heard(r, shorter), Heard(r, xs));
    }
  }

  /** A pulled sample is the oldest of the queue; an empty queue gives 0 and stays empty. */
  lemma PullRefines(r: Ring, ts: uint32)
    requires InRange(r)
    ensures InRange(Pulled(r, ts))
    ensures if Queue(r) == [] then Pulled(r, ts) == r && PulledSample(r) == 0
            else Queue(r) == [r.cells[r.dptr]] + Queue(Pulled(r, ts))
                 && PulledSample(r) == (if r.zeroFlag then 0 else Queue(r)[0])
  {
    if r.dptr != r.wrptr {
      var s := Pulled(r, ts);
      var q, t := Queue(r), Queue(s);
      QueueAt(r, 0);
      forall k | 0 <= k < |t| ensures t[k] == q[k + 1] {
        QueueAt(s, k);
        QueueAt(r, k + 1);
      }
    }
  }

  /** Adjusting shifts the fill level by the amount asked for, modulo the size of the buffer. */
  lemma AdjustShiftsFill(r: Ring, adjust: int)
    requires InRange(r)
    ensures InRange(Adjusted(r, adjust))
    ensures FillLevel(Adjusted(r, adjust)) == (FillLevel(r) - adjust) % |r.cells|
  {
    var n := |r.cells|;
    var y := (r.wrptr - adjust) % n;
    var level := Distance(r.dptr, y, n);
    var k := (r.wrptr - adjust) / n;
    assert r.wrptr - adjust == k * n + y;
    LevelQuotient(r.dptr, r.wrptr, adjust, y, k, n, FillLevel(r), level);
  }

  lemma LevelQuotient(d: int, w: int, adjust: int, y: int, k: int, n: int, fill: int, level: int)
    requires n > 0 && 0 <= d < n && 0 <= w < n && 0 <= y < n && w - adjust == k * n + y
    requires fill == Distance(d, w, n) && level == Distance(d, y, n)
    ensures (fill - adjust) % n == level
  {
    var f, l := if d <= w then 0 else 1, if d <= y then 0 else 1;
    assert fill == w - d + f * n && level == y - d + l * n;
    assert (k + f - l) * n == k * n + f * n - l * n;
    QuotientIs(k + f - l, level, n, fill - adjust);
  }

  // ---------- zeroing ----------

  predicate AllCellsZero(r: Ring) {
    forall i :: 0 <= i < |r.cells| ==> r.cells[i] == 0
  }

  /** While zeroing, the cells written since the zero marker was set are zero; once the marker is, all are. */
  predicate ZeroProgress(r: Ring)
    requires InRange(r)
  {
    r.mode.Zeroing? ==>
      var n := |r.cells|;
      if r.cells[r.zeroMarker] == 0 then AllCellsZero(r)
      else forall k :: 0 <= k < Distance(Next(r.zeroMarker, n), r.wrptr, n) ==>
             ZeroCell(r.cells, RingAt(Next(r.zeroMarker, n), k, n))
  }

  predicate ZeroCell(cells: seq<uint32>, i: int) {
    0 <= i < |cells| && cells[i] == 0
  }

  lemma PushKeepsZeroProgress(r: Ring, sample: uint32)
    requires InRange(r) && ZeroProgress(r)
    ensures ZeroProgress(PushedOne(r, sample))
  {
    var n, s := |r.cells|, PushedOne(r, sample);
    if r.mode.Zeroing? && Next(r.wrptr, n) != r.dptr && r.cells[r.zeroMarker] != 0 {
      var start := Next(r.zeroMarker, n);
      var d := Distance(start, r.wrptr, n);
      if r.wrptr == r.zeroMarker {
        forall i | 0 <= i < n ensures s.cells[i] == 0 {
          if i != r.wrptr {
            assert RingAt(start, Distance(start, i, n), n) == i;
            assert ZeroCell(r.cells, RingAt(start, Distance(start, i, n), n));
          }
        }
      } else {
        assert Distance(start, s.wrptr, n) == d + 1;
        forall k | 0 <= k < d + 1 ensures ZeroCell(s.cells, RingAt(start, k, n)) {
          if k < d {
            assert ZeroCell(r.cells, RingAt(start, k, n));
          }
        }
      }
    }
  }

  lemma {:induction false} PushAllKeepsZeroProgress(r: Ring, xs: seq<uint32>)
    requires InRange(r) && ZeroProgress(r)
    ensures ZeroProgress(Pushed(r, xs))
    decreases |xs|
  {
    if xs == [] {
    } else {
      PushAllKeepsZeroProgress(r, xs[..|xs| - 1]);
      PushKeepsZeroProgress(Pushed(r, xs[..|xs| - 1]), xs[|xs| - 1]);
    }
  }

  /** Everything that is done to a FIFO. */
  datatype Operation =
    | Enable | Disable | Reset | Push(xs: seq<uint32>) | Pull(ts: uint32) | Maintain
    | Adjust(adjust: int) | Mark(ptpTs: uint32, k: nat) | Report

  function Apply(r: Ring, o: Operation): (s: Ring)
    requires InRange(r)
    ensures InRange(s) && |s.cells| == |r.cells|
  {
    match o
    case Enable => Enabled(r)
    case Disable => r.(mode := Disabled, zeroFlag := true)
    case Reset => Restarted(r)
    case Push(xs) => Pushed(r, xs)
    case Pull(ts) => Pulled(r, ts)
    case Maintain => Maintained(r)
    case Adjust(a) => Adjusted(r, a)
    case Mark(ptpTs, k) => Marked(r, ptpTs, k)
    case Report => Reported(r)
  }

  function Run(r: Ring, ops: seq<Operation>): (s: Ring)
    requires InRange(r)
    ensures InRange(s) && |s.cells| == |r.cells|
  {
    if ops == [] then r else Apply(Run(r, ops[..|ops| - 1]), ops[|ops| - 1])
  }

  lemma StepKeepsZeroProgress(r: Ring, o: Operation)
    requires InRange(r) && ZeroProgress(r)
    ensures ZeroProgress(Apply(r, o))
  {
    if o.Push? {
      PushAllKeepsZeroProgress(r, o.xs);
    }
  }

  lemma {:induction false} ZeroProgressInEveryRun(r: Ring, ops: seq<Operation>)
    requires InRange(r) && !r.mode.Zeroing?
    ensures ZeroProgress(Run(r, ops))
  {
    if ops == [] {
    } else {
      ZeroProgressInEveryRun(r, ops[..|ops| - 1]);
      StepKeepsZeroProgress(Run(r, ops[..|ops| - 1]), ops[|ops| - 1]);
    }
  }

  /**
   In every run, when maintenance takes a FIFO from zeroing to locking, every cell of it is zero, and exactly half
   the buffer of silence is queued afterwards.
   */
  lemma LocksOnlyWhenZeroed(r: Ring, ops: seq<Operation>)
    requires InRange(r) && !r.mode.Zeroing?
    ensures var s := Run(r, ops);
            s.mode.Zeroing? && Maintained(s).mode.Locking? ==>
              && AllCellsZero(s) && FillLevel(Maintained(s)) == |s.cells| / 2
              && forall x :: x in Queue(Maintained(s)) ==> x == 0
  {
    ZeroProgressInEveryRun(r, ops);
    var s := Run(r, ops);
    if s.mode.Zeroing? && Maintained(s).mode.Locking? {
      var q := Queue(Maintained(s));
      forall x | x in q ensures x == 0 {
        var k :| 0 <= k < |q| && q[k] == x;
        QueueAt(Maintained(s), k);
      }
    }
  }

  // ---------- playout times ----------

  /** Pushing, pulling, maintaining, and timestamps that come while one is pending. */
  predicate Plays(o: Operation) {
    o.Push? || o.Pull? || o.Maintain? || o.Mark?
  }

  predicate AllPlay(ops: seq<Operation>) {
    forall i :: 0 <= i < |ops| ==> Plays(ops[i])
  }

  /** A timestamp of 0 means none, so that 0 is recorded as 1. */
  function Recorded(ts: uint32): uint32 {
    if ts == 0 then 1 else ts
  }

  /** The times of the pulls that found a sample. */
  function PullTimes(r: Ring, ops: seq<Operation>): seq<uint32>
    requires InRange(r)
  {
    if ops == [] then []
    else
      var s, o := Run(r, ops[..|ops| - 1]), ops[|ops| - 1];
      PullTimes(r, ops[..|ops| - 1]) + if o.Pull? && s.dptr != s.wrptr then [o.ts] else []
  }

  /** What those pulls took out of the queue; while the zero flag is set, silence is played in its place. */
  function Played(r: Ring, ops: seq<Operation>): seq<uint32>
    requires InRange(r)
  {
    if ops == [] then []
    else
      var s, o := Run(r, ops[..|ops| - 1]), ops[|ops| - 1];
      Played(r, ops[..|ops| - 1]) + if o.Pull? && s.dptr != s.wrptr then [s.cells[s.dptr]] else []
  }

  lemma PushKeepsReader(r: Ring, xs: seq<uint32>)
    requires InRange(r)
    ensures var s := Pushed(r, xs);
            && s.dptr == r.dptr && s.marker == r.marker && s.localTs == r.localTs && s.mode == r.mode
            && s.zeroFlag == r.zeroFlag && s.ptpTs == r.ptpTs
    decreases |xs|
  {
    if xs == [] {
    } else {
      PushKeepsReader(r, xs[..|xs| - 1]);
    }
  }

  /** Of the playing operations only a pull moves the reader or records a time. */
  lemma PlayingStep(s: Ring, o: Operation)
    requires InRange(s) && Plays(o) && !s.mode.Zeroing? && s.marker != NONE
    ensures var t := Apply(s, o);
            && t.marker == s.marker && t.mode == s.mode && t.ptpTs == s.ptpTs
            && if o.Pull? && s.dptr != s.wrptr then
                 t.dptr == Next(s.dptr, |s.cells|)
                 && t.localTs == if s.dptr == s.marker && s.localTs == 0 then Recorded(o.ts) else s.localTs
               else t.dptr == s.dptr && t.localTs == s.localTs
  {
    if o.Push? {
      PushKeepsReader(s, o.xs);
    }
  }

  /** Where the marker lies, seen from the reader. */
  function MarkerOffset(fill: int, k: int, n: int): int {
    if fill + k < n then fill + k else fill + k - n
  }

  /** The reader has made `m` steps, and has recorded the time of step `j` if that is behind it. */
  predicate Recording(r: Ring, s: Ring, j: int, times: seq<uint32>) {
    && 0 <= j && s.marker == RingAt(r.dptr, j, |r.cells|) && !s.mode.Zeroing? && |s.cells| == |r.cells|
    && s.ptpTs == r.ptpTs
    && if |times| <= j then s.localTs == 0 && s.dptr == RingAt(r.dptr, |times|, |r.cells|)
       else s.localTs == Recorded(times[j])
  }

  lemma {:induction false} RecordsAtMarker(r: Ring, j: int, ops: seq<Operation>)
    requires InRange(r) && AllPlay(ops) && 0 <= j < |r.cells| && !r.mode.Zeroing?
    requires r.marker == RingAt(r.dptr, j, |r.cells|) && r.localTs == 0
    ensures Recording(r, Run(r, ops), j, PullTimes(r, ops))
  {
    if ops == [] {
    } else {
      var shorter, o := ops[..|ops| - 1], ops[|ops| - 1];
      RecordsAtMarker(r, j, shorter);
      PlayingStep(Run(r, shorter), o);
    }
  }

  /**
   The local time that is recorded after a timestamp was set for sample `k` of the next packet is that of the pull
   number fill level plus `k`, modulo the size of the buffer; so it is the right one exactly when that sum is less than
   the size.
   */
  lemma MarkerRecords(r: Ring, ptpTs: uint32, k: nat, ops: seq<Operation>)
    requires InRange(r) && k < |r.cells| && r.marker == NONE && !r.mode.Zeroing?
    requires InRange(Marked(r, ptpTs, k)) && AllPlay(ops)
    ensures var s, times, j := Run(Marked(r, ptpTs, k), ops), PullTimes(Marked(r, ptpTs, k), ops),
                               MarkerOffset(FillLevel(r), k, |r.cells|);
            && 0 <= j < |r.cells| && s.localTs == (if |times| > j then Recorded(times[j]) else 0)
            && s.ptpTs == Recorded(ptpTs)
            && (j == FillLevel(r) + k <==> FillLevel(r) + k < |r.cells|)
  {
    var m, j := Marked(r, ptpTs, k), MarkerOffset(FillLevel(r), k, |r.cells|);
    assert m.marker == RingAt(r.dptr, j, |r.cells|);
    RecordsAtMarker(m, j, ops);
  }

  /** Samples are played in the order of the queue: those taken and those left begin with what was there. */
  lemma {:induction false} PlaysTheQueue(r: Ring, ops: seq<Operation>)
    requires InRange(r) && AllPlay(ops) && !r.mode.Zeroing?
    ensures var played := Played(r, ops);
            && |played| == |PullTimes(r, ops)| && !Run(r, ops).mode.Zeroing?
            && Queue(r) <= played + Queue(Run(r, ops))
  {
    if ops == [] {
      assert [] + Queue(r) == Queue(r);
    } else {
      var shorter, o := ops[..|ops| - 1], ops[|ops| - 1];
      PlaysTheQueue(r, shorter);
      PlaysOneMore(Run(r, shorter), o, Queue(r), Played(r, shorter));
    }
  }

  lemma PlaysOneMore(s: Ring, o: Operation, q: seq<uint32>, played: seq<uint32>)
    requires InRange(s) && Plays(o) && !s.mode.Zeroing?
    requires q <= played + Queue(s)
    ensures !Apply(s, o).mode.Zeroing?
    ensures q <= played + (if o.Pull? && s.dptr != s.wrptr then [s.cells[s.dptr]] else []) + Queue(Apply(s, o))
  {
    match o
    case Push(xs) =>
      PushAllRefines(s, xs);
      CappedExtends(Queue(s), Heard(s, xs), |s.cells| - 1);
      PrefixOfMore(q, played, Queue(s), Queue(Pushed(s, xs)));
    case Pull(ts) =>
      PullRefines(s, ts);
      if s.dptr != s.wrptr {
        Assoc(played, [s.cells[s.dptr]], Queue(Pulled(s, ts)));
      }
    case Maintain =>
    case Mark(ptpTs, k) =>
      assert Queue(Marked(s, ptpTs, k)) == Queue(s);
  }

  lemma CappedExtends(q: seq<uint32>, a: seq<uint32>, n: int)
    requires |q| <= n
    ensures q <= Capped(q + a, n)
  {
  }

  lemma PrefixOfMore(q: seq<uint32>, played: seq<uint32>, a: seq<uint32>, b: seq<uint32>)
    requires q <= played + a && a <= b
    ensures q <= played + [] + b
  {
    assert played + b == played + a + b[|a|..];
  }

  /** The samples pushed, packet by packet. */
  function Pushes(ops: seq<Operation>): seq<seq<uint32>> {
    if ops == [] then []
    else Pushes(ops[..|ops| - 1]) + if ops[|ops| - 1].Push? then [ops[|ops| - 1].xs] else []
  }

  /** Whatever is pushed fits. */
  predicate HasRoom(r: Ring, ops: seq<Operation>)
    requires InRange(r)
  {
    ops == [] ||
    (HasRoom(r, ops[..|ops| - 1])
     && var s, o := Run(r, ops[..|ops| - 1]), ops[|ops| - 1];
        o.Push? ==> FillLevel(s) + |o.xs| < |s.cells|)
  }

  function Concat(xs: seq<seq<uint32>>): seq<uint32> {
    FlatMap((x: seq<uint32>) => x, xs)
  }

  lemma ConcatSnoc(xs: seq<seq<uint32>>, x: seq<uint32>)
    ensures Concat(xs + [x]) == Concat(xs) + x
  {
    FlatMapAppend((x: seq<uint32>) => x, xs, [x]);
    FlatMapOne((x: seq<uint32>) => x, x);
  }

  /** With room for every packet nothing is lost: what was played and what is queued are what was queued and pushed. */
  lemma {:induction false} QueueLosesNothing(r: Ring, ops: seq<Operation>)
    requires InRange(r) && AllPlay(ops) && !r.mode.Zeroing? && HasRoom(r, ops)
    ensures !Run(r, ops).mode.Zeroing?
    ensures Played(r, ops) + Queue(Run(r, ops)) == Queue(r) + Concat(Pushes(ops))
  {
    if ops == [] {
      assert [] + Queue(r) == Queue(r) + [];
    } else {
      var shorter, o := ops[..|ops| - 1], ops[|ops| - 1];
      QueueLosesNothing(r, shorter);
      var s := Run(r, shorter);
      LosesNothingStep(s, o, Played(r, shorter), Queue(r) + Concat(Pushes(shorter)));
      if o.Push? {
        ConcatSnoc(Pushes(shorter), o.xs);
        Assoc(Queue(r), Concat(Pushes(shorter)), o.xs);
      } else {
        assert Pushes(ops) == Pushes(shorter);
        assert Queue(r) + Concat(Pushes(shorter)) + [] == Queue(r) + Concat(Pushes(shorter));
      }
    }
  }

  lemma LosesNothingStep(s: Ring, o: Operation, played: seq<uint32>, all: seq<uint32>)
    requires InRange(s) && Plays(o) && !s.mode.Zeroing?
    requires played + Queue(s) == all && (o.Push? ==> FillLevel(s) + |o.xs| < |s.cells|)
    ensures !Apply(s, o).mode.Zeroing?
    ensures played + (if o.Pull? && s.dptr != s.wrptr then [s.cells[s.dptr]] else []) + Queue(Apply(s, o))
         == all + if o.Push? then o.xs else []
  {
    assert played + [] == played && all + [] == all;
    match o
    case Push(xs) =>
      PushAllRefines(s, xs);
      assert Queue(Pushed(s, xs)) == Queue(s) + xs;
      Assoc(played, Queue(s), xs);
    case Pull(ts) =>
      PullRefines(s, ts);
      if s.dptr != s.wrptr {
        Assoc(played, [s.cells[s.dptr]], Queue(Pulled(s, ts)));
      }
    case Maintain =>
    case Mark(ptpTs, k) =>
      assert Queue(Marked(s, ptpTs, k)) == Queue(s);
  }

  /**
   Playout: when a timestamp is set for sample `k` of a packet that fits behind what is queued, and
   neither an adjustment nor a reset comes in between, the local time recorded is the time at which
   that very sample was played out.
   */
  lemma RecordsPlayoutOfItsSample(r: Ring, ptpTs: uint32, k: nat, xs: seq<uint32>, ops: seq<Operation>)
    requires InRange(r) && r.marker == NONE && !r.mode.Zeroing?
    requires k < |xs| && FillLevel(r) + |xs| < |r.cells|
    requires InRange(Pushed(Marked(r, ptpTs, k), xs)) && AllPlay(ops)
    ensures var s, j := Pushed(Marked(r, ptpTs, k), xs), FillLevel(r) + k;
            var times, played := PullTimes(s, ops), Played(s, ops);
            && |played| == |times| && Run(s, ops).ptpTs == Recorded(ptpTs)
            && if |times| > j then Run(s, ops).localTs == Recorded(times[j]) && played[j] == xs[k]
               else Run(s, ops).localTs == 0
  {
    var s, j := Pushed(Marked(r, ptpTs, k), xs), FillLevel(r) + k;
    MarkedPush(r, ptpTs, k, xs);
    RecordsAtMarker(s, j, ops);
    PlaysTheQueue(s, ops);
  }

  /** The marker stands at the sample the timestamp is for, `j` places behind the reader. */
  lemma MarkedPush(r: Ring, ptpTs: uint32, k: nat, xs: seq<uint32>)
    requires InRange(r) && r.marker == NONE && !r.mode.Zeroing?
    requires k < |xs| && FillLevel(r) + |xs| < |r.cells|
    ensures var s, j := Pushed(Marked(r, ptpTs, k), xs), FillLevel(r) + k;
            && s.marker == RingAt(s.dptr, j, |s.cells|) && 0 <= j < |s.cells| && s.localTs == 0
            && s.ptpTs == Recorded(ptpTs) && !s.mode.Zeroing? && j < |Queue(s)| && Queue(s)[j] == xs[k]
  {
    var m, j := Marked(r, ptpTs, k), FillLevel(r) + k;
    PushKeepsReader(m, xs);
    PushAllRefines(m, xs);
    assert m.marker == RingAt(r.dptr, j, |r.cells|);
    assert Queue(m) == Queue(r);
    assert Queue(Pushed(m, xs)) == Queue(r) + xs;
  }

  // ---------- what is reported ----------

  /** A report, an adjustment, an enabling, or the maintenance that ends the zeroing: a pending timestamp is dropped. */
  predicate Clears(r: Ring, o: Operation)
    requires InRange(r)
  {
    o.Report? || o.Adjust? || o.Enable? || (o.Maintain? && r.mode.Zeroing? && Maintained(r).mode.Locking?)
  }

  /** The first timestamp that was set since the last operation that dropped one. */
  function FirstSet(r: Ring, ops: seq<Operation>): Option<uint32>
    requires InRange(r)
  {
    if ops == [] then None
    else
      var before, o := FirstSet(r, ops[..|ops| - 1]), ops[|ops| - 1];
      if Clears(Run(r, ops[..|ops| - 1]), o) then None
      else if o.Mark? && before.None? then Some(Recorded(o.ptpTs))
      else before
  }

  /** The timestamp is pending: it is what a report would hand over, and the marker is set. */
  predicate Awaits(s: Ring, ts: Option<uint32>) {
    s.ptpTs == (if ts.Some? then ts.value else 0) && (s.marker != NONE <==> ts.Some?)
  }

  lemma AwaitsStep(s: Ring, o: Operation, before: Option<uint32>)
    requires InRange(s) && Awaits(s, before)
    ensures Awaits(Apply(s, o), if Clears(s, o) then None
                                else if o.Mark? && before.None? then Some(Recorded(o.ptpTs)) else before)
  {
    if o.Push? {
      PushKeepsReader(s, o.xs);
    }
  }

  /**
   In every run a report hands over the first timestamp that was set since the report, adjustment or lock before it, and
   none if there was none: later ones wait for the next report.
   */
  lemma {:induction false} ReportsFirstTimestampSet(r: Ring, ops: seq<Operation>)
    requires InRange(r) && Awaits(r, None)
    ensures Awaits(Run(r, ops), FirstSet(r, ops))
  {
    if ops == [] {
    } else {
      ReportsFirstTimestampSet(r, ops[..|ops| - 1]);
      AwaitsStep(Run(r, ops[..|ops| - 1]), ops[|ops| - 1], FirstSet(r, ops[..|ops| - 1]));
    }
  }
}
