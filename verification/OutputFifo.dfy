/**
 The output FIFO between the listener and the audio interface: a ring buffer that is zeroed before it locks, with
 a marker that records when a timestamped sample is played out
 (module_avb_audio/src/media_fifos/media_output_fifo.c).
 */
module OutputFifo {
  import opened Bytes
  import opened Avtp

  datatype Mode = Disabled | Zeroing | Locking | Locked

  const NONE := -1

  /** The FIFO as a value: its cells, the read and write positions, and the two markers. */
  datatype Ring = Ring(cells: seq<uint32>, dptr: int, wrptr: int, marker: int, zeroMarker: int, zeroFlag: bool,
                       localTs: uint32, ptpTs: uint32, mode: Mode)

  predicate InRange(r: Ring) {
    && |r.cells| >= 2 && 0 <= r.dptr < |r.cells| && 0 <= r.wrptr < |r.cells|
    && NONE <= r.marker && 0 <= r.zeroMarker < |r.cells|
  }

  // ---------- positions in the ring ----------

  function Next(i: int, n: int): int {
    if i + 1 == n then 0 else i + 1
  }

  /** How far `j` lies behind `i`. */
  function Distance(i: int, j: int, n: int): int {
    if i <= j then j - i else j - i + n
  }

  function FillLevel(r: Ring): int {
    Distance(r.dptr, r.wrptr, |r.cells|)
  }

  /** The queued samples, the next to be played out first. */
  function Queue(r: Ring): (q: seq<uint32>)
    requires InRange(r)
    ensures |q| == FillLevel(r)
  {
    seq(FillLevel(r), k requires 0 <= k < FillLevel(r) => r.cells[RingAt(r.dptr, k, |r.cells|)])
  }

  // ---------- the operations ----------

  /** `enable_media_output_fifo`. */
  function Enabled(r: Ring): Ring
    requires InRange(r)
  {
    var n := |r.cells|;
    Ring(r.cells[n - 1 := 1], 0, 0, NONE, n - 1, true, 0, 0, Zeroing)
  }

  /** One sample of `media_output_fifo_strided_push`; a full FIFO drops it. */
  function PushedOne(r: Ring, sample: uint32): Ring
    requires InRange(r)
    ensures InRange(PushedOne(r, sample)) && |PushedOne(r, sample).cells| == |r.cells|
  {
    var next := Next(r.wrptr, |r.cells|);
    if next == r.dptr then r
    else r.(cells := r.cells[r.wrptr := if r.mode.Zeroing? then 0 else sample], wrptr := next)
  }

  function Pushed(r: Ring, samples: seq<uint32>): Ring
    requires InRange(r)
    ensures InRange(Pushed(r, samples)) && |Pushed(r, samples).cells| == |r.cells|
  {
    if samples == [] then r else PushedOne(Pushed(r, samples[..|samples| - 1]), samples[|samples| - 1])
  }

  /** `media_output_fifo_pull_sample`; an empty FIFO gives 0 and stays as it is. */
  function Pulled(r: Ring, ts: uint32): Ring
    requires InRange(r)
  {
    if r.dptr == r.wrptr then r
    else
      var marked := r.dptr == r.marker && r.localTs == 0;
      r.(dptr := Next(r.dptr, |r.cells|), localTs := if !marked then r.localTs else if ts == 0 then 1 else ts)
  }

  function PulledSample(r: Ring): uint32
    requires InRange(r)
  {
    if r.dptr == r.wrptr || r.zeroFlag then 0 else r.cells[r.dptr]
  }

  /** `media_output_fifo_set_ptp_timestamp`, for sample `k` of the packet about to be pushed. */
  function Marked(r: Ring, ptpTs: uint32, k: nat): Ring {
    if r.marker != NONE then r
    else
      var at := r.wrptr + k;
      r.(marker := if at >= |r.cells| then at - |r.cells| else at,
         ptpTs := if ptpTs == 0 then 1 else ptpTs, localTs := 0)
  }

  /** The state change of `media_output_fifo_maintain`. */
  function Maintained(r: Ring): Ring
    requires InRange(r)
    ensures InRange(Maintained(r)) && |Maintained(r).cells| == |r.cells|
  {
    if r.mode.Zeroing? && r.cells[r.zeroMarker] == 0 then
      r.(wrptr := RingAt(r.dptr, |r.cells| / 2, |r.cells|), mode := Locking, localTs := 0, ptpTs := 0, marker := NONE,
         zeroFlag := true)
    else r
  }

  /** `BUF_CTL_ADJUST_FILL`. */
  function Adjusted(r: Ring, adjust: int): Ring
    requires InRange(r)
  {
    r.(wrptr := (r.wrptr - adjust) % |r.cells|, mode := Locked, zeroFlag := false, ptpTs := 0, localTs := 0,
       marker := NONE)
  }

  /** `BUF_CTL_RESET`. */
  function Restarted(r: Ring): Ring
    requires InRange(r)
  {
    var before := if r.wrptr == 0 then |r.cells| - 1 else r.wrptr - 1;
    r.(mode := Zeroing, zeroMarker := before, zeroFlag := true, cells := r.cells[before := 1])
  }

  /** `BUF_CTL_REQUEST_INFO`: the times are handed over and forgotten. */
  function Reported(r: Ring): Ring {
    r.(ptpTs := 0, localTs := 0, marker := NONE)
  }

  // ---------- the FIFO ----------

  /** How many samples a channel has in `n` words of `stride` interleaved ones. */
  function Rows(n: int, stride: int): int
    requires stride > 0
  {
    if n <= 0 then 0 else (n + stride - 1) / stride
  }

  /** The samples of one channel of a payload. */
  function Column(words: seq<uint32>, c: int, stride: int, rows: int): (xs: seq<uint32>)
    requires 0 <= rows && forall k :: 0 <= k < rows ==> 0 <= Cell(k, c, stride) < |words|
    ensures |xs| == rows
  {
    seq(rows, k requires 0 <= k < rows => Unwire(words[Cell(k, c, stride)]))
  }

  class MediaOutputFifo {
    const fifo: array<uint32>
    var dptr: int
    var wrptr: int
    var marker: int
    var zeroMarker: int
    var zeroFlag: bool
    var localTs: uint32
    var ptpTs: uint32
    var state: Mode

    function Current(): Ring
      reads this, fifo
    {
      Ring(fifo[..], dptr, wrptr, marker, zeroMarker, zeroFlag, localTs, ptpTs, state)
    }

    ghost predicate Valid()
      reads this, fifo
    {
      InRange(Current())
    }

    /** `media_output_fifo_init`. */
    constructor (n: nat)
      requires n >= 2
      ensures Valid() && fresh(fifo) && fifo.Length == n && state == Disabled
    {
      fifo := new uint32[n](_ => 0);
      dptr, wrptr, marker, zeroMarker, zeroFlag, localTs, ptpTs := 0, 0, NONE, 0, true, 0, 0;
      state := Disabled;
    }

    method Enable()
      requires Valid()
      modifies this, fifo
      ensures Valid() && Current() == Enabled(old(Current()))
    {
      state := Zeroing;
      dptr, wrptr, marker, localTs, ptpTs := 0, 0, NONE, 0, 0;
      zeroMarker, zeroFlag := fifo.Length - 1, true;
      fifo[zeroMarker] := 1;
    }

    method Disable()
      requires Valid()
      modifies this`state, this`zeroFlag
      ensures Valid() && Current() == old(Current()).(mode := Disabled, zeroFlag := true)
    {
      state, zeroFlag := Disabled, true;
    }

    method SetPtpTimestamp(newPtpTs: uint32, sampleNumber: nat)
      requires Valid()
      modifies this`marker, this`ptpTs, this`localTs
      ensures Valid() && Current() == Marked(old(Current()), newPtpTs, sampleNumber)
    {
      if marker == NONE {
        var newMarker := wrptr + sampleNumber;
        if newMarker >= fifo.Length {
          newMarker := newMarker - fifo.Length;
        }
        ptpTs := if newPtpTs == 0 then 1 else newPtpTs;
        localTs := 0;
        marker := newMarker;
      }
    }

    method PullSample(timestamp: uint32) returns (sample: uint32)
      requires Valid()
      modifies this`dptr, this`localTs
      ensures Valid() && Current() == Pulled(old(Current()), timestamp) && sample == PulledSample(old(Current()))
    {
      if dptr == wrptr {
        return 0;
      }
      sample := fifo[dptr];
      if dptr == marker && localTs == 0 {
        localTs := if timestamp == 0 then 1 else timestamp;
      }
      dptr := dptr + 1;
      if dptr == fifo.Length {
        dptr := 0;
      }
      if zeroFlag {
        sample := 0;
      }
    }

    method Maintain()
      requires Valid()
      modifies this`wrptr, this`state, this`localTs, this`ptpTs, this`marker, this`zeroFlag
      ensures Valid() && Current() == Maintained(old(Current()))
    {
      if state == Zeroing && fifo[zeroMarker] == 0 {
        var newWrptr := dptr + fifo.Length / 2;
        while newWrptr >= fifo.Length
          invariant newWrptr == dptr + fifo.Length / 2 || newWrptr == dptr + fifo.Length / 2 - fifo.Length >= 0
        {
          newWrptr := newWrptr - fifo.Length;
        }
        wrptr := newWrptr;
        state, localTs, ptpTs, marker, zeroFlag := Locking, 0, 0, NONE, true;
      }
    }

    method PushOne(sample: uint32)
      requires Valid()
      modifies this`wrptr, fifo
      ensures Valid() && Current() == PushedOne(old(Current()), sample)
    {
      var newWrptr := wrptr + 1;
      if newWrptr == fifo.Length {
        newWrptr := 0;
      }
      if newWrptr != dptr {
        fifo[wrptr] := if state == Zeroing then 0 else sample;
        wrptr := newWrptr;
      }
    }

    /** `media_output_fifo_strided_push` of the `n` words behind `c`, every `stride`th of them. */
    method StridedPush(words: seq<uint32>, c: int, stride: int, n: int)
      requires Valid() && 0 <= c < stride
      requires forall k :: 0 <= k < Rows(n, stride) ==> 0 <= Cell(k, c, stride) < |words|
      modifies this`wrptr, fifo
      ensures 0 <= Rows(n, stride)
      ensures Valid() && Current() == Pushed(old(Current()), Column(words, c, stride, Rows(n, stride)))
    {
      RowsBound(n, stride, 0);
      ghost var xs := Column(words, c, stride, Rows(n, stride));
      var i, at := 0, c;
      ghost var k := 0;
      while i < n
        invariant 0 <= k <= Rows(n, stride) && i == Cell(k, 0, stride) && at == Cell(k, c, stride)
        invariant Valid() && Current() == Pushed(old(Current()), xs[..k])
        decreases n - i
      {
        RowsBound(n, stride, k);
        CellNext(k, 0, stride);
        CellNext(k, c, stride);
        PushOne(Unwire(words[at]));
        assert xs[..k + 1][..k] == xs[..k];
        i, at, k := i + stride, at + stride, k + 1;
      }
      RowsBound(n, stride, k);
      assert xs[..k] == xs;
    }

    method AdjustFill(adjust: int)
      requires Valid()
      modifies this`wrptr, this`state, this`zeroFlag, this`ptpTs, this`localTs, this`marker
      ensures Valid() && Current() == Adjusted(old(Current()), adjust)
    {
      wrptr := WrapAround(wrptr - adjust, fifo.Length);
      state, zeroFlag, ptpTs, localTs, marker := Locked, false, 0, 0, NONE;
    }

    /** Rounds are added or taken off until the position is in the buffer. */
    static method WrapAround(x: int, n: int) returns (y: int)
      requires n > 0
      ensures y == x % n && 0 <= y < n
    {
      y := x;
      while y < 0
        invariant y % n == x % n
        decreases -y
      {
        AddRound(y, n);
        y := y + n;
      }
      while y >= n
        invariant y % n == x % n && y >= 0
      {
        AddRound(y - n, n);
        y := y - n;
      }
      QuotientIs(0, y, n, y);
    }

    method Restart()
      requires Valid()
      modifies this`state, this`zeroMarker, this`zeroFlag, fifo
      ensures Valid() && Current() == Restarted(old(Current()))
    {
      state := Zeroing;
      zeroMarker := if wrptr == 0 then fifo.Length - 1 else wrptr - 1;
      zeroFlag := true;
      fifo[zeroMarker] := 1;
    }

    method RequestInfo() returns (ptp: uint32, local: uint32)
      requires Valid()
      modifies this`ptpTs, this`localTs, this`marker
      ensures Valid() && Current() == Reported(old(Current())) && ptp == old(ptpTs) && local == old(localTs)
    {
      ptp, local := ptpTs, localTs;
      ptpTs, localTs, marker := 0, 0, NONE;
    }
  }

  /** The loop over `n` words in steps of `stride` runs once for each row. */
  lemma RowsBound(n: int, stride: int, k: int)
    requires stride > 0 && 0 <= k
    ensures 0 <= Rows(n, stride) && (Cell(k, 0, stride) < n <==> k < Rows(n, stride))
  {
    if n <= 0 {
      CellNonNegative(k, 0, stride);
      return;
    }
    var rows := Rows(n, stride);
    var rest := (n + stride - 1) % stride;
    assert n + stride - 1 == rows * stride + rest;
    if rows < 0 {
      Multiples(rows, 0, stride);
    }
    if k < rows {
      Multiples(k, rows, stride);
    } else if rows < k {
      Multiples(rows, k, stride);
    }
  }

  lemma AddRound(x: int, n: int)
    requires n > 0
    ensures (x + n) % n == x % n
  {
    QuotientIs(x / n + 1, x % n, n, x + n);
  }
}
