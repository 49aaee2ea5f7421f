/** The sense capture (src/alsa.rs): the period reader against the kernel's capture buffer. */
module Capture {

  /** What a call on the device may answer instead of a result. */
  datatype Errno = EAGAIN | EPIPE | EBADFD | EINVAL

  datatype Result<T> = Ok(value: T) | Err(error: Errno)

  datatype State = Prepared | Running | Xrun

  /** Whether a transfer of `frames` is a whole period. */
  function FullPeriod(frames: int, requested: nat): (r: Result<bool>)
    ensures r.Ok? <==> 0 <= frames <= requested
    ensures r == Ok(true) <==> 0 < frames == requested
  {
    if frames < 0 then Err(EINVAL)
    else if frames > requested then Err(EINVAL)
    else Ok(frames == requested && requested != 0)
  }

  /** Every period interrupt the DMA has passed refreshes what poll() looks at. */
  function Interrupts(hw: nat, irqHw: nat, nextIrq: nat, period: nat): (nat, nat)
    requires period > 0
    decreases if hw >= nextIrq then hw - nextIrq + 1 else 0
  {
    if hw >= nextIrq then Interrupts(hw, hw, nextIrq + period, period) else (irqHw, nextIrq)
  }

  /** The next interrupt is ahead of the DMA, and the position poll() has seen less than a period behind. */
  predicate Fresh(hw: nat, irqHw: nat, nextIrq: nat, period: nat) {
    irqHw <= hw < nextIrq <= irqHw + period
  }

  lemma {:induction false} InterruptsCatchUp(hw: nat, irqHw: nat, nextIrq: nat, period: nat)
    requires period > 0 && irqHw <= hw && nextIrq <= irqHw + period
    ensures var (i, n) := Interrupts(hw, irqHw, nextIrq, period); irqHw <= i && Fresh(hw, i, n, period)
    decreases if hw >= nextIrq then hw - nextIrq + 1 else 0
  {
    if hw >= nextIrq { InterruptsCatchUp(hw, hw, nextIrq + period, period); }
  }

  /** Where the DMA says it is: whole granules of what it has written. */
  function WholeGranules(written: real, granule: nat): int
    requires granule > 0
  {
    written.Floor / granule * granule
  }

  lemma GranulesMove(a: int, b: int, granule: nat)
    requires granule > 0 && 0 <= a <= b
    ensures 0 <= a / granule * granule <= b / granule * granule
  {
    WholeDivideOrder(a, b, granule);
    WholeScaleOrder(a / granule, b / granule, granule);
  }

  lemma WholeDivideOrder(a: int, b: int, g: nat)
    requires g > 0 && 0 <= a <= b
    ensures 0 <= a / g <= b / g
  {
    var x, r, y, s := a / g, a % g, b / g, b % g;
    WholeQuotientOrder(x, r, y, s, g);
  }

  lemma WholeQuotientOrder(x: int, r: int, y: int, s: int, g: nat)
    requires 0 <= r < g && 0 <= s < g && 0 <= x * g + r <= y * g + s
    ensures 0 <= x <= y
  {
    if x < 0 { WholeScaleOrder(1, -x, g); }
    if y < x { WholeScaleOrder(1, x - y, g); }
  }

  lemma WholeScaleOrder(x: int, y: int, g: nat)
    requires 0 <= x <= y
    ensures 0 <= x * g <= y * g
  {}

  lemma AtStart(granule: nat)
    requires granule > 0
    ensures WholeGranules(0.0, granule) == 0
  {}

  /** The capture PCM as the ALSA core runs one, a frame of all channels one value. A stream is
      what runs from one prepare to the next; `dma(e, i)` is the `i`th frame of stream `e`. */
  class SimPcm {
    const period: nat
    const stop: nat
    const granule: nat
    const dma: (nat, nat) -> int
    var state: State
    var written: real
    var hw: nat
    var irqHw: nat
    var nextIrq: nat
    var appl: nat
    var overruns: nat
    /** Which stream this is, and every frame each stream so far handed over, oldest first. */
    var stream: nat
    ghost var delivered: map<nat, seq<int>>

    /** The first `n` frames of stream `e`. */
    ghost function Frames(e: nat, n: nat): (s: seq<int>)
      ensures |s| == n && forall i :: 0 <= i < n ==> s[i] == dma(e, i)
    {
      seq(n, i requires i >= 0 => dma(e, i))
    }

    /** Nothing lost, nothing repeated: each stream handed over exactly its first frames, in order. */
    ghost predicate InOrder()
      reads this
    {
      && stream in delivered
      && (forall e :: e in delivered <==> 0 <= e <= stream)
      && delivered[stream] == Frames(stream, appl)
      && forall e :: 0 <= e < stream ==> delivered[e] == Frames(e, |delivered[e]|)
    }

    ghost predicate Valid()
      reads this
    {
      && period > 0 && stop == 4 * period && granule > 0 && written >= 0.0
      && appl <= irqHw && Fresh(hw, irqHw, nextIrq, period) && hw == WholeGranules(written, granule)
      && (state == Prepared ==> hw == 0)
      && InOrder()
    }

    constructor (period: nat, granule: nat, dma: (nat, nat) -> int)
      requires period > 0
      ensures Valid() && state == Prepared && stream == 0 && delivered[0] == [] && overruns == 0
      ensures this.period == period && this.dma == dma
    {
      this.period := period;
      this.stop := 4 * period;
      this.granule := if granule > 1 then granule else 1;
      this.dma := dma;
      state := Prepared;
      written := 0.0;
      hw, irqHw, appl, overruns := 0, 0, 0, 0;
      nextIrq := period;
      stream := 0;
      delivered := map[0 := []];
    }

    /** The DMA runs on for the time of `more` frames, a fraction included. */
    method Advance(more: real)
      requires Valid() && more >= 0.0
      modifies this`state, this`written, this`hw, this`irqHw, this`nextIrq, this`overruns
      ensures Valid() && hw >= old(hw) && irqHw >= old(irqHw)
      ensures written == old(written) + (if old(state) == Running then more else 0.0)
      ensures (irqHw, nextIrq) == Interrupts(hw, old(irqHw), old(nextIrq), period)
      ensures state == if old(state) == Running && hw - appl >= stop then Xrun else old(state)
      ensures overruns == old(overruns) + (if state != old(state) then 1 else 0)
    {
      if state == Running {
        GranulesMove(written.Floor, (written + more).Floor, granule);
        written := written + more;
        assert written >= 0.0;
        hw := WholeGranules(written, granule);
        InterruptsCatchUp(hw, irqHw, nextIrq, period);
        while hw >= nextIrq
          invariant irqHw <= hw
          invariant Interrupts(hw, irqHw, nextIrq, period) == Interrupts(hw, old(irqHw), old(nextIrq), period)
          decreases hw - nextIrq
          modifies this`irqHw, this`nextIrq
        {
          irqHw := hw;
          nextIrq := nextIrq + period;
        }
        if hw - appl >= stop {
          state := Xrun;
          overruns := overruns + 1;
        }
      }
    }

    method Start() returns (r: Result<()>)
      requires Valid()
      modifies this`state
      ensures Valid()
      ensures if old(state) == Prepared then r == Ok(()) && state == Running else r == Err(EBADFD) && state == old(state)
    {
      if state != Prepared { return Err(EBADFD); }
      state := Running;
      r := Ok(());
    }

    /** A new stream, from its first frame. */
    method Prepare()
      requires Valid()
      modifies this
      ensures Valid() && state == Prepared && appl == 0 && overruns == old(overruns)
      ensures stream == old(stream) + 1 && delivered == old(delivered)[stream := []]
    {
      hide WholeGranules;
      AtStart(granule);
      state := Prepared;
      written := 0.0;
      hw, irqHw, appl := 0, 0, 0;
      nextIrq := period;
      stream := stream + 1;
      delivered := delivered[stream := []];
    }

    /** Transfers what is there, up to `frames`. */
    method Readi(buf: array<int>, frames: nat) returns (r: Result<nat>)
      requires Valid() && buf.Length >= frames && frames > 0
      modifies this`irqHw, this`appl, this`delivered, buf
      ensures Valid()
      ensures r == (if state == Xrun then Err(EPIPE)
                    else if state == Prepared || old(hw == appl) then Err(EAGAIN)
                    else Ok(if old(hw - appl) < frames then old(hw - appl) else frames))
      ensures r.Err? ==> appl == old(appl) && delivered == old(delivered)
      ensures r.Ok? ==>
        && appl == old(appl) + r.value
        && delivered == old(delivered)[stream := old(delivered[stream]) + buf[..r.value]]
    {
      hide WholeGranules;
      if state == Xrun { return Err(EPIPE); }
      if state == Prepared { return Err(EAGAIN); }
      irqHw := hw;
      var avail := hw - appl;
      if avail == 0 { return Err(EAGAIN); }
      var n := if avail < frames then avail else frames;
      var i := 0;
      while i < n
        invariant 0 <= i <= n
        invariant forall k :: 0 <= k < i ==> buf[k] == dma(stream, appl + k)
        modifies buf
      {
        buf[i] := dma(stream, appl + i);
        i := i + 1;
      }
      ghost var more := delivered[stream] + buf[..n];
      appl := appl + n;
      assert more == Frames(stream, appl);
      delivered := delivered[stream := more];
      r := Ok(n);
    }

    /** The frames captured and not yet read. */
    method Delay() returns (r: Result<nat>)
      requires Valid()
      modifies this`irqHw
      ensures Valid()
      ensures r == if state == Xrun then Err(EPIPE) else Ok(hw - appl)
    {
      if state == Xrun { return Err(EPIPE); }
      irqHw := hw;
      r := Ok(hw - appl);
    }

    /** poll(): ready on its position as of the last interrupt or read, or on an overrun; the DMA
        runs on between looks, at whatever rate. */
    method Wait(looks: nat) returns (ready: bool)
      requires Valid()
      modifies this`state, this`written, this`hw, this`irqHw, this`nextIrq, this`overruns
      ensures Valid() && hw >= old(hw)
      ensures ready ==> state == Xrun || hw - appl >= period
      ensures !ready ==> state != Xrun && hw - appl < 2 * period
      ensures state == old(state) || (old(state) == Running && state == Xrun)
      ensures overruns == old(overruns) + (if state != old(state) then 1 else 0)
    {
      var left := looks;
      while true
        invariant Valid() && hw >= old(hw)
        invariant state == old(state) || (old(state) == Running && state == Xrun)
        invariant overruns == old(overruns) + (if state != old(state) then 1 else 0)
        decreases left
      {
        if state == Xrun || irqHw - appl >= period { return true; }
        if left == 0 { return false; }
        var more: real := *;
        Advance(if more >= 0.0 then more else 0.0);
        left := left - 1;
      }
    }
  }

  /** The reader: a read is only issued once a whole period is there. */
  class PeriodReader {
    const io: SimPcm
    const period: nat
    var started: bool

    ghost predicate Valid()
      reads this, io
    {
      io.Valid() && period == io.period && (started <==> io.state != Prepared)
    }

    constructor (io: SimPcm)
      requires io.Valid() && io.state == Prepared
      ensures Valid() && this.io == io && !started
    {
      this.io := io;
      this.period := io.period;
      started := false;
    }

    method EnsureStarted() returns (r: Result<()>)
      requires Valid()
      modifies this`started, io`state
      ensures Valid() && r == Ok(()) && started
      ensures old(started) ==> io.state == old(io.state)
      ensures !old(started) ==> io.state == Running
    {
      if !started {
        r := io.Start();
        started := r.Ok?;
      } else {
        r := Ok(());
      }
    }

    /** A period read: whole, or an overrun, which starts a new stream; or nothing yet. Anything
        may have happened to the capture between the wait and the read. */
    method ReadReady(buf: array<int>) returns (r: Result<(bool, bool)>)
      requires Valid() && buf.Length >= period && started
      requires io.state == Xrun || io.hw - io.appl >= period
      modifies this`started, io, buf
      ensures Valid() && r.Ok? && r.value.0
      ensures !r.value.1 <==> old(io.state) == Xrun
      ensures r.value.1 ==>
        && io.appl == old(io.appl) + period && io.stream == old(io.stream) && started
        && io.delivered == old(io.delivered)[io.stream := old(io.delivered[io.stream]) + buf[..period]]
      ensures !r.value.1 ==>
        && !started && io.stream == old(io.stream) + 1
        && io.delivered == old(io.delivered)[io.stream := []]
      ensures io.overruns == old(io.overruns)
    {
      var got := io.Readi(buf, period);
      match got {
        case Ok(frames) =>
          match FullPeriod(frames, period) {
            case Ok(whole) => r := Ok((true, whole));
            case Err(e) => r := Err(e);
          }
        case Err(e) =>
          if e == EAGAIN { return Ok((false, false)); }
          if e == EPIPE {
            io.Prepare();
            started := false;
            return Ok((true, false));
          }
          r := Err(e);
      }
    }

    /** Against this kernel, whatever the DMA does while it waits: no error; an incomplete period
        (the first flag set, the second not) only for an overrun, once for each; a complete one
        is exactly the stream's next `period` frames; nothing yet leaves everything as it was. */
    method ReadPeriodWithin(buf: array<int>, looks: nat) returns (r: Result<(bool, bool)>)
      requires Valid() && buf.Length >= period
      modifies this`started, io, buf
      ensures Valid() && r.Ok?
      ensures r.value == (false, false) ==>
        && io.stream == old(io.stream) && io.delivered == old(io.delivered)
        && started && io.state == Running && io.hw - io.appl < 2 * period
      ensures r.value.0 && !r.value.1 ==>
        && (old(io.state) == Xrun || io.overruns == old(io.overruns) + 1)
        && io.stream == old(io.stream) + 1 && io.delivered == old(io.delivered)[io.stream := []]
      ensures r.value.0 && r.value.1 ==>
        && io.stream == old(io.stream) && io.overruns == old(io.overruns)
        && io.delivered == old(io.delivered)[io.stream := old(io.delivered[io.stream]) + buf[..period]]
      ensures r.value.1 ==> r.value.0
    {
      var s := EnsureStarted();
      match s {
        case Err(e) => r := Err(e);
        case Ok(_) =>
          var ready := io.Wait(looks);
          if !ready { return Ok((false, false)); }
          r := ReadReady(buf);
      }
    }

    /** How much of it there is: none before the stream runs or after an overrun. */
    function Tail(): nat
      requires io.appl <= io.hw
      reads this, io
    {
      if !started || io.state != Running then 0 else if io.hw - io.appl < period then io.hw - io.appl else period
    }

    /** What the capture holds now, up to a period: the stream's next frames, however few. */
    method ReadTail(buf: array<int>) returns (r: Result<nat>)
      requires Valid() && buf.Length >= period
      modifies io`irqHw, io`appl, io`delivered, buf
      ensures Valid() && r.Ok? && r.value <= period
      ensures old(io.appl <= io.hw) && r.value == old(Tail())
      ensures r.value == 0 ==> io.delivered == old(io.delivered)
      ensures r.value > 0 ==>
        io.delivered == old(io.delivered)[io.stream := old(io.delivered[io.stream]) + buf[..r.value]]
    {
      if !started { return Ok(0); }
      var got := io.Readi(buf, period);
      match got {
        case Ok(frames) => r := Ok(if frames < period then frames else period);
        case Err(e) => r := if e == EAGAIN || e == EPIPE || e == EBADFD then Ok(0) else Err(e);
      }
    }

    /** The frames the capture holds beyond what has been read. */
    method Queued() returns (r: Result<nat>)
      requires Valid()
      modifies io`irqHw
      ensures Valid()
      ensures r == if io.state == Xrun then Err(EPIPE) else Ok(io.hw - io.appl)
    {
      r := io.Delay();
    }
  }
}
