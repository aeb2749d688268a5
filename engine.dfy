/**
 * The per-channel streaming engine `FFTProcessor` as a class: two circular
 * FIFOs and the workspace are arrays updated in place, the cursors and the
 * coordinator's flags are fields.  Every state-changing method is proved
 * against the value-level specification in StftSpec.
 */
module Engine {
  import opened StftSpec

  // ---------------------------------------------------------------------
  // The buffer loops of one hop
  // ---------------------------------------------------------------------

  /**
   * The two-part copy of the input FIFO into the workspace: first the
   * samples from `p` to the end, then (when `p > 0`) the samples before `p`.
   */
  method CopyChronological(src: array<real>, dst: array<real>, p: nat)
    requires src != dst && p < src.Length <= dst.Length
    modifies dst
    ensures dst[..] == Stage(old(dst[..]), src[..], p)
  {
    var n := src.Length;
    ghost var work := dst[..];
    var i := 0;
    while i < n - p
      invariant 0 <= i <= n - p
      invariant forall k :: 0 <= k < i ==> dst[k] == src[p + k]
      invariant forall k :: i <= k < dst.Length ==> dst[k] == work[k]
    {
      dst[i] := src[p + i];
      i := i + 1;
    }
    if p > 0 {
      var j := 0;
      while j < p
        invariant 0 <= j <= p
        invariant forall k :: 0 <= k < n - p ==> dst[k] == src[p + k]
        invariant forall k :: n - p <= k < n - p + j ==> dst[k] == src[k - (n - p)]
        invariant forall k :: n - p + j <= k < dst.Length ==> dst[k] == work[k]
      {
        dst[n - p + j] := src[j];
        j := j + 1;
      }
    }
    StageElements(work, src[..], p);
    assert dst[..] == Stage(work, src[..], p);
  }

  /**
   * multiplyWithWindowingTable(a, n): the first `n` entries are multiplied by
   * the window table entry of the same index.
   */
  method MultiplyWithWindowingTable(a: array<real>, w: seq<real>, n: nat)
    requires n <= a.Length && n <= |w|
    modifies a
    ensures a[..] == Windowed(old(a[..]), w, n)
  {
    ghost var x := a[..];
    var i := 0;
    while i < n
      invariant 0 <= i <= n
      invariant forall k :: 0 <= k < i ==> a[k] == x[k] * w[k]
      invariant forall k :: i <= k < a.Length ==> a[k] == x[k]
    {
      a[i] := a[i] * w[i];
      i := i + 1;
    }
    assert forall k :: 0 <= k < a.Length ==> a[..][k] == Windowed(x, w, n)[k];
  }

  /** FloatVectorOperations::multiply(a, g, n): the first `n` entries are scaled by `g`. */
  method MultiplyBy(a: array<real>, g: real, n: nat)
    requires n <= a.Length
    modifies a
    ensures a[..] == Scaled(old(a[..]), g, n)
  {
    ghost var x := a[..];
    var i := 0;
    while i < n
      invariant 0 <= i <= n
      invariant forall k :: 0 <= k < i ==> a[k] == x[k] * g
      invariant forall k :: i <= k < a.Length ==> a[k] == x[k]
    {
      a[i] := a[i] * g;
      i := i + 1;
    }
    assert forall k :: 0 <= k < a.Length ==> a[..][k] == Scaled(x, g, n)[k];
  }

  /**
   * The forward transform, the spectral callback and the inverse transform,
   * applied in place to the whole workspace.
   */
  method TransformInPlace(a: array<real>, f: FrameTransform)
    modifies a
    ensures a[..] == Overlay(old(a[..]), f(old(a[..])))
  {
    var t := f(a[..]);
    var n := |t|;
    if a.Length < n {
      n := a.Length;
    }
    var i := 0;
    while i < n
      invariant 0 <= i <= n
      invariant forall k :: 0 <= k < i ==> a[k] == t[k]
      invariant forall k :: i <= k < a.Length ==> a[k] == old(a[k])
    {
      a[i] := t[i];
      i := i + 1;
    }
  }

  /**
   * The two accumulation loops: slots before `p` get the tail of the frame,
   * the slots from `p` on get its head.
   */
  method AddFrame(o: array<real>, frame: array<real>, p: nat)
    requires o != frame && p < o.Length <= frame.Length
    modifies o
    ensures o[..] == OverlapAdded(old(o[..]), frame[..], p)
  {
    var n := o.Length;
    ghost var o0 := o[..];
    var i := 0;
    while i < p
      invariant 0 <= i <= p
      invariant forall k :: 0 <= k < i ==> o[k] == o0[k] + frame[k + n - p]
      invariant forall k :: i <= k < n ==> o[k] == o0[k]
    {
      o[i] := o[i] + frame[i + n - p];
      i := i + 1;
    }
    var j := 0;
    while j < n - p
      invariant 0 <= j <= n - p
      invariant forall k :: 0 <= k < p ==> o[k] == o0[k] + frame[k + n - p]
      invariant forall k :: p <= k < p + j ==> o[k] == o0[k] + frame[k - p]
      invariant forall k :: p + j <= k < n ==> o[k] == o0[k]
    {
      o[j + p] := o[j + p] + frame[j];
      j := j + 1;
    }
    assert forall k :: 0 <= k < n ==> o[..][k] == OverlapAdded(o0, frame[..], p)[k];
  }

  /** std::fill(a.begin(), a.end(), 0.0f). */
  method FillZero(a: array<real>)
    modifies a
    ensures a[..] == Zeros(a.Length)
  {
    var i := 0;
    while i < a.Length
      invariant 0 <= i <= a.Length
      invariant forall k :: 0 <= k < i ==> a[k] == 0.0
    {
      a[i] := 0.0;
      i := i + 1;
    }
  }

  // ---------------------------------------------------------------------
  // The engine
  // ---------------------------------------------------------------------

  class FFTProcessor {
    const fftOrder: nat
    const fftSize: nat
    const hopSize: nat
    const numBins: nat
    /** The window table of `fftSize + 1` entries; only the first `fftSize` are applied. */
    const window: seq<real>
    const inputFifo: array<real>
    const outputFifo: array<real>
    const fftData: array<real>

    var overlap: int
    var windowCorrection: real
    var count: nat
    var pos: nat
    var isReady: bool
    var inUse: bool

    /** The configuration construction fixed. */
    function Cfg(): Config
    {
      Config(fftOrder, fftSize, hopSize, numBins, window)
    }

    /** The objects this engine owns. */
    function Repr(): set<object>
    {
      {this, inputFifo, outputFifo, fftData}
    }

    ghost predicate Valid()
      reads `pos, `count
    {
      && ValidConfig(Cfg())
      && inputFifo.Length == fftSize
      && outputFifo.Length == fftSize
      && fftData.Length == 2 * fftSize
      && inputFifo != outputFifo && inputFifo != fftData && outputFifo != fftData
      && pos < fftSize
      && count < hopSize
    }

    /** The stream state as a value. */
    ghost function State(): EngineState
      reads `overlap, `windowCorrection, `count, `pos, inputFifo, outputFifo, fftData
    {
      EngineState(overlap, windowCorrection, count, pos, inputFifo[..], outputFifo[..], fftData[..])
    }

    /**
     * FFTProcessor(order, overlapOrder) as the header defines it; the Hann
     * table the window object computes is passed in.
     */
    constructor (order: nat, overlapOrder: nat, hannTable: seq<real>)
      requires overlapOrder <= order
      requires |hannTable| == Pow2(order) + 1
      ensures Valid() && fresh(inputFifo) && fresh(outputFifo) && fresh(fftData)
      ensures fftOrder == order && fftSize == Pow2(order) && overlap == Pow2(overlapOrder)
      ensures hopSize == fftSize / overlap && numBins == fftSize / 2 + 1 && window == hannTable
      ensures windowCorrection == 1.0 / (0.375 * (overlap as real))
      ensures State().inputFifo == Zeros(fftSize) && State().outputFifo == Zeros(fftSize)
      ensures State().fftData == Zeros(2 * fftSize)
      ensures count == 0 && pos == 0 && isReady && !inUse
    {
      HopSizeIsPow2(order, overlapOrder);
      var n := Pow2(order);
      fftOrder := order;
      fftSize := n;
      overlap := Pow2(overlapOrder);
      hopSize := n / Pow2(overlapOrder);
      numBins := n / 2 + 1;
      window := hannTable;
      windowCorrection := 1.0 / (0.375 * (Pow2(overlapOrder) as real));
      inputFifo := new real[n](_ => 0.0);
      outputFifo := new real[n](_ => 0.0);
      fftData := new real[2 * n](_ => 0.0);
      count := 0;
      pos := 0;
      isReady := true;
      inUse := false;
    }

    /**
     * The out-of-line FFTProcessor(order, overlapOrder): its hopSize
     * initializer reads `overlap` before the body assigns it, so the hop size
     * it ends up with is not determined by the arguments and is a parameter here.
     */
    constructor OutOfLine(order: nat, overlapOrder: nat, hannTable: seq<real>, indeterminateHop: nat)
      requires indeterminateHop >= 1
      requires |hannTable| == Pow2(order) + 1
      ensures Valid() && fresh(inputFifo) && fresh(outputFifo) && fresh(fftData)
      ensures fftOrder == order && fftSize == Pow2(order) && overlap == Pow2(overlapOrder)
      ensures hopSize == indeterminateHop && numBins == fftSize / 2 + 1 && window == hannTable
      ensures windowCorrection == 1.0 / (0.33 * (overlap as real))
      ensures State().inputFifo == Zeros(fftSize) && State().outputFifo == Zeros(fftSize)
      ensures State().fftData == Zeros(2 * fftSize)
      ensures count == 0 && pos == 0 && isReady && !inUse
    {
      var n := Pow2(order);
      fftOrder := order;
      fftSize := n;
      hopSize := indeterminateHop;
      overlap := Pow2(overlapOrder);
      numBins := n / 2 + 1;
      window := hannTable;
      windowCorrection := 1.0 / (0.33 * (Pow2(overlapOrder) as real));
      inputFifo := new real[n](_ => 0.0);
      outputFifo := new real[n](_ => 0.0);
      fftData := new real[2 * n](_ => 0.0);
      count := 0;
      pos := 0;
      isReady := true;
      inUse := false;
    }

    /** reset() as the header defines it: also marks the engine ready and not in use. */
    method Reset()
      requires Valid()
      modifies `count, `pos, `isReady, `inUse, inputFifo, outputFifo
      ensures Valid()
      ensures State() == ResetOf(old(State()))
      ensures isReady && !inUse
    {
      count := 0;
      pos := 0;
      FillZero(inputFifo);
      FillZero(outputFifo);
      isReady := true;
      inUse := false;
    }

    /** The out-of-line reset(): the same, except that `inUse` is left alone. */
    method ResetOutOfLine()
      requires Valid()
      modifies `count, `pos, `isReady, inputFifo, outputFifo
      ensures Valid()
      ensures State() == ResetOf(old(State()))
      ensures isReady && inUse == old(inUse)
    {
      count := 0;
      pos := 0;
      FillZero(inputFifo);
      FillZero(outputFifo);
      isReady := true;
    }

    /**
     * handleHopSizeChange(overlapOrder): a new overlap factor and the fixed
     * correction 2/3, whatever the argument; the hop size stays as constructed.
     */
    method HandleHopSizeChange(overlapOrder: nat)
      requires Valid()
      modifies this
      ensures Valid()
      ensures State() == old(State()).(overlap := Pow2(overlapOrder), windowCorrection := 2.0 / 3.0)
      ensures isReady == old(isReady) && inUse == old(inUse)
    {
      overlap := Pow2(overlapOrder);
      windowCorrection := 2.0 / 3.0;
    }

    /** processSample(sample, bypassed, process_fn): one step of the stream. */
    method ProcessSample(sample: real, bypassed: bool, f: FrameTransform) returns (outputSample: real)
      requires Valid()
      modifies `count, `pos, inputFifo, outputFifo, fftData
      ensures Valid()
      ensures var r := Step(Cfg(), old(State()), sample, bypassed, f);
              State() == r.state && outputSample == r.output
      ensures isReady == old(isReady) && inUse == old(inUse)
    {
      ghost var s := State();
      inputFifo[pos] := sample;
      outputSample := outputFifo[pos];
      outputFifo[pos] := 0.0;
      ghost var input := inputFifo[..];
      ghost var cleared := outputFifo[..];
      assert input == s.inputFifo[s.pos := sample];
      assert cleared == s.outputFifo[s.pos := 0.0];

      pos := pos + 1;
      if pos == fftSize {
        pos := 0;
      }

      count := count + 1;
      if count == hopSize {
        count := 0;
        Hop(bypassed, f);
      }
    }

    /**
     * The hop inside processSample: stage the input FIFO chronologically
     * from the advanced cursor, window, transform unless bypassed, window,
     * scale and overlap-add into the output FIFO.
     */
    method Hop(bypassed: bool, f: FrameTransform)
      requires Valid()
      modifies outputFifo, fftData
      ensures Valid()
      ensures var frame := HopFrame(Cfg(), Stage(old(fftData[..]), inputFifo[..], pos), windowCorrection, bypassed, f);
              && fftData[..] == frame
              && outputFifo[..] == OverlapAdded(old(outputFifo[..]), frame, pos)
    {
      CopyChronological(inputFifo, fftData, pos);
      ghost var staged := fftData[..];
      MultiplyWithWindowingTable(fftData, window, fftSize);
      if !bypassed {
        TransformInPlace(fftData, f);
      }
      MultiplyWithWindowingTable(fftData, window, fftSize);
      MultiplyBy(fftData, windowCorrection, fftSize);
      assert fftData[..] == HopFrame(Cfg(), staged, windowCorrection, bypassed, f);
      AddFrame(outputFifo, fftData, pos);
    }

    /** getLatencyInSamples(): one frame. */
    method GetLatencyInSamples() returns (latency: nat)
      ensures latency == fftSize
    {
      latency := fftSize;
    }

    method IsFFTReady() returns (ready: bool)
      ensures ready == isReady
    {
      ready := isReady;
    }

    method IsFFTInUse() returns (use: bool)
      ensures use == inUse
    {
      use := inUse;
    }

    /** prepFFTForReset(): clears both flags and nothing else. */
    method PrepFFTForReset()
      requires Valid()
      modifies `isReady, `inUse
      ensures Valid() && State() == old(State())
      ensures !isReady && !inUse
    {
      isReady := false;
      inUse := false;
    }

    /** setFFTInUse(use): changes `inUse` only. */
    method SetFFTInUse(use: bool)
      requires Valid()
      modifies `inUse
      ensures Valid() && State() == old(State())
      ensures inUse == use && isReady == old(isReady)
    {
      inUse := use;
    }

    /**
     * setFFTReady(ready), which the coordinator calls on the retired engines;
     * modelled as assigning `isReady` only, mirroring setFFTInUse.
     */
    method SetFFTReady(ready: bool)
      requires Valid()
      modifies `isReady
      ensures Valid() && State() == old(State())
      ensures isReady == ready && inUse == old(inUse)
    {
      isReady := ready;
    }
  }
}
