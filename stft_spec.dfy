/**
 * Value-level specification of one channel of the streaming short-time
 * Fourier transform engine ("FFTProcessor"): the configuration fixed at
 * construction, the buffered stream state, one call of processSample as a
 * function of the old state, and a run of processSample over a block.
 *
 * Samples are `real`: single-precision rounding is not modelled.  The
 * forward transform, the caller's spectral callback and the inverse
 * transform of a hop are one abstract length-preserving frame transform.
 */
module StftSpec {

  // ---------------------------------------------------------------------
  // Integer helpers
  // ---------------------------------------------------------------------

  /** `1 << n` for a shift that does not overflow. */
  function Pow2(n: nat): (r: nat)
    ensures r >= 1
  {
    if n == 0 then 1 else 2 * Pow2(n - 1)
  }

  lemma {:induction false} Pow2Add(a: nat, b: nat)
    ensures Pow2(a + b) == Pow2(a) * Pow2(b)
  {
    if b > 0 {
      Pow2Add(a, b - 1);
      assert Pow2(a + b) == 2 * Pow2(a + (b - 1));
      assert Pow2(b) == 2 * Pow2(b - 1);
    }
  }

  lemma MulAtLeast(a: int, n: int)
    requires a >= 1 && n > 0
    ensures a * n >= n
  {
  }

  /** Euclidean division is determined by quotient and remainder. */
  lemma DivModUnique(x: int, n: int, q: int, r: int)
    requires n > 0 && 0 <= r < n && x == q * n + r
    ensures x / n == q && x % n == r
  {
    var q0, r0 := x / n, x % n;
    assert (q - q0) * n == r0 - r;
    assert (q0 - q) * n == r - r0;
    if q > q0 { MulAtLeast(q - q0, n); assert false; }
    if q < q0 { MulAtLeast(q0 - q, n); assert false; }
  }

  /**
   * With power-of-two frame and overlap sizes, `fftSize / overlap` is exact
   * and at least 1 as long as the overlap order does not exceed the frame order.
   */
  lemma HopSizeIsPow2(order: nat, overlapOrder: nat)
    requires overlapOrder <= order
    ensures Pow2(order) / Pow2(overlapOrder) == Pow2(order - overlapOrder)
    ensures Pow2(order) / Pow2(overlapOrder) >= 1
    ensures Pow2(order - overlapOrder) * Pow2(overlapOrder) == Pow2(order)
  {
    Pow2Add(order - overlapOrder, overlapOrder);
    DivModUnique(Pow2(order), Pow2(overlapOrder), Pow2(order - overlapOrder), 0);
  }

  /** The cursor step `i += 1; if (i == n) i = 0;` used for `pos` and `count`. */
  function Wrap(i: nat, n: nat): (r: nat)
    ensures i < n ==> r < n
  {
    if i + 1 == n then 0 else i + 1
  }

  /** The cursor step is the successor modulo `n`. */
  lemma WrapIsMod(i: nat, n: nat)
    requires i < n
    ensures Wrap(i, n) == (i + 1) % n
  {
    if i + 1 == n { DivModUnique(i + 1, n, 1, 0); } else { DivModUnique(i + 1, n, 0, i + 1); }
  }

  /**
   * The offset `(k - p) mod n` written without `%`: the frame entry that a
   * hop starting at cursor `p` adds onto slot `k`.
   */
  function Offset(k: nat, p: nat, n: nat): (r: nat)
    requires k < n && p < n
    ensures r < n
  {
    if k < p then k + n - p else k - p
  }

  /** `Offset` is subtraction modulo `n`, and adding `p` back gives `k`. */
  lemma OffsetIsMod(k: nat, p: nat, n: nat)
    requires k < n && p < n
    ensures Offset(k, p, n) == (k + n - p) % n
    ensures (p + Offset(k, p, n)) % n == k
  {
    if k < p {
      DivModUnique(k + n - p, n, 0, k + n - p);
      DivModUnique(k + n, n, 1, k);
    } else {
      DivModUnique(k + n - p, n, 1, k - p);
      DivModUnique(k, n, 0, k);
    }
  }

  lemma SuccDivMod(x: nat, h: nat)
    requires h >= 1
    ensures (x + 1) % h == Wrap(x % h, h)
    ensures (x + 1) / h == x / h + (if x % h + 1 == h then 1 else 0)
  {
    var q, r := x / h, x % h;
    if r + 1 == h {
      DivModUnique(x + 1, h, q + 1, 0);
    } else {
      DivModUnique(x + 1, h, q, r + 1);
    }
  }

  lemma ModBelowTwice(x: int, n: int)
    requires 0 < n && 0 <= x < 2 * n
    ensures x % n == (if x < n then x else x - n)
  {
    if x < n { DivModUnique(x, n, 0, x); } else { DivModUnique(x, n, 1, x - n); }
  }

  // ---------------------------------------------------------------------
  // Configuration and stream state
  // ---------------------------------------------------------------------

  /** What construction fixes: order, frame size, hop size, bin count, window table. */
  datatype Config = Config(fftOrder: nat, fftSize: nat, hopSize: nat, numBins: nat, window: seq<real>)

  predicate ValidConfig(c: Config)
  {
    c.fftSize >= 1 && c.hopSize >= 1 && |c.window| == c.fftSize + 1
  }

  /**
   * The mutable stream state of one engine: overlap factor, window
   * correction, hop counter, the shared cursor, both FIFOs and the
   * workspace.  The coordinator's ready/in-use flags are not part of it.
   */
  datatype EngineState = EngineState(
    overlap: int,
    windowCorrection: real,
    count: nat,
    pos: nat,
    inputFifo: seq<real>,
    outputFifo: seq<real>,
    fftData: seq<real>)

  /** Buffer sizes and cursor bounds: `0 <= pos < fftSize`, `0 <= count < hopSize`. */
  predicate Inv(c: Config, s: EngineState)
  {
    && ValidConfig(c)
    && |s.inputFifo| == c.fftSize
    && |s.outputFifo| == c.fftSize
    && |s.fftData| == 2 * c.fftSize
    && s.pos < c.fftSize
    && s.count < c.hopSize
  }

  /**
   * The forward transform, the caller's spectral callback and the inverse
   * transform of one hop, taken together: any function on the workspace.
   * They work in place on a buffer of fixed size, so what the function
   * returns is written over the workspace (see Overlay).
   */
  type FrameTransform = seq<real> -> seq<real>

  /**
   * `t` written over `x` in place: the length of `x`, the entries of `t`
   * where it has them and those of `x` beyond them.
   */
  function Overlay(x: seq<real>, t: seq<real>): (r: seq<real>)
    ensures |r| == |x|
    ensures forall i :: 0 <= i < |x| ==> r[i] == (if i < |t| then t[i] else x[i])
    ensures |t| == |x| ==> r == t
  {
    seq(|x|, i requires 0 <= i < |x| => if i < |t| then t[i] else x[i])
  }

  function Zeros(n: nat): (r: seq<real>)
    ensures |r| == n && forall i :: 0 <= i < n ==> r[i] == 0.0
  {
    seq(n, _ => 0.0)
  }

  // ---------------------------------------------------------------------
  // The pieces of a hop
  // ---------------------------------------------------------------------

  /**
   * The circular buffer `s` read in chronological order when its oldest
   * sample sits at `start`: the two-part wrap-around copy.
   */
  function Rotate(s: seq<real>, start: nat): (r: seq<real>)
    requires start < |s|
    ensures |r| == |s|
    ensures forall i :: 0 <= i < |s| - start ==> r[i] == s[start + i]
    ensures forall i :: |s| - start <= i < |s| ==> r[i] == s[start + i - |s|]
  {
    s[start..] + s[..start]
  }

  /** The rotation reads the buffer at `(start + i) mod |s|`. */
  lemma RotateIsModular(s: seq<real>, start: nat, i: nat)
    requires start < |s| && i < |s|
    ensures Rotate(s, start)[i] == s[(start + i) % |s|]
  {
    ModBelowTwice(start + i, |s|);
  }

  /** Sample `k` of the buffer lands `(k - start) mod |s|` entries into the rotation. */
  lemma RotateAtOffset(s: seq<real>, start: nat, k: nat)
    requires start < |s| && k < |s|
    ensures Rotate(s, start)[Offset(k, start, |s|)] == s[k]
  {
  }

  /** The workspace after the input FIFO has been copied into its first `|input|` slots. */
  function Stage(work: seq<real>, input: seq<real>, pos: nat): (r: seq<real>)
    requires pos < |input| <= |work|
    ensures |r| == |work|
    ensures r[..|input|] == Rotate(input, pos)
    ensures r[|input|..] == work[|input|..]
  {
    Rotate(input, pos) + work[|input|..]
  }

  /** The staged workspace entry by entry, as the two copies and the untouched upper part give it. */
  lemma StageElements(work: seq<real>, input: seq<real>, pos: nat)
    requires pos < |input| <= |work|
    ensures forall k :: 0 <= k < |input| - pos ==> Stage(work, input, pos)[k] == input[pos + k]
    ensures forall k :: |input| - pos <= k < |input| ==> Stage(work, input, pos)[k] == input[k - (|input| - pos)]
    ensures forall k :: |input| <= k < |work| ==> Stage(work, input, pos)[k] == work[k]
  {
    var r := Stage(work, input, pos);
    assert forall k :: 0 <= k < |input| ==> r[k] == r[..|input|][k];
    assert forall k :: |input| <= k < |work| ==> r[k] == r[|input|..][k - |input|];
  }

  /** Element-wise multiplication of the first `n` entries of `x` by the window table. */
  function Windowed(x: seq<real>, w: seq<real>, n: nat): (r: seq<real>)
    requires n <= |x| && n <= |w|
    ensures |r| == |x| && r[n..] == x[n..]
    ensures forall i :: 0 <= i < n ==> r[i] == x[i] * w[i]
  {
    seq(|x|, i requires 0 <= i < |x| => if i < n then x[i] * w[i] else x[i])
  }

  /** Multiplication of the first `n` entries of `x` by the gain `g`. */
  function Scaled(x: seq<real>, g: real, n: nat): (r: seq<real>)
    requires n <= |x|
    ensures |r| == |x| && r[n..] == x[n..]
    ensures forall i :: 0 <= i < n ==> r[i] == x[i] * g
  {
    seq(|x|, i requires 0 <= i < |x| => if i < n then x[i] * g else x[i])
  }

  /** A sample that skips the transform: analysis window, synthesis window, correction. */
  function Synthesised(x: real, w: real, wc: real): real
  {
    x * w * w * wc
  }

  /**
   * The frame one hop produces from the staged workspace: analysis window,
   * the frame transform unless bypassed, synthesis window, window correction.
   */
  function HopFrame(c: Config, staged: seq<real>, wc: real, bypassed: bool, f: FrameTransform): (r: seq<real>)
    requires ValidConfig(c) && |staged| == 2 * c.fftSize
    ensures |r| == |staged|
    ensures bypassed ==>
      forall i :: 0 <= i < c.fftSize ==> r[i] == Synthesised(staged[i], c.window[i], wc)
    ensures bypassed ==> r[c.fftSize..] == staged[c.fftSize..]
  {
    var analysed := Windowed(staged, c.window, c.fftSize);
    var transformed := if bypassed then analysed else Overlay(analysed, f(analysed));
    var r := Scaled(Windowed(transformed, c.window, c.fftSize), wc, c.fftSize);
    assert bypassed ==> r[c.fftSize..] == staged[c.fftSize..];
    r
  }

  /**
   * The accumulation into the output FIFO: slot `k` gets exactly one
   * addition, of frame entry `Offset(k, p, |o|)`.
   */
  function OverlapAdded(o: seq<real>, frame: seq<real>, p: nat): (r: seq<real>)
    requires p < |o| <= |frame|
    ensures |r| == |o|
    ensures forall d {:trigger Slot(p, d, |o|)} :: 0 <= d < |o| ==> r[Slot(p, d, |o|)] == o[Slot(p, d, |o|)] + frame[d]
  {
    SlotOffset(p, |o|);
    seq(|o|, k requires 0 <= k < |o| => o[k] + frame[Offset(k, p, |o|)])
  }

  /** The slot `d` places after cursor `p`, around a ring of `n`. */
  function Slot(p: nat, d: nat, n: nat): (r: nat)
    requires p < n && d < n
    ensures r < n
  {
    (p + d) % n
  }

  /** `Offset` from `p` undoes `Slot` from `p`. */
  lemma SlotOffset(p: nat, n: nat)
    requires p < n
    ensures forall d :: 0 <= d < n ==> Offset(Slot(p, d, n), p, n) == d
  {
    forall d | 0 <= d < n
      ensures Offset(Slot(p, d, n), p, n) == d
    {
      ModBelowTwice(p + d, n);
    }
  }

  /** The frame offset added onto slot `k` is `(k - p) mod |o|`. */
  lemma OverlapAddedIsModular(o: seq<real>, frame: seq<real>, p: nat, k: nat)
    requires p < |o| <= |frame| && k < |o|
    ensures OverlapAdded(o, frame, p)[k] == o[k] + frame[(k + |o| - p) % |o|]
  {
    OffsetIsMod(k, p, |o|);
  }

  // ---------------------------------------------------------------------
  // processSample and runs of it
  // ---------------------------------------------------------------------

  predicate HopDue(count: nat, hopSize: nat)
  {
    count + 1 == hopSize
  }

  /** New state, returned sample, and whether this call completed a hop. */
  datatype StepResult = StepResult(state: EngineState, output: real, hop: bool)

  /** One call of processSample(x, bypassed, f). */
  function Step(c: Config, s: EngineState, x: real, bypassed: bool, f: FrameTransform): (r: StepResult)
    requires Inv(c, s)
    ensures Inv(c, r.state)
    ensures r.hop <==> HopDue(s.count, c.hopSize)
    ensures r.state.pos == Wrap(s.pos, c.fftSize) && r.state.count == Wrap(s.count, c.hopSize)
  {
    var input := s.inputFifo[s.pos := x];
    var cleared := s.outputFifo[s.pos := 0.0];
    var pos := Wrap(s.pos, c.fftSize);
    if !HopDue(s.count, c.hopSize) then
      StepResult(s.(inputFifo := input, outputFifo := cleared, pos := pos, count := s.count + 1),
                 s.outputFifo[s.pos], false)
    else
      var frame := HopFrame(c, Stage(s.fftData, input, pos), s.windowCorrection, bypassed, f);
      StepResult(s.(inputFifo := input, outputFifo := OverlapAdded(cleared, frame, pos),
                    fftData := frame, pos := pos, count := 0),
                 s.outputFifo[s.pos], true)
  }

  /** Final state, returned samples, hops completed and frame-transform calls over a block. */
  datatype RunResult = RunResult(state: EngineState, outputs: seq<real>, hops: nat, calls: nat)

  /** processSample applied to every sample of `xs` in order. */
  function Run(c: Config, s: EngineState, xs: seq<real>, bypassed: bool, f: FrameTransform): (r: RunResult)
    requires Inv(c, s)
    ensures Inv(c, r.state) && |r.outputs| == |xs|
    ensures r.calls == (if bypassed then 0 else r.hops)
    decreases |xs|
  {
    if xs == [] then RunResult(s, [], 0, 0)
    else
      var prev := Run(c, s, xs[..|xs| - 1], bypassed, f);
      var st := Step(c, prev.state, xs[|xs| - 1], bypassed, f);
      var fired := if st.hop then 1 else 0;
      RunResult(st.state, prev.outputs + [st.output], prev.hops + fired,
                prev.calls + (if bypassed then 0 else fired))
  }

  /** The stream state after reset(): cursors at 0, both FIFOs zero-filled. */
  function ResetOf(s: EngineState): (r: EngineState)
    ensures r.overlap == s.overlap && r.windowCorrection == s.windowCorrection && r.fftData == s.fftData
  {
    s.(count := 0, pos := 0, inputFifo := Zeros(|s.inputFifo|), outputFifo := Zeros(|s.outputFifo|))
  }

  predicate IsQuiet(s: EngineState)
  {
    s.count == 0 && s.pos == 0
    && (forall k :: 0 <= k < |s.inputFifo| ==> s.inputFifo[k] == 0.0)
    && (forall k :: 0 <= k < |s.outputFifo| ==> s.outputFifo[k] == 0.0)
  }

  // ---------------------------------------------------------------------
  // Properties
  // ---------------------------------------------------------------------

  /** Resetting a reset state changes nothing, and reset keeps the invariant. */
  lemma ResetIdempotent(c: Config, s: EngineState)
    ensures ResetOf(ResetOf(s)) == ResetOf(s)
    ensures IsQuiet(ResetOf(s))
    ensures Inv(c, s) ==> Inv(c, ResetOf(s))
  {
  }

  /**
   * One call: the returned sample is the pending output at the old cursor,
   * the input is stored there, the cursors advance modulo fftSize and
   * hopSize, and a call that does not complete a hop changes only the two
   * slots at the old cursor.
   */
  lemma StepBookkeeping(c: Config, s: EngineState, x: real, bypassed: bool, f: FrameTransform)
    requires Inv(c, s)
    ensures var r := Step(c, s, x, bypassed, f);
      && r.output == s.outputFifo[s.pos]
      && r.state.inputFifo == s.inputFifo[s.pos := x]
      && r.state.pos == (s.pos + 1) % c.fftSize
      && r.state.count == (s.count + 1) % c.hopSize
      && r.state.overlap == s.overlap && r.state.windowCorrection == s.windowCorrection
      && (!r.hop ==> r.state.outputFifo == s.outputFifo[s.pos := 0.0] && r.state.fftData == s.fftData)
      && (r.hop ==> r.state.fftData
                    == HopFrame(c, Stage(s.fftData, s.inputFifo[s.pos := x], Wrap(s.pos, c.fftSize)), s.windowCorrection, bypassed, f))
  {
    WrapIsMod(s.pos, c.fftSize);
    WrapIsMod(s.count, c.hopSize);
    var r := Step(c, s, x, bypassed, f);
    assert r.state.pos == Wrap(s.pos, c.fftSize) && r.state.count == Wrap(s.count, c.hopSize);
    if HopDue(s.count, c.hopSize) {
      assert r.hop;
    } else {
      assert !r.hop;
    }
  }

  /**
   * On a hop, the first fftSize workspace entries before windowing are the
   * input FIFO in chronological order, starting at the already advanced
   * cursor, and the upper half of the workspace is left as it was.
   */
  lemma HopStagesChronologically(c: Config, s: EngineState, x: real, i: nat)
    requires Inv(c, s) && HopDue(s.count, c.hopSize) && i < c.fftSize
    ensures var input := s.inputFifo[s.pos := x];
            var p := Wrap(s.pos, c.fftSize);
            var staged := Stage(s.fftData, input, p);
            && staged[i] == input[(p + i) % c.fftSize]
            && staged[c.fftSize..] == s.fftData[c.fftSize..]
  {
    var input := s.inputFifo[s.pos := x];
    var p := Wrap(s.pos, c.fftSize);
    RotateIsModular(input, p, i);
    assert Stage(s.fftData, input, p)[i] == Stage(s.fftData, input, p)[..c.fftSize][i];
  }

  /**
   * On a hop, output slot `k` gets exactly one addition: frame entry
   * `Offset(k, pos, fftSize)`, that is `(k - pos) mod fftSize` (OffsetIsMod),
   * where `pos` is the already advanced cursor.
   */
  lemma HopOverlapAddAt(c: Config, s: EngineState, x: real, bypassed: bool, f: FrameTransform, k: nat)
    requires Inv(c, s) && HopDue(s.count, c.hopSize) && k < c.fftSize
    ensures var p := Wrap(s.pos, c.fftSize);
            var frame := HopFrame(c, Stage(s.fftData, s.inputFifo[s.pos := x], p), s.windowCorrection, bypassed, f);
            Step(c, s, x, bypassed, f).state.outputFifo[k] == s.outputFifo[s.pos := 0.0][k] + frame[Offset(k, p, c.fftSize)]
  {
  }

  lemma HopFrameBypassAt(c: Config, staged: seq<real>, wc: real, f: FrameTransform, d: nat)
    requires ValidConfig(c) && |staged| == 2 * c.fftSize && d < c.fftSize
    ensures HopFrame(c, staged, wc, true, f)[d] == Synthesised(staged[d], c.window[d], wc)
  {
  }

  /**
   * A bypassed frame, read at the offset that lands on output slot `k`, is
   * the input sample of slot `k` times the squared window and the correction.
   */
  lemma BypassFrameAt(c: Config, work: seq<real>, input: seq<real>, p: nat, wc: real, f: FrameTransform, k: nat)
    requires ValidConfig(c) && |work| == 2 * c.fftSize && |input| == c.fftSize && p < c.fftSize && k < c.fftSize
    ensures var d := Offset(k, p, c.fftSize);
            HopFrame(c, Stage(work, input, p), wc, true, f)[d] == Synthesised(input[k], c.window[d], wc)
  {
    var staged := Stage(work, input, p);
    var d := Offset(k, p, c.fftSize);
    RotateAtOffset(input, p, k);
    assert staged[d] == staged[..c.fftSize][d];
    HopFrameBypassAt(c, staged, wc, f, d);
  }

  /**
   * Bypassed hop: output slot `k` receives exactly the input sample stored at
   * slot `k`, times the squared window at its frame offset and the window
   * correction, on top of the cleared pending value.
   */
  lemma BypassHopContribution(c: Config, s: EngineState, x: real, f: FrameTransform, k: nat)
    requires Inv(c, s) && HopDue(s.count, c.hopSize) && k < c.fftSize
    ensures var r := Step(c, s, x, true, f);
            var d := Offset(k, r.state.pos, c.fftSize);
            r.state.outputFifo[k]
            == s.outputFifo[s.pos := 0.0][k] + Synthesised(s.inputFifo[s.pos := x][k], c.window[d], s.windowCorrection)
  {
    BypassFrameAt(c, s.fftData, s.inputFifo[s.pos := x], Wrap(s.pos, c.fftSize), s.windowCorrection, f, k);
  }

  lemma ModRevisit(p: nat, l: nat, n: nat)
    requires p < n && 0 < l <= n
    ensures (p + l) % n == p <==> l == n
  {
    ModBelowTwice(p + l, n);
  }

  /** `j` steps of the cursor step `Wrap` from `i`. */
  function Advance(i: nat, n: nat, j: nat): nat
  {
    if j == 0 then i else Wrap(Advance(i, n, j - 1), n)
  }

  /** How many of `j` steps of the hop counter from `i` complete a hop. */
  function HopsIn(i: nat, h: nat, j: nat): nat
  {
    if j == 0 then 0 else HopsIn(i, h, j - 1) + (if HopDue(Advance(i, h, j - 1), h) then 1 else 0)
  }

  lemma {:induction false} AdvanceIsMod(i: nat, n: nat, j: nat)
    requires i < n
    ensures Advance(i, n, j) == (i + j) % n
    ensures HopsIn(i, n, j) == (i + j) / n
  {
    if j == 0 {
      DivModUnique(i, n, 0, i);
    } else {
      AdvanceIsMod(i, n, j - 1);
      SuccDivMod(i + j - 1, n);
    }
  }

  /** A run over one more sample is the run followed by one step. */
  lemma RunExtend(c: Config, s: EngineState, xs: seq<real>, x: real, bypassed: bool, f: FrameTransform)
    requires Inv(c, s)
    ensures var prev := Run(c, s, xs, bypassed, f);
      var st := Step(c, prev.state, x, bypassed, f);
      var r := Run(c, s, xs + [x], bypassed, f);
      r.state == st.state && r.outputs == prev.outputs + [st.output]
  {
    assert (xs + [x])[..|xs|] == xs;
  }

  /** A run moves both cursors as `j` independent steps of `Wrap` and counts its hops. */
  lemma {:induction false} RunSteps(c: Config, s: EngineState, xs: seq<real>, bypassed: bool, f: FrameTransform)
    requires Inv(c, s)
    ensures var r := Run(c, s, xs, bypassed, f);
      && r.state.pos == Advance(s.pos, c.fftSize, |xs|)
      && r.state.count == Advance(s.count, c.hopSize, |xs|)
      && r.hops == HopsIn(s.count, c.hopSize, |xs|)
      && r.state.overlap == s.overlap && r.state.windowCorrection == s.windowCorrection
    decreases |xs|
  {
    if xs != [] {
      var m := |xs| - 1;
      RunSteps(c, s, xs[..m], bypassed, f);
    }
  }

  /** Over a block of L samples the shared cursor advances by L modulo fftSize. */
  lemma RunCursor(c: Config, s: EngineState, xs: seq<real>, bypassed: bool, f: FrameTransform)
    requires Inv(c, s)
    ensures Run(c, s, xs, bypassed, f).state.pos == (s.pos + |xs|) % c.fftSize
  {
    AdvanceIsMod(s.pos, c.fftSize, |xs|);
    assert (s.pos + |xs|) % c.fftSize == Advance(s.pos, c.fftSize, |xs|);
    RunSteps(c, s, xs, bypassed, f);
  }

  /**
   * Over a block of L samples the hop counter advances by L modulo hopSize,
   * and exactly (count + L) / hopSize hops complete.
   */
  lemma RunHops(c: Config, s: EngineState, xs: seq<real>, bypassed: bool, f: FrameTransform)
    requires Inv(c, s)
    ensures Run(c, s, xs, bypassed, f).state.count == (s.count + |xs|) % c.hopSize
    ensures Run(c, s, xs, bypassed, f).hops == (s.count + |xs|) / c.hopSize
  {
    AdvanceIsMod(s.count, c.hopSize, |xs|);
    assert (s.count + |xs|) % c.hopSize == Advance(s.count, c.hopSize, |xs|);
    assert (s.count + |xs|) / c.hopSize == HopsIn(s.count, c.hopSize, |xs|);
    RunSteps(c, s, xs, bypassed, f);
  }

  /**
   * Starting from reset (count 0) and not bypassed, the frame transform is
   * called exactly floor(L / hopSize) times over L samples.
   */
  lemma TransformCallsFromReset(c: Config, s: EngineState, xs: seq<real>, f: FrameTransform)
    requires Inv(c, s) && s.count == 0
    ensures Run(c, s, xs, false, f).calls == |xs| / c.hopSize
  {
    RunHops(c, s, xs, false, f);
  }

  /**
   * The slot a sample is written to is read again exactly fftSize samples
   * later and not before: the latency the engine reports.
   */
  lemma LatencyRevisit(c: Config, s: EngineState, xs: seq<real>, bypassed: bool, f: FrameTransform)
    requires Inv(c, s) && 0 < |xs| <= c.fftSize
    ensures Run(c, s, xs, bypassed, f).state.pos == s.pos <==> |xs| == c.fftSize
  {
    ModRevisit(s.pos, |xs|, c.fftSize);
    assert (s.pos + |xs|) % c.fftSize == s.pos <==> |xs| == c.fftSize;
    RunCursor(c, s, xs, bypassed, f);
  }

  /** The slots from `m` on still hold zero in both FIFOs. */
  predicate UntouchedFrom(s: EngineState, m: nat)
  {
    && (forall k :: m <= k < |s.inputFifo| ==> s.inputFifo[k] == 0.0)
    && (forall k :: m <= k < |s.outputFifo| ==> s.outputFifo[k] == 0.0)
  }

  /**
   * One bypassed call at cursor `m` with the slots from `m` on untouched
   * returns zero and leaves the slots from `m + 1` on untouched.
   */
  lemma BypassQuietStep(c: Config, s: EngineState, x: real, f: FrameTransform)
    requires Inv(c, s) && UntouchedFrom(s, s.pos)
    ensures var r := Step(c, s, x, true, f);
      && r.output == 0.0
      && UntouchedFrom(r.state, s.pos + 1)
  {
    var r := Step(c, s, x, true, f);
    forall k | s.pos + 1 <= k < c.fftSize
      ensures r.state.inputFifo[k] == 0.0 && r.state.outputFifo[k] == 0.0
    {
      if r.hop {
        BypassHopContribution(c, s, x, f, k);
      }
    }
  }

  /**
   * Bypassed, the first fftSize samples returned after a reset are zero,
   * whatever the input: no contribution reaches a slot before the cursor
   * comes back to it.  (Strengthened form used for the induction: the slots
   * the cursor has not reached yet still hold zero in both FIFOs.)
   */
  lemma {:induction false} BypassSilentAfterReset(c: Config, s: EngineState, xs: seq<real>, f: FrameTransform)
    requires Inv(c, s) && IsQuiet(s) && |xs| <= c.fftSize
    ensures var r := Run(c, s, xs, true, f);
      && (forall i :: 0 <= i < |xs| ==> r.outputs[i] == 0.0)
      && (|xs| < c.fftSize ==> r.state.pos == |xs|)
      && UntouchedFrom(r.state, |xs|)
    decreases |xs|
  {
    if xs != [] {
      var m := |xs| - 1;
      BypassSilentAfterReset(c, s, xs[..m], f);
      var prev := Run(c, s, xs[..m], true, f);
      assert prev.state.pos == m;
      BypassQuietStep(c, prev.state, xs[m], f);
      var st := Step(c, prev.state, xs[m], true, f);
      var r := Run(c, s, xs, true, f);
      assert r.state == st.state && r.outputs == prev.outputs + [st.output];
      assert st.state.pos == Wrap(m, c.fftSize);
    }
  }

  // ---------------------------------------------------------------------
  // Latency: a sample comes back fftSize calls after it went in
  // ---------------------------------------------------------------------

  /**
   * What the bypassed engine returns for sample `x`: the sum, over the hops
   * among the `m` calls counted from hop counter `k`, of `x` times the
   * squared window entry that hop applies to it and the correction.  The
   * hop of call `i` sees `x` at frame offset `fftSize - 1 - i`.
   */
  function Echo(c: Config, x: real, wc: real, k: nat, m: nat): real
    requires ValidConfig(c) && m <= c.fftSize
  {
    if m == 0 then 0.0
    else Echo(c, x, wc, k, m - 1)
         + (if HopDue(Advance(k, c.hopSize, m - 1), c.hopSize) then Synthesised(x, c.window[c.fftSize - m], wc) else 0.0)
  }

  /** The sum of the squared window entries those hops apply. */
  function WindowGain(c: Config, k: nat, m: nat): real
    requires ValidConfig(c) && m <= c.fftSize
  {
    if m == 0 then 0.0
    else WindowGain(c, k, m - 1)
         + (if HopDue(Advance(k, c.hopSize, m - 1), c.hopSize) then c.window[c.fftSize - m] * c.window[c.fftSize - m] else 0.0)
  }

  /** The echo is the sample times the correction times the window gain. */
  lemma {:induction false} EchoFactors(c: Config, x: real, wc: real, k: nat, m: nat)
    requires ValidConfig(c) && m <= c.fftSize
    ensures Echo(c, x, wc, k, m) == x * wc * WindowGain(c, k, m)
  {
    if m > 0 {
      EchoFactors(c, x, wc, k, m - 1);
      var w := c.window[c.fftSize - m];
      assert Synthesised(x, w, wc) == x * wc * (w * w);
      assert x * wc * WindowGain(c, k, m - 1) + x * wc * (w * w) == x * wc * (WindowGain(c, k, m - 1) + w * w);
    }
  }

  /**
   * After the first `m` calls of a block that starts with `x` in state `s`:
   * input slot `s.pos` still holds `x`, output slot `s.pos` holds the echo
   * so far, the cursors have made `m` steps and the correction is unchanged.
   */
  ghost predicate EchoAt(c: Config, s: EngineState, x: real, st: EngineState, m: nat)
    requires Inv(c, s) && Inv(c, st) && m <= c.fftSize
  {
    && st.inputFifo[s.pos] == x
    && st.outputFifo[s.pos] == Echo(c, x, s.windowCorrection, s.count, m)
    && st.pos == Advance(s.pos, c.fftSize, m)
    && st.count == Advance(s.count, c.hopSize, m)
    && st.windowCorrection == s.windowCorrection
  }

  /** One more bypassed call keeps `EchoAt`; the first call establishes it. */
  lemma EchoStep(c: Config, s: EngineState, x: real, st: EngineState, y: real, m: nat, f: FrameTransform)
    requires Inv(c, s) && Inv(c, st) && m < c.fftSize
    requires m == 0 ==> st == s && y == x
    requires 0 < m ==> EchoAt(c, s, x, st, m)
    ensures Inv(c, Step(c, st, y, true, f).state)
    ensures EchoAt(c, s, x, Step(c, st, y, true, f).state, m + 1)
  {
    var n := c.fftSize;
    var p := Advance(s.pos, n, m);
    AdvanceIsMod(s.pos, n, m);
    ModBelowTwice(s.pos + m, n);
    assert st.pos == p;
    assert p == (if s.pos + m < n then s.pos + m else s.pos + m - n);
    var r := Step(c, st, y, true, f);
    StepBookkeeping(c, st, y, true, f);
    assert r.state.pos == Advance(s.pos, n, m + 1);
    assert r.state.count == Advance(s.count, c.hopSize, m + 1);
    assert m > 0 ==> p != s.pos;
    assert r.state.inputFifo[s.pos] == x;
    var before := if m == 0 then 0.0 else Echo(c, x, s.windowCorrection, s.count, m);
    assert st.outputFifo[p := 0.0][s.pos] == before;
    if r.hop {
      BypassHopContribution(c, st, y, f, s.pos);
      var q := Wrap(p, n);
      assert q == (if p + 1 == n then 0 else p + 1);
      assert Offset(s.pos, q, n) == n - (m + 1);
    }
  }

  /** `EchoAt` holds after each of the first `fftSize` calls. */
  lemma {:induction false} EchoPrefix(c: Config, s: EngineState, xs: seq<real>, m: nat, f: FrameTransform)
    requires Inv(c, s) && 1 <= m <= |xs| && m <= c.fftSize
    ensures EchoAt(c, s, xs[0], Run(c, s, xs[..m], true, f).state, m)
    decreases m
  {
    if m == 1 {
      RunExtend(c, s, [], xs[0], true, f);
      assert xs[..1] == [] + [xs[0]];
      EchoStep(c, s, xs[0], s, xs[0], 0, f);
    } else {
      EchoPrefix(c, s, xs, m - 1, f);
      var prev := Run(c, s, xs[..m - 1], true, f);
      RunExtend(c, s, xs[..m - 1], xs[m - 1], true, f);
      assert xs[..m - 1] + [xs[m - 1]] == xs[..m];
      EchoStep(c, s, xs[0], prev.state, xs[m - 1], m - 1, f);
    }
  }

  /** The call after `fftSize` calls returns the echo collected in output slot `s.pos`. */
  lemma EchoReturned(c: Config, s: EngineState, x: real, st: EngineState, y: real, f: FrameTransform)
    requires Inv(c, s) && Inv(c, st) && EchoAt(c, s, x, st, c.fftSize)
    ensures Step(c, st, y, true, f).output == Echo(c, x, s.windowCorrection, s.count, c.fftSize)
  {
    AdvanceIsMod(s.pos, c.fftSize, c.fftSize);
    ModBelowTwice(s.pos + c.fftSize, c.fftSize);
    assert st.pos == s.pos;
    assert Step(c, st, y, true, f).output == st.outputFifo[st.pos];
  }

  /** The last output of a run is the output of its last call. */
  lemma RunLast(c: Config, s: EngineState, xs: seq<real>, bypassed: bool, f: FrameTransform)
    requires Inv(c, s) && |xs| > 0
    ensures var prev := Run(c, s, xs[..|xs| - 1], bypassed, f);
      Run(c, s, xs, bypassed, f).outputs[|xs| - 1] == Step(c, prev.state, xs[|xs| - 1], bypassed, f).output
  {
  }

  /**
   * Bypassed, the sample fed in first is returned exactly fftSize calls
   * later, the reported latency: as the echo of the hops in between (see
   * `EchoFactors`), whatever samples are fed in between.
   */
  lemma BypassDelay(c: Config, s: EngineState, xs: seq<real>, f: FrameTransform)
    requires Inv(c, s) && |xs| == c.fftSize + 1
    ensures Run(c, s, xs, true, f).outputs[c.fftSize] == Echo(c, xs[0], s.windowCorrection, s.count, c.fftSize)
  {
    var n := c.fftSize;
    EchoPrefix(c, s, xs, n, f);
    RunLast(c, s, xs, true, f);
    assert |xs| - 1 == n;
    EchoReturned(c, s, xs[0], Run(c, s, xs[..n], true, f).state, xs[n], f);
  }
}
