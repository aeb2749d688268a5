/**
 * AudioPluginAudioProcessor: the pool of ten engines (orders 8..12, one per
 * channel), the two maps that select them by order, the selected order
 * `lastOrder` and the deferred-reset request.  Each method is proved
 * against the value-level coordinator in Coordination and, for the audio,
 * against StftSpec.Run.
 */
module Plugin {
  import opened StftSpec
  import opened Engine
  import opened Coordination

  /** Whether processBlock returned normally or a map lookup threw. */
  datatype BlockStatus = Completed | Threw

  /** The flags of one engine. */
  ghost function FlagsOf(e: FFTProcessor): Flags
    reads e`isReady, e`inUse
  {
    Flags(e.isReady, e.inUse)
  }

  /** A pooled engine for order `k`: constructed with (k, 2). */
  ghost predicate EngineFor(e: FFTProcessor, k: int)
    reads e`pos, e`count
  {
    && e.Valid()
    && e.fftOrder == k && e.fftSize == Pow2(k) && e.hopSize == Pow2(k) / 4
  }

  /**
   * What FFTProcessor(k, 2) with window table `table` leaves besides the
   * sizes: overlap 4, correction 1 / (0.375 * 4), that table, both cursors
   * at 0 and the FIFOs and the workspace all zero.
   */
  ghost predicate Pristine(e: FFTProcessor, table: seq<real>)
    reads e`overlap, e`windowCorrection, e`count, e`pos, e.inputFifo, e.outputFifo, e.fftData
  {
    && e.window == table
    && e.State() == EngineState(4, 1.0 / (0.375 * 4.0), 0, 0, Zeros(e.fftSize), Zeros(e.fftSize), Zeros(2 * e.fftSize))
  }

  /** Every engine of the pool as FFTProcessor(k, 2) leaves it, with the Hann table of its order. */
  ghost predicate PoolPristine(engines: seq<FFTProcessor>, hann: nat -> seq<real>)
    requires |engines| == 10
    reads set i | 0 <= i < 10 :: engines[i], BuffersOf(engines)
  {
    forall i :: 0 <= i < 10 ==> Pristine(engines[i], hann(OrderAt(i)))
  }

  /** A pooled engine for order `k` as FFTProcessor(k, 2) leaves it, with fresh flags. */
  ghost predicate Constructed(e: FFTProcessor, k: int, table: seq<real>)
    reads e`isReady, e`inUse, e`overlap, e`windowCorrection, e`count, e`pos, e.inputFifo, e.outputFifo, e.fftData
  {
    EngineFor(e, k) && e.isReady && !e.inUse && Pristine(e, table)
  }

  /**
   * `owner` maps each object of engine `e` to position `i`; two engines with
   * distinct positions in one such map therefore share no object.
   */
  ghost predicate Owns(owner: map<object, int>, e: FFTProcessor, i: int)
  {
    && e in owner && owner[e] == i
    && e.inputFifo in owner && owner[e.inputFifo] == i
    && e.outputFifo in owner && owner[e.outputFifo] == i
    && e.fftData in owner && owner[e.fftData] == i
  }

  /**
   * The shape of the pool: both maps hold exactly the pooled orders, the left
   * one over engines 0..4 and the right one over engines 5..9, and `owner`
   * tells the ten engines' objects apart.
   */
  ghost predicate Layout(left: map<int, FFTProcessor>, right: map<int, FFTProcessor>, engines: seq<FFTProcessor>,
                         pooled: set<FFTProcessor>, repr: set<object>, buffers: set<array<real>>, owner: map<object, int>)
  {
    && (forall k :: k in left <==> InPool(k)) && (forall k :: k in right <==> InPool(k))
    && |engines| == 10
    && (forall k :: InPool(k) ==> left[k] == engines[k - 8])
    && (forall k :: InPool(k) ==> right[k] == engines[k - 3])
    && (forall i :: 0 <= i < 10 ==> Owns(owner, engines[i], i) && engines[i].Repr() <= repr && engines[i] in pooled)
    && (forall i :: 0 <= i < 10 ==>
          && engines[i].inputFifo in buffers && engines[i].outputFifo in buffers && engines[i].fftData in buffers)
    && buffers <= repr
  }

  /** The order of the engine at position `i` of the pool: left 8..12, then right 8..12. */
  function OrderAt(i: nat): int
  {
    if i < 5 then i + 8 else i + 3
  }

  class AudioPluginAudioProcessor {
    const fftMapLeft: map<int, FFTProcessor>
    const fftMapRight: map<int, FFTProcessor>
    /**
     * How a committed switch retires the pair it leaves: `AsWritten` as the
     * source does it, `Retiring` with the retired pair's `inUse` cleared too.
     */
    const retirement: Policy
    var lastOrder: int
    /** A triggerAsyncUpdate() not yet delivered; further triggers coalesce into it. */
    var asyncPending: bool
    /** The ten engines fft8Left .. fft12Left, fft8Right .. fft12Right. */
    ghost const Engines: seq<FFTProcessor>
    /** The same ten engines as a set, the footprint of their fields. */
    ghost const Pooled: set<FFTProcessor>
    ghost const Repr: set<object>
    /** The engines' FIFOs and FFT workspaces. */
    ghost const Buffers: set<array<real>>
    /** Which of the ten engines each pooled object belongs to. */
    ghost const Owner: map<object, int>

    /** The maps hold exactly the pooled orders, each over its own one of ten disjoint engines. */
    ghost predicate Separated()
    {
      this !in Repr && Layout(fftMapLeft, fftMapRight, Engines, Pooled, Repr, Buffers, Owner)
    }

    ghost predicate Valid()
      reads Pooled`pos, Pooled`count
    {
      Separated() && forall i :: 0 <= i < 10 ==> EngineFor(Engines[i], OrderAt(i))
    }

    /** The engines' ready/in-use flags are those `p` records, order by order. */
    ghost predicate FlagsAre(p: Pool)
      reads Pooled`isReady, Pooled`inUse
    {
      && |Engines| == 10
      && (forall k :: InPool(k) ==> Engines[k - 8] in Pooled && k in p.left && p.left[k] == FlagsOf(Engines[k - 8]))
      && (forall k :: InPool(k) ==> Engines[k - 3] in Pooled && k in p.right && p.right[k] == FlagsOf(Engines[k - 3]))
    }

    /** The object is in coordinator state `s`: flags, selected order and pending reset. */
    ghost predicate Models(s: Sys)
      reads `lastOrder, `asyncPending, Pooled`isReady, Pooled`inUse
    {
      WellFormed(s.pool) && FlagsAre(s.pool) && lastOrder == s.lastOrder && asyncPending == s.pending
    }

    /**
     * The ten engines fft8Left .. fft12Right, each constructed with its
     * order and overlap order 2, the two maps over them, and `lastOrder`
     * taken from the order parameter's value at construction.  The Hann
     * table of each order is a parameter.
     */
    constructor (initialOrder: int, hann: nat -> seq<real>, policy: Policy)
      requires OrderParameter(initialOrder)
      requires forall k: nat :: 8 <= k <= 12 ==> |hann(k)| == Pow2(k) + 1
      ensures Valid() && fresh(Repr) && retirement == policy
      ensures Models(Initial(initialOrder))
      ensures |Engines| == 10 && PoolPristine(Engines, hann)
    {
      var engines, left, right, pooled, built, buffers, owner := NewLayout(hann);
      fftMapLeft := left;
      fftMapRight := right;
      Engines := engines;
      Pooled := pooled;
      Repr := built;
      Buffers := buffers;
      Owner := owner;
      retirement := policy;
      lastOrder := initialOrder;
      asyncPending := false;
      new;
      assert FlagsAre(InitialPool()) by { InitialFlags(); }
    }

    /** Fresh engines carry the flags of the initial pool. */
    lemma InitialFlags()
      requires |Engines| == 10 && Pooled == set i | 0 <= i < 10 :: Engines[i]
      requires forall i :: 0 <= i < 10 ==> FlagsOf(Engines[i]) == Fresh
      ensures FlagsAre(InitialPool())
    {
      var p := InitialPool();
      forall k | InPool(k)
        ensures Engines[k - 8] in Pooled && p.left[k] == FlagsOf(Engines[k - 8])
        ensures Engines[k - 3] in Pooled && p.right[k] == FlagsOf(Engines[k - 3])
      {
      }
    }

    /** Flag views and validity do not depend on the coordinator's own fields. */
    twostate lemma FlagsKept(p: Pool)
      requires old(Valid()) && old(FlagsAre(p))
      requires forall i :: 0 <= i < 10 ==> FlagsOf(Engines[i]) == old(FlagsOf(Engines[i]))
      requires forall i :: 0 <= i < 10 ==> Engines[i].pos == old(Engines[i].pos) && Engines[i].count == old(Engines[i].count)
      ensures Valid() && FlagsAre(p)
    {
    }

    /**
     * processBlock(buffer): the switch, then every sample of the left and the
     * right channel through the left and the right engine of `lastOrder`.
     * Only the engines' stream state and the two channels change besides
     * what the switch changes; a throwing map lookup ends the block.
     */
    method ProcessBlock(requested: int, left: array<real>, right: array<real>, f: FrameTransform, ghost s: Sys)
      returns (status: BlockStatus)
      requires Valid() && Models(s)
      requires left != right && left.Length == right.Length && left !in Repr && right !in Repr
      modifies `lastOrder, `asyncPending, Pooled`isReady, Pooled`inUse, Pooled`count, Pooled`pos, Buffers, left, right
      ensures Valid() && Models(Apply(retirement, s, Block(requested)))
      ensures var d := SwitchStep(retirement, s.pool, s.lastOrder, requested);
        status == Threw <==> d.threw || (left.Length > 0 && !InPool(d.lastOrder))
      ensures status == Threw ==> left[..] == old(left[..]) && right[..] == old(right[..])
    {
      var threw := Switch(requested, s.pool);
      if threw {
        return Threw;
      }
      status := RouteBlock(left, right, f, SwitchStep(retirement, s.pool, s.lastOrder, requested).pool);
    }

    /**
     * Both channels went through the pair of order `o`: its engines are in
     * the state one run over the block leaves, and the channels hold the
     * outputs of those runs.
     */
    twostate predicate Routed(o: int, left: array<real>, right: array<real>, f: FrameTransform)
      requires InPool(o) && Valid() && old(Valid())
      reads this, Pooled, Repr, left, right
    {
      && (var l := fftMapLeft[o];
          var run := Run(l.Cfg(), old(l.State()), old(left[..]), false, f);
          l.State() == run.state && left[..] == run.outputs)
      && (var r := fftMapRight[o];
          var run := Run(r.Cfg(), old(r.State()), old(right[..]), false, f);
          r.State() == run.state && right[..] == run.outputs)
    }

    /**
     * The sample loop of processBlock on the selected pair.  Its first
     * lookup throws before any sample when `lastOrder` is not pooled; the
     * lookups of later iterations repeat that first one and are taken once.
     */
    method RouteBlock(left: array<real>, right: array<real>, f: FrameTransform, ghost p: Pool) returns (status: BlockStatus)
      requires Valid() && FlagsAre(p)
      requires left != right && left.Length == right.Length && left !in Repr && right !in Repr
      modifies Pooled`count, Pooled`pos, Buffers, left, right
      ensures Valid() && FlagsAre(p)
      ensures status == Threw <==> left.Length > 0 && !InPool(lastOrder)
      ensures status == Completed && InPool(lastOrder) ==> Routed(lastOrder, left, right, f)
      ensures status == Threw ==> left[..] == old(left[..]) && right[..] == old(right[..])
      ensures forall i :: 0 <= i < 10 && (status == Threw || OrderAt(i) != lastOrder) ==>
        Engines[i].State() == old(Engines[i].State())
    {
      status := Completed;
      if left.Length > 0 && lastOrder !in fftMapLeft {
        return Threw;
      }
      if InPool(lastOrder) {
        RouteSelected(left, right, f, p);
      }
    }

    /** Both channels through the selected pair, when the selection is pooled. */
    method RouteSelected(left: array<real>, right: array<real>, f: FrameTransform, ghost p: Pool)
      requires Valid() && FlagsAre(p) && InPool(lastOrder)
      requires left != right && left.Length == right.Length && left !in Repr && right !in Repr
      modifies Pooled`count, Pooled`pos, Buffers, left, right
      ensures Valid() && FlagsAre(p) && Routed(lastOrder, left, right, f)
      ensures forall i :: 0 <= i < 10 && OrderAt(i) != lastOrder ==> Engines[i].State() == old(Engines[i].State())
    {
      ghost var j := lastOrder - 8;
      var l := fftMapLeft[lastOrder];
      var r := fftMapRight[lastOrder];
      assert Owns(Owner, l, j) && Owns(Owner, r, j + 5);
      label before:
      Route(l, r, left, right, f, Repr - (l.Repr() + r.Repr()));
      Rerouted@before(p);
    }

    /**
     * Validity and the flag view survive a block routed through the pair of
     * `lastOrder`, and every engine of another order keeps its stream state.
     */
    twostate lemma Rerouted(p: Pool)
      requires old(Valid()) && old(FlagsAre(p)) && InPool(lastOrder)
      requires var l: FFTProcessor, r: FFTProcessor := Engines[lastOrder - 8], Engines[lastOrder - 3];
        && l.Valid() && r.Valid() && unchanged(l`isReady, l`inUse, r`isReady, r`inUse)
        && unchanged(Repr - (l.Repr() + r.Repr()))
      ensures Valid() && FlagsAre(p)
      ensures forall i :: 0 <= i < 10 && OrderAt(i) != lastOrder ==> Engines[i].State() == old(Engines[i].State())
    {
      var j := lastOrder - 8;
      PairApart(j);
      forall i | 0 <= i < 10 && i != j && i != j + 5
        ensures unchanged(Engines[i], Engines[i].inputFifo, Engines[i].outputFifo, Engines[i].fftData)
      {
        assert Engines[i].Repr() <= Repr - (Engines[j].Repr() + Engines[j + 5].Repr());
      }
      forall i | 0 <= i < 10
        ensures EngineFor(Engines[i], OrderAt(i)) && FlagsOf(Engines[i]) == old(FlagsOf(Engines[i]))
      {
        if i != j && i != j + 5 {
          assert unchanged(Engines[i]);
        }
      }
    }

    /** Every engine outside the pair at positions `j` and `j + 5` lies outside the pair's footprint. */
    lemma PairApart(j: int)
      requires Separated() && 0 <= j < 5
      ensures forall i :: 0 <= i < 10 && i != j && i != j + 5 ==>
        Engines[i].Repr() <= Repr - (Engines[j].Repr() + Engines[j + 5].Repr())
    {
      forall i | 0 <= i < 10 && i != j && i != j + 5
        ensures Engines[i].Repr() <= Repr - (Engines[j].Repr() + Engines[j + 5].Repr())
      {
        assert Owns(Owner, Engines[i], i) && Owns(Owner, Engines[j], j) && Owns(Owner, Engines[j + 5], j + 5);
      }
    }

    /**
     * The switch part of processBlock: if the order parameter differs from
     * `lastOrder`, look up the requested pair (throws when not pooled); if
     * both are ready, mark them in use, look up the current pair (throws
     * when not pooled) and retire it, trigger the deferred reset and move
     * the selection.  No engine's stream state changes.
     */
    method Switch(requested: int, ghost p: Pool) returns (threw: bool)
      requires Valid() && WellFormed(p) && FlagsAre(p)
      modifies `lastOrder, `asyncPending, Pooled`isReady, Pooled`inUse
      ensures Valid()
      ensures var d := SwitchStep(retirement, p, old(lastOrder), requested);
        && FlagsAre(d.pool) && lastOrder == d.lastOrder && threw == d.threw
        && asyncPending == (old(asyncPending) || d.triggered)
    {
      threw := false;
      ghost var last := lastOrder;
      if lastOrder != requested {
        if requested !in fftMapLeft {
          threw := true;
          assert SwitchStep(retirement, p, last, requested) == Decision(p, last, false, true);
        } else {
          // fftMapRight has the same keys, so its lookup succeeds too.
          var newLeft := fftMapLeft[requested];
          var newRight := fftMapRight[requested];
          var readyLeft := newLeft.IsFFTReady();
          var readyRight := newRight.IsFFTReady();
          if readyLeft && readyRight {
            ghost var m := MarkPair(p, requested);
            Engage(newLeft, newRight, requested, p);
            threw := Complete(requested, m);
            assert SwitchStep(retirement, p, last, requested) ==
              if InPool(last) then Decision(RetirePair(retirement, m, last), requested, true, false)
              else Decision(m, last, false, true);
          } else {
            assert SwitchStep(retirement, p, last, requested) == Decision(p, last, false, false);
          }
        }
      }
    }

    /**
     * The rest of a committing switch, once the requested pair is marked in
     * use: the lookup of the current pair, which throws when `lastOrder` is
     * not pooled; retire that pair, trigger the deferred reset and move the
     * selection.
     */
    method Complete(requested: int, ghost m: Pool) returns (threw: bool)
      requires Valid() && FlagsAre(m)
      modifies `lastOrder, `asyncPending, Pooled`isReady, Pooled`inUse
      ensures Valid()
      ensures InPool(old(lastOrder)) ==> FlagsAre(RetirePair(retirement, m, old(lastOrder)))
      ensures !InPool(old(lastOrder)) ==> FlagsAre(m)
      ensures var pooled := InPool(old(lastOrder));
        && lastOrder == (if pooled then requested else old(lastOrder))
        && threw == !pooled && asyncPending == (old(asyncPending) || pooled)
    {
      if lastOrder !in fftMapLeft {
        threw := true;
      } else {
        threw := false;
        assert InPool(lastOrder);  // so fftMapRight holds it too
        var oldLeft := fftMapLeft[lastOrder];
        var oldRight := fftMapRight[lastOrder];
        Retire(oldLeft, oldRight, lastOrder, m);
        label retired:
        asyncPending := true;
        lastOrder := requested;
        FlagsKept@retired(RetirePair(retirement, m, old(lastOrder)));
      }
    }

    /** The engaging part of the switch: setFFTInUse(true) on both engines of `order`. */
    method Engage(newLeft: FFTProcessor, newRight: FFTProcessor, ghost order: int, ghost p: Pool)
      requires Valid() && FlagsAre(p) && InPool(order)
      requires newLeft == fftMapLeft[order] && newRight == fftMapRight[order]
      modifies Pooled`inUse
      ensures Valid()
      ensures FlagsAre(MarkPair(p, order))
    {
      ghost var m := MarkPair(p, order);
      MarkInUse(newLeft, order - 8, p);
      ghost var half := Pool(m.left, p.right);
      assert Replace(p, order - 8, p.left[order].(inUse := true)) == half;
      MarkInUse(newRight, order - 3, half);
      assert Replace(half, order - 3, p.right[order].(inUse := true)) == m;
    }

    /** The retiring part of the switch: both engines of `order` retired as `retirement` says. */
    method Retire(oldLeft: FFTProcessor, oldRight: FFTProcessor, ghost order: int, ghost m: Pool)
      requires Valid() && FlagsAre(m) && InPool(order)
      requires oldLeft == fftMapLeft[order] && oldRight == fftMapRight[order]
      modifies Pooled`isReady, Pooled`inUse
      ensures Valid()
      ensures FlagsAre(RetirePair(retirement, m, order))
    {
      ghost var r := RetirePair(retirement, m, order);
      MarkRetired(oldLeft, order - 8, m);
      ghost var half := Pool(r.left, m.right);
      assert Replace(m, order - 8, Retired(retirement, m.left[order])) == half;
      MarkRetired(oldRight, order - 3, half);
      assert Replace(half, order - 3, Retired(retirement, m.right[order])) == r;
    }

    /** setFFTInUse(true) on the engine at pool position `j`. */
    method MarkInUse(e: FFTProcessor, ghost j: nat, ghost p: Pool)
      requires Valid() && j < 10 && e == Engines[j] && FlagsAre(p)
      modifies e`inUse
      ensures Valid()
      ensures FlagsAre(Replace(p, j, old(FlagsOf(e)).(inUse := true)))
    {
      e.SetFFTInUse(true);
      ghost var r := Replace(p, j, FlagsOf(e));
      forall k | InPool(k)
        ensures k in r.left && r.left[k] == FlagsOf(Engines[k - 8])
      {
        if k - 8 != j {
          assert Owner[Engines[k - 8]] != Owner[e];
        }
      }
      forall k | InPool(k)
        ensures k in r.right && r.right[k] == FlagsOf(Engines[k - 3])
      {
        if k - 3 != j {
          assert Owner[Engines[k - 3]] != Owner[e];
        }
      }
    }

    /**
     * Retiring the engine at pool position `j`: setFFTReady(false) as the
     * source is written, prepFFTForReset() under the correction.
     */
    method MarkRetired(e: FFTProcessor, ghost j: nat, ghost p: Pool)
      requires Valid() && j < 10 && e == Engines[j] && FlagsAre(p)
      modifies e`isReady, e`inUse
      ensures Valid()
      ensures FlagsAre(Replace(p, j, Retired(retirement, old(FlagsOf(e)))))
    {
      if retirement == AsWritten {
        e.SetFFTReady(false);
      } else {
        e.PrepFFTForReset();
      }
      ghost var r := Replace(p, j, FlagsOf(e));
      forall k | InPool(k)
        ensures k in r.left && r.left[k] == FlagsOf(Engines[k - 8])
      {
        if k - 8 != j {
          assert Owner[Engines[k - 8]] != Owner[e];
        }
      }
      forall k | InPool(k)
        ensures k in r.right && r.right[k] == FlagsOf(Engines[k - 3])
      {
        if k - 3 != j {
          assert Owner[Engines[k - 3]] != Owner[e];
        }
      }
    }

    /**
     * resetFFTs(): in the left map, then in the right map, every engine not
     * in use is reset.  The flags are those of `ResetUnused` and each
     * engine's stream state is reset or, for an engine in use, untouched.
     */
    method ResetFFTs(ghost p: Pool)
      requires Valid() && FlagsAre(p) && WellFormed(p)
      modifies Pooled`count, Pooled`pos, Pooled`isReady, Pooled`inUse, Buffers
      ensures Valid() && FlagsAre(ResetUnused(p))
      ensures forall i :: 0 <= i < 10 ==> Engines[i].State() == Cleans(old(Engines[i].State()), FlagsAt(p, i), true)
    {
      ResetSide(false, true, p);
      ghost var half := ResetBelow(p, false, 13, true);
      ResetSide(true, true, half);
      BothSidesReset(p);
    }

    /**
     * handleAsyncUpdate(): delivers a pending triggerAsyncUpdate() by
     * clearing the request and calling resetFFTs(); with nothing pending,
     * nothing happens.
     */
    method HandleAsyncUpdate(ghost s: Sys)
      requires Valid() && Models(s)
      modifies `asyncPending, Pooled`count, Pooled`pos, Pooled`isReady, Pooled`inUse, Buffers
      ensures Valid() && Models(Apply(retirement, s, AsyncReset))
      ensures forall i :: 0 <= i < 10 ==>
        Engines[i].State() == if s.pending then Cleans(old(Engines[i].State()), FlagsAt(s.pool, i), true)
                              else old(Engines[i].State())
    {
      if asyncPending {
        asyncPending := false;
        ResetFFTs(s.pool);
      }
    }

    /**
     * prepareToPlay(): every engine of the left map is reset, in use or not;
     * the right map is left alone.
     */
    method PrepareToPlay(ghost s: Sys)
      requires Valid() && Models(s)
      modifies Pooled`count, Pooled`pos, Pooled`isReady, Pooled`inUse, Buffers
      ensures Valid() && Models(s.(pool := PrepareFlags(s.pool)))
      ensures forall i :: 0 <= i < 10 ==>
        Engines[i].State() == if i < 5 then ResetOf(old(Engines[i].State())) else old(Engines[i].State())
    {
      ResetSide(false, false, s.pool);
      PreparedLeft(s.pool);
      forall i | 0 <= i < 10
        ensures Engines[i].State() == if i < 5 then ResetOf(old(Engines[i].State())) else old(Engines[i].State())
      {
        assert Handled(false, 13, i) <==> i < 5;
      }
    }

    /**
     * The loop over one map (`right` picks which) in key order: each engine
     * is reset, or, when `skipInUse`, only if it is not in use.
     */
    method ResetSide(right: bool, skipInUse: bool, ghost p: Pool)
      requires Valid() && FlagsAre(p) && WellFormed(p)
      modifies Pooled`count, Pooled`pos, Pooled`isReady, Pooled`inUse, Buffers
      ensures Valid() && FlagsAre(ResetBelow(p, right, 13, skipInUse))
      ensures forall i :: 0 <= i < 10 ==>
        Engines[i].State() == Visited(right, 13, i, old(Engines[i].State()), FlagsAt(p, i), skipInUse)
    {
      ghost var st0 := States();
      for k := 8 to 13
        invariant Valid() && FlagsAre(ResetBelow(p, right, k, skipInUse))
        invariant forall i :: 0 <= i < 10 ==> Engines[i].State() == Visited(right, k, i, st0[i], FlagsAt(p, i), skipInUse)
      {
        ResetStep(right, skipInUse, k, p, st0);
      }
    }

    /** The stream states of the ten engines, position by position. */
    ghost function States(): (r: seq<EngineState>)
      requires Separated()
      reads this, Repr
      ensures |r| == 10 && forall i :: 0 <= i < 10 ==> r[i] == Engines[i].State()
    {
      [Engines[0].State(), Engines[1].State(), Engines[2].State(), Engines[3].State(), Engines[4].State(),
       Engines[5].State(), Engines[6].State(), Engines[7].State(), Engines[8].State(), Engines[9].State()]
    }

    /** One iteration of that loop: the engine of order `k` on the chosen side. */
    method ResetStep(right: bool, skipInUse: bool, k: int, ghost p: Pool, ghost st0: seq<EngineState>)
      requires Valid() && WellFormed(p) && InPool(k) && |st0| == 10
      requires FlagsAre(ResetBelow(p, right, k, skipInUse))
      requires forall i :: 0 <= i < 10 ==> Engines[i].State() == Visited(right, k, i, st0[i], FlagsAt(p, i), skipInUse)
      modifies Pooled`count, Pooled`pos, Pooled`isReady, Pooled`inUse, Buffers
      ensures Valid() && FlagsAre(ResetBelow(p, right, k + 1, skipInUse))
      ensures forall i :: 0 <= i < 10 ==> Engines[i].State() == Visited(right, k + 1, i, st0[i], FlagsAt(p, i), skipInUse)
    {
      ghost var b := ResetBelow(p, right, k, skipInUse);
      var e := if right then fftMapRight[k] else fftMapLeft[k];
      ghost var j := if right then k - 3 else k - 8;
      assert e == Engines[j] && !Handled(right, k, j) && Handled(right, k + 1, j);
      assert FlagsOf(e) == FlagsAt(b, j) == FlagsAt(p, j) && e.State() == st0[j];
      ResetAt(e, j, skipInUse, b);
      BelowStep(p, right, k, skipInUse);
      forall i | 0 <= i < 10
        ensures Engines[i].State() == Visited(right, k + 1, i, st0[i], FlagsAt(p, i), skipInUse)
      {
        if i != j {
          assert Handled(right, k + 1, i) == Handled(right, k, i);
        }
      }
    }

    /** One engine of that loop, at pool position `j`: reset it unless `skipInUse` and it is in use. */
    method ResetAt(e: FFTProcessor, ghost j: nat, skipInUse: bool, ghost p: Pool)
      requires Valid() && j < 10 && e == Engines[j] && FlagsAre(p)
      modifies e`count, e`pos, e`isReady, e`inUse, e.inputFifo, e.outputFifo
      ensures Valid() && FlagsAre(Replace(p, j, Cleared(old(FlagsOf(e)), skipInUse)))
      ensures e.State() == Cleans(old(e.State()), old(FlagsOf(e)), skipInUse)
      ensures forall i :: 0 <= i < 10 && i != j ==> Engines[i].State() == old(Engines[i].State())
    {
      label before:
      if skipInUse {
        var use := e.IsFFTInUse();
        if !use {
          e.Reset();
        }
      } else {
        e.Reset();
      }
      ResetKept@before((j, p));
    }

    /** What resetting the engine at one position leaves of validity, the flag view and the other engines. */
    twostate lemma ResetKept(a: (nat, Pool))
      requires a.0 < 10 && old(Valid()) && old(FlagsAre(a.1))
      requires Engines[a.0].Valid() && unchanged(Repr - Engines[a.0].Repr())
      ensures Valid() && FlagsAre(Replace(a.1, a.0, FlagsOf(Engines[a.0])))
      ensures forall i :: 0 <= i < 10 && i != a.0 ==> Engines[i].State() == old(Engines[i].State())
    {
      var j := a.0;
      forall i | 0 <= i < 10 && i != j
        ensures Engines[i].Repr() <= Repr - Engines[j].Repr()
      {
        assert Owns(Owner, Engines[i], i) && Owns(Owner, Engines[j], j);
      }
      forall i | 0 <= i < 10 && i != j
        ensures unchanged(Engines[i], Engines[i].inputFifo, Engines[i].outputFifo, Engines[i].fftData)
      {
        assert Engines[i].Repr() <= Repr - Engines[j].Repr();
      }
      forall i | 0 <= i < 10
        ensures EngineFor(Engines[i], OrderAt(i))
        ensures i != j ==> FlagsOf(Engines[i]) == old(FlagsOf(Engines[i]))
      {
        if i != j {
          assert unchanged(Engines[i]);
        }
      }
      var r := Replace(a.1, j, FlagsOf(Engines[j]));
      forall k | InPool(k)
        ensures k in r.left && r.left[k] == FlagsOf(Engines[k - 8])
      {
      }
      forall k | InPool(k)
        ensures k in r.right && r.right[k] == FlagsOf(Engines[k - 3])
      {
      }
    }
  }

  /**
   * The first `i` samples of `x0` went through `e`, started in state `s0`:
   * the engine is in the state that run leaves, and `buf` holds its outputs
   * followed by the rest of `x0`.
   */
  ghost predicate Fed(e: FFTProcessor, buf: array<real>, i: nat, s0: EngineState, x0: seq<real>, f: FrameTransform)
    reads e`overlap, e`windowCorrection, e`count, e`pos, e.inputFifo, e.outputFifo, e.fftData, buf
  {
    e.Valid() && Prefix(e.Cfg(), e.State(), buf[..], i, s0, x0, f)
  }

  /**
   * On values: state `st` is where a run over the first `i` samples of `x0`
   * from `s0` ends, and `b` holds that run's outputs followed by the rest of `x0`.
   */
  ghost predicate Prefix(c: Config, st: EngineState, b: seq<real>, i: nat, s0: EngineState, x0: seq<real>, f: FrameTransform)
  {
    && Inv(c, s0) && i <= |b| == |x0|
    && var run := Run(c, s0, x0[..i], false, f);
       st == run.state && b[..i] == run.outputs && b[i..] == x0[i..]
  }

  /** One more sample: its step's output written over it extends the prefix by one. */
  lemma PrefixStep(c: Config, st: EngineState, b: seq<real>, i: nat, s0: EngineState, x0: seq<real>, f: FrameTransform)
    requires Prefix(c, st, b, i, s0, x0, f) && i < |b|
    ensures Inv(c, st)
    ensures var r := Step(c, st, b[i], false, f);
      Prefix(c, r.state, b[i := r.output], i + 1, s0, x0, f)
  {
    var r := Step(c, st, b[i], false, f);
    assert b[i] == x0[i];
    RunExtend(c, s0, x0[..i], x0[i], false, f);
    Overwrite(b, x0, i, r.output);
  }

  /** Slicing facts for writing `y` at index `i` of `b`. */
  lemma Overwrite(b: seq<real>, x0: seq<real>, i: nat, y: real)
    requires i < |b| == |x0| && b[i..] == x0[i..]
    ensures x0[..i + 1] == x0[..i] + [x0[i]]
    ensures b[i := y][..i + 1] == b[..i] + [y] && b[i := y][i + 1..] == x0[i + 1..]
  {
    assert b[i + 1..] == b[i..][1..];
  }

  /** One iteration of the sample loop on one channel: processSample(buf[i], false, f) written back. */
  method Feed(e: FFTProcessor, buf: array<real>, i: nat, ghost s0: EngineState, ghost x0: seq<real>, f: FrameTransform)
    requires Fed(e, buf, i, s0, x0, f) && i < buf.Length && buf !in e.Repr()
    modifies e`count, e`pos, e.inputFifo, e.outputFifo, e.fftData, buf
    ensures Fed(e, buf, i + 1, s0, x0, f)
  {
    PrefixStep(e.Cfg(), e.State(), buf[..], i, s0, x0, f);
    ghost var b := buf[..];
    var y := e.ProcessSample(buf[i], false, f);
    buf[i] := y;
    assert buf[..] == b[i := y];
  }

  /** Two engines and two channel buffers that share no object. */
  predicate Apart(l: FFTProcessor, r: FFTProcessor, left: array<real>, right: array<real>)
  {
    && l.Repr() !! r.Repr() && left != right
    && left !in l.Repr() && left !in r.Repr() && right !in l.Repr() && right !in r.Repr()
  }

  /**
   * The sample loop of processBlock on the pair `l`, `r`; it changes nothing
   * but the pair's stream state and the two channels.
   */
  method Route(l: FFTProcessor, r: FFTProcessor, left: array<real>, right: array<real>, f: FrameTransform,
               ghost others: set<object>)
    requires l.Valid() && r.Valid() && Apart(l, r, left, right) && left.Length == right.Length
    requires others !! l.Repr() + r.Repr() + {left, right}
    modifies l`count, l`pos, l.inputFifo, l.outputFifo, l.fftData
    modifies r`count, r`pos, r.inputFifo, r.outputFifo, r.fftData, left, right
    ensures l.Valid() && r.Valid()
    ensures unchanged(l`isReady, l`inUse, r`isReady, r`inUse) && unchanged(others)
    ensures var run := Run(l.Cfg(), old(l.State()), old(left[..]), false, f);
      l.State() == run.state && left[..] == run.outputs
    ensures var run := Run(r.Cfg(), old(r.State()), old(right[..]), false, f);
      r.State() == run.state && right[..] == run.outputs
  {
    Stream(l, r, left, right, f);
  }

  /**
   * Sample by sample, the left sample through `l` and the right sample
   * through `r`, each written back in place.  Each channel ends as one run
   * of its engine over the block.
   */
  method Stream(l: FFTProcessor, r: FFTProcessor, left: array<real>, right: array<real>, f: FrameTransform)
    requires l.Valid() && r.Valid() && Apart(l, r, left, right) && left.Length == right.Length
    modifies l`count, l`pos, l.inputFifo, l.outputFifo, l.fftData
    modifies r`count, r`pos, r.inputFifo, r.outputFifo, r.fftData, left, right
    ensures l.Valid() && r.Valid()
    ensures var run := Run(l.Cfg(), old(l.State()), old(left[..]), false, f);
      l.State() == run.state && left[..] == run.outputs
    ensures var run := Run(r.Cfg(), old(r.State()), old(right[..]), false, f);
      r.State() == run.state && right[..] == run.outputs
  {
    ghost var sl, sr := l.State(), r.State();
    ghost var xl, xr := left[..], right[..];
    var i := 0;
    while i < left.Length
      invariant 0 <= i <= left.Length
      invariant Fed(l, left, i, sl, xl, f) && Fed(r, right, i, sr, xr, f)
    {
      FeedPair(l, r, left, right, i, sl, sr, xl, xr, f);
      i := i + 1;
    }
    FedAll(l, left, sl, xl, f);
    FedAll(r, right, sr, xr, f);
  }

  /** One iteration of the sample loop: the left sample, then the right one. */
  method FeedPair(l: FFTProcessor, r: FFTProcessor, left: array<real>, right: array<real>, i: nat,
                  ghost sl: EngineState, ghost sr: EngineState, ghost xl: seq<real>, ghost xr: seq<real>, f: FrameTransform)
    requires Apart(l, r, left, right) && i < left.Length == right.Length
    requires Fed(l, left, i, sl, xl, f) && Fed(r, right, i, sr, xr, f)
    modifies l`count, l`pos, l.inputFifo, l.outputFifo, l.fftData
    modifies r`count, r`pos, r.inputFifo, r.outputFifo, r.fftData, left, right
    ensures Fed(l, left, i + 1, sl, xl, f) && Fed(r, right, i + 1, sr, xr, f)
  {
    ghost var rs, rb := r.State(), right[..];
    Feed(l, left, i, sl, xl, f);
    assert r.State() == rs && right[..] == rb;
    ghost var ls, lb := l.State(), left[..];
    Feed(r, right, i, sr, xr, f);
    assert l.State() == ls && left[..] == lb;
  }

  /** A channel fed to its end holds the outputs of one run over the whole block. */
  lemma FedAll(e: FFTProcessor, buf: array<real>, s0: EngineState, x0: seq<real>, f: FrameTransform)
    requires Fed(e, buf, buf.Length, s0, x0, f)
    ensures var run := Run(e.Cfg(), s0, x0, false, f);
      e.State() == run.state && buf[..] == run.outputs
  {
    assert x0[..buf.Length] == x0;
    assert buf[..][..buf.Length] == buf[..];
  }

  /** The flags of the engine at pool position `i`, as `p` records them. */
  function FlagsAt(p: Pool, i: nat): Flags
    requires WellFormed(p) && i < 10
  {
    if i < 5 then p.left[OrderAt(i)] else p.right[OrderAt(i)]
  }

  /** The flags after the reset loop visits an engine with flags `fl`. */
  function Cleared(fl: Flags, skipInUse: bool): Flags
  {
    if skipInUse && fl.inUse then fl else Fresh
  }

  /** The stream state after the reset loop visits an engine in state `st` with flags `fl`. */
  function Cleans(st: EngineState, fl: Flags, skipInUse: bool): EngineState
  {
    if skipInUse && fl.inUse then st else ResetOf(st)
  }

  /** Position `i` is on the side `right` picks and its order is below `k`: the loop has visited it. */
  predicate Handled(right: bool, k: int, i: nat)
  {
    (i >= 5) == right && OrderAt(i) < k
  }

  /** The stream state of position `i`, from `st` with flags `fl`, once the loop has reached order `k`. */
  function Visited(right: bool, k: int, i: nat, st: EngineState, fl: Flags, skipInUse: bool): EngineState
  {
    if Handled(right, k, i) then Cleans(st, fl, skipInUse) else st
  }

  /** The flags after the reset loop over one side has visited the orders below `k`. */
  function ResetBelow(p: Pool, right: bool, k: int, skipInUse: bool): (r: Pool)
    requires WellFormed(p)
    ensures WellFormed(r)
    ensures forall i :: 0 <= i < 10 ==>
      FlagsAt(r, i) == if Handled(right, k, i) then Cleared(FlagsAt(p, i), skipInUse) else FlagsAt(p, i)
  {
    if right then Pool(p.left, map o | o in PoolOrders :: if o < k then Cleared(p.right[o], skipInUse) else p.right[o])
    else Pool(map o | o in PoolOrders :: if o < k then Cleared(p.left[o], skipInUse) else p.left[o], p.right)
  }

  /** Visiting order `k` moves the loop's flags one order on. */
  lemma BelowStep(p: Pool, right: bool, k: int, skipInUse: bool)
    requires WellFormed(p) && InPool(k)
    ensures var b := ResetBelow(p, right, k, skipInUse);
      var j := if right then k - 3 else k - 8;
      Replace(b, j, Cleared(FlagsAt(b, j), skipInUse)) == ResetBelow(p, right, k + 1, skipInUse)
  {
    var b, c := ResetBelow(p, right, k, skipInUse), ResetBelow(p, right, k + 1, skipInUse);
    if right {
      assert OrderAt(k - 3) == k && b.right[k] == p.right[k] && b.left == c.left;
      assert b.right[k := Cleared(p.right[k], skipInUse)] == c.right;
    } else {
      assert OrderAt(k - 8) == k && b.left[k] == p.left[k] && b.right == c.right;
      assert b.left[k := Cleared(p.left[k], skipInUse)] == c.left;
    }
  }

  /** Both loops of resetFFTs together clear exactly what `ResetUnused` clears. */
  lemma BothSidesReset(p: Pool)
    requires WellFormed(p)
    ensures ResetBelow(ResetBelow(p, false, 13, true), true, 13, true) == ResetUnused(p)
  {
  }

  /** The loop of prepareToPlay gives exactly `PrepareFlags`. */
  lemma PreparedLeft(p: Pool)
    requires WellFormed(p)
    ensures ResetBelow(p, false, 13, false) == PrepareFlags(p)
  {
  }

  /** The FIFOs and workspaces of the first ten engines. */
  function BuffersOf(engines: seq<FFTProcessor>): set<array<real>>
    requires |engines| >= 10
  {
    (set i | 0 <= i < 10 :: engines[i].inputFifo) + (set i | 0 <= i < 10 :: engines[i].outputFifo)
    + (set i | 0 <= i < 10 :: engines[i].fftData)
  }

  /** Those buffers lie within any set that holds each engine's objects. */
  lemma BuffersWithin(engines: seq<FFTProcessor>, built: set<object>)
    requires |engines| >= 10 && forall i :: 0 <= i < 10 ==> engines[i].Repr() <= built
    ensures BuffersOf(engines) <= built
    ensures forall i :: 0 <= i < 10 ==>
      engines[i].inputFifo in BuffersOf(engines) && engines[i].outputFifo in BuffersOf(engines)
      && engines[i].fftData in BuffersOf(engines)
  {
    forall a | a in BuffersOf(engines)
      ensures a in built
    {
      var i :| 0 <= i < 10 && a in engines[i].Repr();
    }
  }

  /** The flag view with the engine at pool position `j` given flags `fl`. */
  function Replace(p: Pool, j: nat, fl: Flags): Pool
  {
    if j < 5 then Pool(p.left[OrderAt(j) := fl], p.right) else Pool(p.left, p.right[OrderAt(j) := fl])
  }

  /** fftMapLeft: order k to the k-th left engine. */
  function LeftMap(engines: seq<FFTProcessor>): map<int, FFTProcessor>
    requires |engines| == 10
  {
    map k | k in PoolOrders :: engines[k - 8]
  }

  /** fftMapRight: order k to the k-th right engine. */
  function RightMap(engines: seq<FFTProcessor>): map<int, FFTProcessor>
    requires |engines| == 10
  {
    map k | k in PoolOrders :: engines[k - 3]
  }

  lemma PoolMapsOver(engines: seq<FFTProcessor>)
    requires |engines| == 10
    ensures forall k :: (k in LeftMap(engines) <==> InPool(k)) && (k in RightMap(engines) <==> InPool(k))
    ensures forall k :: InPool(k) ==> LeftMap(engines)[k] == engines[k - 8]
    ensures forall k :: InPool(k) ==> RightMap(engines)[k] == engines[k - 3]
  {
  }

  /** The ten engines and the two maps over them, laid out as the coordinator keeps them. */
  method NewLayout(hann: nat -> seq<real>)
    returns (engines: seq<FFTProcessor>, left: map<int, FFTProcessor>, right: map<int, FFTProcessor>,
             ghost pooled: set<FFTProcessor>, ghost built: set<object>, ghost buffers: set<array<real>>, ghost owner: map<object, int>)
    requires forall k: nat :: 8 <= k <= 12 ==> |hann(k)| == Pow2(k) + 1
    ensures fresh(built) && Layout(left, right, engines, pooled, built, buffers, owner)
    ensures pooled == set i | 0 <= i < 10 :: engines[i]
    ensures forall i :: 0 <= i < 10 ==> EngineFor(engines[i], OrderAt(i))
    ensures forall i :: 0 <= i < 10 ==> FlagsOf(engines[i]) == Fresh
    ensures PoolPristine(engines, hann)
  {
    engines, built, owner := NewPool(hann);
    PoolMapsOver(engines);
    left := LeftMap(engines);
    right := RightMap(engines);
    pooled := set i | 0 <= i < 10 :: engines[i];
    BuffersWithin(engines, built);
    buffers := BuffersOf(engines);
  }

  /**
   * The ten pooled engines in pool order (left 8..12, then right 8..12),
   * each constructed as FFTProcessor(order, 2), and the objects they own.
   */
  method NewPool(hann: nat -> seq<real>) returns (engines: seq<FFTProcessor>, ghost built: set<object>, ghost owner: map<object, int>)
    requires forall k: nat :: 8 <= k <= 12 ==> |hann(k)| == Pow2(k) + 1
    ensures |engines| == 10 && fresh(built)
    ensures forall i :: 0 <= i < 10 ==> engines[i].Repr() <= built && Owns(owner, engines[i], i)
    ensures forall i :: 0 <= i < 10 ==> EngineFor(engines[i], OrderAt(i))
    ensures forall i :: 0 <= i < 10 ==> FlagsOf(engines[i]) == Fresh
    ensures PoolPristine(engines, hann)
  {
    engines := [];
    built := {};
    owner := map[];
    var i := 0;
    while i < 10
      invariant 0 <= i <= 10 && |engines| == i
      invariant fresh(built) && owner.Keys <= built
      invariant forall j :: 0 <= j < i ==> engines[j].Repr() <= built && Owns(owner, engines[j], j)
      invariant forall j :: 0 <= j < i ==> Constructed(engines[j], OrderAt(j), hann(OrderAt(j)))
    {
      var e := NewEngine(OrderAt(i), hann(OrderAt(i)));
      assert e.Repr() !! built;
      OwnsExtend(owner, engines, built, e, i);
      engines := engines + [e];
      built := built + e.Repr();
      owner := owner[e := i][e.inputFifo := i][e.outputFifo := i][e.fftData := i];
      i := i + 1;
    }
  }

  /** Registering a new engine, disjoint from those before it, under position `i` keeps the earlier owners. */
  lemma OwnsExtend(owner: map<object, int>, engines: seq<FFTProcessor>, built: set<object>, e: FFTProcessor, i: nat)
    requires i == |engines| && owner.Keys <= built && e.Repr() !! built
    requires forall j :: 0 <= j < i ==> engines[j].Repr() <= built && Owns(owner, engines[j], j)
    ensures var o := owner[e := i][e.inputFifo := i][e.outputFifo := i][e.fftData := i];
      Owns(o, e, i) && forall j :: 0 <= j < i ==> Owns(o, engines[j], j)
  {
  }

  /** One pooled engine, constructed as FFTProcessor(k, 2). */
  method NewEngine(k: nat, table: seq<real>) returns (e: FFTProcessor)
    requires 8 <= k <= 12 && |table| == Pow2(k) + 1
    ensures Constructed(e, k, table) && fresh(e.Repr())
  {
    HopSizeIsPow2(k, 2);
    assert Pow2(2) == 4;
    e := new FFTProcessor(k, 2, table);
  }
}
