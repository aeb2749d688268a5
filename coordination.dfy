/**
 * The live-reconfiguration logic of AudioPluginAudioProcessor on values:
 * the ready/in-use flags of the ten pooled engines, the selected order, and
 * the deferred-reset request, together with the switch decision of
 * processBlock, resetFFTs and prepareToPlay.
 */
module Coordination {

  /** The two flags an engine carries for the coordinator. */
  datatype Flags = Flags(ready: bool, inUse: bool)

  /** The flags of a freshly constructed engine, and of one after reset(). */
  const Fresh := Flags(true, false)

  /** The range of the "order" parameter. */
  predicate OrderParameter(order: int)
  {
    7 <= order <= 16
  }

  /** The orders both maps hold an engine for. */
  predicate InPool(order: int)
  {
    8 <= order <= 12
  }

  /** The same orders as a set: the keys of both maps. */
  const PoolOrders: set<int> := {8, 9, 10, 11, 12}

  /** The flags of the left-channel and the right-channel engines, by order. */
  datatype Pool = Pool(left: map<int, Flags>, right: map<int, Flags>)

  ghost predicate WellFormed(p: Pool)
  {
    forall k :: (k in p.left <==> InPool(k)) && (k in p.right <==> InPool(k))
  }

  function InitialPool(): (p: Pool)
    ensures WellFormed(p)
    ensures forall k :: InPool(k) ==> p.left[k] == Fresh && p.right[k] == Fresh
  {
    Pool(map k | k in PoolOrders :: Fresh, map k | k in PoolOrders :: Fresh)
  }

  /**
   * The outcome of the switch part of processBlock: new flags, the order
   * the block is routed to, whether the deferred reset was triggered, and
   * whether a map lookup threw.
   */
  datatype Decision = Decision(pool: Pool, lastOrder: int, triggered: bool, threw: bool)

  /** Both engines of `order` report ready. */
  predicate PairReady(p: Pool, order: int)
    requires WellFormed(p) && InPool(order)
  {
    p.left[order].ready && p.right[order].ready
  }

  /** How a committed switch treats the engines it retires. */
  datatype Policy =
    | AsWritten   // setFFTReady(false): clear `ready` only
    | Retiring    // prepFFTForReset(): clear `ready` and `inUse`

  /** The flags of an engine the switch retires. */
  function Retired(policy: Policy, fl: Flags): (r: Flags)
    ensures !r.ready
    ensures r.inUse <==> policy == AsWritten && fl.inUse
  {
    match policy
    case AsWritten => fl.(ready := false)
    case Retiring => Flags(false, false)
  }

  /**
   * The switch decision of processBlock, statement by statement: the lookup
   * of the requested order throws when it is not pooled; the switch commits
   * only if both new engines are ready; the new engines are marked in use
   * before the old ones are looked up, so a non-pooled `lastOrder` throws
   * with the new engines already marked; then the old engines are retired
   * as `policy` says, the deferred reset is triggered and the selection moves.
   */
  function SwitchStep(policy: Policy, p: Pool, lastOrder: int, requested: int): (d: Decision)
    requires WellFormed(p)
    ensures WellFormed(d.pool)
    ensures lastOrder == requested ==> d == Decision(p, lastOrder, false, false)
    ensures d.triggered <==> lastOrder != requested && InPool(requested) && InPool(lastOrder) && PairReady(p, requested)
    ensures d.threw <==> lastOrder != requested && (!InPool(requested) || (PairReady(p, requested) && !InPool(lastOrder)))
    ensures d.lastOrder == (if d.triggered then requested else lastOrder)
    ensures d.triggered ==>
      && d.pool.left[requested] == p.left[requested].(inUse := true)
      && d.pool.right[requested] == p.right[requested].(inUse := true)
      && d.pool.left[lastOrder] == Retired(policy, p.left[lastOrder])
      && d.pool.right[lastOrder] == Retired(policy, p.right[lastOrder])
    ensures !d.triggered && (!d.threw || !InPool(requested)) ==> d.pool == p
    ensures d.threw && InPool(requested) ==>
      d.pool == Pool(p.left[requested := p.left[requested].(inUse := true)],
                     p.right[requested := p.right[requested].(inUse := true)])
    ensures forall k :: InPool(k) && k != requested && k != lastOrder ==>
      d.pool.left[k] == p.left[k] && d.pool.right[k] == p.right[k]
    ensures forall k :: InPool(k) ==>
      (d.pool.left[k].ready ==> p.left[k].ready) && (d.pool.right[k].ready ==> p.right[k].ready)
  {
    if lastOrder == requested then Decision(p, lastOrder, false, false)
    else if !InPool(requested) then Decision(p, lastOrder, false, true)
    else if !PairReady(p, requested) then Decision(p, lastOrder, false, false)
    else
      var marked := MarkPair(p, requested);
      if !InPool(lastOrder) then Decision(marked, lastOrder, false, true)
      else Decision(RetirePair(policy, marked, lastOrder), requested, true, false)
  }

  /**
   * As written, a switch never clears `inUse`: every engine in use before
   * it is still in use after it.
   */
  lemma AsWrittenKeepsInUse(p: Pool, lastOrder: int, requested: int, k: int)
    requires WellFormed(p) && InPool(k)
    ensures var d := SwitchStep(AsWritten, p, lastOrder, requested);
      (p.left[k].inUse ==> d.pool.left[k].inUse) && (p.right[k].inUse ==> d.pool.right[k].inUse)
  {
    var d := SwitchStep(AsWritten, p, lastOrder, requested);
    if d.triggered && k == lastOrder {
      assert d.pool.left[k] == Retired(AsWritten, p.left[k]);
      assert d.pool.right[k] == Retired(AsWritten, p.right[k]);
    }
  }

  /**
   * The retirement policy changes nothing but the flags of the retired
   * pair: both switches decide the same outcome and agree on every other engine.
   */
  lemma PoliciesAgree(p: Pool, lastOrder: int, requested: int)
    requires WellFormed(p)
    ensures var a, b := SwitchStep(AsWritten, p, lastOrder, requested), SwitchStep(Retiring, p, lastOrder, requested);
      && a.lastOrder == b.lastOrder && a.triggered == b.triggered && a.threw == b.threw
      && (!a.triggered ==> a.pool == b.pool)
      && (forall k :: InPool(k) && k != lastOrder ==> a.pool.left[k] == b.pool.left[k] && a.pool.right[k] == b.pool.right[k])
  {
  }

  /** setFFTInUse(true) on both engines of `order`. */
  function MarkPair(p: Pool, order: int): Pool
    requires order in p.left && order in p.right
  {
    Pool(p.left[order := p.left[order].(inUse := true)], p.right[order := p.right[order].(inUse := true)])
  }

  /** Marking sets `inUse` on the pair of `order`, keeps its `ready`, and touches no other engine. */
  lemma MarkPairMarks(p: Pool, order: int)
    requires order in p.left && order in p.right
    ensures var r := MarkPair(p, order);
      && r.left.Keys == p.left.Keys && r.right.Keys == p.right.Keys
      && r.left[order].inUse && r.right[order].inUse
      && r.left[order].ready == p.left[order].ready && r.right[order].ready == p.right[order].ready
      && (forall k :: k in p.left && k != order ==> r.left[k] == p.left[k])
      && (forall k :: k in p.right && k != order ==> r.right[k] == p.right[k])
  {
  }

  /** Both engines of `order` retired as `policy` says. */
  function RetirePair(policy: Policy, p: Pool, order: int): Pool
    requires order in p.left && order in p.right
  {
    Pool(p.left[order := Retired(policy, p.left[order])], p.right[order := Retired(policy, p.right[order])])
  }

  /**
   * Retiring clears `ready` on the pair of `order`, keeps its `inUse` only as
   * written, and touches no other engine.
   */
  lemma RetirePairRetires(policy: Policy, p: Pool, order: int)
    requires order in p.left && order in p.right
    ensures var r := RetirePair(policy, p, order);
      && r.left.Keys == p.left.Keys && r.right.Keys == p.right.Keys
      && !r.left[order].ready && !r.right[order].ready
      && (r.left[order].inUse <==> policy == AsWritten && p.left[order].inUse)
      && (r.right[order].inUse <==> policy == AsWritten && p.right[order].inUse)
      && (forall k :: k in p.left && k != order ==> r.left[k] == p.left[k])
      && (forall k :: k in p.right && k != order ==> r.right[k] == p.right[k])
  {
  }

  /** resetFFTs(): in both maps, every engine not in use is reset; in-use engines are skipped. */
  function ResetUnused(p: Pool): (r: Pool)
    requires WellFormed(p)
    ensures WellFormed(r)
    ensures forall k :: InPool(k) ==>
      && (p.left[k].inUse ==> r.left[k] == p.left[k]) && (!p.left[k].inUse ==> r.left[k] == Fresh)
      && (p.right[k].inUse ==> r.right[k] == p.right[k]) && (!p.right[k].inUse ==> r.right[k] == Fresh)
  {
    Pool(map k | 8 <= k <= 12 :: if p.left[k].inUse then p.left[k] else Fresh,
         map k | 8 <= k <= 12 :: if p.right[k].inUse then p.right[k] else Fresh)
  }

  /** prepareToPlay(): every left-channel engine is reset, no right-channel engine is. */
  function PrepareFlags(p: Pool): (r: Pool)
    requires WellFormed(p)
    ensures WellFormed(r) && r.right == p.right
    ensures forall k :: InPool(k) ==> r.left[k] == Fresh
  {
    Pool(map k | k in PoolOrders :: Fresh, p.right)
  }

  // ---------------------------------------------------------------------
  // The coordinator as a state machine over events
  // ---------------------------------------------------------------------

  /**
   * What drives the coordinator: a processBlock with the current order
   * parameter, the deferred reset being delivered, or prepareToPlay.
   */
  datatype Event = Block(requested: int) | AsyncReset | Prepare

  /** The coordinator state: flags, selected order, and a pending deferred reset. */
  datatype Sys = Sys(pool: Pool, lastOrder: int, pending: bool)

  /**
   * One event.  A trigger while a reset is already pending is coalesced;
   * a delivered reset runs resetFFTs once.  A block whose lookup throws
   * keeps whatever flags were set before the throw.
   */
  function Apply(policy: Policy, s: Sys, e: Event): (r: Sys)
    requires WellFormed(s.pool)
    ensures WellFormed(r.pool)
  {
    match e
    case Block(requested) =>
      var d := SwitchStep(policy, s.pool, s.lastOrder, requested);
      Sys(d.pool, d.lastOrder, s.pending || d.triggered)
    case AsyncReset =>
      if s.pending then Sys(ResetUnused(s.pool), s.lastOrder, false) else s
    case Prepare =>
      s.(pool := PrepareFlags(s.pool))
  }

  /**
   * What each event does: a block moves the selection only to the requested
   * order and asks for a reset exactly when it moves it, a request already
   * pending staying pending; a delivered reset runs resetFFTs once and
   * clears the request, and without a request it does nothing;
   * prepareToPlay resets the left channel's flags and nothing else.
   */
  lemma ApplyEffects(policy: Policy, s: Sys, e: Event)
    requires WellFormed(s.pool)
    ensures var r := Apply(policy, s, e);
      && (e.Block? ==> (r.lastOrder == s.lastOrder || r.lastOrder == e.requested))
      && (e.Block? ==> (r.pending <==> s.pending || r.lastOrder != s.lastOrder))
      && (e == AsyncReset ==> !r.pending && r.lastOrder == s.lastOrder)
      && (e == AsyncReset && s.pending ==> r.pool == ResetUnused(s.pool))
      && (e == AsyncReset && !s.pending ==> r == s)
      && (e == Prepare ==> r.pool.right == s.pool.right && r.lastOrder == s.lastOrder && r.pending == s.pending)
      && (e == Prepare ==> forall k :: InPool(k) ==> r.pool.left[k] == Fresh)
  {
  }

  function Trace(policy: Policy, s: Sys, es: seq<Event>): (r: Sys)
    requires WellFormed(s.pool)
    ensures WellFormed(r.pool)
    decreases |es|
  {
    if es == [] then s else Trace(policy, Apply(policy, s, es[0]), es[1..])
  }

  /** The coordinator right after construction, with the order parameter's value. */
  function Initial(order: int): (r: Sys)
    ensures WellFormed(r.pool) && r.lastOrder == order && !r.pending
    ensures forall k :: InPool(k) ==> r.pool.left[k] == Fresh && r.pool.right[k] == Fresh
  {
    Sys(InitialPool(), order, false)
  }

  // ---------------------------------------------------------------------
  // Properties
  // ---------------------------------------------------------------------

  /** resetFFTs twice in a row is resetFFTs once, and it leaves every unused engine ready. */
  lemma ResetUnusedIdempotent(p: Pool)
    requires WellFormed(p)
    ensures ResetUnused(ResetUnused(p)) == ResetUnused(p)
    ensures forall k :: InPool(k) ==>
      (ResetUnused(p).left[k].ready || p.left[k].inUse) && (ResetUnused(p).right[k].ready || p.right[k].inUse)
  {
    var r := ResetUnused(p);
    assert ResetUnused(r).left == r.left;
    assert ResetUnused(r).right == r.right;
  }

  /**
   * The retirement never clears `inUse`: an engine that is in use, not
   * ready and not selected stays so under every event (resetFFTs skips it,
   * a switch can never select it again, prepareToPlay does not touch the
   * right channel).
   */
  ghost predicate StuckRight(s: Sys, k: int)
  {
    && WellFormed(s.pool) && InPool(k)
    && s.pool.right[k].inUse && !s.pool.right[k].ready && s.lastOrder != k
  }

  lemma StuckRightStep(s: Sys, k: int, e: Event)
    requires StuckRight(s, k)
    ensures StuckRight(Apply(AsWritten, s, e), k)
  {
    match e
    case Block(requested) =>
      var d := SwitchStep(AsWritten, s.pool, s.lastOrder, requested);
      AsWrittenKeepsInUse(s.pool, s.lastOrder, requested, k);
      assert d.pool.right[k].inUse && !d.pool.right[k].ready;
      assert d.triggered ==> requested != k;
    case AsyncReset =>
    case Prepare =>
  }

  lemma {:induction false} RightChannelStuck(s: Sys, k: int, es: seq<Event>)
    requires StuckRight(s, k)
    ensures StuckRight(Trace(AsWritten, s, es), k)
    decreases |es|
  {
    if es != [] {
      StuckRightStep(s, k, es[0]);
      RightChannelStuck(Apply(AsWritten, s, es[0]), k, es[1..]);
    }
  }

  /** Switching 11 -> 10 -> 11 with the deferred resets delivered in between. */
  function RoundTrip(): seq<Event>
  {
    [Block(10), AsyncReset, Block(11), AsyncReset]
  }

  /**
   * From the default order 11, the round trip leaves the order-10 right
   * engine in use and not ready while 11 is selected, so order 10 can never
   * be selected again whatever follows.
   */
  lemma StuckRetirementReachable(es: seq<Event>)
    ensures StuckRight(Trace(AsWritten, Initial(11), RoundTrip()), 10)
    ensures Trace(AsWritten, Trace(AsWritten, Initial(11), RoundTrip()), es).lastOrder != 10
  {
    var s0 := Initial(11);
    var s1 := Apply(AsWritten, s0, Block(10));
    assert s1.lastOrder == 10 && s1.pending;
    assert s1.pool.right[10].inUse;
    var s2 := Apply(AsWritten, s1, AsyncReset);
    assert s2.pool.right[11] == Fresh && s2.pool.right[10].inUse;
    var s3 := Apply(AsWritten, s2, Block(11));
    assert s3.lastOrder == 11 && s3.pending;
    assert s3.pool.right[10].inUse && !s3.pool.right[10].ready;
    var s4 := Apply(AsWritten, s3, AsyncReset);
    assert StuckRight(s4, 10);
    assert Trace(AsWritten, s0, RoundTrip()) == s4 by {
      assert RoundTrip()[1..] == [AsyncReset, Block(11), AsyncReset];
      assert RoundTrip()[1..][1..] == [Block(11), AsyncReset];
      assert RoundTrip()[1..][1..][1..] == [AsyncReset];
      assert RoundTrip()[1..][1..][1..][1..] == [];
    }
    RightChannelStuck(s4, 10, es);
  }

  /**
   * With the retired engines prepared for reset: apart from the selected
   * order no engine is in use, and once no reset is pending every engine
   * apart from the selected ones is ready.
   */
  ghost predicate RetiringInv(s: Sys)
  {
    && WellFormed(s.pool) && InPool(s.lastOrder)
    && (forall k :: InPool(k) && k != s.lastOrder ==> !s.pool.left[k].inUse && !s.pool.right[k].inUse)
    && (!s.pending ==> forall k :: InPool(k) && k != s.lastOrder ==> s.pool.left[k].ready && s.pool.right[k].ready)
  }

  lemma RetiringInvStep(s: Sys, e: Event)
    requires RetiringInv(s)
    ensures RetiringInv(Apply(Retiring, s, e))
  {
    match e
    case Block(requested) =>
      var d := SwitchStep(Retiring, s.pool, s.lastOrder, requested);
      if d.triggered {
        forall k | InPool(k) && k != requested
          ensures !d.pool.left[k].inUse && !d.pool.right[k].inUse
        {
          if k == s.lastOrder {
            assert d.pool.left[k] == Retired(Retiring, s.pool.left[k]);
            assert d.pool.right[k] == Retired(Retiring, s.pool.right[k]);
          }
        }
      }
    case AsyncReset =>
    case Prepare =>
  }

  lemma {:induction false} RetiringInvTrace(s: Sys, es: seq<Event>)
    requires RetiringInv(s)
    ensures RetiringInv(Trace(Retiring, s, es))
    decreases |es|
  {
    if es != [] {
      RetiringInvStep(s, es[0]);
      RetiringInvTrace(Apply(Retiring, s, es[0]), es[1..]);
    }
  }

  /** From construction with a pooled order, the corrected coordinator keeps the invariant. */
  lemma RetiringInvInitial(order: int)
    requires InPool(order)
    ensures RetiringInv(Initial(order))
  {
  }

  /**
   * With the correction, once the pending reset has been delivered any
   * pooled order is honoured by the next block.
   */
  lemma RetiringAlwaysSwitches(s: Sys, requested: int)
    requires RetiringInv(s) && !s.pending && InPool(requested)
    ensures Apply(Retiring, s, Block(requested)).lastOrder == requested
  {
    if requested != s.lastOrder {
      assert PairReady(s.pool, requested);
    }
  }

  /** The same round trip under the correction: order 10 can be selected again. */
  lemma RetiringRoundTripRecovers()
    ensures Trace(Retiring, Trace(Retiring, Initial(11), RoundTrip()), [Block(10)]).lastOrder == 10
  {
    RetiringInvInitial(11);
    RetiringInvTrace(Initial(11), RoundTrip());
    var s := Trace(Retiring, Initial(11), RoundTrip());
    assert !s.pending by {
      var s0 := Initial(11);
      var s1 := Apply(Retiring, s0, Block(10));
      var s2 := Apply(Retiring, s1, AsyncReset);
      var s3 := Apply(Retiring, s2, Block(11));
      var s4 := Apply(Retiring, s3, AsyncReset);
      assert !s4.pending;
      assert RoundTrip()[1..] == [AsyncReset, Block(11), AsyncReset];
      assert RoundTrip()[1..][1..] == [Block(11), AsyncReset];
      assert RoundTrip()[1..][1..][1..] == [AsyncReset];
      assert RoundTrip()[1..][1..][1..][1..] == [];
      assert s == s4;
    }
    RetiringAlwaysSwitches(s, 10);
    assert [Block(10)][1..] == [];
  }

  /**
   * An order parameter outside the pool is not clamped: a block requesting
   * it throws, leaving flags, selection and the pending request as they were.
   */
  lemma OutOfPoolRequestThrows(policy: Policy, p: Pool, lastOrder: int, requested: int)
    requires WellFormed(p) && OrderParameter(requested) && !InPool(requested) && lastOrder != requested
    ensures var d := SwitchStep(policy, p, lastOrder, requested);
      d.threw && d.pool == p && d.lastOrder == lastOrder && !d.triggered
  {
  }
}
