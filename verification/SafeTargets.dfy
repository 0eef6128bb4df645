/** The safe target over time: it is what the pending votes supported when it was last updated. */
module SafeTargets {
  import opened Types
  import opened Sets
  import opened BlockTree
  import opened Ghost
  import opened GetHead
  import opened StoreModel
  import opened StoreInvariant
  import opened Production
  import opened StoreRuns
  import opened VoteEffects

  /** The block that two thirds of all validators support with these votes. */
  ghost function Supported(v: View, votes: Votes): Root
    requires SlotsDecrease(v.blocks)
  {
    Elect(v.blocks, v.justified.root, votes, CeilDiv(2 * v.numValidators, 3))
  }

  // ----- Time -----

  /** The last interval up to `until` that updates the safe target; negative if there is none. */
  function LastUpdate(until: nat): int { until - (until + 2) % INTERVALS_PER_SLOT }

  lemma LastUpdateIsLast(until: nat, t: nat)
    ensures LastUpdate(until) <= until && LastUpdate(until) % INTERVALS_PER_SLOT == 2
    ensures t <= until && t % INTERVALS_PER_SLOT == 2 ==> t <= LastUpdate(until)
  {}

  /** The safe target changes in the third interval of a slot and in no other. */
  lemma TickSafeTarget(v: View, hasProposal: bool)
    requires SlotsDecrease(v.blocks)
    ensures Tick(v, hasProposal).safeTarget
         == if (v.time + 1) % INTERVALS_PER_SLOT == 2 then Supported(v, v.pending) else v.safeTarget
  {}

  /** Pending votes are accepted in the fourth interval, and in the first if there is a proposal. */
  lemma TickPending(v: View, hasProposal: bool)
    requires SlotsDecrease(v.blocks)
    ensures var interval := (v.time + 1) % INTERVALS_PER_SLOT;
            Tick(v, hasProposal).pending == if interval == 3 || (interval == 0 && hasProposal) then map[] else v.pending
  {}

  /** The votes that are still pending at the last update: none if a slot ended before it. */
  function PendingAt(v: View, update: int): Votes { if v.time + 3 < update then map[] else v.pending }

  ghost function SafeTargetAfter(v: View, until: nat): Root
    requires SlotsDecrease(v.blocks)
  {
    if v.time < LastUpdate(until) then Supported(v, PendingAt(v, LastUpdate(until))) else v.safeTarget
  }

  lemma SafeTargetStep(v: View, until: nat, signal: bool)
    requires SlotsDecrease(v.blocks) && v.time < until && (signal ==> v.time + 1 == until)
    ensures SafeTargetAfter(Tick(v, signal), until) == SafeTargetAfter(v, until)
  {
    TickSafeTarget(v, signal);
    TickPending(v, signal);
    UpdateTimes(v.time, until);
    SameSupport(v, Tick(v, signal));
  }

  /** How the last update moves past one interval. */
  lemma UpdateTimes(time: nat, until: nat)
    requires time < until
    ensures var t, last := time + 1, LastUpdate(until);
            && (t % INTERVALS_PER_SLOT == 2 ==> last == t || t + 3 < last)
            && (t % INTERVALS_PER_SLOT == 3 && t < last ==> time + 3 < last)
            && (t % INTERVALS_PER_SLOT == 0 && t == until ==> last < time)
            && (t % INTERVALS_PER_SLOT in {0, 1} ==> last != t && last != t + 3)
            && (t % INTERVALS_PER_SLOT == 3 ==> last != t)
  {}

  lemma SameSupport(v: View, v': View)
    requires SlotsDecrease(v.blocks) && SameChain(v, v')
    ensures forall votes :: Supported(v', votes) == Supported(v, votes)
  {}

  /** Over any stretch of time only the last update counts. */
  lemma {:induction false} TicksSafeTarget(v: View, until: nat, hasProposal: bool)
    requires SlotsDecrease(v.blocks)
    ensures Ticks(v, until, hasProposal).safeTarget == SafeTargetAfter(v, until)
    decreases until - v.time
  {
    if v.time < until {
      var signal := hasProposal && v.time + 1 == until;
      SafeTargetStep(v, until, signal);
      TicksSafeTarget(Tick(v, signal), until, hasProposal);
    } else {
      LastUpdateIsLast(until, 0);
    }
  }

  /** The interval that a wall-clock time falls into. */
  function IntervalOf(v: View, time: nat): nat {
    if time <= v.genesisTime then 0 else (time - v.genesisTime) / SECONDS_PER_INTERVAL
  }

  lemma AdvanceSafeTarget(v: View, time: nat, hasProposal: bool)
    requires SlotsDecrease(v.blocks)
    ensures AdvanceTime(v, time, hasProposal).safeTarget == SafeTargetAfter(v, IntervalOf(v, time))
  {
    if v.genesisTime < time {
      TicksSafeTarget(v, IntervalOf(v, time), hasProposal);
    }
  }

  /** The clock is set to the interval of the given time, and never back. */
  lemma AdvanceTimeReaches(v: View, time: nat, hasProposal: bool)
    requires SlotsDecrease(v.blocks)
    ensures var r := AdvanceTime(v, time, hasProposal).time;
            r == if v.time < IntervalOf(v, time) then IntervalOf(v, time) else v.time
  {}

  // ----- Steps -----

  /** The interval that the clock reaches during a step, if the step consults one. */
  function ClockOf(v: View, ev: Event): nat {
    match ev
    case TickEvent(_) => v.time + 1
    case AdvanceEvent(time, _) => IntervalOf(v, time)
    case VoteEvent(now, _) => if now.Some? then IntervalOf(v, now.value) else 0
    case BlockEvent(now, _) => if now.Some? then IntervalOf(v, now.value) else 0
    case AggregateEvent(now, _, _, _) => if now.Some? then IntervalOf(v, now.value) else 0
    case PrepareEvent(slot) => slot * INTERVALS_PER_SLOT
    case ProduceEvent(slot, _, _, _, _) => slot * INTERVALS_PER_SLOT
    case _ => 0
  }

  predicate Updates(v: View, ev: Event) { ev.SafeTargetEvent? || v.time < LastUpdate(ClockOf(v, ev)) }

  /** The pending votes that the last update of a step counts. */
  function VotesCounted(v: View, ev: Event): Votes {
    if ev.SafeTargetEvent? then v.pending else PendingAt(v, LastUpdate(ClockOf(v, ev)))
  }

  lemma NowSafeTarget(v: View, now: Option<nat>)
    requires SlotsDecrease(v.blocks)
    ensures Now(v, now).safeTarget == SafeTargetAfter(v, if now.Some? then IntervalOf(v, now.value) else 0)
  {
    if now.Some? {
      AdvanceSafeTarget(v, now.value, false);
    }
  }

  lemma PrepareSafeTarget(v: View, slot: nat)
    requires SlotsDecrease(v.blocks)
    ensures Prepare(v, slot).safeTarget == SafeTargetAfter(v, slot * INTERVALS_PER_SLOT)
  {
    AdvanceSafeTarget(v, v.genesisTime + slot * SECONDS_PER_SLOT, true);
  }

  lemma ReceiveKeepsSafeTarget(w: World, v: View, e: Envelope)
    requires Inv(w, v)
    ensures ReceiveBlock(w, v, e).view.safeTarget == v.safeTarget
  {
    ReceiveBlockEffect(w, v, e);
  }

  lemma NetworkSafeTarget(w: World, v: View, ev: Event, v': View)
    requires Inv(w, v) && Step(w, v, ev, v') && (ev.VoteEvent? || ev.BlockEvent? || ev.AggregateEvent?)
    ensures v'.safeTarget == SafeTargetAfter(v, ClockOf(v, ev))
  {
    NowSafeTarget(v, ev.now);
    NowKeeps(w, v, ev.now);
    if ev.BlockEvent? {
      ReceiveKeepsSafeTarget(w, Now(v, ev.now), ev.envelope);
    } else if ev.AggregateEvent? {
      ReceiveAggregateFrame(w.c, Now(v, ev.now), ev.data, ev.bits, ev.signature);
    }
  }

  lemma LocalSafeTarget(w: World, v: View, ev: Event, v': View)
    requires Inv(w, v) && Step(w, v, ev, v') && (ev.AdvanceEvent? || ev.PrepareEvent? || ev.ProduceEvent?)
    ensures v'.safeTarget == SafeTargetAfter(v, ClockOf(v, ev))
  {
    if ev.AdvanceEvent? {
      AdvanceSafeTarget(v, ev.time, ev.hasProposal);
    } else {
      PrepareSafeTarget(v, ev.slot);
    }
  }

  lemma TickStepSafeTarget(w: World, v: View, ev: Event, v': View)
    requires Inv(w, v) && Step(w, v, ev, v') && ev.TickEvent?
    ensures v'.safeTarget == SafeTargetAfter(v, v.time + 1)
  {
    OneTick(v, ev.hasProposal);
  }

  lemma AcceptStepSafeTarget(w: World, v: View, ev: Event, v': View)
    requires Inv(w, v) && Step(w, v, ev, v') && ev.AcceptEvent?
    ensures v'.safeTarget == SafeTargetAfter(v, 0)
  {
    NoClock(v);
  }

  lemma ClockSafeTarget(w: World, v: View, ev: Event, v': View)
    requires Inv(w, v) && Step(w, v, ev, v') && !ev.SafeTargetEvent?
    ensures v'.safeTarget == SafeTargetAfter(v, ClockOf(v, ev))
  {
    if ev.VoteEvent? || ev.BlockEvent? || ev.AggregateEvent? {
      NetworkSafeTarget(w, v, ev, v');
    } else if ev.AdvanceEvent? || ev.PrepareEvent? || ev.ProduceEvent? {
      LocalSafeTarget(w, v, ev, v');
    } else if ev.TickEvent? {
      TickStepSafeTarget(w, v, ev, v');
      assert ClockOf(v, ev) == v.time + 1;
    } else {
      AcceptStepSafeTarget(w, v, ev, v');
      assert ClockOf(v, ev) == 0;
    }
  }

  lemma NoClock(v: View)
    requires SlotsDecrease(v.blocks)
    ensures Accept(v).safeTarget == SafeTargetAfter(v, 0)
  {}

  lemma OneTick(v: View, hasProposal: bool)
    requires SlotsDecrease(v.blocks)
    ensures Tick(v, hasProposal).safeTarget == SafeTargetAfter(v, v.time + 1)
  {
    TickSafeTarget(v, hasProposal);
    LastUpdateIsLast(v.time + 1, v.time + 1);
  }

  /** What a step leaves as safe target: what its last update gives, or the old one. */
  ghost function NextSafeTarget(v: View, ev: Event): Root
    requires SlotsDecrease(v.blocks)
  {
    if Updates(v, ev) then Supported(v, VotesCounted(v, ev)) else v.safeTarget
  }

  lemma StepSafeTarget(w: World, v: View, ev: Event, v': View)
    requires Inv(w, v) && Step(w, v, ev, v')
    ensures v'.safeTarget == NextSafeTarget(v, ev)
  {
    if ev.SafeTargetEvent? {
      ExplicitUpdate(v);
    } else {
      ClockSafeTarget(w, v, ev, v');
    }
  }

  lemma ExplicitUpdate(v: View)
    requires SlotsDecrease(v.blocks)
    ensures UpdateSafeTarget(v).safeTarget == Supported(v, v.pending)
  {}

  // ----- Runs -----

  predicate UpdatesAt(events: seq<Event>, views: seq<View>, i: nat)
    requires i < |events| < |views|
  {
    Updates(views[i], events[i])
  }

  /** Step i is the last of the first n steps that updates the safe target. */
  ghost predicate IsLastUpdate(events: seq<Event>, views: seq<View>, n: nat, i: nat)
    requires n <= |events| < |views|
  {
    i < n && UpdatesAt(events, views, i) && forall j: nat | i < j < n :: !UpdatesAt(events, views, j)
  }

  ghost predicate NeverUpdates(events: seq<Event>, views: seq<View>, n: nat)
    requires n <= |events| < |views|
  {
    forall j: nat | j < n :: !UpdatesAt(events, views, j)
  }

  /** What the update of step i gives. */
  ghost function UpdateOf(events: seq<Event>, views: seq<View>, i: nat): Root
    requires i < |events| < |views| && SlotsDecrease(views[i].blocks)
  {
    Supported(views[i], VotesCounted(views[i], events[i]))
  }

  lemma SafeTargetAt(w: World, events: seq<Event>, views: seq<View>, k: nat)
    requires w.Valid() && IsRun(w, events, views) && k < |events| && Unharmed(w, events, views, k)
    ensures Inv(w, views[k])
    ensures views[k + 1].safeTarget
         == if UpdatesAt(events, views, k) then UpdateOf(events, views, k) else views[k].safeTarget
  {
    RunsKeepInvariant(w, events, views, k);
    assert StepAt(w, events, views, k);
    StepSafeTarget(w, views[k], events[k], views[k + 1]);
  }

  lemma {:induction false} SafeTargetSince(w: World, events: seq<Event>, views: seq<View>, n: nat, i: nat)
    requires w.Valid() && IsRun(w, events, views) && n < |views| && Unharmed(w, events, views, n)
    requires IsLastUpdate(events, views, n, i)
    ensures Inv(w, views[i]) && views[n].safeTarget == UpdateOf(events, views, i)
    decreases n
  {
    SafeTargetAt(w, events, views, n - 1);
    if i < n - 1 {
      assert !UpdatesAt(events, views, n - 1);
      SafeTargetSince(w, events, views, n - 1, i);
    }
  }

  lemma {:induction false} SafeTargetAtFirst(w: World, events: seq<Event>, views: seq<View>, n: nat)
    requires w.Valid() && IsRun(w, events, views) && n < |views| && Unharmed(w, events, views, n)
    requires NeverUpdates(events, views, n)
    ensures views[n].safeTarget == w.Anchor()
  {
    if n > 0 {
      SafeTargetAtFirst(w, events, views, n - 1);
      SafeTargetAt(w, events, views, n - 1);
      assert !UpdatesAt(events, views, n - 1);
    }
  }

  /** `safe` is the deepest block below the justified root that two thirds of all validators
      support with these votes, or that root if there is none. */
  ghost predicate IsDeepest(v: View, votes: Votes, safe: Root)
    requires SlotsDecrease(v.blocks)
  {
    var start := StartOf(v.blocks, v.justified.root);
    && start in v.blocks
    && var e := ElectionFrom(v.blocks, start, votes, CeilDiv(2 * v.numValidators, 3));
       && (safe == start || Qualifies(e, start, safe))
       && (forall q | Qualifies(e, start, q) :: Descends(v.blocks, safe, q))
  }

  lemma SupportedIsDeepest(w: World, v: View, votes: Votes)
    requires Inv(w, v) && (votes == v.pending || votes == map[])
    ensures IsDeepest(v, votes, Supported(v, votes))
  {
    StartIsStored(w, v);
    forall id | id in votes
      ensures id < |w.Validators()|
    {
      assert VoteOk(w, v.blocks, id, v.pending[id], CurrentSlot(v.time));
    }
    RangeSize(votes.Keys, |w.Validators()|);
    assert |votes| == |votes.Keys|;
    var start := StartOf(v.blocks, v.justified.root);
    SafeTargetIsDeepest(ElectionFrom(v.blocks, start, votes, CeilDiv(2 * v.numValidators, 3)), start,
                        |w.Validators()|);
  }

  /** At every point of a run the safe target is the deepest block that two thirds of all
      validators supported with the votes pending at the last update, in the tree of that
      time; before the first update it is the anchor. */
  lemma SafeTargetOfRun(w: World, events: seq<Event>, views: seq<View>, n: nat)
    requires w.Valid() && IsRun(w, events, views) && n < |views| && Unharmed(w, events, views, n)
    ensures forall i: nat | IsLastUpdate(events, views, n, i) ::
              Inv(w, views[i]) && IsDeepest(views[i], VotesCounted(views[i], events[i]), views[n].safeTarget)
    ensures NeverUpdates(events, views, n) ==> views[n].safeTarget == w.Anchor()
  {
    forall i: nat | IsLastUpdate(events, views, n, i)
      ensures Inv(w, views[i]) && IsDeepest(views[i], VotesCounted(views[i], events[i]), views[n].safeTarget)
    {
      SafeTargetSince(w, events, views, n, i);
      SupportedIsDeepest(w, views[i], VotesCounted(views[i], events[i]));
    }
    if NeverUpdates(events, views, n) {
      SafeTargetAtFirst(w, events, views, n);
    }
  }
}
