/** What the draining loop decides, stated without the loop. */
module PoolTheory {
  import opened Payload
  import opened Sums
  import opened Pools

  /** Amounts as the payload validators leave them. */
  predicate Positive(ins: seq<Routed>, outs: seq<Outflow>) {
    (forall i :: 0 <= i < |ins| ==> ins[i].amount >= 1) && (forall j :: 0 <= j < |outs| ==> outs[j].amount >= 1)
  }

  /** Everything the outflows take out of, or put into, pool `p`. */
  function Claimed(outs: seq<Outflow>, p: Pool): int {
    Placed(outs, p) + Rescinded(outs, p)
  }

  /** Up to and including each rescind of `p`, no more is claimed than was consumed. */
  predicate Covered(start: int, outs: seq<Outflow>, p: Pool) {
    forall j :: 0 <= j < |outs| && DestOf(outs[j]) == Rescind(p) ==> Claimed(outs[..j + 1], p) <= start
  }

  /** The declarative balance rule: value is conserved, no pool is left over, and the order of the
      outflows only matters in that stake is rescinded before it can be used up. */
  ghost predicate Balanced(ins: seq<Routed>, outs: seq<Outflow>) {
    && WellFormed(outs)
    && TotalIn(ins) == TotalOut(outs)
    && forall p :: Covered(In(ins, p), outs, p) && In(ins, p) <= Claimed(outs, p)
  }

  // ---- one pool --------------------------------------------------------------------------------

  lemma CoveredSnoc(start: int, outs: seq<Outflow>, o: Outflow, p: Pool)
    ensures Covered(start, outs + [o], p) <==>
            Covered(start, outs, p) && (DestOf(o) == Rescind(p) ==> Claimed(outs + [o], p) <= start)
  {
    hide DestOf, Claimed;
    var both := outs + [o];
    assert forall j :: 0 <= j < |outs| ==> both[..j + 1] == outs[..j + 1] && both[j] == outs[j];
    assert both[..|outs| + 1] == both && both[|outs|] == o;
    if Covered(start, both, p) {
      forall j | 0 <= j < |outs| && DestOf(outs[j]) == Rescind(p)
        ensures Claimed(outs[..j + 1], p) <= start
      {
        assert DestOf(both[j]) == Rescind(p);
      }
    }
  }

  lemma {:induction false} ClaimedNonNegative(outs: seq<Outflow>, p: Pool)
    requires Positive([], outs)
    ensures Placed(outs, p) >= 0 && Rescinded(outs, p) >= 0
  {
    if outs != [] {
      ClaimedNonNegative(outs[..|outs| - 1], p);
    }
  }

  /** Closed form of a pool's level: what is left, or below zero once a rescind was not covered. */
  lemma {:induction false} LevelClosed(ins: seq<Routed>, start: int, outs: seq<Outflow>, p: Pool)
    requires start >= 0 && Positive([], outs)
    ensures Covered(start, outs, p) ==> Level(start, outs, p) == Max0(start - Claimed(outs, p))
    ensures !Covered(start, outs, p) ==> Level(start, outs, p) < 0
  {
    if outs == [] {
    } else {
      hide DestOf, Covered, Placed, Rescinded, Level;
      var init, o := outs[..|outs| - 1], outs[|outs| - 1];
      assert outs == init + [o];
      LevelClosed(ins, start, init, p);
      CoveredSnoc(start, init, o, p);
      FlowsSnoc(ins, init, o);
    }
  }

  /** In a covered pool what is rescinded was consumed. */
  lemma {:induction false} RescindedCovered(start: int, outs: seq<Outflow>, p: Pool)
    requires start >= 0 && Positive([], outs) && Covered(start, outs, p)
    ensures Rescinded(outs, p) <= start
  {
    if outs != [] {
      hide DestOf, Covered, Placed, Rescinded;
      var init, o := outs[..|outs| - 1], outs[|outs| - 1];
      assert outs == init + [o];
      CoveredSnoc(start, init, o, p);
      RescindedCovered(start, init, p);
      FlowsSnoc([], init, o);
      ClaimedNonNegative(outs, p);
    }
  }

  // ---- all pools together ----------------------------------------------------------------------

  predicate Mentions(ps: set<Pool>, ins: seq<Routed>, outs: seq<Outflow>) {
    && (forall i :: 0 <= i < |ins| && ins[i].route.Staked? ==> ins[i].route.pool in ps)
    && (forall j :: 0 <= j < |outs| ==>
        (DestOf(outs[j]).Place? || DestOf(outs[j]).Rescind?) ==> DestOf(outs[j]).pool in ps)
  }

  lemma AllPoolsMention(ins: seq<Routed>, outs: seq<Outflow>)
    ensures Mentions(AllPools(ins, outs), ins, outs)
  {
    hide DestOf;
  }

  lemma {:induction false} InSplits(ins: seq<Routed>, ps: set<Pool>)
    requires Mentions(ps, ins, [])
    ensures TotalIn(ins) == GeneralIn(ins) + Sum(ps, p => In(ins, p))
  {
    var f := (p: Pool) => In(ins, p);
    if ins == [] {
      SumZero(ps, f);
    } else {
      var init, r := ins[..|ins| - 1], ins[|ins| - 1];
      InSplits(init, ps);
      var g := (p: Pool) => In(init, p);
      match r.route
      case General => SumAgree(ps, f, g);
      case Staked(q) => SumChange(ps, g, f, q);
    }
  }

  lemma {:induction false} OutSplits(outs: seq<Outflow>, ps: set<Pool>)
    requires WellFormed(outs) && Mentions(ps, [], outs)
    ensures TotalOut(outs) == Sent(outs, Pay) + Sum(ps, p => Claimed(outs, p))
  {
    var f := (p: Pool) => Claimed(outs, p);
    if outs == [] {
      SumZero(ps, f);
    } else {
      hide DestOf, Placed, Rescinded;
      var init, o := outs[..|outs| - 1], outs[|outs| - 1];
      assert outs == init + [o];
      OutSplits(init, ps);
      FlowsSnoc([], init, o);
      var g := (p: Pool) => Claimed(init, p);
      match DestOf(o)
      case Pay => SumAgree(ps, f, g);
      case Place(q) => SumChange(ps, g, f, q);
      case Rescind(q) => SumChange(ps, g, f, q);
    }
  }

  /** What the general pool pays for is what the other pools did not. */
  lemma {:induction false} DrawnSplits(ins: seq<Routed>, outs: seq<Outflow>, ps: set<Pool>)
    requires WellFormed(outs) && Mentions(ps, [], outs)
    ensures Drawn(ins, outs) ==
            TotalOut(outs) + Sum(ps, p => Level(In(ins, p), outs, p)) - Sum(ps, p => In(ins, p))
  {
    var f := (p: Pool) => Level(In(ins, p), outs, p);
    if outs == [] {
      SumAgree(ps, f, p => In(ins, p));
    } else {
      hide DestOf, Level, Drawn;
      var init, o := outs[..|outs| - 1], outs[|outs| - 1];
      assert outs == init + [o];
      DrawnSplits(ins, init, ps);
      FlowsSnoc(ins, init, o);
      var g := (p: Pool) => Level(In(ins, p), init, p);
      match DestOf(o)
      case Pay => SumAgree(ps, f, g);
      case Place(q) => SumChange(ps, g, f, q);
      case Rescind(q) => SumChange(ps, g, f, q);
    }
  }

  lemma {:induction false} InNonNegative(ins: seq<Routed>, p: Pool)
    requires Positive(ins, [])
    ensures In(ins, p) >= 0
  {
    if ins != [] {
      InNonNegative(ins[..|ins| - 1], p);
    }
  }

  lemma MentionsParts(ps: set<Pool>, ins: seq<Routed>, outs: seq<Outflow>)
    requires Mentions(ps, ins, outs)
    ensures Mentions(ps, ins, []) && Mentions(ps, [], outs)
  {
    hide DestOf;
  }

  /** The order-dependent loop accepts exactly the balanced transactions. */
  lemma DrainsIffBalanced(ins: seq<Routed>, outs: seq<Outflow>)
    requires Positive(ins, outs)
    ensures Drains(ins, outs) <==> Balanced(ins, outs)
  {
    hide DestOf, Level, Drawn, Covered, Placed, Rescinded, In, Mentions, AllPools;
    forall p
      ensures Level(In(ins, p), outs, p) == 0 <==> Covered(In(ins, p), outs, p) && In(ins, p) <= Claimed(outs, p)
    {
      InNonNegative(ins, p);
      LevelClosed(ins, In(ins, p), outs, p);
    }
    if WellFormed(outs) && forall p :: Level(In(ins, p), outs, p) == 0 {
      var ps := AllPools(ins, outs);
      AllPoolsMention(ins, outs);
      MentionsParts(ps, ins, outs);
      InSplits(ins, ps);
      DrawnSplits(ins, outs, ps);
      SumZero(ps, p => Level(In(ins, p), outs, p));
    }
  }

  // ---- the pool theorem ------------------------------------------------------------------------

  ghost function NewStakeTotal(ins: seq<Routed>, outs: seq<Outflow>): int {
    Sum(AllPools(ins, outs), p => NewStake(ins, outs, p))
  }

  ghost function RescindedTotal(ins: seq<Routed>, outs: seq<Outflow>): int {
    Sum(AllPools(ins, outs), p => Rescinded(outs, p))
  }

  /** For every accepted transaction: per subject nothing is rescinded that was not consumed and the
      floor at zero is never needed; over all subjects the new stake is what left the general pool. */
  lemma PoolTheorem(ins: seq<Routed>, outs: seq<Outflow>)
    requires Positive(ins, outs) && Drains(ins, outs)
    ensures TotalIn(ins) == TotalOut(outs)
    ensures forall p :: 0 <= Rescinded(outs, p) <= In(ins, p) && NewStake(ins, outs, p) >= 0
    ensures NewStakeTotal(ins, outs) == GeneralIn(ins) - Sent(outs, Pay)
  {
    hide DestOf, Level, Drawn, Covered, Placed, Rescinded, In, Mentions, AllPools, WellFormed;
    DrainsIffBalanced(ins, outs);
    forall p
      ensures 0 <= Rescinded(outs, p) <= In(ins, p) && NewStake(ins, outs, p) >= 0
    {
      InNonNegative(ins, p);
      ClaimedNonNegative(outs, p);
      RescindedCovered(In(ins, p), outs, p);
    }
    var ps := AllPools(ins, outs);
    AllPoolsMention(ins, outs);
    MentionsParts(ps, ins, outs);
    InSplits(ins, ps);
    OutSplits(outs, ps);
    SumOfSums(ps, p => NewStake(ins, outs, p), p => In(ins, p), p => Claimed(outs, p));
  }

  lemma BothKinds(ps: set<Pool>, f: Pool -> int)
    ensures Sum(OfKind(ps, Opposition), f) + Sum(OfKind(ps, Support), f) == Sum(ps, f)
  {
    SumDisjoint(OfKind(ps, Opposition), OfKind(ps, Support), f);
    assert OfKind(ps, Opposition) + OfKind(ps, Support) == ps;
  }

  /** Half on entry and half on exit: the four metrics mint at most half of what moved. */
  lemma MintBound(ins: seq<Routed>, outs: seq<Outflow>)
    requires Positive(ins, outs) && Drains(ins, outs)
    ensures 2 * MetricsOf(ins, outs).Total() <= NewStakeTotal(ins, outs) + RescindedTotal(ins, outs)
  {
    hide DestOf, Level, Drawn, Placed, Rescinded, In, AllPools, WellFormed, Drains, NewStake;
    PoolTheorem(ins, outs);
    var ps := AllPools(ins, outs);
    var f := (p: Pool) => Max0(NewStake(ins, outs, p)) / 2;
    var g := (p: Pool) => Rescinded(outs, p) / 2;
    BothKinds(ps, f);
    BothKinds(ps, g);
    var f2, g2 := (p: Pool) => 2 * f(p), (p: Pool) => 2 * g(p);
    SumOfSums(ps, f, f, f2);
    SumOfSums(ps, g, g, g2);
    SumBound(ps, f2, p => NewStake(ins, outs, p));
    SumBound(ps, g2, p => Rescinded(outs, p));
  }

  /** Acceptance depends on the order of the outflows: the same two outflows over the same inflows
      are refused when stake is placed first and accepted when it is rescinded first. */
  lemma OrderMatters(p: Pool, ins: seq<Routed>, place: Outflow, rescind: Outflow)
    requires DestOf(place) == Place(p) && place.amount == 9
    requires DestOf(rescind) == Rescind(p) && rescind.amount == 6
    requires ins == [Routed(10, Staked(p)), Routed(5, General)]
    ensures !Drains(ins, [place, rescind])
    ensures Drains(ins, [rescind, place])
  {
    hide DestOf, Level, Drawn;
    assert ins[..1] == [Routed(10, Staked(p))];
    assert In(ins, p) == In(ins[..1], p) == 10 && GeneralIn(ins) == GeneralIn(ins[..1]) + 5 == 5;
    NoFlows(ins);
    FlowsSnoc(ins, [], place);
    FlowsSnoc(ins, [place], rescind);
    assert [] + [place] == [place] && [place] + [rescind] == [place, rescind];
    assert Level(In(ins, p), [place, rescind], p) == -5;
    FlowsSnoc(ins, [], rescind);
    FlowsSnoc(ins, [rescind], place);
    assert [] + [rescind] == [rescind] && [rescind] + [place] == [rescind, place];
    assert Level(In(ins, p), [rescind], p) == 4;
    assert Drawn(ins, [rescind, place]) == 5;
    forall q
      ensures Level(In(ins, q), [rescind, place], q) == 0
    {
      if q != p {
        assert In(ins, q) == In(ins[..1], q) == 0;
      }
    }
  }
}
