/** Balancing one transaction: consumed value is routed into per-subject pools and a general pool,
    the outflows drain them in order, and the minted metrics are derived from the totals. */
module Pools {
  import opened Prelude
  import opened Payload
  import opened Sums

  datatype Pool = Pool(kind: StakeKind, subject: string)

  datatype Route = General | Staked(pool: Pool)

  /** A resolved inflow: its amount and the pool it feeds. */
  datatype Routed = Routed(amount: int, route: Route)

  datatype Dest = Pay | Place(pool: Pool) | Rescind(pool: Pool) | Malformed

  datatype Metrics = Metrics(schadenfreude: int, grace: int, mudita: int, regret: int)
  {
    function Plus(m: Metrics): Metrics {
      Metrics(schadenfreude + m.schadenfreude, grace + m.grace, mudita + m.mudita, regret + m.regret)
    }

    function Total(): int {
      schadenfreude + grace + mudita + regret
    }
  }

  const NO_METRICS := Metrics(0, 0, 0, 0)

  predicate Truthy(s: Option<string>) {
    s.Some? && s.value != ""
  }

  function RouteOf(o: Outflow): Route {
    if Truthy(o.opposition) then Staked(Pool(Opposition, o.opposition.value))
    else if Truthy(o.support) then Staked(Pool(Support, o.support.value))
    else General
  }

  function DestOf(o: Outflow): Dest {
    if Truthy(o.rescind) then
      (if o.rescindKind.None? then Malformed else Rescind(Pool(o.rescindKind.value, o.rescind.value)))
    else if Truthy(o.opposition) then Place(Pool(Opposition, o.opposition.value))
    else if Truthy(o.support) then Place(Pool(Support, o.support.value))
    else Pay
  }

  // ---- totals ----------------------------------------------------------------------------------

  function In(ins: seq<Routed>, p: Pool): int {
    if ins == [] then 0
    else In(ins[..|ins| - 1], p) + (if ins[|ins| - 1].route == Staked(p) then ins[|ins| - 1].amount else 0)
  }

  function GeneralIn(ins: seq<Routed>): int {
    if ins == [] then 0
    else GeneralIn(ins[..|ins| - 1]) + (if ins[|ins| - 1].route == General then ins[|ins| - 1].amount else 0)
  }

  function TotalIn(ins: seq<Routed>): int {
    if ins == [] then 0 else TotalIn(ins[..|ins| - 1]) + ins[|ins| - 1].amount
  }

  /** Value sent to the destinations `d`. */
  function Sent(outs: seq<Outflow>, d: Dest): int {
    if outs == [] then 0
    else Sent(outs[..|outs| - 1], d) + (if DestOf(outs[|outs| - 1]) == d then outs[|outs| - 1].amount else 0)
  }

  function TotalOut(outs: seq<Outflow>): int {
    if outs == [] then 0 else TotalOut(outs[..|outs| - 1]) + outs[|outs| - 1].amount
  }

  function Placed(outs: seq<Outflow>, p: Pool): int {
    Sent(outs, Place(p))
  }

  function Rescinded(outs: seq<Outflow>, p: Pool): int {
    Sent(outs, Rescind(p))
  }

  /** Stake that did not come out of the same pool. */
  function NewStake(ins: seq<Routed>, outs: seq<Outflow>, p: Pool): int {
    Placed(outs, p) - In(ins, p) + Rescinded(outs, p)
  }

  // ---- draining in order -----------------------------------------------------------------------

  /** Level of pool `p`, started at `start`, after the outflows. */
  function Level(start: int, outs: seq<Outflow>, p: Pool): int {
    if outs == [] then start else After(Level(start, outs[..|outs| - 1], p), outs[|outs| - 1], p)
  }

  function After(level: int, o: Outflow, p: Pool): int {
    if DestOf(o) == Rescind(p) then level - o.amount
    else if DestOf(o) == Place(p) then
      (if level > 0 then (if o.amount > level then 0 else level - o.amount) else level)
    else level
  }

  /** What one outflow takes from the general pool when its own pool stands at `level`. */
  function Draw(o: Outflow, level: int): int {
    match DestOf(o)
    case Pay => o.amount
    case Place(_) => if level > 0 then (if o.amount > level then o.amount - level else 0) else o.amount
    case _ => 0
  }

  function OwnLevel(ins: seq<Routed>, outs: seq<Outflow>, o: Outflow): int {
    match DestOf(o)
    case Place(p) => Level(In(ins, p), outs, p)
    case _ => 0
  }

  function Drawn(ins: seq<Routed>, outs: seq<Outflow>): int {
    if outs == [] then 0
    else
      var init, o := outs[..|outs| - 1], outs[|outs| - 1];
      Drawn(ins, init) + Draw(o, OwnLevel(ins, init, o))
  }

  predicate WellFormed(outs: seq<Outflow>) {
    forall j :: 0 <= j < |outs| ==> DestOf(outs[j]) != Malformed
  }

  /** The verdict of the draining loop. */
  ghost predicate Drains(ins: seq<Routed>, outs: seq<Outflow>) {
    && WellFormed(outs)
    && GeneralIn(ins) - Drawn(ins, outs) == 0
    && forall p :: Level(In(ins, p), outs, p) == 0
  }

  // ---- metrics ---------------------------------------------------------------------------------

  function Max0(n: int): int {
    if n > 0 then n else 0
  }

  function PlacedPools(outs: seq<Outflow>): set<Pool> {
    set o | o in outs && DestOf(o).Place? :: DestOf(o).pool
  }

  function RescindedPools(outs: seq<Outflow>): set<Pool> {
    set o | o in outs && DestOf(o).Rescind? :: DestOf(o).pool
  }

  function ConsumedPools(ins: seq<Routed>): set<Pool> {
    set i | i in ins && i.route.Staked? :: i.route.pool
  }

  function AllPools(ins: seq<Routed>, outs: seq<Outflow>): set<Pool> {
    PlacedPools(outs) + RescindedPools(outs) + ConsumedPools(ins)
  }

  function OfKind(ps: set<Pool>, kind: StakeKind): set<Pool> {
    set p | p in ps && p.kind == kind
  }

  /** Half the net new stake of each subject of one kind. */
  ghost function StakeMint(ins: seq<Routed>, outs: seq<Outflow>, kind: StakeKind): int {
    Sum(OfKind(AllPools(ins, outs), kind), p => Max0(NewStake(ins, outs, p)) / 2)
  }

  ghost function RescindMint(ins: seq<Routed>, outs: seq<Outflow>, kind: StakeKind): int {
    Sum(OfKind(AllPools(ins, outs), kind), p => Rescinded(outs, p) / 2)
  }

  ghost function MetricsOf(ins: seq<Routed>, outs: seq<Outflow>): Metrics {
    Metrics(StakeMint(ins, outs, Opposition), RescindMint(ins, outs, Opposition),
            StakeMint(ins, outs, Support), RescindMint(ins, outs, Support))
  }

  // ---- the loop --------------------------------------------------------------------------------

  function Get(m: map<Pool, int>, p: Pool): int {
    if p in m then m[p] else 0
  }

  method NetStakeMint(out: map<Pool, int>, consumed: map<Pool, int>, rescind: map<Pool, int>, kind: StakeKind)
    returns (total: int)
    ensures total == Sum(OfKind(out.Keys + consumed.Keys + rescind.Keys, kind),
                         p => Max0(Get(out, p) - Get(consumed, p) + Get(rescind, p)) / 2)
  {
    ghost var f := (p: Pool) => Max0(Get(out, p) - Get(consumed, p) + Get(rescind, p)) / 2;
    var keys := OfKind(out.Keys + consumed.Keys + rescind.Keys, kind);
    var rest := keys;
    total := 0;
    while rest != {}
      invariant total + Sum(rest, f) == Sum(keys, f)
      decreases |rest|
    {
      var p :| p in rest;
      SumRemove(rest, f, p);
      total := total + Max0(Get(out, p) - Get(consumed, p) + Get(rescind, p)) / 2;
      rest := rest - {p};
    }
  }

  method HalvedTotal(rescind: map<Pool, int>, kind: StakeKind) returns (total: int)
    ensures total == Sum(OfKind(rescind.Keys, kind), p => Get(rescind, p) / 2)
  {
    ghost var f := (p: Pool) => Get(rescind, p) / 2;
    var keys := OfKind(rescind.Keys, kind);
    var rest := keys;
    total := 0;
    while rest != {}
      invariant rest <= keys
      invariant total + Sum(rest, f) == Sum(keys, f)
      decreases |rest|
    {
      var p :| p in rest;
      SumRemove(rest, f, p);
      total := total + rescind[p] / 2;
      rest := rest - {p};
    }
  }

  lemma Snoc<T>(s: seq<T>, i: int)
    requires 0 <= i < |s|
    ensures s[..i + 1] == s[..i] + [s[i]]
    ensures s[..i + 1][..i] == s[..i] && s[..i + 1][i] == s[i] && |s[..i + 1]| == i + 1
  {
  }

  method RouteInflows(ins: seq<Routed>) returns (pools: map<Pool, int>, other: int)
    ensures other == GeneralIn(ins)
    ensures pools.Keys == ConsumedPools(ins) && forall p :: Get(pools, p) == In(ins, p)
  {
    pools := map[];
    other := 0;
    for i := 0 to |ins|
      invariant other == GeneralIn(ins[..i])
      invariant pools.Keys == ConsumedPools(ins[..i])
      invariant forall p :: Get(pools, p) == In(ins[..i], p)
    {
      Snoc(ins, i);
      match ins[i].route
      case Staked(p) => pools := pools[p := Get(pools, p) + ins[i].amount];
      case General => other := other + ins[i].amount;
    }
    assert ins[..|ins|] == ins;
  }

  lemma PoolsSnoc(outs: seq<Outflow>, o: Outflow)
    ensures PlacedPools(outs + [o]) == PlacedPools(outs) + (if DestOf(o).Place? then {DestOf(o).pool} else {})
    ensures RescindedPools(outs + [o]) == RescindedPools(outs) + (if DestOf(o).Rescind? then {DestOf(o).pool} else {})
  {
    hide DestOf;
    var both := outs + [o];
    assert o == both[|outs|];
    assert forall x :: x in both <==> x in outs || x == o;
  }

  /** The whole balance check: `None` stands for the imbalance error. */
  method DrainPools(ins: seq<Routed>, outs: seq<Outflow>) returns (r: Option<Metrics>)
    ensures r.Some? <==> Drains(ins, outs)
    ensures r.Some? ==> r.value == MetricsOf(ins, outs)
  {
    hide DestOf, In, GeneralIn, ConsumedPools, PlacedPools, RescindedPools, Sent, Placed, Rescinded, Level,
      Drawn, StakeMint, RescindMint, OfKind;
    var pools, other := RouteInflows(ins);
    var consumed := pools;
    var placed: map<Pool, int>, rescinded: map<Pool, int> := map[], map[];
    NoFlows(ins);
    for j := 0 to |outs|
      invariant WellFormed(outs[..j])
      invariant forall p :: Get(pools, p) == Level(In(ins, p), outs[..j], p)
      invariant other == GeneralIn(ins) - Drawn(ins, outs[..j])
      invariant placed.Keys == PlacedPools(outs[..j]) && forall p :: Get(placed, p) == Placed(outs[..j], p)
      invariant rescinded.Keys == RescindedPools(outs[..j]) && forall p :: Get(rescinded, p) == Rescinded(outs[..j], p)
    {
      Snoc(outs, j);
      PoolsSnoc(outs[..j], outs[j]);
      FlowsSnoc(ins, outs[..j], outs[j]);
      var o := outs[j];
      match DestOf(o)
      case Malformed => return None;
      case Rescind(p) =>
        pools := pools[p := Get(pools, p) - o.amount];
        rescinded := rescinded[p := Get(rescinded, p) + o.amount];
      case Place(p) =>
        placed := placed[p := Get(placed, p) + o.amount];
        var level := Get(pools, p);
        if level > 0 {
          if o.amount > level {
            pools := pools[p := 0];
            other := other - (o.amount - level);
          } else {
            pools := pools[p := level - o.amount];
          }
        } else {
          other := other - o.amount;
        }
      case Pay =>
        other := other - o.amount;
    }
    assert outs[..|outs|] == outs;
    if other != 0 {
      return None;
    }
    if exists p :: p in pools && pools[p] != 0 {
      ghost var p :| p in pools && pools[p] != 0;
      assert Get(pools, p) != 0;
      return None;
    }
    assert Drains(ins, outs) by {
      forall p
        ensures Level(In(ins, p), outs, p) == 0
      {
        assert Get(pools, p) == 0;
      }
    }
    var schadenfreude := NetStakeMint(placed, consumed, rescinded, Opposition);
    var mudita := NetStakeMint(placed, consumed, rescinded, Support);
    var grace := HalvedTotal(rescinded, Opposition);
    var regret := HalvedTotal(rescinded, Support);
    MintedFromMaps(ins, outs, placed, consumed, rescinded, Opposition);
    MintedFromMaps(ins, outs, placed, consumed, rescinded, Support);
    return Some(Metrics(schadenfreude, grace, mudita, regret));
  }

  lemma NoFlows(ins: seq<Routed>)
    ensures PlacedPools([]) == {} && RescindedPools([]) == {} && Drawn(ins, []) == 0
    ensures forall p :: Placed([], p) == 0 && Rescinded([], p) == 0
    ensures forall n, p :: Level(n, [], p) == n
  {
  }

  lemma FlowsSnoc(ins: seq<Routed>, outs: seq<Outflow>, o: Outflow)
    ensures forall d :: Sent(outs + [o], d) == Sent(outs, d) + (if DestOf(o) == d then o.amount else 0)
    ensures forall p :: Placed(outs + [o], p) == Placed(outs, p) + (if DestOf(o) == Place(p) then o.amount else 0)
    ensures forall p ::
      Rescinded(outs + [o], p) == Rescinded(outs, p) + (if DestOf(o) == Rescind(p) then o.amount else 0)
    ensures forall n, p :: Level(n, outs + [o], p) == After(Level(n, outs, p), o, p)
    ensures Drawn(ins, outs + [o]) == Drawn(ins, outs) + Draw(o, OwnLevel(ins, outs, o))
  {
    hide DestOf;
    assert (outs + [o])[..|outs|] == outs;
  }

  lemma MintedFromMaps(ins: seq<Routed>, outs: seq<Outflow>, placed: map<Pool, int>, consumed: map<Pool, int>,
                       rescinded: map<Pool, int>, kind: StakeKind)
    requires placed.Keys == PlacedPools(outs) && rescinded.Keys == RescindedPools(outs)
    requires consumed.Keys == ConsumedPools(ins)
    requires forall p :: Get(placed, p) == Placed(outs, p)
    requires forall p :: Get(rescinded, p) == Rescinded(outs, p)
    requires forall p :: Get(consumed, p) == In(ins, p)
    ensures Sum(OfKind(placed.Keys + consumed.Keys + rescinded.Keys, kind),
                p => Max0(Get(placed, p) - Get(consumed, p) + Get(rescinded, p)) / 2) == StakeMint(ins, outs, kind)
    ensures Sum(OfKind(rescinded.Keys, kind), p => Get(rescinded, p) / 2) == RescindMint(ins, outs, kind)
  {
    hide PlacedPools, RescindedPools, ConsumedPools, Placed, Rescinded, In;
    var all := OfKind(AllPools(ins, outs), kind);
    assert OfKind(placed.Keys + consumed.Keys + rescinded.Keys, kind) == all;
    SumAgree(all, p => Max0(Get(placed, p) - Get(consumed, p) + Get(rescinded, p)) / 2,
             p => Max0(NewStake(ins, outs, p)) / 2);
    var f, g := (p: Pool) => Get(rescinded, p) / 2, (p: Pool) => Rescinded(outs, p) / 2;
    SumAgree(OfKind(rescinded.Keys, kind), f, g);
    SumSupport(all, OfKind(rescinded.Keys, kind), g);
  }
}
