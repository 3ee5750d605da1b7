/** One weight update through the chain: how the ranks are linked, and what every rollout rank loads. */
module WeightSync {
  import opened BucketPacking
  import opened Outcomes
  import opened ReadChain
  import opened Sequences
  import opened WeightChunks
  import opened WeightRoundTrip

  // ---------------------------------------------------------------- topology

  /** The per-worker arguments that build_topology hands out; `agents` are the metadata of all workers,
      trainer workers first. */
  datatype Topology<A> = Topology(
    trainerRank: seq<int>, trainerPrev: seq<Option<A>>, trainerNext: seq<Option<A>>,
    rolloutRank: seq<int>, rolloutPrev: seq<Option<A>>, rolloutNext: seq<Option<A>>)

  function Repeat<A>(x: A, n: nat): seq<A> {
    seq(n, _ => x)
  }

  function Somes<A>(xs: seq<A>): seq<Option<A>> {
    seq(|xs|, i requires 0 <= i < |xs| => Some(xs[i]))
  }

  /** A Python slice bound: a negative one counts from the end. */
  function Bound(n: nat, i: int): (b: nat)
    ensures b <= n
  {
    if i >= 0 then Min(i, n) else if n + i >= 0 then n + i else 0
  }

  function From<A>(xs: seq<A>, i: int): seq<A> {
    xs[Bound(|xs|, i)..]
  }

  function FromTo<A>(xs: seq<A>, i: int, j: int): seq<A> {
    if Bound(|xs|, i) <= Bound(|xs|, j) then xs[Bound(|xs|, i)..Bound(|xs|, j)] else []
  }

  function BuildTopology<A>(trainers: nat, rollouts: nat, agents: seq<A>): Topology<A>
    requires trainers >= 1 && rollouts >= 1 && |agents| == trainers + rollouts
  {
    Topology(
      [0] + Repeat(-1, trainers - 1),
      Repeat(None, trainers),
      [Some(agents[|agents| - rollouts])] + Repeat(None, trainers - 1),
      seq(rollouts, i => i + 1),
      [Some(agents[0])] + Somes(FromTo(agents, -(rollouts as int), -1)),
      Somes(From(agents, -(rollouts as int) + 1)) + [None])
  }

  /** The worker that gets a given rank of the chain. */
  function AgentOf<A>(trainers: nat, rank: nat, agents: seq<A>): A
    requires trainers >= 1 && trainers + rank <= |agents|
  {
    if rank == 0 then agents[0] else agents[trainers + rank - 1]
  }

  /** The entry of rollout worker i names the ranks before and after it. */
  ghost predicate IsLinked<A>(t: Topology<A>, trainers: nat, rollouts: nat, agents: seq<A>, i: nat)
    requires trainers >= 1 && i < rollouts && |agents| == trainers + rollouts
  {
    |t.rolloutRank| == |t.rolloutPrev| == |t.rolloutNext| == rollouts && t.rolloutRank[i] == i + 1 &&
    t.rolloutPrev[i] == Some(AgentOf(trainers, i, agents)) &&
    t.rolloutNext[i] == if i + 1 < rollouts then Some(AgentOf(trainers, i + 2, agents)) else None
  }

  /** The lists have one entry per worker, and link ranks 0..rollouts into one path; other trainers are not linked. */
  ghost predicate IsChain<A>(t: Topology<A>, trainers: nat, rollouts: nat, agents: seq<A>)
    requires trainers >= 1 && rollouts >= 1 && |agents| == trainers + rollouts
  {
    |t.trainerRank| == |t.trainerPrev| == |t.trainerNext| == trainers &&
    t.trainerRank[0] == 0 && t.trainerPrev[0] == None && t.trainerNext[0] == Some(AgentOf(trainers, 1, agents)) &&
    (forall i :: 1 <= i < trainers ==> t.trainerRank[i] == -1 && t.trainerPrev[i] == None && t.trainerNext[i] == None) &&
    forall i: nat :: i < rollouts ==> IsLinked(t, trainers, rollouts, agents, i)
  }

  /** With two or more rollout workers the slices leave out the last and the first of them; with a single one the
      slice of next agents is the whole list. */
  lemma RolloutSlices<A>(trainers: nat, rollouts: nat, agents: seq<A>)
    requires trainers >= 1 && rollouts >= 1 && |agents| == trainers + rollouts
    ensures FromTo(agents, -(rollouts as int), -1) == agents[trainers..|agents| - 1]
    ensures From(agents, -(rollouts as int) + 1) == if rollouts >= 2 then agents[trainers + 1..] else agents
  {
    assert Bound(|agents|, -1) == |agents| - 1 && Bound(|agents|, -(rollouts as int)) == trainers;
  }

  lemma TrainerPart<A>(trainers: nat, rollouts: nat, agents: seq<A>)
    requires trainers >= 1 && rollouts >= 1 && |agents| == trainers + rollouts
    ensures var t := BuildTopology(trainers, rollouts, agents);
            |t.trainerRank| == |t.trainerPrev| == |t.trainerNext| == trainers &&
            t.trainerRank[0] == 0 && t.trainerPrev[0] == None && t.trainerNext[0] == Some(AgentOf(trainers, 1, agents)) &&
            forall i :: 1 <= i < trainers ==> t.trainerRank[i] == -1 && t.trainerPrev[i] == None && t.trainerNext[i] == None
  {
  }

  lemma RolloutPart<A>(trainers: nat, rollouts: nat, agents: seq<A>, i: nat)
    requires trainers >= 1 && i < rollouts && rollouts >= 2 && |agents| == trainers + rollouts
    ensures IsLinked(BuildTopology(trainers, rollouts, agents), trainers, rollouts, agents, i)
  {
    RolloutSlices(trainers, rollouts, agents);
    assert i > 0 ==> agents[trainers..|agents| - 1][i - 1] == agents[trainers + i - 1];
    assert i + 1 < rollouts ==> agents[trainers + 1..][i] == agents[trainers + i + 1];
  }

  /** With two or more rollout workers the arguments describe one chain over all of them; with a single one the lists
      do not even have one entry per worker. */
  lemma TopologyIsChain<A>(trainers: nat, rollouts: nat, agents: seq<A>)
    requires trainers >= 1 && rollouts >= 1 && |agents| == trainers + rollouts
    ensures IsChain(BuildTopology(trainers, rollouts, agents), trainers, rollouts, agents) <==> rollouts >= 2
    ensures rollouts == 1 ==> |BuildTopology(trainers, rollouts, agents).rolloutNext| == trainers + 2
  {
    if rollouts >= 2 {
      TrainerPart(trainers, rollouts, agents);
      forall i: nat | i < rollouts ensures IsLinked(BuildTopology(trainers, rollouts, agents), trainers, rollouts, agents, i) {
        RolloutPart(trainers, rollouts, agents, i);
      }
    } else {
      RolloutSlices(trainers, rollouts, agents);
      assert !IsLinked(BuildTopology(trainers, rollouts, agents), trainers, rollouts, agents, 0);
    }
  }

  // ---------------------------------------------------------------- end to end

  /** The chain that sends these weights over n ranks. */
  function Sending(n: nat, bucketSize: nat, ws: seq<Weight>): Config
    requires bucketSize > 0
  {
    Config(n, bucketSize, Buckets(Groups(ws, bucketSize)))
  }

  lemma {:induction false} PackHasBucket(cs: seq<Chunk>, bucketSize: nat, current: seq<Chunk>)
    ensures |Pack(cs, bucketSize, current)| >= 1
    decreases |cs|
  {
    if cs != [] { PackHasBucket(cs[1..], bucketSize, After(current, cs[0], bucketSize)); }
  }

  lemma SendingFits(n: nat, bucketSize: nat, ws: seq<Weight>)
    requires bucketSize > 0 && n >= 2 && DistinctNames(ws)
    ensures Fits(Sending(n, bucketSize, ws))
  {
    var cfg := Sending(n, bucketSize, ws);
    GroupsLaid(ws, bucketSize);
    PackHasBucket(SplitAll(ws, bucketSize), bucketSize, []);
    forall k | 0 <= k < |cfg.buckets| ensures InBounds(cfg.buckets[k], cfg.size) {
      assert WellPlaced(cfg.buckets[k], cfg.size);
    }
  }

  lemma {:induction false} YieldsGroups(cfg: Config, gs: seq<seq<Chunk>>, k: nat)
    requires Fits(cfg) && |gs| == |cfg.buckets| && k <= |gs|
    requires forall i :: 0 <= i < |gs| ==> InBounds(cfg.buckets[i], cfg.size) && Unpack(cfg.buckets[i]) == gs[i]
    ensures Yields(cfg, k) == Flatten(gs[..k])
  {
    if k > 0 {
      YieldsGroups(cfg, gs, k - 1);
      assert gs[..k] == gs[..k - 1] + [gs[k - 1]];
      FlattenAppend(gs[..k - 1], [gs[k - 1]]);
      FlattenOne(gs[k - 1]);
    }
  }

  lemma SendingYields(n: nat, bucketSize: nat, ws: seq<Weight>)
    requires bucketSize > 0 && n >= 2 && DistinctNames(ws) && Fits(Sending(n, bucketSize, ws))
    ensures Yields(Sending(n, bucketSize, ws), |Sending(n, bucketSize, ws).buckets|) == Flatten(Groups(ws, bucketSize))
  {
    var cfg := Sending(n, bucketSize, ws);
    var gs := Groups(ws, bucketSize);
    GroupsLaid(ws, bucketSize);
    forall i | 0 <= i < |gs| ensures InBounds(cfg.buckets[i], cfg.size) && Unpack(cfg.buckets[i]) == gs[i] {
      assert WellPlaced(Buckets(gs)[i], bucketSize);
    }
    YieldsGroups(cfg, gs, |gs|);
    assert gs[..|gs|] == gs;
  }

  /** Every rollout rank that is done, in every run of the chain, has merged exactly the weights that the trainer had,
      provided the plan of offsets is aligned; and every run comes to an end with all ranks done. */
  lemma EveryRankLoadsTheWeights(n: nat, bucketSize: nat, ws: seq<Weight>, s: State, steps: seq<Step>, t: State)
    requires bucketSize > 0 && n >= 2 && DistinctNames(ws) && AreTensors(ws)
    requires IsInit(Sending(n, bucketSize, ws), s) && Run(Sending(n, bucketSize, ws), s, steps, t)
    ensures |t| == n
    ensures forall r :: 0 < r < n && t[r].pc.Done? ==>
      Merge(t[r].out, bucketSize) == if PlanAligned(ws, bucketSize) then Ok(NonEmpty(ws)) else Raise(Misaligned)
    ensures forall r :: 0 < r < n ==> t[r].out <= Flatten(Groups(ws, bucketSize))
    ensures AllDone(t) || exists step :: Enabled(Sending(n, bucketSize, ws), t, step)
    ensures Fits(Sending(n, bucketSize, ws)) && |steps| <= WorkUpTo(Sending(n, bucketSize, ws), s, n)
  {
    var cfg := Sending(n, bucketSize, ws);
    SendingFits(n, bucketSize, ws);
    ChainProgress(cfg, s, steps, t);
    ChainSafety(cfg, s, steps, t, Launch);
    SendingYields(n, bucketSize, ws);
    RoundTrip(ws, bucketSize);
  }
}
