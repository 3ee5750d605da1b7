/** The replay buffer of the trainer (verl/trainer/main_ppo_sync.py). */
module ReplayBuffers {
  import opened Outcomes
  import opened Sequences

  /** A prompt is stored under its uid, output number `index` of one of its sessions under uid, session and index. */
  datatype Key = Prompt(uid: string) | Output(uid: string, session: nat, index: nat)

  datatype Status = Running | Success | Finished | Failure

  /** A tag dictionary, restricted to what the buffer looks at; each entry may be missing. */
  datatype Tag = Tag(step: Option<int>, status: Option<Status>)

  type Partition = map<Key, Tag>

  // ---------------------------------------------------------------- adding and removing

  function Updated(t: Tag, u: Tag): Tag {
    Tag(if u.step.Some? then u.step else t.step, if u.status.Some? then u.status else t.status)
  }

  function Get(p: Partition, key: Key): Tag {
    if key in p then p[key] else Tag(None, None)
  }

  /** The partition after the items under `keys` have been added. */
  function MergedUpTo(p: Partition, items: Partition, keys: set<Key>): Partition {
    map key | key in p.Keys + keys :: Updated(Get(p, key), if key in keys then Get(items, key) else Tag(None, None))
  }

  function Merged(p: Partition, items: Partition): Partition {
    MergedUpTo(p, items, items.Keys)
  }

  lemma MergeStep(p: Partition, items: Partition, keys: set<Key>, key: Key)
    requires key in items && key !in keys
    ensures MergedUpTo(p, items, keys + {key}) ==
            MergedUpTo(p, items, keys)[key := Updated(Get(MergedUpTo(p, items, keys), key), items[key])]
  {
  }

  // ---------------------------------------------------------------- sampling

  /** One look at the partition: the batch, or wait for the next look, or an exception. */
  datatype Attempt = Ready(keys: seq<Key>) | Wait | Fails(error: Error)

  predicate Readable(t: Tag, steps: Option<int>) {
    t.step.Some? && (t.step == steps ==> t.status.Some?)
  }

  predicate Blocks(t: Tag, steps: Option<int>) {
    t.step.Some? && t.step == steps && t.status == Some(Running)
  }

  predicate Belongs(t: Tag, steps: Option<int>) {
    t.step.Some? && t.step == steps && t.status == Some(Success)
  }

  function Belonging(p: Partition, steps: Option<int>): set<Key> {
    set key | key in p && Belongs(p[key], steps)
  }

  /** What one look may give; entries are visited in any order. */
  ghost predicate Attempts(p: Partition, steps: Option<int>, r: Attempt) {
    match r
    case Ready(keys) =>
      (forall key :: key in p ==> Readable(p[key], steps) && !Blocks(p[key], steps)) &&
      Distinct(keys) && (set key | key in keys) == Belonging(p, steps)
    case Wait => exists key :: key in p && Blocks(p[key], steps)
    case Fails(error) => error == KeyError && exists key :: key in p && !Readable(p[key], steps)
  }

  class ReplayBuffer {
    var partitions: map<string, Partition>

    /** self.partitions[id] of a defaultdict: what is stored, or an empty partition. */
    function Part(id: string): (p: Partition)
      reads this
      ensures id in partitions ==> p == partitions[id]
      ensures id !in partitions ==> p == map[]
    {
      if id in partitions then partitions[id] else map[]
    }

    constructor ()
      ensures partitions == map[]
    {
      partitions := map[];
    }

    method Add(id: string, items: Partition)
      modifies this
      ensures partitions == old(partitions)[id := Merged(old(Part(id)), items)]
      ensures forall key :: key in partitions[id] <==> (id in old(partitions) && key in old(partitions)[id]) || key in items
      ensures forall key :: key in partitions[id] ==>
        var before := if id in old(partitions) && key in old(partitions)[id] then old(partitions)[id][key] else Tag(None, None);
        partitions[id][key].step == (if key in items && items[key].step.Some? then items[key].step else before.step) &&
        partitions[id][key].status == (if key in items && items[key].status.Some? then items[key].status else before.status)
    {
      var partition := Merge(Part(id), items);
      partitions := partitions[id := partition];
    }

    static method Merge(p: Partition, items: Partition) returns (q: Partition)
      ensures q == Merged(p, items)
    {
      q := p;
      var todo := items.Keys;
      ghost var done: set<Key> := {};
      assert q == MergedUpTo(p, items, done);
      while todo != {}
        invariant todo <= items.Keys && items.Keys - todo == done
        invariant q == MergedUpTo(p, items, done)
        decreases todo
      {
        var key :| key in todo;
        var value := Updated(Get(q, key), items[key]);
        ghost var done' := done + {key};
        assert q[key := value] == MergedUpTo(p, items, done') by { MergeStep(p, items, done, key); }
        q, todo, done := q[key := value], todo - {key}, done';
      }
      assert done == items.Keys;
    }

    method Remove(id: string, keys: seq<Key>)
      modifies this
      ensures partitions == old(partitions)[id := old(Part(id)) - set key | key in keys]
      ensures forall key :: key in partitions[id] <==> id in old(partitions) && key in old(partitions)[id] && key !in keys
      ensures forall key :: key in partitions[id] ==> partitions[id][key] == old(partitions)[id][key]
    {
      var partition := Part(id);
      ghost var before := partition;
      for i := 0 to |keys|
        invariant partition == before - set key | key in keys[..i]
      {
        if keys[i] in partition { partition := partition - {keys[i]}; }
        assert keys[..i + 1] == keys[..i] + [keys[i]];
      }
      assert keys[..|keys|] == keys;
      partitions := partitions[id := partition];
    }

    /** One round of sample; looking up a partition creates it. */
    method Sample(id: string, steps: Option<int>, batchSize: int) returns (r: Attempt)
      modifies this
      ensures r == Fails(AssertionError) <==> (steps.Some? <==> batchSize != 0)
      ensures r != Fails(AssertionError) ==>
        partitions == (if id in old(partitions) then old(partitions) else old(partitions)[id := map[]]) && Attempts(partitions[id], steps, r)
      ensures r == Fails(AssertionError) ==> partitions == old(partitions)
    {
      if !((steps.Some? || batchSize != 0) && !(steps.Some? && batchSize != 0)) { return Fails(AssertionError); }
      var partition := Part(id);
      partitions := partitions[id := partition];
      r := Look(partition, steps);
    }

    static method Look(p: Partition, steps: Option<int>) returns (r: Attempt)
      ensures Attempts(p, steps, r)
    {
      var keys := [];
      var todo := p.Keys;
      while todo != {}
        invariant todo <= p.Keys
        invariant forall key :: key in p && key !in todo ==> Readable(p[key], steps) && !Blocks(p[key], steps)
        invariant Distinct(keys) && forall key :: key in keys <==> key in p && key !in todo && Belongs(p[key], steps)
        decreases |todo|
      {
        var key :| key in todo;
        todo := todo - {key};
        var tag := p[key];
        if tag.step.None? { return Fails(KeyError); }
        if tag.step == steps {
          if tag.status.None? { return Fails(KeyError); }
          if tag.status == Some(Running) { return Wait; }
          if tag.status == Some(Success) { keys := keys + [key]; }
        }
      }
      r := Ready(keys);
    }
  }

  /** The mode with a batch size compares every step with a missing one: it gives an empty batch at once. */
  lemma BatchSizeGivesNothing(p: Partition, r: Attempt)
    requires forall key :: key in p ==> p[key].step.Some?
    ensures Attempts(p, None, r) <==> r == Ready([])
  {
    assert Belonging(p, None) == {};
    if r.Ready? {
      var keys := set key | key in r.keys;
      if r.keys != [] { assert r.keys[0] in keys; }
      assert forall key :: key in keys ==> key in r.keys;
    }
  }
}
