/** Trainer, workers and polling thread around one partition of the shared store. The store and the buffer's own
    partition are only brought together by snapshots: taken at once, added some time later. */
module ReplayRuns {
  import opened Outcomes
  import opened ReplayBuffers
  import opened Sequences

  datatype State = State(
    store: Partition, local: Partition, flight: Option<Partition>,
    prompts: map<string, int>,       // the step every dispatched prompt belongs to
    workers: map<string, Status>,    // Running, then Finished or Failure
    published: set<Key>,             // the outputs put into the store so far
    cleared: set<Key>, dropped: set<Key>,
    step: int, held: Option<set<Key>>)

  datatype Step =
    | Dispatch(uids: set<string>)
    | Put(uid: string, outputs: set<Key>)     // the outputs of one session, in one batch
    | End(uid: string, status: Status)
    | Snapshot
    | AddSnapshot
    | SampleBatch(batch: seq<Key>)
    | Clear(keys: set<Key>)                   // in the store
    | Drop(keys: set<Key>)                    // in the buffer
    | NextStep(step: int)

  function Start(step: int): State {
    State(map[], map[], None, map[], map[], {}, {}, {}, step, None)
  }

  function PromptsOf(uids: set<string>): set<Key> {
    set uid | uid in uids :: Prompt(uid)
  }

  function Pending(uids: set<string>, step: int): Partition {
    map key | key in PromptsOf(uids) :: Tag(Some(step), Some(Running))
  }

  function Outputs(keys: set<Key>, step: int): Partition {
    map key | key in keys :: Tag(Some(step), Some(Success))
  }

  ghost predicate Enabled(s: State, a: Step) {
    match a
    case Dispatch(uids) => s.held.None? && uids !! s.prompts.Keys
    case Put(uid, outputs) =>
      uid in s.prompts && uid in s.workers && s.workers[uid] != Finished && outputs !! s.published &&
      forall key :: key in outputs ==> key.Output? && key.uid == uid
    case End(uid, status) => uid in s.workers && s.workers[uid] == Running && (status == Finished || status == Failure)
    case Snapshot => s.flight.None?
    case AddSnapshot => s.flight.Some?
    case SampleBatch(keys) => s.held.None? && Attempts(s.local, Some(s.step), Ready(keys))
    case Clear(keys) => s.held.Some? && keys <= s.held.value
    case Drop(keys) => s.held.Some? && keys <= s.held.value && keys <= s.cleared
    case NextStep(step) => s.held.Some? && s.held.value <= s.cleared && s.held.value <= s.dropped && step >= s.step
  }

  function Apply(s: State, a: Step): State
    requires Enabled(s, a)
  {
    match a
    case Dispatch(uids) =>
      s.(local := Merged(s.local, Pending(uids, s.step)),
         prompts := map uid | uid in s.prompts.Keys + uids :: if uid in uids then s.step else s.prompts[uid],
         workers := map uid | uid in s.workers.Keys + uids :: if uid in uids then Running else s.workers[uid])
    case Put(uid, outputs) =>
      s.(store := Merged(s.store, Outputs(outputs, s.prompts[uid])), published := s.published + outputs)
    case End(uid, status) =>
      s.(store := Merged(s.store, map[Prompt(uid) := Tag(None, Some(status))]), workers := s.workers[uid := status])
    case Snapshot => s.(flight := Some(s.store))
    case AddSnapshot => s.(local := Merged(s.local, s.flight.value), flight := None)
    case SampleBatch(keys) => s.(held := Some(set key | key in keys))
    case Clear(keys) => s.(store := s.store - keys, cleared := s.cleared + keys)
    case Drop(keys) => s.(local := s.local - keys, dropped := s.dropped + keys)
    case NextStep(step) => s.(step := step, held := None)
  }

  // ---------------------------------------------------------------- the invariant

  ghost predicate Of(s: State, key: Key, step: int) {
    key.uid in s.prompts && s.prompts[key.uid] == step
  }

  ghost predicate Known(s: State) {
    s.workers.Keys == s.prompts.Keys && s.cleared <= s.published && (s.held.Some? ==> s.held.value <= s.published) &&
    (forall uid :: uid in s.workers ==> s.workers[uid] != Success) &&
    forall key :: key in s.published ==> key.Output? && key.uid in s.prompts
  }

  /** In the store a prompt has no step, and only the mark that ended it. */
  ghost predicate StoredOk(s: State, key: Key, t: Tag) {
    key.uid in s.prompts && key.uid in s.workers &&
    if key.Prompt? then t == Tag(None, Some(s.workers[key.uid])) && s.workers[key.uid] != Running
    else key in s.published && t == Tag(Some(s.prompts[key.uid]), Some(Success))
  }

  /** In the buffer every entry has a step and a status. */
  ghost predicate LocalOk(s: State, key: Key, t: Tag) {
    key.uid in s.prompts && key.uid in s.workers && t.step == Some(s.prompts[key.uid]) &&
    if key.Prompt? then t.status == Some(Running) || t.status == Some(s.workers[key.uid])
    else key in s.published && t.status == Some(Success)
  }

  /** Where a prompt is marked finished, all its outputs are there, unless cleared. */
  ghost predicate Complete(s: State, p: Partition) {
    forall key :: key in s.published && Get(p, Prompt(key.uid)).status == Some(Finished) ==> key in p || key in s.cleared
  }

  ghost predicate Stored(s: State, p: Partition) {
    (forall key :: key in p ==> StoredOk(s, key, p[key])) && Complete(s, p)
  }

  ghost predicate StoreInv(s: State) {
    Stored(s, s.store) && (s.flight.Some? ==> Stored(s, s.flight.value)) &&
    (forall key :: key in s.published ==> key in s.store || key in s.cleared) &&
    forall uid :: uid in s.workers && s.workers[uid] != Running ==> Prompt(uid) in s.store
  }

  ghost predicate LocalInv(s: State) {
    (forall key :: key in s.local ==> LocalOk(s, key, s.local[key])) && Complete(s, s.local) &&
    forall uid :: uid in s.prompts ==> Prompt(uid) in s.local
  }

  ghost predicate Inv(s: State) {
    Known(s) && StoreInv(s) && LocalInv(s)
  }

  lemma StoredKeeps(s: State, p: Partition, s': State)
    requires Stored(s, p) && s'.prompts == s.prompts && s'.workers == s.workers && s'.published == s.published && s'.cleared == s.cleared
    ensures Stored(s', p)
  {
    forall key | key in p ensures StoredOk(s', key, p[key]) { assert StoredOk(s, key, p[key]); }
  }

  lemma DispatchKeeps(s: State, uids: set<string>)
    requires Inv(s) && Enabled(s, Dispatch(uids))
    ensures Inv(Apply(s, Dispatch(uids)))
  {
    var s' := Apply(s, Dispatch(uids));
    forall key | key in s'.local ensures LocalOk(s', key, s'.local[key]) {
      if key in s.local { assert LocalOk(s, key, s.local[key]); }
    }
    forall key | key in s.store ensures StoredOk(s', key, s'.store[key]) { assert StoredOk(s, key, s.store[key]); }
    if s.flight.Some? {
      var f := s.flight.value;
      forall key | key in f ensures StoredOk(s', key, f[key]) { assert StoredOk(s, key, f[key]); }
    }
  }

  lemma PutKeeps(s: State, uid: string, outputs: set<Key>)
    requires Inv(s) && Enabled(s, Put(uid, outputs))
    ensures Inv(Apply(s, Put(uid, outputs)))
  {
    PutStored(s, uid, outputs);
    var s' := Apply(s, Put(uid, outputs));
    forall key | key in s'.local ensures LocalOk(s', key, s'.local[key]) { assert LocalOk(s, key, s.local[key]); }
  }

  lemma PutStored(s: State, uid: string, outputs: set<Key>)
    requires Known(s) && StoreInv(s) && Enabled(s, Put(uid, outputs))
    ensures StoreInv(Apply(s, Put(uid, outputs)))
  {
    var s' := Apply(s, Put(uid, outputs));
    forall key | key in s'.store ensures StoredOk(s', key, s'.store[key]) {
      if key in s.store { assert StoredOk(s, key, s.store[key]); }
    }
  }

  /** What was stored before a prompt ended still is right. */
  lemma EndOld(s: State, p: Partition, uid: string, status: Status)
    requires Stored(s, p) && Enabled(s, End(uid, status))
    ensures Stored(s.(workers := s.workers[uid := status]), p)
  {
    var s' := s.(workers := s.workers[uid := status]);
    forall key | key in p ensures StoredOk(s', key, p[key]) { assert StoredOk(s, key, p[key]); }
  }

  /** And so is the mark of its end: all outputs published are there, unless cleared. */
  lemma EndNew(s: State, p: Partition, uid: string)
    requires Stored(s, p) && uid in s.prompts && uid in s.workers && s.workers[uid] != Running
    requires Get(p, Prompt(uid)).step == None && forall key :: key in s.published ==> key in p || key in s.cleared
    ensures Stored(s, Merged(p, map[Prompt(uid) := Tag(None, Some(s.workers[uid]))]))
  {
    var q := Merged(p, map[Prompt(uid) := Tag(None, Some(s.workers[uid]))]);
    forall key | key in q ensures StoredOk(s, key, q[key]) {
      if key in p { assert StoredOk(s, key, p[key]); }
    }
  }

  lemma StoredStepless(s: State, p: Partition, uid: string)
    requires Stored(s, p)
    ensures Get(p, Prompt(uid)).step == None
  {
    if Prompt(uid) in p { assert StoredOk(s, Prompt(uid), p[Prompt(uid)]); }
  }

  lemma EndStored(s: State, uid: string, status: Status)
    requires Known(s) && StoreInv(s) && Enabled(s, End(uid, status))
    ensures StoreInv(Apply(s, End(uid, status)))
  {
    var s1, s' := s.(workers := s.workers[uid := status]), Apply(s, End(uid, status));
    StoredStepless(s, s.store, uid);
    EndOld(s, s.store, uid, status);
    EndNew(s1, s.store, uid);
    StoredKeeps(s1, s'.store, s');
    if s.flight.Some? {
      EndOld(s, s.flight.value, uid, status);
      StoredKeeps(s1, s.flight.value, s');
    }
  }

  lemma LocalKeeps(s: State, s': State)
    requires LocalInv(s) && s'.local == s.local && s'.prompts == s.prompts && s'.published == s.published && s'.cleared == s.cleared
    requires forall uid :: uid in s.workers ==> uid in s'.workers && (s.workers[uid] == Running || s'.workers[uid] == s.workers[uid])
    ensures LocalInv(s')
  {
    forall key | key in s'.local ensures LocalOk(s', key, s'.local[key]) { assert LocalOk(s, key, s.local[key]); }
  }

  lemma EndKnown(s: State, uid: string, status: Status)
    requires Known(s) && Enabled(s, End(uid, status))
    ensures Known(Apply(s, End(uid, status)))
  {
  }

  lemma EndKeeps(s: State, uid: string, status: Status)
    requires Inv(s) && Enabled(s, End(uid, status))
    ensures Inv(Apply(s, End(uid, status)))
  {
    EndKnown(s, uid, status);
    EndStored(s, uid, status);
    LocalKeeps(s, Apply(s, End(uid, status)));
  }

  lemma SnapshotKeeps(s: State)
    requires Inv(s) && Enabled(s, Snapshot)
    ensures Inv(Apply(s, Snapshot))
  {
    var s' := Apply(s, Snapshot);
    StoredKeeps(s, s.store, s');
    LocalKeeps(s, s');
  }

  lemma AddKeeps(s: State)
    requires Inv(s) && Enabled(s, AddSnapshot)
    ensures Inv(Apply(s, AddSnapshot))
  {
    var s' := Apply(s, AddSnapshot);
    StoredKeeps(s, s.store, s');
    AddLocal(s, s');
  }

  lemma AddLocal(s: State, s': State)
    requires Known(s) && LocalInv(s) && s.flight.Some? && Stored(s, s.flight.value)
    requires s' == s.(local := Merged(s.local, s.flight.value), flight := None)
    ensures LocalInv(s')
  {
    forall key | key in s'.local ensures LocalOk(s', key, s'.local[key]) {
      if key in s.local { assert LocalOk(s, key, s.local[key]); }
    }
  }

  lemma ClearKeeps(s: State, keys: set<Key>)
    requires Inv(s) && Enabled(s, Clear(keys))
    ensures Inv(Apply(s, Clear(keys)))
  {
    var s' := Apply(s, Clear(keys));
    forall key | key in s'.store ensures StoredOk(s', key, s'.store[key]) { assert StoredOk(s, key, s.store[key]); }
  }

  lemma DropKeeps(s: State, keys: set<Key>)
    requires Inv(s) && Enabled(s, Drop(keys))
    ensures Inv(Apply(s, Drop(keys)))
  {
    var s' := Apply(s, Drop(keys));
    StoredKeeps(s, s.store, s');
    if s.flight.Some? { StoredKeeps(s, s.flight.value, s'); }
    forall key | key in s'.local ensures LocalOk(s', key, s'.local[key]) { assert LocalOk(s, key, s.local[key]); }
  }

  /** A batch holds outputs only, all of them published for the step. */
  lemma SampledPublished(s: State, batch: seq<Key>, key: Key)
    requires Inv(s) && Attempts(s.local, Some(s.step), Ready(batch))
    ensures key in batch <==> key.Output? && key in s.local && Of(s, key, s.step)
  {
    assert key in batch <==> key in (set k | k in batch);
    assert key in (set k | k in batch) <==> key in Belonging(s.local, Some(s.step));
    if key in s.local { assert LocalOk(s, key, s.local[key]); }
  }

  lemma SampleKeeps(s: State, batch: seq<Key>)
    requires Inv(s) && Enabled(s, SampleBatch(batch))
    ensures Inv(Apply(s, SampleBatch(batch)))
  {
    var s' := Apply(s, SampleBatch(batch));
    forall key | key in batch ensures key in s.published {
      SampledPublished(s, batch, key);
      assert LocalOk(s, key, s.local[key]);
    }
    SameTagsKeep(s, s');
  }

  /** The invariant does not depend on the current step. */
  lemma SameTagsKeep(s: State, s': State)
    requires Inv(s) && s' == s.(held := s'.held, step := s'.step) && (s'.held.Some? ==> s'.held.value <= s.published)
    ensures Inv(s')
  {
    forall key | key in s.local ensures LocalOk(s', key, s.local[key]) { assert LocalOk(s, key, s.local[key]); }
    StoredKeeps(s, s.store, s');
    if s.flight.Some? { StoredKeeps(s, s.flight.value, s'); }
  }

  lemma StepKeeps(s: State, a: Step)
    requires Inv(s) && Enabled(s, a)
    ensures Inv(Apply(s, a))
  {
    match a
    case Dispatch(uids) => DispatchKeeps(s, uids);
    case Put(uid, outputs) => PutKeeps(s, uid, outputs);
    case End(uid, status) => EndKeeps(s, uid, status);
    case Snapshot => SnapshotKeeps(s);
    case AddSnapshot => AddKeeps(s);
    case SampleBatch(batch) => SampleKeeps(s, batch);
    case Clear(keys) => ClearKeeps(s, keys);
    case Drop(keys) => DropKeeps(s, keys);
    case NextStep(step) => SameTagsKeep(s, Apply(s, a));
  }

  // ---------------------------------------------------------------- runs

  ghost predicate Runs(ss: seq<State>, steps: seq<Step>) {
    |ss| == |steps| + 1 && forall i :: 0 <= i < |steps| ==> Enabled(ss[i], steps[i]) && ss[i + 1] == Apply(ss[i], steps[i])
  }

  /** As in training: no step number is used twice. */
  ghost predicate StepsIncrease(ss: seq<State>, steps: seq<Step>)
    requires |ss| == |steps| + 1
  {
    forall i :: 0 <= i < |steps| && steps[i].NextStep? ==> ss[i].step < steps[i].step
  }

  lemma {:induction false} RunInv(first: int, ss: seq<State>, steps: seq<Step>, i: nat)
    requires Runs(ss, steps) && ss[0] == Start(first) && i <= |steps|
    ensures Inv(ss[i])
  {
    if i > 0 {
      RunInv(first, ss, steps, i - 1);
      StepKeeps(ss[i - 1], steps[i - 1]);
    }
  }

  /** A prompt of the step that the buffer does not know to have ended. */
  ghost predicate Awaited(s: State, step: int, uid: string) {
    uid in s.prompts && s.prompts[uid] == step && Prompt(uid) in s.local && s.local[Prompt(uid)].status == Some(Running)
  }

  lemma EntryReadable(s: State, step: int, key: Key)
    requires Inv(s) && key in s.local
    ensures Readable(s.local[key], Some(step))
    ensures Blocks(s.local[key], Some(step)) <==> key.Prompt? && Awaited(s, step, key.uid)
  {
    assert LocalOk(s, key, s.local[key]);
  }

  /** In every reachable state and for whatever step is asked for, no entry that sample reads lacks its step or its
      status; and sample waits exactly as long as a prompt of that step has not been seen to end. */
  lemma SampleNeverRaises(first: int, ss: seq<State>, steps: seq<Step>, step: int, r: Attempt)
    requires Runs(ss, steps) && ss[0] == Start(first) && Attempts(ss[|steps|].local, Some(step), r)
    ensures !r.Fails?
    ensures r.Wait? <==> exists uid :: Awaited(ss[|steps|], step, uid)
  {
    RunInv(first, ss, steps, |steps|);
    LookNeverRaises(ss[|steps|], step, r);
  }

  lemma LookNeverRaises(s: State, step: int, r: Attempt)
    requires Inv(s) && Attempts(s.local, Some(step), r)
    ensures !r.Fails? && (r.Wait? <==> exists uid :: Awaited(s, step, uid))
  {
    forall key | key in s.local
      ensures Readable(s.local[key], Some(step)) && (Blocks(s.local[key], Some(step)) <==> key.Prompt? && Awaited(s, step, key.uid))
    {
      EntryReadable(s, step, key);
    }
    assert forall uid :: Awaited(s, step, uid) ==> Blocks(s.local[Prompt(uid)], Some(step));
  }

  // ---------------------------------------------------------------- what a sample contains

  function PublishedFor(s: State, step: int): set<Key> {
    set key | key in s.published && key.uid in s.prompts && s.prompts[key.uid] == step
  }

  /** Entries of the step brought back by a snapshot that was taken before they were cleared. */
  function Stale(s: State, step: int): set<Key> {
    set key | key in s.local && key in s.cleared && key.uid in s.prompts && s.prompts[key.uid] == step
  }

  ghost predicate AllFinished(s: State, step: int) {
    forall uid :: uid in s.prompts && uid in s.workers && s.prompts[uid] == step ==> s.workers[uid] == Finished
  }

  ghost predicate AllEnded(s: State, step: int) {
    forall uid :: uid in s.prompts && uid in s.workers && s.prompts[uid] == step ==> s.workers[uid] != Running
  }

  /** A sample is taken after all its prompts have ended; if they all finished, it consists of what was published
      and not cleared, and of the stale entries. */
  lemma SampleContents(s: State, batch: seq<Key>)
    requires Inv(s) && Attempts(s.local, Some(s.step), Ready(batch))
    ensures AllEnded(s, s.step)
    ensures AllFinished(s, s.step) ==>
      (set key | key in batch) == PublishedFor(s, s.step) - s.cleared + Stale(s, s.step)
  {
    forall uid | uid in s.prompts && uid in s.workers && s.prompts[uid] == s.step
      ensures s.workers[uid] != Running && s.local[Prompt(uid)].status == Some(s.workers[uid])
    {
      assert LocalOk(s, Prompt(uid), s.local[Prompt(uid)]);
      assert !Blocks(s.local[Prompt(uid)], Some(s.step));
    }
    if AllFinished(s, s.step) {
      forall key ensures key in batch <==> key in PublishedFor(s, s.step) - s.cleared + Stale(s, s.step) {
        SampledPublished(s, batch, key);
        if key in s.local { assert LocalOk(s, key, s.local[key]); }
      }
    }
  }

  /** With steps never used twice, nothing of the current step has been cleared before it is sampled. */
  ghost predicate ClearedBefore(s: State) {
    (forall key :: key in s.cleared && key.uid in s.prompts ==>
      s.prompts[key.uid] < s.step || (s.held.Some? && s.prompts[key.uid] == s.step)) &&
    (s.held.Some? ==> forall key :: key in s.held.value ==> Of(s, key, s.step))
  }

  lemma ClearedBeforeKeeps(s: State, a: Step)
    requires Inv(s) && ClearedBefore(s) && Enabled(s, a) && (a.NextStep? ==> s.step < a.step)
    ensures ClearedBefore(Apply(s, a))
  {
    if a.SampleBatch? {
      forall key | key in a.batch ensures Of(s, key, s.step) { SampledPublished(s, a.batch, key); }
    }
  }

  lemma {:induction false} ClearedBeforeInv(first: int, ss: seq<State>, steps: seq<Step>, i: nat)
    requires Runs(ss, steps) && StepsIncrease(ss, steps) && ss[0] == Start(first) && i <= |steps|
    ensures ClearedBefore(ss[i])
  {
    if i > 0 {
      RunInv(first, ss, steps, i - 1);
      ClearedBeforeInv(first, ss, steps, i - 1);
      ClearedBeforeKeeps(ss[i - 1], steps[i - 1]);
    }
  }

  /** Training, over all interleavings: a sample of a step whose prompts all finished is exactly what was published. */
  lemma TrainSampleComplete(first: int, ss: seq<State>, steps: seq<Step>, batch: seq<Key>)
    requires Runs(ss, steps) && StepsIncrease(ss, steps) && ss[0] == Start(first)
    requires Enabled(ss[|steps|], SampleBatch(batch)) && AllFinished(ss[|steps|], ss[|steps|].step)
    ensures var s := ss[|steps|]; (set key | key in batch) == PublishedFor(s, s.step) && Distinct(batch)
  {
    var s := ss[|steps|];
    RunInv(first, ss, steps, |steps|);
    ClearedBeforeInv(first, ss, steps, |steps|);
    SampleContents(s, batch);
    assert PublishedFor(s, s.step) !! s.cleared;
    assert Stale(s, s.step) == {};
  }

  // ---------------------------------------------------------------- stale entries

  /** The i-th step adds a snapshot that holds the key although it has been dropped, and it is not dropped again
      before the n-th step. */
  ghost predicate AddsLate(ss: seq<State>, steps: seq<Step>, i: nat, key: Key, n: nat)
    requires i < n <= |steps| < |ss|
  {
    steps[i].AddSnapshot? && ss[i].flight.Some? && key in ss[i].flight.value && key in ss[i].dropped &&
    forall j :: i < j < n && steps[j].Drop? ==> key !in steps[j].keys
  }

  /** Some snapshot that holds the key is added after its last removal from the buffer. */
  ghost predicate AddedLate(ss: seq<State>, steps: seq<Step>, key: Key, n: nat)
    requires n <= |steps| < |ss|
  {
    exists i: nat :: i < n && AddsLate(ss, steps, i, key, n)
  }

  /** What is left to be dropped is part of the batch that is held. */
  ghost predicate DroppedInTime(s: State) {
    s.dropped <= s.cleared && forall key :: key in s.cleared ==> key in s.dropped || (s.held.Some? && key in s.held.value)
  }

  lemma {:induction false} DroppedInTimeInv(first: int, ss: seq<State>, steps: seq<Step>, i: nat)
    requires Runs(ss, steps) && ss[0] == Start(first) && i <= |steps|
    ensures DroppedInTime(ss[i])
  {
    if i > 0 {
      DroppedInTimeInv(first, ss, steps, i - 1);
      DroppedInTimeStep(ss[i - 1], steps[i - 1]);
    }
  }

  lemma DroppedInTimeStep(s: State, a: Step)
    requires DroppedInTime(s) && Enabled(s, a)
    ensures DroppedInTime(Apply(s, a))
  {
  }

  /** One step of the buffer, seen from one output. */
  lemma LocalStep(s: State, a: Step, key: Key)
    requires Enabled(s, a) && key.Output?
    ensures var s' := Apply(s, a);
            (key in s'.local <==> if a.Drop? then key in s.local && key !in a.keys
                                  else key in s.local || (a.AddSnapshot? && key in s.flight.value)) &&
            (key in s'.dropped <==> key in s.dropped || (a.Drop? && key in a.keys))
  {
  }

  lemma AddedLateNext(ss: seq<State>, steps: seq<Step>, key: Key, n: nat)
    requires n < |steps| < |ss| && Enabled(ss[n], steps[n]) && key.Output?
    ensures var s, a := ss[n], steps[n];
            AddedLate(ss, steps, key, n + 1) <==>
            if a.Drop? && key in a.keys then false
            else AddedLate(ss, steps, key, n) || (a.AddSnapshot? && key in s.flight.value && key in s.dropped)
  {
    var s, a := ss[n], steps[n];
    if AddedLate(ss, steps, key, n + 1) {
      var i: nat :| i < n + 1 && AddsLate(ss, steps, i, key, n + 1);
      if i < n { assert AddsLate(ss, steps, i, key, n); }
    }
    if AddedLate(ss, steps, key, n) && !(a.Drop? && key in a.keys) {
      var i: nat :| i < n && AddsLate(ss, steps, i, key, n);
      assert AddsLate(ss, steps, i, key, n + 1);
    }
    if a.AddSnapshot? && key in s.flight.value && key in s.dropped { assert AddsLate(ss, steps, n, key, n + 1); }
  }

  /** A dropped output is in the buffer exactly when a snapshot has brought it back. */
  lemma {:induction false} BackIffAddedLate(first: int, ss: seq<State>, steps: seq<Step>, key: Key, n: nat)
    requires Runs(ss, steps) && ss[0] == Start(first) && n <= |steps| && key.Output?
    ensures key in ss[n].local && key in ss[n].dropped <==> AddedLate(ss, steps, key, n)
  {
    if n > 0 {
      BackIffAddedLate(first, ss, steps, key, n - 1);
      LocalStep(ss[n - 1], steps[n - 1], key);
      AddedLateNext(ss, steps, key, n - 1);
    }
  }

  lemma StaleIffAddedLate(first: int, ss: seq<State>, steps: seq<Step>, key: Key)
    requires Runs(ss, steps) && ss[0] == Start(first) && ss[|steps|].held.None?
    ensures var s := ss[|steps|];
            key in Stale(s, s.step) <==> key.Output? && Of(s, key, s.step) && AddedLate(ss, steps, key, |steps|)
  {
    RunInv(first, ss, steps, |steps|);
    DroppedInTimeInv(first, ss, steps, |steps|);
    if key.Output? { BackIffAddedLate(first, ss, steps, key, |steps|); }
  }

  /** Validation uses one step number for all its batches. A sample whose prompts all finished is what was published and not
      cleared if and only if the run has not added a snapshot with an output of the step after its last removal. */
  lemma ValidationSampleComplete(first: int, ss: seq<State>, steps: seq<Step>, batch: seq<Key>)
    requires Runs(ss, steps) && ss[0] == Start(first)
    requires Enabled(ss[|steps|], SampleBatch(batch)) && AllFinished(ss[|steps|], ss[|steps|].step)
    ensures var s := ss[|steps|];
            (set key | key in batch) == PublishedFor(s, s.step) - s.cleared <==>
            forall key: Key :: key.Output? && Of(s, key, s.step) ==> !AddedLate(ss, steps, key, |steps|)
  {
    var s := ss[|steps|];
    RunInv(first, ss, steps, |steps|);
    SampleContents(s, batch);
    assert Stale(s, s.step) !! PublishedFor(s, s.step) - s.cleared;
    forall key ensures key in Stale(s, s.step) <==> key.Output? && Of(s, key, s.step) && AddedLate(ss, steps, key, |steps|) {
      StaleIffAddedLate(first, ss, steps, key);
    }
  }

  /** Outputs are only removed from the buffer while no snapshot in flight holds them. */
  ghost predicate SettledDrops(ss: seq<State>, steps: seq<Step>)
    requires |ss| == |steps| + 1
  {
    forall i :: 0 <= i < |steps| && steps[i].Drop? && ss[i].flight.Some? ==> ss[i].flight.value.Keys !! steps[i].keys
  }

  ghost predicate Settled(s: State) {
    s.store.Keys !! s.cleared && (s.flight.Some? ==> s.flight.value.Keys !! s.dropped)
  }

  lemma {:induction false} SettledInv(first: int, ss: seq<State>, steps: seq<Step>, i: nat)
    requires Runs(ss, steps) && ss[0] == Start(first) && SettledDrops(ss, steps) && i <= |steps|
    ensures Settled(ss[i])
  {
    if i > 0 {
      RunInv(first, ss, steps, i - 1);
      DroppedInTimeInv(first, ss, steps, i - 1);
      SettledInv(first, ss, steps, i - 1);
      assert steps[i - 1].Drop? && ss[i - 1].flight.Some? ==> ss[i - 1].flight.value.Keys !! steps[i - 1].keys;
      SettledStep(ss[i - 1], steps[i - 1]);
    }
  }

  lemma SettledStep(s: State, a: Step)
    requires Known(s) && DroppedInTime(s) && Settled(s) && Enabled(s, a)
    requires a.Drop? && s.flight.Some? ==> s.flight.value.Keys !! a.keys
    ensures Settled(Apply(s, a))
  {
  }

  /** A rule that keeps validation right, whatever else interleaves: remove outputs only while no snapshot in flight
      holds them. */
  lemma SettledDropsSuffice(first: int, ss: seq<State>, steps: seq<Step>, batch: seq<Key>)
    requires Runs(ss, steps) && ss[0] == Start(first) && SettledDrops(ss, steps)
    requires Enabled(ss[|steps|], SampleBatch(batch)) && AllFinished(ss[|steps|], ss[|steps|].step)
    ensures var s := ss[|steps|]; (set key | key in batch) == PublishedFor(s, s.step) - s.cleared
  {
    forall key ensures !AddedLate(ss, steps, key, |steps|) {
      forall i: nat | i < |steps| ensures !AddsLate(ss, steps, i, key, |steps|) { SettledInv(first, ss, steps, i); }
    }
    ValidationSampleComplete(first, ss, steps, batch);
  }

  /** Once all prompts have ended, the next snapshot lets sample return. */
  lemma SampleGetsReady(s: State, r: Attempt)
    requires Inv(s) && s.flight.None? && AllEnded(s, s.step)
    requires Attempts(Apply(Apply(s, Snapshot), AddSnapshot).local, Some(s.step), r)
    ensures r.Ready?
  {
    StepKeeps(s, Snapshot);
    var s1 := Apply(s, Snapshot);
    StepKeeps(s1, AddSnapshot);
    var s2 := Apply(s1, AddSnapshot);
    LookNeverRaises(s2, s.step, r);
    forall uid | uid in s2.prompts && s2.prompts[uid] == s2.step ensures !Awaited(s2, s2.step, uid) {
      assert StoredOk(s, Prompt(uid), s.store[Prompt(uid)]);
    }
  }

  ghost predicate Goes(s: State, a: Step, s': State) {
    Enabled(s, a) && Apply(s, a) == s'
  }

  // One prompt is dispatched, publishes an output and finishes. Of two snapshots one is added before the output is
  // sampled, cleared and removed, the other one afterwards.

  const PROMPT := Prompt("a")
  const OUTPUT := Output("a", 0, 0)
  const DONE: Partition := map[PROMPT := Tag(None, Some(Finished)), OUTPUT := Tag(Some(0), Some(Success))]
  const SEEN: Partition := map[PROMPT := Tag(Some(0), Some(Finished)), OUTPUT := Tag(Some(0), Some(Success))]
  const WAITING: Partition := map[PROMPT := Tag(Some(0), Some(Running))]

  function Later(store: Partition, local: Partition, flight: Option<Partition>, cleared: set<Key>, dropped: set<Key>,
                 held: Option<set<Key>>): State
  {
    State(store, local, flight, map["a" := 0], map["a" := Finished], {OUTPUT}, cleared, dropped, 0, held)
  }

  function At(i: nat): State {
    var dispatched := State(map[], WAITING, None, map["a" := 0], map["a" := Running], {}, {}, {}, 0, None);
    if i == 0 then Start(0)
    else if i == 1 then dispatched
    else if i == 2 then dispatched.(store := map[OUTPUT := SEEN[OUTPUT]], published := {OUTPUT})
    else if i == 3 then Later(DONE, WAITING, None, {}, {}, None)
    else if i == 4 then Later(DONE, WAITING, Some(DONE), {}, {}, None)
    else if i == 5 then Later(DONE, SEEN, None, {}, {}, None)
    else if i == 6 then Later(DONE, SEEN, Some(DONE), {}, {}, None)
    else if i == 7 then Later(DONE, SEEN, Some(DONE), {}, {}, Some({OUTPUT}))
    else if i == 8 then Later(DONE - {OUTPUT}, SEEN, Some(DONE), {OUTPUT}, {}, Some({OUTPUT}))
    else if i == 9 then Later(DONE - {OUTPUT}, SEEN - {OUTPUT}, Some(DONE), {OUTPUT}, {OUTPUT}, Some({OUTPUT}))
    else if i == 10 then Later(DONE - {OUTPUT}, SEEN, None, {OUTPUT}, {OUTPUT}, Some({OUTPUT}))
    else Later(DONE - {OUTPUT}, SEEN, None, {OUTPUT}, {OUTPUT}, None)
  }

  function Taken(i: nat): Step {
    if i == 0 then Dispatch({"a"}) else if i == 1 then Put("a", {OUTPUT}) else if i == 2 then End("a", Finished)
    else if i == 3 || i == 5 then Snapshot else if i == 4 || i == 9 then AddSnapshot
    else if i == 6 then SampleBatch([OUTPUT]) else if i == 7 then Clear({OUTPUT}) else if i == 8 then Drop({OUTPUT})
    else NextStep(0)
  }

  lemma Merges()
    ensures Merged(WAITING, DONE) == SEEN
    ensures Merged(SEEN - {OUTPUT}, DONE) == SEEN
  {
  }

  lemma Sampling()
    ensures Attempts(SEEN, Some(0), Ready([OUTPUT]))
    ensures (set key | key in [OUTPUT]) == {OUTPUT}
  {
    assert Belonging(SEEN, Some(0)) == {OUTPUT} == set key | key in [OUTPUT];
  }

  lemma TakenGoes(i: nat)
    requires i < 11
    ensures Goes(At(i), Taken(i), At(i + 1))
  {
    if i == 0 { DispatchGoes(); }
    else if i == 1 { PutGoes(); }
    else if i == 2 { EndGoes(); }
    else if i == 4 || i == 9 { Merges(); }
    else if i == 6 { Sampling(); }
  }

  lemma DispatchGoes()
    ensures Goes(At(0), Taken(0), At(1))
  {
    assert PromptsOf({"a"}) == {PROMPT};
    assert Merged(map[], Pending({"a"}, 0)) == WAITING;
  }

  lemma PutGoes()
    ensures Goes(At(1), Taken(1), At(2))
  {
    assert Merged(map[], Outputs({OUTPUT}, 0)) == map[OUTPUT := SEEN[OUTPUT]];
  }

  lemma EndGoes()
    ensures Goes(At(2), Taken(2), At(3))
  {
    assert Merged(map[OUTPUT := SEEN[OUTPUT]], map[PROMPT := Tag(None, Some(Finished))]) == DONE;
  }

  lemma SampledAgain()
    ensures Enabled(At(11), SampleBatch([OUTPUT])) && AllFinished(At(11), 0)
    ensures OUTPUT in At(11).cleared && OUTPUT !in At(11).store
  {
    Sampling();
  }

  lemma GoesRun(ss: seq<State>, steps: seq<Step>)
    requires |ss| == |steps| + 1 && forall i :: 0 <= i < |steps| ==> Goes(ss[i], steps[i], ss[i + 1])
    ensures Runs(ss, steps)
  {
    forall i | 0 <= i < |steps| ensures Enabled(ss[i], steps[i]) && ss[i + 1] == Apply(ss[i], steps[i]) {
      assert Goes(ss[i], steps[i], ss[i + 1]);
    }
  }

  /** Such an entry does occur: a snapshot taken before the first validation batch is cleared, and added after it has
      been removed from the buffer, brings its output into the second batch. */
  lemma ValidationRepeats() returns (ss: seq<State>, steps: seq<Step>, key: Key)
    ensures Runs(ss, steps) && ss[0] == Start(0)
    ensures var s := ss[|steps|]; Enabled(s, SampleBatch([key])) && AllFinished(s, s.step) && key in s.cleared && key !in s.store
  {
    key, ss, steps := OUTPUT, seq(12, i requires 0 <= i => At(i)), seq(11, i requires 0 <= i => Taken(i));
    forall i | 0 <= i < |steps| ensures Goes(ss[i], steps[i], ss[i + 1]) { TakenGoes(i); }
    GoesRun(ss, steps);
    SampledAgain();
  }
}
