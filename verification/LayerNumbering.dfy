/** From the layers of a model to the layers of pipeline stages (scripts/converter_hf_to_mcore.py), and back to one
    state dict with global layer numbers (scripts/legacy_model_merger.py, verl/model_merger/megatron_model_merger.py). */
module LayerNumbering {
  import opened Arithmetic
  import opened Outcomes
  import opened Sequences
  import opened TensorOps

  /** A parameter of a layer, by number, or one outside the layers. */
  datatype Key = Layer(no: nat, name: string) | Other(name: string)

  datatype Entry<T> = Entry(key: Key, value: T)

  // ---------------------------------------------------------------- renumbering

  /** layers_handled: the largest local number, 0 if there is none. */
  function Handled<T>(stage: seq<Entry<T>>): nat {
    if stage == [] then 0
    else
      var rest := Handled(stage[..|stage| - 1]);
      var key := stage[|stage| - 1].key;
      if key.Layer? && key.no > rest then key.no else rest
  }

  function Shift<T>(e: Entry<T>, n: nat): Entry<T> {
    if e.key.Layer? then Entry(Layer(e.key.no + n, e.key.name), e.value) else e
  }

  function ShiftAll<T>(stage: seq<Entry<T>>, n: nat): seq<Entry<T>> {
    seq(|stage|, i requires 0 <= i < |stage| => Shift(stage[i], n))
  }

  /** The entries of the stages in the order visited, with the layers counted on from stage to stage. */
  function Renumbered<T>(stages: seq<seq<Entry<T>>>, start: nat): seq<Entry<T>> {
    if stages == [] then []
    else ShiftAll(stages[0], start) + Renumbered(stages[1..], start + Handled(stages[0]) + 1)
  }

  function EndOf<T>(stages: seq<seq<Entry<T>>>, start: nat): nat {
    if stages == [] then start else EndOf(stages[1..], start + Handled(stages[0]) + 1)
  }

  lemma {:induction false} RenumberedSnoc<T>(stages: seq<seq<Entry<T>>>, stage: seq<Entry<T>>, start: nat)
    ensures Renumbered(stages + [stage], start) == Renumbered(stages, start) + ShiftAll(stage, EndOf(stages, start))
    ensures EndOf(stages + [stage], start) == EndOf(stages, start) + Handled(stage) + 1
  {
    if stages == [] {
      assert (stages + [stage])[1..] == [];
    } else {
      assert (stages + [stage])[1..] == stages[1..] + [stage];
      RenumberedSnoc(stages[1..], stage, start + Handled(stages[0]) + 1);
    }
  }

  /** A dictionary filled entry by entry. */
  function Dict<T>(entries: seq<Entry<T>>): map<Key, T> {
    if entries == [] then map[]
    else Dict(entries[..|entries| - 1])[entries[|entries| - 1].key := entries[|entries| - 1].value]
  }

  lemma DictSnoc<T>(entries: seq<Entry<T>>, e: Entry<T>)
    ensures Dict(entries + [e]) == Dict(entries)[e.key := e.value]
  {
    assert (entries + [e])[..|entries|] == entries;
  }

  /** Stages in the order that they are visited in: all pipeline ranks for the first virtual rank, then for the next. */
  function Visited<T>(models: seq<seq<seq<Entry<T>>>>, vpp: nat): seq<seq<Entry<T>>>
    requires forall p :: 0 <= p < |models| ==> vpp <= |models[p]|
  {
    if vpp == 0 then [] else Visited(models, vpp - 1) + Column(models, vpp - 1)
  }

  function Column<T>(models: seq<seq<seq<Entry<T>>>>, v: nat): seq<seq<Entry<T>>>
    requires forall p :: 0 <= p < |models| ==> v < |models[p]|
  {
    seq(|models|, p requires 0 <= p < |models| => models[p][v])
  }

  lemma ShiftSnoc<T>(stage: seq<Entry<T>>, i: nat, n: nat, done: seq<Entry<T>>)
    requires i < |stage|
    ensures done + ShiftAll(stage[..i + 1], n) == done + ShiftAll(stage[..i], n) + [Shift(stage[i], n)]
  {
    assert ShiftAll(stage[..i + 1], n) == ShiftAll(stage[..i], n) + [Shift(stage[i], n)];
  }

  /** The merge of one stage into the dictionary. */
  method MergeStage<T>(stage: seq<Entry<T>>, cum: nat, before: map<Key, T>, ghost done: seq<Entry<T>>)
    returns (dict: map<Key, T>, handled: nat)
    requires before == Dict(done)
    ensures handled == Handled(stage) && dict == Dict(done + ShiftAll(stage, cum))
  {
    dict, handled := before, 0;
    assert done + ShiftAll(stage[..0], cum) == done;
    for i := 0 to |stage|
      invariant handled == Handled(stage[..i])
      invariant dict == Dict(done + ShiftAll(stage[..i], cum))
    {
      assert stage[..i + 1][..i] == stage[..i];
      var key := stage[i].key;
      if key.Layer? {
        handled := if key.no > handled then key.no else handled;
        key := Layer(key.no + cum, key.name);
      }
      dict := dict[key := stage[i].value];
      DictSnoc(done + ShiftAll(stage[..i], cum), Shift(stage[i], cum));
      ShiftSnoc(stage, i, cum, done);
    }
    assert stage[..|stage|] == stage;
  }

  /** The inner loop: all pipeline ranks for one virtual rank. */
  method MergeColumn<T>(column: seq<seq<Entry<T>>>, cum: nat, before: map<Key, T>, start: nat, ghost visited: seq<seq<Entry<T>>>)
    returns (dict: map<Key, T>, layersCum: nat)
    requires cum == EndOf(visited, start) && before == Dict(Renumbered(visited, start))
    ensures layersCum == EndOf(visited + column, start) && dict == Dict(Renumbered(visited + column, start))
  {
    dict, layersCum := before, cum;
    assert visited + column[..0] == visited;
    for p := 0 to |column|
      invariant layersCum == EndOf(visited + column[..p], start)
      invariant dict == Dict(Renumbered(visited + column[..p], start))
    {
      ghost var sofar := visited + column[..p];
      var handled;
      dict, handled := MergeStage(column[p], layersCum, dict, Renumbered(sofar, start));
      RenumberedSnoc(sofar, column[p], start);
      assert visited + column[..p + 1] == sofar + [column[p]];
      layersCum := layersCum + handled + 1;
    }
    assert column[..|column|] == column;
  }

  // ---------------------------------------------------------------- no layer is written twice

  lemma {:induction false} HandledIsMost<T>(stage: seq<Entry<T>>, i: nat)
    requires i < |stage| && stage[i].key.Layer?
    ensures stage[i].key.no <= Handled(stage)
  {
    var n := |stage| - 1;
    if i < n { HandledIsMost(stage[..n], i); }
  }

  function Offset<T>(stages: seq<seq<Entry<T>>>, s: nat): nat
    requires s <= |stages|
  {
    if s == 0 then 0 else Offset(stages, s - 1) + Handled(stages[s - 1]) + 1
  }

  lemma {:induction false} OffsetsGrow<T>(stages: seq<seq<Entry<T>>>, s: nat, t: nat)
    requires s < t <= |stages|
    ensures Offset(stages, s) + Handled(stages[s]) < Offset(stages, t)
    decreases t
  {
    if s + 1 < t { OffsetsGrow(stages, s, t - 1); }
  }

  lemma {:induction false} OffsetCons<T>(stages: seq<seq<Entry<T>>>, s: nat)
    requires 0 < s <= |stages|
    ensures Offset(stages, s) == Handled(stages[0]) + 1 + Offset(stages[1..], s - 1)
  {
    if s > 1 { OffsetCons(stages, s - 1); }
  }

  /** The offset is what the merge has counted up to when it comes to the stage. */
  lemma {:induction false} EndIsOffset<T>(stages: seq<seq<Entry<T>>>, s: nat, start: nat)
    requires s <= |stages|
    ensures EndOf(stages[..s], start) == start + Offset(stages, s)
  {
    if s > 0 {
      RenumberedSnoc(stages[..s - 1], stages[s - 1], start);
      assert stages[..s] == stages[..s - 1] + [stages[s - 1]];
      EndIsOffset(stages, s - 1, start);
    }
  }

  /** Layers of different stages get different numbers, in the order of the stages. */
  lemma StagesApart<T>(stages: seq<seq<Entry<T>>>, s: nat, t: nat, i: nat, j: nat)
    requires s < t < |stages| && i < |stages[s]| && j < |stages[t]|
    requires stages[s][i].key.Layer? && stages[t][j].key.Layer?
    ensures Shift(stages[s][i], Offset(stages, s)).key.no < Shift(stages[t][j], Offset(stages, t)).key.no
  {
    HandledIsMost(stages[s], i);
    OffsetsGrow(stages, s, t);
  }

  /** No parameter of a layer occurs twice. */
  ghost predicate LayersDistinct<T>(entries: seq<Entry<T>>) {
    forall i, j :: 0 <= i < j < |entries| && entries[i].key.Layer? ==> entries[i].key != entries[j].key
  }

  ghost predicate LayersFrom<T>(entries: seq<Entry<T>>, from: nat) {
    forall i :: 0 <= i < |entries| && entries[i].key.Layer? ==> entries[i].key.no >= from
  }

  lemma ShiftedDistinct<T>(stage: seq<Entry<T>>, n: nat)
    requires LayersDistinct(stage)
    ensures LayersDistinct(ShiftAll(stage, n)) && LayersFrom(ShiftAll(stage, n), n)
    ensures forall i :: 0 <= i < |stage| && stage[i].key.Layer? ==> ShiftAll(stage, n)[i].key.no <= n + Handled(stage)
  {
    forall i | 0 <= i < |stage| && stage[i].key.Layer? ensures ShiftAll(stage, n)[i].key.no <= n + Handled(stage) {
      HandledIsMost(stage, i);
    }
    var shifted := ShiftAll(stage, n);
    forall i, j | 0 <= i < j < |stage| && shifted[i].key.Layer? ensures shifted[i].key != shifted[j].key {
      assert stage[i].key != stage[j].key;
    }
  }

  lemma DistinctBelow<T>(a: seq<Entry<T>>, b: seq<Entry<T>>, from: nat)
    requires LayersDistinct(a) && LayersDistinct(b) && LayersFrom(b, from)
    requires forall i :: 0 <= i < |a| && a[i].key.Layer? ==> a[i].key.no < from
    ensures LayersDistinct(a + b)
  {
  }

  lemma {:induction false} RenumberedDistinct<T>(stages: seq<seq<Entry<T>>>, start: nat)
    requires forall s :: 0 <= s < |stages| ==> LayersDistinct(stages[s])
    ensures LayersDistinct(Renumbered(stages, start)) && LayersFrom(Renumbered(stages, start), start)
  {
    if stages != [] {
      var next := start + Handled(stages[0]) + 1;
      ShiftedDistinct(stages[0], start);
      RenumberedDistinct(stages[1..], next);
      DistinctBelow(ShiftAll(stages[0], start), Renumbered(stages[1..], next), next);
    }
  }

  /** The entries in front of a stage. */
  function Base<T>(stages: seq<seq<Entry<T>>>, s: nat): nat
    requires s <= |stages|
  {
    if s == 0 then 0 else Base(stages, s - 1) + |stages[s - 1]|
  }

  lemma {:induction false} BaseCons<T>(stages: seq<seq<Entry<T>>>, s: nat)
    requires 0 < s <= |stages|
    ensures Base(stages, s) == |stages[0]| + Base(stages[1..], s - 1)
  {
    if s > 1 { BaseCons(stages, s - 1); }
  }

  lemma {:induction false} BasesGrow<T>(stages: seq<seq<Entry<T>>>, s: nat, t: nat)
    requires s < t <= |stages|
    ensures Base(stages, s) + |stages[s]| <= Base(stages, t)
    decreases t
  {
    if s + 1 < t { BasesGrow(stages, s, t - 1); }
  }

  /** Where the entry of a stage is in the renumbered list. */
  lemma {:induction false} RenumberedAt<T>(stages: seq<seq<Entry<T>>>, s: nat, i: nat, start: nat)
    requires s < |stages| && i < |stages[s]|
    ensures var at := Base(stages, s) + i;
            at < |Renumbered(stages, start)| && Renumbered(stages, start)[at] == Shift(stages[s][i], start + Offset(stages, s))
  {
    if s > 0 {
      RenumberedAt(stages[1..], s - 1, i, start + Handled(stages[0]) + 1);
      OffsetCons(stages, s);
      BaseCons(stages, s);
    }
  }

  /** And which entry is at a position of it. */
  lemma {:induction false} RenumberedFrom<T>(stages: seq<seq<Entry<T>>>, at: nat, start: nat) returns (s: nat, i: nat)
    requires at < |Renumbered(stages, start)|
    ensures s < |stages| && i < |stages[s]| && at == Base(stages, s) + i
  {
    if at < |stages[0]| {
      s, i := 0, at;
    } else {
      s, i := RenumberedFrom(stages[1..], at - |stages[0]|, start + Handled(stages[0]) + 1);
      s := s + 1;
      BaseCons(stages, s);
    }
  }

  lemma {:induction false} DictKeeps<T>(entries: seq<Entry<T>>, at: nat)
    requires at < |entries| && forall j :: at < j < |entries| ==> entries[j].key != entries[at].key
    ensures entries[at].key in Dict(entries) && Dict(entries)[entries[at].key] == entries[at].value
  {
    if at < |entries| - 1 { DictKeeps(entries[..|entries| - 1], at); }
  }

  /** No parameter is overwritten: if the parameters of each stage are distinct, the merged dictionary has, under its
      new number, the value of every parameter of every layer of every stage. */
  lemma NothingOverwritten<T>(stages: seq<seq<Entry<T>>>, s: nat, i: nat, start: nat)
    requires forall t :: 0 <= t < |stages| ==> LayersDistinct(stages[t])
    requires s < |stages| && i < |stages[s]| && stages[s][i].key.Layer?
    ensures var dict, key := Dict(Renumbered(stages, start)), Shift(stages[s][i], start + Offset(stages, s)).key;
            key in dict && dict[key] == stages[s][i].value
  {
    RenumberedDistinct(stages, start);
    RenumberedAt(stages, s, i, start);
    DictKeeps(Renumbered(stages, start), Base(stages, s) + i);
  }

  /** A parameter outside the layers keeps its name, and of several ones with that name the last one's value. */
  lemma OthersKept<T>(stages: seq<seq<Entry<T>>>, s: nat, i: nat, start: nat)
    requires s < |stages| && i < |stages[s]| && stages[s][i].key.Other?
    requires forall t, j :: s <= t < |stages| && 0 <= j < |stages[t]| && (s < t || i < j) ==> stages[t][j].key != stages[s][i].key
    ensures var dict, key := Dict(Renumbered(stages, start)), stages[s][i].key; key in dict && dict[key] == stages[s][i].value
  {
    var entries, at := Renumbered(stages, start), Base(stages, s) + i;
    RenumberedAt(stages, s, i, start);
    forall k | at < k < |entries| ensures entries[k].key != stages[s][i].key {
      var t, j := RenumberedFrom(stages, k, start);
      RenumberedAt(stages, t, j, start);
      if t < s { BasesGrow(stages, t, s); }
    }
    DictKeeps(entries, at);
  }

  lemma {:induction false} DictFrom<T>(entries: seq<Entry<T>>, key: Key) returns (at: nat)
    requires key in Dict(entries)
    ensures at < |entries| && entries[at].key == key
  {
    var n := |entries| - 1;
    if entries[n].key == key { at := n; } else { at := DictFrom(entries[..n], key); }
  }

  /** And nothing else is in the dictionary. */
  lemma NothingAdded<T>(stages: seq<seq<Entry<T>>>, start: nat, key: Key) returns (s: nat, i: nat)
    requires key in Dict(Renumbered(stages, start))
    ensures s < |stages| && i < |stages[s]| && key == Shift(stages[s][i], start + Offset(stages, s)).key
  {
    var at := DictFrom(Renumbered(stages, start), key);
    s, i := RenumberedFrom(stages, at, start);
    RenumberedAt(stages, s, i, start);
  }

  // ---------------------------------------------------------------- no layer number is left out

  function Numbers<T>(entries: seq<Entry<T>>): set<nat> {
    set i | 0 <= i < |entries| && entries[i].key.Layer? :: entries[i].key.no
  }

  function Range(a: nat, n: nat): (r: set<nat>)
    ensures forall i: nat :: i in r <==> a <= i < a + n
  {
    if n == 0 then {} else Range(a, n - 1) + {a + n - 1}
  }

  ghost predicate IsRange(numbers: set<nat>, a: nat, n: nat) {
    forall i: nat :: i in numbers <==> a <= i < a + n
  }

  /** The stages hold local layers 0..k-1, where `counts` lists the k. */
  ghost predicate Holds<T>(stages: seq<seq<Entry<T>>>, counts: seq<nat>) {
    |stages| == |counts| && forall s :: 0 <= s < |stages| ==> IsRange(Numbers(stages[s]), 0, counts[s])
  }

  lemma {:induction false} HandledAtLeast<T>(stage: seq<Entry<T>>) returns (i: nat)
    requires Handled(stage) > 0
    ensures i < |stage| && stage[i].key.Layer? && stage[i].key.no == Handled(stage)
  {
    var n := |stage| - 1;
    if stage[n].key.Layer? && stage[n].key.no == Handled(stage) { i := n; } else { i := HandledAtLeast(stage[..n]); }
  }

  lemma HandledOf<T>(stage: seq<Entry<T>>, k: nat)
    requires IsRange(Numbers(stage), 0, k)
    ensures Handled(stage) + 1 == if k == 0 then 1 else k
  {
    if Handled(stage) > 0 {
      var i := HandledAtLeast(stage);
      assert stage[i].key.no in Numbers(stage);
    }
    if k > 0 {
      assert k - 1 in Numbers(stage);
      var i :| 0 <= i < |stage| && stage[i].key.Layer? && stage[i].key.no == k - 1;
      HandledIsMost(stage, i);
    }
  }

  lemma NumbersShifted<T>(stage: seq<Entry<T>>, k: nat, start: nat)
    requires IsRange(Numbers(stage), 0, k)
    ensures Numbers(ShiftAll(stage, start)) == Range(start, k)
  {
    var shifted := ShiftAll(stage, start);
    forall n: nat ensures n in Numbers(shifted) <==> n in Range(start, k) {
      if n in Range(start, k) {
        assert n - start in Numbers(stage);
        var i :| 0 <= i < |stage| && stage[i].key.Layer? && stage[i].key.no == n - start;
        assert shifted[i].key.Layer? && shifted[i].key.no == n;
      }
      if n in Numbers(shifted) {
        var i :| 0 <= i < |shifted| && shifted[i].key.Layer? && shifted[i].key.no == n;
        assert stage[i].key.no in Numbers(stage);
      }
    }
  }

  lemma NumbersAppend<T>(a: seq<Entry<T>>, b: seq<Entry<T>>)
    ensures Numbers(a + b) == Numbers(a) + Numbers(b)
  {
    forall n: nat ensures n in Numbers(a + b) <==> n in Numbers(a) + Numbers(b) {
      if n in Numbers(a) {
        var i :| 0 <= i < |a| && a[i].key.Layer? && a[i].key.no == n;
        assert (a + b)[i] == a[i];
      }
      if n in Numbers(b) {
        var i :| 0 <= i < |b| && b[i].key.Layer? && b[i].key.no == n;
        assert (a + b)[|a| + i] == b[i];
      }
    }
  }

  /** No stage without layers comes before one with layers. */
  ghost predicate NoGap(counts: seq<nat>) {
    forall s, t :: 0 <= s < t < |counts| && counts[s] == 0 ==> counts[t] == 0
  }

  /** The numbers that stages with so many layers take up. */
  function Occupied(counts: seq<nat>, start: nat): set<nat> {
    if counts == [] then {}
    else Range(start, counts[0]) + Occupied(counts[1..], start + if counts[0] == 0 then 1 else counts[0])
  }

  lemma {:induction false} OccupiedFrom(counts: seq<nat>, start: nat)
    ensures (forall n :: n in Occupied(counts, start) ==> n >= start) && (Total(counts) == 0 ==> Occupied(counts, start) == {})
  {
    if counts != [] { OccupiedFrom(counts[1..], start + if counts[0] == 0 then 1 else counts[0]); }
  }

  lemma {:induction false} TotalZero(counts: seq<nat>)
    ensures Total(counts) == 0 <==> forall s :: 0 <= s < |counts| ==> counts[s] == 0
  {
    if counts != [] { TotalZero(counts[1..]); }
  }

  lemma NoGapRest(counts: seq<nat>)
    requires counts != []
    ensures NoGap(counts) <==> if counts[0] > 0 then NoGap(counts[1..]) else Total(counts) == 0
  {
    TotalZero(counts);
    if NoGap(counts) && counts[0] > 0 {
      forall s, t | 0 <= s < t < |counts[1..]| && counts[1..][s] == 0 ensures counts[1..][t] == 0 {
        assert counts[s + 1] == 0;
      }
    }
    if counts[0] > 0 && NoGap(counts[1..]) {
      forall s, t | 0 <= s < t < |counts| && counts[s] == 0 ensures counts[t] == 0 {
        assert counts[1..][s - 1] == 0;
      }
    }
  }

  lemma {:induction false} OccupiedDense(counts: seq<nat>, start: nat)
    ensures IsRange(Occupied(counts, start), start, Total(counts)) <==> NoGap(counts)
  {
    if counts != [] {
      var k := counts[0];
      var next := start + if k == 0 then 1 else k;
      OccupiedDense(counts[1..], next);
      OccupiedFrom(counts[1..], next);
      NoGapRest(counts);
      DenseStep(Occupied(counts[1..], next), start, k, Total(counts[1..]));
    }
  }

  lemma {:induction false} NumbersOccupied<T>(stages: seq<seq<Entry<T>>>, counts: seq<nat>, start: nat)
    requires Holds(stages, counts)
    ensures Numbers(Renumbered(stages, start)) == Occupied(counts, start)
  {
    if stages != [] {
      var next := start + Handled(stages[0]) + 1;
      HandledOf(stages[0], counts[0]);
      NumbersCons(stages, counts[0], start, next);
      OccupiedCons(counts, start, next);
      NumbersOccupied(stages[1..], counts[1..], next);
    }
  }

  lemma OccupiedCons(counts: seq<nat>, start: nat, next: nat)
    requires counts != [] && next == start + if counts[0] == 0 then 1 else counts[0]
    ensures Occupied(counts, start) == Range(start, counts[0]) + Occupied(counts[1..], next)
  {
  }

  lemma NumbersCons<T>(stages: seq<seq<Entry<T>>>, k: nat, start: nat, next: nat)
    requires stages != [] && IsRange(Numbers(stages[0]), 0, k) && next == start + Handled(stages[0]) + 1
    ensures Numbers(Renumbered(stages, start)) == Range(start, k) + Numbers(Renumbered(stages[1..], next))
  {
    NumbersStep(stages[0], k, start, Renumbered(stages[1..], next));
  }

  lemma NumbersStep<T>(stage: seq<Entry<T>>, k: nat, start: nat, rest: seq<Entry<T>>)
    requires IsRange(Numbers(stage), 0, k)
    ensures Numbers(ShiftAll(stage, start) + rest) == Range(start, k) + Numbers(rest)
  {
    NumbersShifted(stage, k, start);
    NumbersAppend(ShiftAll(stage, start), rest);
  }

  /** The layers get exactly the numbers start..start+total-1 if and only if no empty stage precedes a non-empty one:
      an empty stage uses up a number. */
  lemma NumbersDense<T>(stages: seq<seq<Entry<T>>>, counts: seq<nat>, start: nat)
    requires Holds(stages, counts)
    ensures IsRange(Numbers(Renumbered(stages, start)), start, Total(counts)) <==> NoGap(counts)
  {
    NumbersOccupied(stages, counts, start);
    OccupiedDense(counts, start);
  }

  /** Three stages with one layer, none and one: number 1 is left out. */
  lemma EmptyStageLeavesGap()
    ensures var stages := [[Entry(Layer(0, "w"), 5)], [], [Entry(Layer(0, "w"), 6)]];
            Holds(stages, [1, 0, 1]) && Renumbered(stages, 0) == [Entry(Layer(0, "w"), 5), Entry(Layer(2, "w"), 6)] &&
            1 !in Numbers(Renumbered(stages, 0))
  {
    var a, b := [Entry(Layer(0, "w"), 5)], [Entry(Layer(0, "w"), 6)];
    var stages := [a, [], b];
    assert a[..0] == [] && b[..0] == [];
    assert stages[1..] == [[], b] && stages[1..][1..] == [b] && stages[1..][1..][1..] == [];
    assert Renumbered([b], 2) == [Entry(Layer(2, "w"), 6)];
    assert Renumbered([[], b], 1) == Renumbered([b], 2);
    assert Renumbered(stages, 0) == [Entry(Layer(0, "w"), 5), Entry(Layer(2, "w"), 6)];
    assert a[0].key.no in Numbers(a) && b[0].key.no in Numbers(b);
  }

  /** One stage of k layers in front of stages that hold n layers. */
  lemma DenseStep(rest: set<nat>, start: nat, k: nat, n: nat)
    requires var next := start + if k == 0 then 1 else k;
             (forall i :: i in rest ==> i >= next) && (n == 0 ==> rest == {})
    ensures IsRange(Range(start, k) + rest, start, k + n) <==> if k > 0 then IsRange(rest, start + k, n) else n == 0
  {
    var all := Range(start, k) + rest;
    forall i: nat ensures i in all <==> start <= i < start + k || i in rest {
      assert i in Range(start, k) <==> start <= i < start + k;
    }
    if k == 0 && n > 0 { assert start !in all; }
  }

  // ---------------------------------------------------------------- the converter's stages

  /** The parameters of one layer by name. */
  type Params<T> = seq<(string, T)>

  function LayerEntries<T>(no: nat, ps: Params<T>): seq<Entry<T>> {
    seq(|ps|, i requires 0 <= i < |ps| => Entry(Layer(no, ps[i].0), ps[i].1))
  }

  /** The entries of layers that are numbered from `first` on. */
  function NumberedFrom<T>(layers: seq<Params<T>>, first: nat): seq<Entry<T>> {
    if layers == [] then [] else LayerEntries(first, layers[0]) + NumberedFrom(layers[1..], first + 1)
  }

  /** Every stage gets the next `shards[r]` layers and numbers them from 0. */
  function Stages<T>(layers: seq<Params<T>>, shards: seq<nat>): seq<seq<Entry<T>>>
    requires Total(shards) == |layers|
  {
    if shards == [] then [] else [NumberedFrom(layers[..shards[0]], 0)] + Stages(layers[shards[0]..], shards[1..])
  }

  lemma {:induction false} ShiftAppend<T>(a: seq<Entry<T>>, b: seq<Entry<T>>, n: nat)
    ensures ShiftAll(a + b, n) == ShiftAll(a, n) + ShiftAll(b, n)
  {
  }

  lemma {:induction false} NumberedShift<T>(layers: seq<Params<T>>, first: nat, n: nat)
    ensures ShiftAll(NumberedFrom(layers, first), n) == NumberedFrom(layers, first + n)
  {
    if layers != [] {
      NumberedShift(layers[1..], first + 1, n);
      ShiftAppend(LayerEntries(first, layers[0]), NumberedFrom(layers[1..], first + 1), n);
      assert ShiftAll(LayerEntries(first, layers[0]), n) == LayerEntries(first + n, layers[0]);
    }
  }

  lemma {:induction false} NumberedAppend<T>(a: seq<Params<T>>, b: seq<Params<T>>, first: nat)
    ensures NumberedFrom(a + b, first) == NumberedFrom(a, first) + NumberedFrom(b, first + |a|)
  {
    if a == [] {
      assert a + b == b;
    } else {
      assert (a + b)[1..] == a[1..] + b;
      NumberedAppend(a[1..], b, first + 1);
    }
  }

  lemma {:induction false} HandledAppend<T>(a: seq<Entry<T>>, b: seq<Entry<T>>)
    ensures Handled(a + b) == if Handled(a) > Handled(b) then Handled(a) else Handled(b)
  {
    if b == [] {
      assert a + b == a;
    } else {
      var n := |b| - 1;
      assert (a + b)[..|a + b| - 1] == a + b[..n];
      HandledAppend(a, b[..n]);
    }
  }

  lemma {:induction false} HandledLayer<T>(no: nat, ps: Params<T>)
    requires ps != []
    ensures Handled(LayerEntries(no, ps)) == no
  {
    var n := |ps| - 1;
    assert LayerEntries(no, ps)[..n] == LayerEntries(no, ps[..n]);
    if n > 0 { HandledLayer(no, ps[..n]); }
  }

  lemma {:induction false} HandledNumbered<T>(layers: seq<Params<T>>, first: nat)
    requires layers != [] && forall l :: 0 <= l < |layers| ==> layers[l] != []
    ensures Handled(NumberedFrom(layers, first)) == first + |layers| - 1
  {
    HandledLayer(first, layers[0]);
    HandledAppend(LayerEntries(first, layers[0]), NumberedFrom(layers[1..], first + 1));
    if |layers| > 1 { HandledNumbered(layers[1..], first + 1); }
  }

  /** Merging the converter's stages numbers all layers as in the model they came from. */
  lemma {:induction false} MergeOfStages<T>(layers: seq<Params<T>>, shards: seq<nat>, start: nat)
    requires Total(shards) == |layers| && (forall r :: 0 <= r < |shards| ==> shards[r] > 0)
    requires forall l :: 0 <= l < |layers| ==> layers[l] != []
    ensures Renumbered(Stages(layers, shards), start) == NumberedFrom(layers, start)
    decreases |shards|
  {
    if shards != [] {
      var head, tail := layers[..shards[0]], layers[shards[0]..];
      assert head + tail == layers;
      var stages := Stages(tail, shards[1..]);
      StageInFront(head, tail, start);
      MergeOfStages(tail, shards[1..], start + shards[0]);
      RenumberedCons(NumberedFrom(head, 0), stages, start);
    }
  }

  lemma StageInFront<T>(head: seq<Params<T>>, tail: seq<Params<T>>, start: nat)
    requires head != [] && forall l :: 0 <= l < |head| ==> head[l] != []
    ensures ShiftAll(NumberedFrom(head, 0), start) + NumberedFrom(tail, start + |head|) == NumberedFrom(head + tail, start)
    ensures Handled(NumberedFrom(head, 0)) + 1 == |head|
  {
    NumberedShift(head, 0, start);
    HandledNumbered(head, 0);
    NumberedAppend(head, tail, start);
  }

  lemma RenumberedCons<T>(stage: seq<Entry<T>>, stages: seq<seq<Entry<T>>>, start: nat)
    ensures Renumbered([stage] + stages, start) == ShiftAll(stage, start) + Renumbered(stages, start + Handled(stage) + 1)
  {
    assert ([stage] + stages)[1..] == stages;
  }

  lemma {:induction false} NumberedAt<T>(layers: seq<Params<T>>, first: nat, g: nat, i: nat) returns (at: nat)
    requires g < |layers| && i < |layers[g]|
    ensures at < |NumberedFrom(layers, first)|
    ensures NumberedFrom(layers, first)[at] == Entry(Layer(first + g, layers[g][i].0), layers[g][i].1)
  {
    if g == 0 {
      at := i;
    } else {
      at := NumberedAt(layers[1..], first + 1, g - 1, i);
      at := |layers[0]| + at;
    }
  }

  ghost predicate NamesDistinct<T>(ps: Params<T>) {
    forall i, j :: 0 <= i < j < |ps| ==> ps[i].0 != ps[j].0
  }

  lemma {:induction false} NumberedDistinct<T>(layers: seq<Params<T>>, first: nat)
    requires forall l :: 0 <= l < |layers| ==> NamesDistinct(layers[l])
    ensures LayersDistinct(NumberedFrom(layers, first)) && LayersFrom(NumberedFrom(layers, first), first)
  {
    if layers != [] {
      NumberedDistinct(layers[1..], first + 1);
      DistinctBelow(LayerEntries(first, layers[0]), NumberedFrom(layers[1..], first + 1), first + 1);
    }
  }

  /** Converting a model into stages and merging them gives every parameter back under its layer number. */
  lemma LayersRestored<T>(layers: seq<Params<T>>, shards: seq<nat>, start: nat, g: nat, i: nat)
    requires Total(shards) == |layers| && (forall r :: 0 <= r < |shards| ==> shards[r] > 0)
    requires forall l :: 0 <= l < |layers| ==> layers[l] != [] && NamesDistinct(layers[l])
    requires g < |layers| && i < |layers[g]|
    ensures var dict, key := Dict(Renumbered(Stages(layers, shards), start)), Layer(start + g, layers[g][i].0);
            key in dict && dict[key] == layers[g][i].1
  {
    MergeOfStages(layers, shards, start);
    NumberedDistinct(layers, start);
    var at := NumberedAt(layers, start, g, i);
    DictKeeps(NumberedFrom(layers, start), at);
  }

  // ---------------------------------------------------------------- the merge of all ranks

  /** `models[p][v]` is the state dict of pipeline rank p and virtual rank v; there are at least vpp virtual ranks. */
  ghost predicate HasStages<T>(models: seq<seq<seq<Entry<T>>>>, vpp: nat) {
    models != [] && forall p :: 0 <= p < |models| ==> vpp <= |models[p]|
  }

  /** What is added to the local layer numbers of models[p][v]. */
  ghost function LayerStart<T>(models: seq<seq<seq<Entry<T>>>>, start: nat, p: nat, v: nat): nat
    requires HasStages(models, v + 1) && p < |models|
    decreases v, p
  {
    if p > 0 then LayerStart(models, start, p - 1, v) + Handled(models[p - 1][v]) + 1
    else if v > 0 then LayerStart(models, start, |models| - 1, v - 1) + Handled(models[|models| - 1][v - 1]) + 1
    else start
  }

  lemma {:induction false} VisitedLength<T>(models: seq<seq<seq<Entry<T>>>>, vpp: nat)
    requires HasStages(models, vpp)
    ensures |Visited(models, vpp)| == vpp * |models|
  {
    if vpp > 0 {
      VisitedLength(models, vpp - 1);
      LessOne(vpp, |models|);
    }
  }

  /** The stages are visited rank by rank, for one virtual rank after the other. */
  lemma {:induction false} VisitedAt<T>(models: seq<seq<seq<Entry<T>>>>, vpp: nat, p: nat, v: nat)
    requires HasStages(models, vpp) && p < |models| && v < vpp
    ensures v * |models| + p < |Visited(models, vpp)| && Visited(models, vpp)[v * |models| + p] == models[p][v]
  {
    VisitedLength(models, vpp);
    VisitedLength(models, vpp - 1);
    LessOne(vpp, |models|);
    if v < vpp - 1 { VisitedAt(models, vpp - 1, p, v); }
  }

  lemma {:induction false} StartIsOffset<T>(models: seq<seq<seq<Entry<T>>>>, vpp: nat, start: nat, p: nat, v: nat)
    requires HasStages(models, vpp) && p < |models| && v < vpp
    ensures v * |models| + p < |Visited(models, vpp)|
    ensures LayerStart(models, start, p, v) == start + Offset(Visited(models, vpp), v * |models| + p)
    decreases v, p
  {
    VisitedAt(models, vpp, p, v);
    if p > 0 {
      VisitedAt(models, vpp, p - 1, v);
      StartIsOffset(models, vpp, start, p - 1, v);
    } else if v > 0 {
      LessOne(v, |models|);
      VisitedAt(models, vpp, |models| - 1, v - 1);
      StartIsOffset(models, vpp, start, |models| - 1, v - 1);
    }
  }

  /** Position s of the visit is at some rank. */
  lemma VisitedRank<T>(models: seq<seq<seq<Entry<T>>>>, vpp: nat, s: nat) returns (p: nat, v: nat)
    requires HasStages(models, vpp) && s < |Visited(models, vpp)|
    ensures p < |models| && v < vpp && s == v * |models| + p && Visited(models, vpp)[s] == models[p][v]
  {
    p, v := s % |models|, Div(s, |models|);
    DivParts(s, |models|);
    VisitedLength(models, vpp);
    SmallerFactor(|models|, v, vpp);
    VisitedAt(models, vpp, p, v);
  }

  /** Virtual rank v comes before w; within one virtual rank, pipeline rank p before q. */
  predicate Before(p: nat, v: nat, q: nat, w: nat) {
    v < w || (v == w && p < q)
  }

  lemma BeforeInVisit(n: nat, p: nat, v: nat, q: nat, w: nat)
    requires p < n && q < n && Before(p, v, q, w)
    ensures v * n + p < w * n + q
  {
    if v < w {
      Times(v + 1, w, n);
      Distributive(v, 1, n);
    }
  }

  /** The layers of an earlier rank get smaller numbers, whatever the ranks hold. */
  ghost predicate RanksInOrder<T>(models: seq<seq<seq<Entry<T>>>>, vpp: nat, start: nat)
    requires HasStages(models, vpp)
  {
    forall p: nat, v: nat, q: nat, w: nat, i, j ::
      (p < |models| && v < vpp && q < |models| && w < vpp && (v < w || (v == w && p < q)) &&
       0 <= i < |models[p][v]| && models[p][v][i].key.Layer? && 0 <= j < |models[q][w]| && models[q][w][j].key.Layer?) ==>
        models[p][v][i].key.no + LayerStart(models, start, p, v) < models[q][w][j].key.no + LayerStart(models, start, q, w)
  }

  lemma LayersInOrder<T>(models: seq<seq<seq<Entry<T>>>>, vpp: nat, start: nat, p: nat, v: nat, q: nat, w: nat, i: nat, j: nat)
    requires HasStages(models, vpp) && p < |models| && v < vpp && q < |models| && w < vpp && Before(p, v, q, w)
    requires i < |models[p][v]| && models[p][v][i].key.Layer? && j < |models[q][w]| && models[q][w][j].key.Layer?
    ensures models[p][v][i].key.no + LayerStart(models, start, p, v) < models[q][w][j].key.no + LayerStart(models, start, q, w)
  {
    var s, t := VisitedPair(models, vpp, start, p, v, q, w);
    StagesApart(Visited(models, vpp), s, t, i, j);
  }

  /** Where two ranks are in the visit. */
  lemma VisitedPair<T>(models: seq<seq<seq<Entry<T>>>>, vpp: nat, start: nat, p: nat, v: nat, q: nat, w: nat) returns (s: nat, t: nat)
    requires HasStages(models, vpp) && p < |models| && v < vpp && q < |models| && w < vpp && Before(p, v, q, w)
    ensures s < t < |Visited(models, vpp)| && Visited(models, vpp)[s] == models[p][v] && Visited(models, vpp)[t] == models[q][w]
    ensures LayerStart(models, start, p, v) == start + Offset(Visited(models, vpp), s)
    ensures LayerStart(models, start, q, w) == start + Offset(Visited(models, vpp), t)
  {
    s, t := v * |models| + p, w * |models| + q;
    StartIsOffset(models, vpp, start, p, v);
    StartIsOffset(models, vpp, start, q, w);
    VisitedAt(models, vpp, p, v);
    VisitedAt(models, vpp, q, w);
    BeforeInVisit(|models|, p, v, q, w);
  }

  /** Every layer parameter is in the dictionary, with its own value, under its number plus that of its rank's first layer. */
  ghost predicate LayersPlaced<T>(models: seq<seq<seq<Entry<T>>>>, vpp: nat, start: nat, dict: map<Key, T>)
    requires HasStages(models, vpp)
  {
    forall p: nat, v: nat, i :: p < |models| && v < vpp && 0 <= i < |models[p][v]| && models[p][v][i].key.Layer? ==>
      var key := Layer(models[p][v][i].key.no + LayerStart(models, start, p, v), models[p][v][i].key.name);
      key in dict && dict[key] == models[p][v][i].value
  }

  ghost predicate AllDistinct<T>(models: seq<seq<seq<Entry<T>>>>, vpp: nat)
    requires HasStages(models, vpp)
  {
    forall p, v :: 0 <= p < |models| && 0 <= v < vpp ==> LayersDistinct(models[p][v])
  }

  lemma LayerPlaced<T>(models: seq<seq<seq<Entry<T>>>>, vpp: nat, start: nat, p: nat, v: nat, i: nat)
    requires HasStages(models, vpp) && AllDistinct(models, vpp)
    requires p < |models| && v < vpp && i < |models[p][v]| && models[p][v][i].key.Layer?
    ensures var dict := Dict(Renumbered(Visited(models, vpp), start));
            var key := Layer(models[p][v][i].key.no + LayerStart(models, start, p, v), models[p][v][i].key.name);
            key in dict && dict[key] == models[p][v][i].value
  {
    var stages := Visited(models, vpp);
    forall s | 0 <= s < |stages| ensures LayersDistinct(stages[s]) { var q, w := VisitedRank(models, vpp, s); }
    VisitedAt(models, vpp, p, v);
    StartIsOffset(models, vpp, start, p, v);
    NothingOverwritten(stages, v * |models| + p, i, start);
  }

  /** No parameter with this name comes later: at a later rank, or later at the same one. */
  ghost predicate IsLastOther<T>(models: seq<seq<seq<Entry<T>>>>, vpp: nat, p: nat, v: nat, i: nat)
    requires HasStages(models, vpp) && p < |models| && v < vpp && i < |models[p][v]|
  {
    models[p][v][i].key.Other? &&
    forall q: nat, w: nat, j :: q < |models| && w < vpp && 0 <= j < |models[q][w]| && models[q][w][j].key == models[p][v][i].key ==>
      !(v < w || (v == w && p < q)) && (q == p && w == v ==> j <= i)
  }

  /** A parameter outside the layers is in the dictionary under its own name, with the value it had last. */
  ghost predicate OthersPlaced<T>(models: seq<seq<seq<Entry<T>>>>, vpp: nat, dict: map<Key, T>)
    requires HasStages(models, vpp)
  {
    forall p: nat, v: nat, i: nat :: p < |models| && v < vpp && i < |models[p][v]| && IsLastOther(models, vpp, p, v, i) ==>
      models[p][v][i].key in dict && dict[models[p][v][i].key] == models[p][v][i].value
  }

  lemma OtherPlaced<T>(models: seq<seq<seq<Entry<T>>>>, vpp: nat, start: nat, p: nat, v: nat, i: nat)
    requires HasStages(models, vpp) && p < |models| && v < vpp && i < |models[p][v]| && IsLastOther(models, vpp, p, v, i)
    ensures var dict := Dict(Renumbered(Visited(models, vpp), start));
            models[p][v][i].key in dict && dict[models[p][v][i].key] == models[p][v][i].value
  {
    var stages: seq<seq<Entry<T>>>, s: nat := Visited(models, vpp), v * |models| + p;
    VisitedAt(models, vpp, p, v);
    forall t: nat, j: nat | s <= t < |stages| && 0 <= j < |stages[t]| && (s < t || i < j) ensures stages[t][j].key != stages[s][i].key {
      var q, w := VisitedRank(models, vpp, t);
      LaterRank(|models|, p, v, q, w);
    }
    OthersKept(stages, s, i, start);
  }

  lemma LaterRank(n: nat, p: nat, v: nat, q: nat, w: nat)
    requires p < n && q < n
    ensures v * n + p < w * n + q <==> v < w || (v == w && p < q)
    ensures v * n + p == w * n + q <==> v == w && p == q
  {
    if Before(p, v, q, w) { BeforeInVisit(n, p, v, q, w); }
    if Before(q, w, p, v) { BeforeInVisit(n, q, w, p, v); }
  }

  /** The key is that of some parameter, renumbered. */
  ghost predicate ComesFrom<T>(models: seq<seq<seq<Entry<T>>>>, start: nat, key: Key, p: nat, v: nat, i: nat)
    requires HasStages(models, v + 1) && p < |models| && i < |models[p][v]|
  {
    match models[p][v][i].key
    case Layer(no, name) => key == Layer(no + LayerStart(models, start, p, v), name)
    case Other(_) => key == models[p][v][i].key
  }

  ghost predicate OnlyThese<T>(models: seq<seq<seq<Entry<T>>>>, vpp: nat, start: nat, dict: map<Key, T>)
    requires HasStages(models, vpp)
  {
    forall key :: key in dict ==>
      exists p: nat, v: nat, i: nat :: p < |models| && v < vpp && i < |models[p][v]| && ComesFrom(models, start, key, p, v, i)
  }

  lemma OnlyThis<T>(models: seq<seq<seq<Entry<T>>>>, vpp: nat, start: nat, key: Key)
    requires HasStages(models, vpp) && key in Dict(Renumbered(Visited(models, vpp), start))
    ensures exists p: nat, v: nat, i: nat :: p < |models| && v < vpp && i < |models[p][v]| && ComesFrom(models, start, key, p, v, i)
  {
    var s, i := NothingAdded(Visited(models, vpp), start, key);
    var p, v := VisitedRank(models, vpp, s);
    StartIsOffset(models, vpp, start, p, v);
    assert ComesFrom(models, start, key, p, v, i);
  }

  /** The model's layers cut into stages, the stages going round the pipeline ranks, as virtual pipelining does it. */
  ghost predicate IsCut<T>(models: seq<seq<seq<Entry<T>>>>, vpp: nat, layers: seq<Params<T>>, shards: seq<nat>)
    requires HasStages(models, vpp)
  {
    |shards| == vpp * |models| && Total(shards) == |layers| && (forall r :: 0 <= r < |shards| ==> shards[r] > 0) &&
    (forall l :: 0 <= l < |layers| ==> layers[l] != [] && NamesDistinct(layers[l])) &&
    forall p: nat, v: nat :: p < |models| && v < vpp ==>
      v * |models| + p < |Stages(layers, shards)| && models[p][v] == Stages(layers, shards)[v * |models| + p]
  }

  lemma CutIsVisited<T>(models: seq<seq<seq<Entry<T>>>>, vpp: nat, layers: seq<Params<T>>, shards: seq<nat>)
    requires HasStages(models, vpp) && IsCut(models, vpp, layers, shards)
    ensures Visited(models, vpp) == Stages(layers, shards)
  {
    var stages := Visited(models, vpp);
    VisitedLength(models, vpp);
    StagesLength(layers, shards);
    forall s | 0 <= s < |stages| ensures stages[s] == Stages(layers, shards)[s] {
      var p, v := VisitedRank(models, vpp, s);
    }
  }

  lemma {:induction false} StagesLength<T>(layers: seq<Params<T>>, shards: seq<nat>)
    requires Total(shards) == |layers|
    ensures |Stages(layers, shards)| == |shards|
    decreases |shards|
  {
    if shards != [] { StagesLength(layers[shards[0]..], shards[1..]); }
  }

  /** Every parameter of every layer is in the dictionary under its name and the number of its layer, with its value. */
  ghost predicate ModelRestored<T>(layers: seq<Params<T>>, start: nat, dict: map<Key, T>) {
    forall g, i :: 0 <= g < |layers| && 0 <= i < |layers[g]| ==>
      Layer(start + g, layers[g][i].0) in dict && dict[Layer(start + g, layers[g][i].0)] == layers[g][i].1
  }

  lemma CutRestored<T>(models: seq<seq<seq<Entry<T>>>>, vpp: nat, start: nat, layers: seq<Params<T>>, shards: seq<nat>)
    requires HasStages(models, vpp) && IsCut(models, vpp, layers, shards)
    ensures ModelRestored(layers, start, Dict(Renumbered(Visited(models, vpp), start)))
  {
    CutIsVisited(models, vpp, layers, shards);
    forall g, i | 0 <= g < |layers| && 0 <= i < |layers[g]|
      ensures var dict := Dict(Renumbered(Visited(models, vpp), start));
              Layer(start + g, layers[g][i].0) in dict && dict[Layer(start + g, layers[g][i].0)] == layers[g][i].1
    {
      LayersRestored(layers, shards, start, g, i);
    }
  }

  /** What the merge of all ranks promises: numbers in the order of virtual and pipeline ranks, every layer parameter under
      its number, every other one under its name, nothing else, and the model itself if its stages were handed out in turn. */
  ghost predicate Merged<T(!new)>(models: seq<seq<seq<Entry<T>>>>, vpp: nat, start: nat, dict: map<Key, T>)
    requires HasStages(models, vpp)
  {
    RanksInOrder(models, vpp, start) && (AllDistinct(models, vpp) ==> LayersPlaced(models, vpp, start, dict)) &&
    OthersPlaced(models, vpp, dict) && OnlyThese(models, vpp, start, dict) &&
    forall layers: seq<Params<T>>, shards :: IsCut(models, vpp, layers, shards) ==> ModelRestored(layers, start, dict)
  }

  lemma IsMerged<T(!new)>(models: seq<seq<seq<Entry<T>>>>, vpp: nat, start: nat)
    requires HasStages(models, vpp)
    ensures Merged(models, vpp, start, Dict(Renumbered(Visited(models, vpp), start)))
  {
    var dict := Dict(Renumbered(Visited(models, vpp), start));
    forall p: nat, v: nat, q: nat, w: nat, i, j |
      p < |models| && v < vpp && q < |models| && w < vpp && (v < w || (v == w && p < q)) &&
      0 <= i < |models[p][v]| && models[p][v][i].key.Layer? && 0 <= j < |models[q][w]| && models[q][w][j].key.Layer?
      ensures models[p][v][i].key.no + LayerStart(models, start, p, v) < models[q][w][j].key.no + LayerStart(models, start, q, w)
    {
      LayersInOrder(models, vpp, start, p, v, q, w, i, j);
    }
    if AllDistinct(models, vpp) {
      forall p: nat, v: nat, i | p < |models| && v < vpp && 0 <= i < |models[p][v]| && models[p][v][i].key.Layer?
        ensures var key := Layer(models[p][v][i].key.no + LayerStart(models, start, p, v), models[p][v][i].key.name);
                key in dict && dict[key] == models[p][v][i].value
      {
        LayerPlaced(models, vpp, start, p, v, i);
      }
    }
    forall p: nat, v: nat, i: nat | p < |models| && v < vpp && i < |models[p][v]| && IsLastOther(models, vpp, p, v, i)
      ensures models[p][v][i].key in dict && dict[models[p][v][i].key] == models[p][v][i].value
    {
      OtherPlaced(models, vpp, start, p, v, i);
    }
    forall key | key in dict
      ensures exists p: nat, v: nat, i: nat :: p < |models| && v < vpp && i < |models[p][v]| && ComesFrom(models, start, key, p, v, i)
    {
      OnlyThis(models, vpp, start, key);
    }
    forall layers: seq<Params<T>>, shards | IsCut(models, vpp, layers, shards) ensures ModelRestored(layers, start, dict) {
      CutRestored(models, vpp, start, layers, shards);
    }
  }

  /** _merge_state_dicts. The first pipeline rank says how many virtual ranks there are. */
  method MergeStateDicts<T(!new)>(models: seq<seq<seq<Entry<T>>>>, start: nat) returns (dict: map<Key, T>)
    requires |models| > 0 && forall p :: 0 <= p < |models| ==> |models[0]| <= |models[p]|
    ensures dict == Dict(Renumbered(Visited(models, |models[0]|), start))
    ensures Merged(models, |models[0]|, start, dict)
  {
    dict := map[];
    var layersCum := start;
    for v := 0 to |models[0]|
      invariant layersCum == EndOf(Visited(models, v), start)
      invariant dict == Dict(Renumbered(Visited(models, v), start))
    {
      dict, layersCum := MergeColumn(Column(models, v), layersCum, dict, start, Visited(models, v));
    }
    IsMerged(models, |models[0]|, start);
  }

  // ---------------------------------------------------------------- file numbers

  function SavesPerLayer(layers: nat): nat {
    if layers < 30 then 1 else 2
  }

  /** The number, from 0, of the i-th file that a rank writes. */
  function FileNo(shards: seq<nat>, rank: nat, saves: nat, i: nat): nat
    requires rank <= |shards|
  {
    Total(shards[..rank]) * saves + i
  }

  lemma {:induction false} FileNosGrow(shards: seq<nat>, r: nat, t: nat, saves: nat)
    requires r < t < |shards|
    ensures FileNo(shards, r, saves, 0) + shards[r] * saves <= FileNo(shards, t, saves, 0)
    decreases t - r
  {
    TotalAt(shards, r);
    Distributive(Total(shards[..r]), shards[r], saves);
    if r + 1 < t {
      FileNosGrow(shards, r + 1, t, saves);
      assert shards[r + 1] * saves >= 0;
    }
  }

  /** Two files of the same or of different ranks never get the same number, and no number exceeds the total. */
  lemma FilesApart(shards: seq<nat>, saves: nat, r: nat, i: nat, t: nat, j: nat)
    requires r < |shards| && i < shards[r] * saves && t < |shards| && j < shards[t] * saves
    requires FileNo(shards, r, saves, i) == FileNo(shards, t, saves, j)
    ensures r == t && i == j
  {
    if r < t { FileNosGrow(shards, r, t, saves); } else if t < r { FileNosGrow(shards, t, r, saves); }
  }

  /** Every number below the total is the number of a file, and no other is. */
  lemma {:induction false} FilesCover(shards: seq<nat>, saves: nat, no: nat) returns (rank: nat, i: nat)
    requires no < Total(shards) * saves
    ensures rank < |shards| && i < shards[rank] * saves && FileNo(shards, rank, saves, i) == no
    decreases |shards|
  {
    Distributive(shards[0], Total(shards[1..]), saves);
    if no < shards[0] * saves {
      rank, i := 0, no;
    } else {
      rank, i := FilesCover(shards[1..], saves, no - shards[0] * saves);
      rank := rank + 1;
      assert shards[..rank][1..] == shards[1..][..rank - 1];
      Distributive(shards[0], Total(shards[1..][..rank - 1]), saves);
    }
  }

  lemma FilesWithin(shards: seq<nat>, saves: nat, rank: nat, i: nat)
    requires rank < |shards| && i < shards[rank] * saves
    ensures FileNo(shards, rank, saves, i) < Total(shards) * saves
  {
    TotalAt(shards, rank);
    var before, total := Total(shards[..rank]), Total(shards);
    Distributive(before, shards[rank], saves);
    Times(before + shards[rank], total, saves);
  }

  function AllIn<K(==)>(keys: seq<K>, no: nat): map<K, nat> {
    map key | key in keys :: no
  }

  function FileOf<K(==)>(sections: seq<seq<K>>, first: nat): map<K, nat> {
    if sections == [] then map[]
    else
      var last := sections[|sections| - 1];
      FileOf(sections[..|sections| - 1], first) + AllIn(last, first + |sections| - 1)
  }

  /** The index that one rank contributes. */
  function RankIndex<K(==)>(keys: seq<K>, layers: nat, shards: seq<nat>, rank: nat): map<K, nat>
    requires rank < |shards|
  {
    FileOf(ArraySplit(keys, shards[rank] * SavesPerLayer(layers)), FileNo(shards, rank, SavesPerLayer(layers), 0))
  }

  lemma {:induction false} FlattenIn<K>(sections: seq<seq<K>>, c: nat, j: nat) returns (at: nat)
    requires c < |sections| && j < |sections[c]|
    ensures at < |Flatten(sections)| && Flatten(sections)[at] == sections[c][j]
  {
    if c == 0 {
      at := j;
    } else {
      at := FlattenIn(sections[1..], c - 1, j);
      at := |sections[0]| + at;
    }
  }

  /** With distinct keys the index names the file that a key was written to, for every key. */
  lemma {:induction false} FileOfKey<K>(sections: seq<seq<K>>, first: nat, c: nat, key: K)
    requires c < |sections| && key in sections[c] && Distinct(Flatten(sections))
    ensures key in FileOf(sections, first) && FileOf(sections, first)[key] == first + c
  {
    var n := |sections| - 1;
    assert sections == sections[..n] + [sections[n]];
    FlattenAppend(sections[..n], [sections[n]]);
    FlattenOne(sections[n]);
    if c < n {
      DistinctAppend(Flatten(sections[..n]), sections[n]);
      FileOfKey(sections[..n], first, c, key);
      var j :| 0 <= j < |sections[c]| && sections[c][j] == key;
      var at := FlattenIn(sections[..n], c, j);
      assert Flatten(sections)[at] == key;
      assert key !in sections[n];
    }
  }

  /** A file saved: its number, from 0, and the keys in it. */
  datatype SavedFile<K> = SavedFile(no: nat, keys: seq<K>)

  function Files<K>(sections: seq<seq<K>>, first: nat): seq<SavedFile<K>> {
    seq(|sections|, i requires 0 <= i < |sections| => SavedFile(first + i, sections[i]))
  }

  function KeysIn<K>(files: seq<SavedFile<K>>): seq<seq<K>> {
    seq(|files|, i requires 0 <= i < |files| => files[i].keys)
  }

  function RankFiles<K>(keys: seq<K>, layers: nat, shards: seq<nat>, rank: nat): seq<SavedFile<K>>
    requires rank < |shards|
  {
    Files(ArraySplit(keys, shards[rank] * SavesPerLayer(layers)), FileNo(shards, rank, SavesPerLayer(layers), 0))
  }

  /** What one rank saves: one file for each of its layers, or two if the model has 30 layers or more, numbered on from
      those of the ranks before it; the keys in order, in files that never grow and differ by at most one key. */
  ghost predicate RankSaved<K>(keys: seq<K>, layers: nat, shards: seq<nat>, rank: nat, files: seq<SavedFile<K>>)
    requires rank < |shards|
  {
    var saves := if layers < 30 then 1 else 2;
    |files| == shards[rank] * saves && (forall i :: 0 <= i < |files| ==> files[i].no == Total(shards[..rank]) * saves + i) &&
    Flatten(KeysIn(files)) == keys &&
    forall i, j :: 0 <= i <= j < |files| ==> |files[j].keys| <= |files[i].keys| <= |files[j].keys| + 1
  }

  /** The index leads from every key to the number of the file that it is in, and has no other keys. */
  ghost predicate Indexes<K>(files: seq<SavedFile<K>>, index: map<K, nat>) {
    (forall i, key :: 0 <= i < |files| && key in files[i].keys ==> key in index && index[key] == files[i].no) &&
    forall key :: key in index ==> InOne(files, key)
  }

  ghost predicate InOne<K>(files: seq<SavedFile<K>>, key: K) {
    exists i :: 0 <= i < |files| && key in files[i].keys
  }

  lemma SectionsSaved<K>(keys: seq<K>, layers: nat, shards: seq<nat>, rank: nat)
    requires rank < |shards| && shards[rank] > 0
    ensures RankSaved(keys, layers, shards, rank, RankFiles(keys, layers, shards, rank))
  {
    var saves := SavesPerLayer(layers);
    var sections := ArraySplit(keys, shards[rank] * saves);
    SplitIsPartition(keys, shards[rank] * saves);
    assert KeysIn(Files(sections, FileNo(shards, rank, saves, 0))) == sections;
    forall i, j | 0 <= i <= j < |sections| ensures |sections[j]| <= |sections[i]| <= |sections[j]| + 1 {
      SplitIsEven(keys, shards[rank] * saves, i, j);
    }
  }

  lemma SectionsIndexed<K>(sections: seq<seq<K>>, first: nat)
    requires Distinct(Flatten(sections))
    ensures Indexes(Files(sections, first), FileOf(sections, first))
  {
    var files := Files(sections, first);
    forall i, key | 0 <= i < |files| && key in files[i].keys
      ensures key in FileOf(sections, first) && FileOf(sections, first)[key] == files[i].no
    {
      FileOfKey(sections, first, i, key);
    }
    forall key | key in FileOf(sections, first) ensures InOne(files, key) {
      FileOfKeys(sections, first, key);
      var c := FlattenSection(sections, key);
      assert key in files[c].keys;
    }
  }

  /** The first key of a rank is in the rank's first file. */
  lemma FirstKey<K>(files: seq<SavedFile<K>>, keys: seq<K>)
    requires Flatten(KeysIn(files)) == keys != []
    requires forall i, j :: 0 <= i <= j < |files| ==> |files[j].keys| <= |files[i].keys|
    ensures files != [] && keys[0] in files[0].keys
  {
    var pieces := KeysIn(files);
    if |pieces[0]| == 0 {
      forall i | 0 <= i < |pieces| ensures |pieces[i]| == 0 { assert |files[i].keys| <= |files[0].keys|; }
      AllEmpty(pieces);
    }
  }

  lemma {:induction false} AllEmpty<K>(pieces: seq<seq<K>>)
    requires forall i :: 0 <= i < |pieces| ==> |pieces[i]| == 0
    ensures Flatten(pieces) == []
  {
    if pieces != [] { AllEmpty(pieces[1..]); }
  }

  lemma SavedNext<K>(sections: seq<seq<K>>, first: nat, i: nat)
    requires i < |sections|
    ensures Files(sections[..i + 1], first) == Files(sections[..i], first) + [SavedFile(first + i, sections[i])]
    ensures FileOf(sections[..i + 1], first) == FileOf(sections[..i], first) + AllIn(sections[i], first + i)
  {
    assert sections[..i + 1][..i] == sections[..i];
  }

  lemma RankIsSaved<K>(keys: seq<K>, layers: nat, shards: seq<nat>, rank: nat)
    requires rank < |shards| && shards[rank] > 0
    ensures var files, index := RankFiles(keys, layers, shards, rank), RankIndex(keys, layers, shards, rank);
            RankSaved(keys, layers, shards, rank, files) && (Distinct(keys) ==> Indexes(files, index)) &&
            (Distinct(keys) && keys != [] ==> keys[0] in index && index[keys[0]] == Total(shards[..rank]) * if layers < 30 then 1 else 2)
  {
    var n := shards[rank] * SavesPerLayer(layers);
    SectionsSaved(keys, layers, shards, rank);
    SplitIsPartition(keys, n);
    if Distinct(keys) {
      SectionsIndexed(ArraySplit(keys, n), FileNo(shards, rank, SavesPerLayer(layers), 0));
      if keys != [] { FirstKey(RankFiles(keys, layers, shards, rank), keys); }
    }
  }

  /** save_hf_model_and_tokenizer of one of several ranks: the files it saves and, in saves_indexes, the number of the file of each key. */
  method SaveIndexes<K(==)>(keys: seq<K>, layers: nat, shards: seq<nat>, rank: nat)
    returns (r: Result<map<K, nat>>, files: seq<SavedFile<K>>)
    requires rank < |shards|
    ensures r == if shards[rank] == 0 then Raise(ValueError)
                 else Ok(RankIndex(keys, layers, shards, rank))
    ensures r.Ok? ==> files == RankFiles(keys, layers, shards, rank)
    ensures r.Ok? ==> RankSaved(keys, layers, shards, rank, files) && (Distinct(keys) ==> Indexes(files, r.value))
    ensures r.Ok? && Distinct(keys) && keys != [] ==>
      keys[0] in r.value && r.value[keys[0]] == Total(shards[..rank]) * if layers < 30 then 1 else 2
  {
    var saves := SavesPerLayer(layers);
    files := [];
    if shards[rank] * saves == 0 { return Raise(ValueError), files; }
    var layerStart := Total(shards[..rank]);
    var sections := ArraySplit(keys, shards[rank] * saves);
    var indexes: map<K, nat> := map[];
    for i := 0 to |sections|
      invariant indexes == FileOf(sections[..i], layerStart * saves)
      invariant files == Files(sections[..i], layerStart * saves)
    {
      var saveIdx := layerStart * saves + i;
      SavedNext(sections, layerStart * saves, i);
      files := files + [SavedFile(saveIdx, sections[i])];
      indexes := indexes + AllIn(sections[i], saveIdx);
    }
    assert sections[..|sections|] == sections;
    RankIsSaved(keys, layers, shards, rank);
    r := Ok(indexes);
  }

  // ---------------------------------------------------------------- the index of all ranks

  /** The indexes of the first `ranks` ranks gathered, a later one winning over an earlier one. */
  function GatheredIndex<K(==)>(keys: seq<seq<K>>, layers: nat, shards: seq<nat>, ranks: nat): map<K, nat>
    requires ranks <= |keys| == |shards|
  {
    if ranks == 0 then map[]
    else GatheredIndex(keys, layers, shards, ranks - 1) + RankIndex(keys[ranks - 1], layers, shards, ranks - 1)
  }

  lemma LastWins<K, V>(a: map<K, V>, b: map<K, V>, key: K)
    ensures key in a + b <==> key in a || key in b
    ensures key in b ==> (a + b)[key] == b[key]
    ensures key in a && key !in b ==> (a + b)[key] == a[key]
  {
  }

  /** No key on two ranks. */
  ghost predicate Disjoint<K>(keys: seq<seq<K>>) {
    forall r, t :: 0 <= r < t < |keys| ==> forall key :: key in keys[r] ==> key !in keys[t]
  }

  lemma {:induction false} FileOfKeys<K>(sections: seq<seq<K>>, first: nat, key: K)
    ensures key in FileOf(sections, first) <==> key in Flatten(sections)
  {
    if sections != [] {
      var n := |sections| - 1;
      assert sections == sections[..n] + [sections[n]];
      FlattenSnoc(sections[..n], sections[n]);
      FileOfKeys(sections[..n], first, key);
    }
  }

  lemma RankIndexKeys<K>(keys: seq<K>, layers: nat, shards: seq<nat>, rank: nat, key: K)
    requires rank < |shards| && shards[rank] > 0
    ensures key in RankIndex(keys, layers, shards, rank) <==> key in keys
  {
    var n := shards[rank] * SavesPerLayer(layers);
    SplitIsPartition(keys, n);
    FileOfKeys(ArraySplit(keys, n), FileNo(shards, rank, SavesPerLayer(layers), 0), key);
  }

  /** Gathering keeps what each rank says about its keys. */
  lemma {:induction false} GatheredKeeps<K>(keys: seq<seq<K>>, layers: nat, shards: seq<nat>, ranks: nat, r: nat, key: K)
    requires r < ranks <= |keys| == |shards| && Disjoint(keys) && key in keys[r] && forall t :: 0 <= t < |shards| ==> shards[t] > 0
    ensures key in RankIndex(keys[r], layers, shards, r) && key in GatheredIndex(keys, layers, shards, ranks)
    ensures GatheredIndex(keys, layers, shards, ranks)[key] == RankIndex(keys[r], layers, shards, r)[key]
  {
    var before, last := GatheredIndex(keys, layers, shards, ranks - 1), RankIndex(keys[ranks - 1], layers, shards, ranks - 1);
    RankIndexKeys(keys[r], layers, shards, r, key);
    RankIndexKeys(keys[ranks - 1], layers, shards, ranks - 1, key);
    if r < ranks - 1 {
      assert key !in keys[ranks - 1];
      GatheredKeeps(keys, layers, shards, ranks - 1, r, key);
    }
    LastWins(before, last, key);
  }

  /** The file with number `no` was written with this key in it. */
  ghost predicate InFile<K>(keys: seq<seq<K>>, layers: nat, shards: seq<nat>, key: K, no: nat)
    requires |keys| == |shards|
  {
    exists r: nat, c: nat :: IsSection(keys, layers, shards, key, no, r, c)
  }

  ghost predicate IsSection<K>(keys: seq<seq<K>>, layers: nat, shards: seq<nat>, key: K, no: nat, r: nat, c: nat)
    requires |keys| == |shards|
  {
    r < |keys| && c < |ArraySplit(keys[r], shards[r] * SavesPerLayer(layers))| &&
    key in ArraySplit(keys[r], shards[r] * SavesPerLayer(layers))[c] && no == FileNo(shards, r, SavesPerLayer(layers), c)
  }

  /** The file that a key of a rank is in is the one that the rank's index names. */
  lemma SectionIndexed<K>(keys: seq<seq<K>>, layers: nat, shards: seq<nat>, key: K, no: nat, r: nat, c: nat)
    requires |keys| == |shards| && (forall t :: 0 <= t < |shards| ==> shards[t] > 0 && Distinct(keys[t]))
    requires IsSection(keys, layers, shards, key, no, r, c)
    ensures key in keys[r] && key in RankIndex(keys[r], layers, shards, r) && RankIndex(keys[r], layers, shards, r)[key] == no
  {
    var n := shards[r] * SavesPerLayer(layers);
    var sections := ArraySplit(keys[r], n);
    SplitIsPartition(keys[r], n);
    FileOfKey(sections, FileNo(shards, r, SavesPerLayer(layers), 0), c, key);
    RankIndexKeys(keys[r], layers, shards, r, key);
  }

  lemma {:induction false} FlattenSection<K>(sections: seq<seq<K>>, key: K) returns (c: nat)
    requires key in Flatten(sections)
    ensures c < |sections| && key in sections[c]
  {
    if key in sections[0] {
      c := 0;
    } else {
      c := FlattenSection(sections[1..], key);
      c := c + 1;
    }
  }

  /** With keys that are distinct on each rank and across ranks, every key is in exactly one file of all ranks, and the gathered
      index names that file. */
  lemma EveryKeyInOneFile<K>(keys: seq<seq<K>>, layers: nat, shards: seq<nat>, r: nat, key: K)
    requires |keys| == |shards| && Disjoint(keys) && (forall t :: 0 <= t < |shards| ==> shards[t] > 0 && Distinct(keys[t]))
    requires r < |keys| && key in keys[r]
    ensures key in GatheredIndex(keys, layers, shards, |keys|)
    ensures forall no: nat :: InFile(keys, layers, shards, key, no) <==> no == GatheredIndex(keys, layers, shards, |keys|)[key]
  {
    GatheredKeeps(keys, layers, shards, |keys|, r, key);
    var named := GatheredIndex(keys, layers, shards, |keys|)[key];
    forall no: nat | InFile(keys, layers, shards, key, no) ensures no == named {
      var t: nat, c: nat :| IsSection(keys, layers, shards, key, no, t, c);
      SectionIndexed(keys, layers, shards, key, no, t, c);
      assert t == r;
    }
    var n := shards[r] * SavesPerLayer(layers);
    SplitIsPartition(keys[r], n);
    var c := FlattenSection(ArraySplit(keys[r], n), key);
    var no := FileNo(shards, r, SavesPerLayer(layers), c);
    assert IsSection(keys, layers, shards, key, no, r, c);
    SectionIndexed(keys, layers, shards, key, no, r, c);
  }

  lemma IndexesAppend<K>(a: seq<SavedFile<K>>, b: seq<SavedFile<K>>, ia: map<K, nat>, ib: map<K, nat>)
    requires Indexes(a, ia) && Indexes(b, ib) && forall key :: InOne(a, key) ==> !InOne(b, key)
    ensures Indexes(a + b, ia + ib)
  {
    var files, index := a + b, ia + ib;
    forall i, key | 0 <= i < |files| && key in files[i].keys ensures key in index && index[key] == files[i].no {
      LastWins(ia, ib, key);
      if i < |a| { assert InOne(a, key); } else { assert key in b[i - |a|].keys; }
    }
    forall key | key in index ensures InOne(files, key) {
      LastWins(ia, ib, key);
      if key in ib {
        var i :| 0 <= i < |b| && key in b[i].keys;
        assert files[|a| + i] == b[i];
      } else {
        var i :| 0 <= i < |a| && key in a[i].keys;
        assert files[i] == a[i];
      }
    }
  }

  lemma InFlattened<K>(files: seq<SavedFile<K>>, key: K)
    ensures InOne(files, key) ==> key in Flatten(KeysIn(files))
  {
    if InOne(files, key) {
      var i :| 0 <= i < |files| && key in files[i].keys;
      var j :| 0 <= j < |KeysIn(files)[i]| && KeysIn(files)[i][j] == key;
      var at := FlattenIn(KeysIn(files), i, j);
    }
  }

  /** The files of the ranks so far, with those of one rank more. */
  lemma RankAdded<K>(keys: seq<seq<K>>, rank: nat, files: seq<SavedFile<K>>, more: seq<SavedFile<K>>)
    requires rank < |keys|
    ensures Flatten(keys[..rank + 1]) == Flatten(keys[..rank]) + keys[rank]
    ensures Flatten(KeysIn(files + more)) == Flatten(KeysIn(files)) + Flatten(KeysIn(more))
    ensures Distinct(Flatten(keys[..rank + 1])) ==> Distinct(Flatten(keys[..rank])) && Distinct(keys[rank])
  {
    assert keys[..rank + 1] == keys[..rank] + [keys[rank]];
    FlattenSnoc(keys[..rank], keys[rank]);
    assert KeysIn(files + more) == KeysIn(files) + KeysIn(more);
    FlattenAppend(KeysIn(files), KeysIn(more));
    if Distinct(Flatten(keys[..rank + 1])) { DistinctAppend(Flatten(keys[..rank]), keys[rank]); }
  }

  /** One file for each of so many layers, or two, numbered from 0. */
  ghost predicate CountedOn<K>(files: seq<SavedFile<K>>, saved: nat, layers: nat) {
    |files| == saved * (if layers < 30 then 1 else 2) && forall k :: 0 <= k < |files| ==> files[k].no == k
  }

  lemma NumbersGoOn<K>(shards: seq<nat>, layers: nat, rank: nat, files: seq<SavedFile<K>>, more: seq<SavedFile<K>>, keys: seq<K>)
    requires rank < |shards| && CountedOn(files, Total(shards[..rank]), layers) && RankSaved(keys, layers, shards, rank, more)
    ensures CountedOn(files + more, Total(shards[..rank + 1]), layers)
  {
    TotalAt(shards, rank);
    Distributive(Total(shards[..rank]), shards[rank], if layers < 30 then 1 else 2);
  }

  /** The files of the first `ranks` ranks. */
  function GatheredFiles<K>(keys: seq<seq<K>>, layers: nat, shards: seq<nat>, ranks: nat): seq<SavedFile<K>>
    requires ranks <= |keys| == |shards|
  {
    if ranks == 0 then []
    else GatheredFiles(keys, layers, shards, ranks - 1) + RankFiles(keys[ranks - 1], layers, shards, ranks - 1)
  }

  lemma {:induction false} GatheredSaved<K>(keys: seq<seq<K>>, layers: nat, shards: seq<nat>, ranks: nat)
    requires ranks <= |keys| == |shards| && forall t :: 0 <= t < |shards| ==> shards[t] > 0
    ensures var files := GatheredFiles(keys, layers, shards, ranks);
            CountedOn(files, Total(shards[..ranks]), layers) && Flatten(KeysIn(files)) == Flatten(keys[..ranks])
  {
    if ranks > 0 {
      var r := ranks - 1;
      var files, more := GatheredFiles(keys, layers, shards, r), RankFiles(keys[r], layers, shards, r);
      GatheredSaved(keys, layers, shards, r);
      RankIsSaved(keys[r], layers, shards, r);
      NumbersGoOn(shards, layers, r, files, more, keys[r]);
      RankAdded(keys, r, files, more);
    }
  }

  lemma {:induction false} GatheredIndexes<K>(keys: seq<seq<K>>, layers: nat, shards: seq<nat>, ranks: nat)
    requires ranks <= |keys| == |shards| && (forall t :: 0 <= t < |shards| ==> shards[t] > 0) && Distinct(Flatten(keys[..ranks]))
    ensures Indexes(GatheredFiles(keys, layers, shards, ranks), GatheredIndex(keys, layers, shards, ranks))
  {
    if ranks > 0 {
      var r := ranks - 1;
      var files, more := GatheredFiles(keys, layers, shards, r), RankFiles(keys[r], layers, shards, r);
      RankAdded(keys, r, files, more);
      RankIsSaved(keys[r], layers, shards, r);
      GatheredSaved(keys, layers, shards, r);
      GatheredIndexes(keys, layers, shards, r);
      Apart(files, more, Flatten(keys[..r]), keys[r]);
      IndexesAppend(files, more, GatheredIndex(keys, layers, shards, r), RankIndex(keys[r], layers, shards, r));
    }
  }

  lemma Apart<K>(a: seq<SavedFile<K>>, b: seq<SavedFile<K>>, ka: seq<K>, kb: seq<K>)
    requires Flatten(KeysIn(a)) == ka && Flatten(KeysIn(b)) == kb && Distinct(ka + kb)
    ensures forall key :: InOne(a, key) ==> !InOne(b, key)
  {
    DistinctAppend(ka, kb);
    forall key | InOne(a, key) ensures !InOne(b, key) {
      InFlattened(a, key);
      InFlattened(b, key);
    }
  }

  /** All ranks save, and their indexes are gathered. The files are numbered 0, 1, 2 and so on through the ranks, one or two for
      each layer; together they have the keys of all ranks in order, and with distinct keys the index leads to the file
      of every key. A rank without layers raises. */
  method SaveAllRanks<K(==)>(keys: seq<seq<K>>, layers: nat, shards: seq<nat>) returns (r: Result<map<K, nat>>, files: seq<SavedFile<K>>)
    requires |keys| == |shards|
    ensures r.Ok? <==> forall t :: 0 <= t < |shards| ==> shards[t] > 0
    ensures r.Raise? ==> r.error == ValueError
    ensures r.Ok? ==> r.value == GatheredIndex(keys, layers, shards, |keys|)
    ensures r.Ok? ==> forall k :: 0 <= k < |files| ==> files[k].no == k
    ensures r.Ok? && Total(shards) == layers ==> |files| == if layers < 30 then layers else 2 * layers
    ensures r.Ok? ==> Flatten(KeysIn(files)) == Flatten(keys)
    ensures r.Ok? && Distinct(Flatten(keys)) ==> Indexes(files, r.value)
  {
    var index: map<K, nat> := map[];
    files := [];
    for rank := 0 to |shards|
      invariant forall t :: 0 <= t < rank ==> shards[t] > 0
      invariant index == GatheredIndex(keys, layers, shards, rank) && files == GatheredFiles(keys, layers, shards, rank)
    {
      var saved, more := SaveIndexes(keys[rank], layers, shards, rank);
      if saved.Raise? { return Raise(saved.error), files; }
      files, index := files + more, index + saved.value;
    }
    assert keys[..|shards|] == keys && shards[..|shards|] == shards;
    GatheredSaved(keys, layers, shards, |shards|);
    if Distinct(Flatten(keys)) { GatheredIndexes(keys, layers, shards, |shards|); }
    r := Ok(index);
  }
}
