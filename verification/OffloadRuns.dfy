/** Training iterations over the offload handler: a forward pass that saves tensors layer by layer, then a
    backward pass that gets them back. */
module OffloadRuns {
  import opened ActivationOffload
  import opened Arithmetic
  import opened Outcomes

  // ---------------------------------------------------------------- window arithmetic

  lemma WindowStep(layers: nat, groups: nat, i: nat)
    requires 1 <= groups <= layers && i + 1 < groups
    ensures Window(layers, groups, i) < Window(layers, groups, i + 1)
  {
    var q := layers / groups;
    assert q >= 1;
    assert q * (i + 2) == q * (i + 1) + q;
  }

  lemma {:induction false} WindowGrows(layers: nat, groups: nat, i: nat, j: nat)
    requires 1 <= groups <= layers && i <= j < groups
    ensures Window(layers, groups, i) + (j - i) <= Window(layers, groups, j)
    decreases j
  {
    if i < j {
      WindowGrows(layers, groups, i, j - 1);
      WindowStep(layers, groups, j - 1);
    }
  }

  lemma WindowEnds(layers: nat, groups: nat)
    requires 1 <= groups <= layers
    ensures Window(layers, groups, groups - 1) == layers - 1
    ensures Window(layers, groups, 0) >= if groups < layers then 1 else 0
  {
    var q, r := layers / groups, layers % groups;
    assert q * groups + r == layers;
    if groups < layers && q == 1 { assert r == layers - groups; }
  }

  /** Windows close in order, no earlier than the group is complete, the last one with the last layer. */
  lemma WindowBounds(layers: nat, groups: nat, i: nat)
    requires 1 <= groups <= layers && i < groups
    ensures i + (if groups < layers then 1 else 0) <= Window(layers, groups, i) <= layers - 1
    ensures i == groups - 1 ==> Window(layers, groups, i) == layers - 1
  {
    WindowEnds(layers, groups);
    WindowGrows(layers, groups, 0, i);
    WindowGrows(layers, groups, i, groups - 1);
  }

  /** As many groups as layers but one: group i leaves with layer i + 1. */
  lemma WindowAllButOne(layers: nat, i: nat)
    requires layers >= 2 && i < layers - 1
    ensures Window(layers, layers - 1, i) == i + 1
  {
    WindowBounds(layers, layers - 1, i);
    WindowEnds(layers, layers - 1);
    WindowGrows(layers, layers - 1, i, layers - 2);
  }

  /** The layers between the windows of one group and the next. */
  function Share(layers: nat, groups: nat, i: nat): int
    requires i < groups
  {
    Window(layers, groups, i) - if i == 0 then -1 else Window(layers, groups, i - 1)
  }

  lemma ShareIs(layers: nat, groups: nat, i: nat)
    requires i < groups
    ensures Share(layers, groups, i) == layers / groups + if i < layers % groups then 1 else 0
  {
    Distributive(i, 1, layers / groups);
  }

  /** The windows share out all layers, evenly: no group has more layers than an earlier one, and none more than one more
      than another. */
  lemma WindowsShareOut(layers: nat, groups: nat, i: nat, j: nat)
    requires i <= j < groups
    ensures Share(layers, groups, j) <= Share(layers, groups, i) <= Share(layers, groups, j) + 1
    ensures Window(layers, groups, groups - 1) == layers - 1
  {
    ShareIs(layers, groups, i);
    ShareIs(layers, groups, j);
    DivParts(layers, groups);
  }

  // ---------------------------------------------------------------- sessions

  /** The handler in use; `log` is what has been pushed and not popped yet. */
  datatype Session = Session(h: Handler, log: map<Tag, Tensor>, backward: bool)

  datatype Action = Push(t: Tensor) | CommitForward | CommitBackward | Pop(tag: Tag) | NextIteration

  function Start(groups: nat, layers: nat): Session {
    Session(Initial(groups, layers), map[], false)
  }

  /** Tensors of one group that share storage and type have the same content. */
  ghost predicate AliasFree(log: map<Tag, Tensor>, groups: nat) {
    forall a, b :: a in log && b in log && a.group == b.group < groups && log[a].key == log[b].key ==> log[a].flat == log[b].flat
  }

  /** What the model's forward and backward pass does: push in the forward pass, commit after each layer, in the
      backward pass commit before each layer and pop only tensors of layers already reached. */
  ghost predicate Permitted(s: Session, a: Action) {
    match a
    case Push(t) =>
      !s.backward && 0 <= s.h.current < s.h.layers && WellFormed(t) &&
      AliasFree(s.log[Tag(s.h.current, s.h.count) := t], s.h.offloadGroups)
    case CommitForward => !s.backward && s.h.current < s.h.layers
    case CommitBackward => s.backward && s.h.current > 0
    case Pop(tag) => s.backward && tag in s.log && tag.group >= s.h.current
    case NextIteration => s.backward && s.h.current == 0 && s.log == map[]
  }

  /** The handler does not raise. */
  ghost predicate Succeeds(s: Session, a: Action) {
    match a
    case Push(t) => CanPush(s.h)
    case CommitForward => CanCommitForward(s.h)
    case CommitBackward => CanCommitBackward(s.h)
    case Pop(tag) => CanPop(s.h, tag)
    case NextIteration => true
  }

  ghost predicate Effect(s: Session, a: Action, s': Session)
    requires Succeeds(s, a)
  {
    match a
    case Push(t) => s' == Session(Pushed(s.h, t), s.log[Tag(s.h.current, s.h.count) := t], s.backward)
    case CommitForward => CommitsForward(s.h, s'.h) && s'.log == s.log && s'.backward == (s'.h.current == s.h.layers)
    case CommitBackward => s' == s.(h := CommittedBackward(s.h))
    case Pop(tag) => s' == s.(h := Popped(s.h, tag), log := s.log - {tag})
    case NextIteration => s' == s.(backward := false)
  }

  // ---------------------------------------------------------------- the invariant

  ghost predicate Static(h: Handler) {
    1 <= h.offloadGroups <= h.layers && h.window == Windows(h.layers, h.offloadGroups) && 0 <= h.current <= h.layers
  }

  function W(h: Handler, i: int): int
    requires Static(h) && 0 <= i < h.offloadGroups
  {
    h.window[i]
  }

  /** The groups whose copies exist: in the forward pass those up to the window, in the backward pass those not yet reached. */
  ghost predicate Counters(h: Handler, backward: bool)
    requires Static(h)
  {
    h.offloaded <= h.offloadGroups &&
    (h.offloaded < h.offloadGroups ==> W(h, h.offloaded) >= h.current) &&
    if backward then
      (forall g :: g in h.copies <==> 0 <= g < h.offloadGroups && W(h, g) < h.current) &&
      (if h.current == 0 then h.offloaded == 0 else h.offloaded >= 1 && (h.offloaded == 1 || W(h, h.offloaded - 1) < h.current))
    else
      h.current < h.layers &&
      (h.offloaded > 0 ==> W(h, h.offloaded - 1) < h.current) &&
      (forall g :: g in h.copies <==> h.current > 0 && 0 <= g < h.offloadGroups && g <= h.offloaded)
  }

  ghost predicate TagOk(s: Session, tag: Tag) {
    tag.group < s.h.layers && (!s.backward ==> tag.group <= s.h.current && (tag.group == s.h.current ==> tag.index < s.h.count))
  }

  /** The saved state of a tag is the tensor itself, or leads to its content on the host. */
  ghost predicate SavedOk(h: Handler, tag: Tag, t: Tensor) {
    tag in h.states &&
    match h.states[tag]
    case OnDevice(u) => u == t
    case Offloaded(key, shape) =>
      key == t.key && shape == t.shape && tag.group in h.copies && key in h.copies[tag.group] && h.copies[tag.group][key] == t.flat
  }

  predicate SameSetup(h: Handler, h': Handler) {
    h'.offloadGroups == h.offloadGroups && h'.layers == h.layers
  }

  ghost predicate LogSaved(h: Handler, log: map<Tag, Tensor>) {
    h.states.Keys == log.Keys && forall tag :: tag in log ==> SavedOk(h, tag, log[tag])
  }

  ghost predicate LogOk(s: Session) {
    forall tag :: tag in s.log ==> TagOk(s, tag) && WellFormed(s.log[tag])
  }

  ghost predicate Buffered(h: Handler, log: map<Tag, Tensor>) {
    forall tag :: tag in h.buffers <==> tag in log && tag.group < h.offloadGroups
  }

  ghost predicate Inv(s: Session) {
    Static(s.h) && Counters(s.h, s.backward) && (s.backward ==> s.h.count == 0) &&
    AliasFree(s.log, s.h.offloadGroups) && LogOk(s) && LogSaved(s.h, s.log) && Buffered(s.h, s.log)
  }

  lemma StartInv(groups: nat, layers: nat)
    requires 1 <= groups <= layers
    ensures Inv(Start(groups, layers))
  {
    WindowBounds(layers, groups, 0);
  }

  // ---------------------------------------------------------------- forward commits

  lemma OffloadKeepsSaved(h: Handler, log: map<Tag, Tensor>, g: int, h': Handler)
    requires LogSaved(h, log) && AliasFree(log, h.offloadGroups) && 0 <= g < h.offloadGroups
    requires g !in h.copies && Offloads(h, g, h')
    ensures LogSaved(h', log)
  {
    forall tag | tag in log ensures SavedOk(h', tag, log[tag]) {
      assert SavedOk(h, tag, log[tag]);
      if tag.group == g {
        var key := log[tag].key;
        assert h.states[tag].tensor.key == key;
        assert Holds(h, g, key, h'.copies[g][key]);
        var rep :| rep in h.states && rep.group == g && h.states[rep].OnDevice? &&
                   h.states[rep].tensor.key == key && h.states[rep].tensor.flat == h'.copies[g][key];
        assert SavedOk(h, rep, log[rep]);
      }
    }
  }

  lemma FreshGroupOnDevice(h: Handler, log: map<Tag, Tensor>, g: int)
    requires LogSaved(h, log) && g !in h.copies
    ensures CanOffload(h, g)
  {
    forall tag | tag in h.states && tag.group == g ensures h.states[tag].OnDevice? {
      assert SavedOk(h, tag, log[tag]);
    }
  }

  /** Before the first commit nothing has been offloaded; until the last one some window is open. */
  lemma WindowOpen(h: Handler)
    requires Static(h) && Counters(h, false)
    ensures h.offloaded < h.offloadGroups && (h.current == 0 ==> h.offloaded == 0)
  {
    WindowBounds(h.layers, h.offloadGroups, h.offloadGroups - 1);
    if h.offloaded > 0 { WindowBounds(h.layers, h.offloadGroups, h.offloaded - 1); }
  }

  lemma ForwardSucceeds(s: Session)
    requires Inv(s) && Permitted(s, CommitForward)
    ensures CanCommitForward(s.h)
  {
    WindowOpen(s.h);
    if s.h.current == 0 { FreshGroupOnDevice(s.h, s.log, 0); }
    FreshGroupOnDevice(s.h, s.log, s.h.offloaded + 1);
  }

  lemma KickstartKeeps(s: Session, h1: Handler)
    requires Inv(s) && !s.backward && Kickstarts(s.h, h1)
    ensures LogSaved(h1, s.log) && h1 == s.h.(states := h1.states, copies := h1.copies)
    ensures forall g :: g in h1.copies <==> 0 <= g < s.h.offloadGroups && g <= s.h.offloaded
  {
    WindowOpen(s.h);
    if s.h.current == 0 { OffloadKeepsSaved(s.h, s.log, 0, h1); }
  }

  lemma CloseKeeps(s: Session, h1: Handler, h2: Handler)
    requires Inv(s) && !s.backward && s.h.offloaded < s.h.offloadGroups && Kickstarts(s.h, h1) && ClosesWindow(h1, h2)
    ensures LogSaved(h2, s.log)
    ensures h2.offloaded == s.h.offloaded + (if W(s.h, s.h.offloaded) == s.h.current then 1 else 0)
    ensures h2 == s.h.(states := h2.states, copies := h2.copies, offloaded := h2.offloaded, buffers := h2.buffers)
    ensures h2.buffers == if W(s.h, s.h.offloaded) == s.h.current then Freed(s.h, s.h.offloaded).buffers else s.h.buffers
    ensures forall g :: g in h2.copies <==> 0 <= g < s.h.offloadGroups && g <= h2.offloaded
  {
    KickstartKeeps(s, h1);
    CloseSaved(h1, s.log, h2);
    CloseShape(h1, h2);
    CloseGlue(s.h, h1, h2);
  }

  /** What closing a window does, the content of states and copies apart. */
  ghost predicate Closed(h1: Handler, h2: Handler) {
    var closes := WindowClosesForward(h1);
    h2 == h1.(states := h2.states, copies := h2.copies,
              offloaded := h1.offloaded + (if closes then 1 else 0),
              buffers := if closes then Freed(h1, h1.offloaded).buffers else h1.buffers) &&
    forall g :: g in h2.copies <==> g in h1.copies || (closes && g == h1.offloaded + 1 < h1.offloadGroups)
  }

  lemma CloseShape(h1: Handler, h2: Handler)
    requires ClosesWindow(h1, h2)
    ensures Closed(h1, h2)
  {
  }

  lemma CloseGlue(h: Handler, h1: Handler, h2: Handler)
    requires Static(h) && h.offloaded < h.offloadGroups && Closed(h1, h2)
    requires h1 == h.(states := h1.states, copies := h1.copies)
    requires forall g :: g in h1.copies <==> 0 <= g < h.offloadGroups && g <= h.offloaded
    ensures h2.offloaded == h.offloaded + (if W(h, h.offloaded) == h.current then 1 else 0)
    ensures h2 == h.(states := h2.states, copies := h2.copies, offloaded := h2.offloaded, buffers := h2.buffers)
    ensures h2.buffers == if W(h, h.offloaded) == h.current then Freed(h, h.offloaded).buffers else h.buffers
    ensures forall g :: g in h2.copies <==> 0 <= g < h.offloadGroups && g <= h2.offloaded
  {
  }

  lemma CloseSaved(h1: Handler, log: map<Tag, Tensor>, h2: Handler)
    requires LogSaved(h1, log) && AliasFree(log, h1.offloadGroups) && ClosesWindow(h1, h2)
    requires h1.offloaded + 1 !in h1.copies
    ensures LogSaved(h2, log)
  {
    if WindowClosesForward(h1) {
      var freed := Freed(h1, h1.offloaded);
      SameSaved(h1, freed, log);
      if h1.offloaded < h1.offloadGroups - 1 {
        var h3 := h2.(offloaded := h1.offloaded);
        OffloadKeepsSaved(freed, log, h1.offloaded + 1, h3);
        SameSaved(h3, h2, log);
      } else {
        SameSaved(freed, h2, log);
      }
    }
  }

  lemma SameSaved(h: Handler, h': Handler, log: map<Tag, Tensor>)
    requires LogSaved(h, log) && h'.states == h.states && h'.copies == h.copies
    ensures LogSaved(h', log)
  {
    forall tag | tag in log ensures SavedOk(h', tag, log[tag]) { assert SavedOk(h, tag, log[tag]); }
  }

  lemma ForwardCounters(h: Handler, h': Handler)
    requires Static(h) && Counters(h, false)
    requires h'.window == h.window && h'.offloadGroups == h.offloadGroups && h'.layers == h.layers && h'.current == h.current + 1
    requires h.offloaded < h.offloadGroups && h'.offloaded == h.offloaded + (if W(h, h.offloaded) == h.current then 1 else 0)
    requires forall g :: g in h'.copies <==> 0 <= g < h.offloadGroups && g <= h'.offloaded
    ensures Static(h') && Counters(h', h'.current == h'.layers)
  {
    var k := h.offloadGroups;
    WindowBounds(h.layers, k, k - 1);
    if h'.offloaded < k && h'.offloaded > 0 { WindowStep(h.layers, k, h'.offloaded - 1); }
    if h'.current == h'.layers {
      if h'.offloaded < k { WindowBounds(h.layers, k, h'.offloaded); }
      forall g | 0 <= g < k ensures W(h', g) < h'.current { WindowBounds(h.layers, k, g); }
    }
  }

  lemma ForwardHandler(s: Session, h': Handler)
    requires Inv(s) && !s.backward && CommitsForward(s.h, h')
    ensures Static(h') && Counters(h', h'.current == h'.layers) && LogSaved(h', s.log) && SameSetup(s.h, h')
    ensures h'.current == s.h.current + 1 && h'.count == 0 && h'.buffers.Keys == s.h.buffers.Keys
  {
    var h1, h2 :| Kickstarts(s.h, h1) && ClosesWindow(h1, h2) && h' == Advanced(h2);
    WindowOpen(s.h);
    CloseKeeps(s, h1, h2);
    AdvancedHandler(s.h, h2);
    SameSaved(h2, h', s.log);
  }

  lemma AdvancedHandler(h: Handler, h2: Handler)
    requires Static(h) && Counters(h, false) && h.offloaded < h.offloadGroups
    requires h2 == h.(states := h2.states, copies := h2.copies, offloaded := h2.offloaded, buffers := h2.buffers)
    requires h2.offloaded == h.offloaded + (if W(h, h.offloaded) == h.current then 1 else 0)
    requires h2.buffers == if W(h, h.offloaded) == h.current then Freed(h, h.offloaded).buffers else h.buffers
    requires forall g :: g in h2.copies <==> 0 <= g < h.offloadGroups && g <= h2.offloaded
    ensures var h' := Advanced(h2);
            Static(h') && Counters(h', h'.current == h'.layers) && SameSetup(h, h') &&
            h'.current == h.current + 1 && h'.count == 0 && h'.buffers.Keys == h.buffers.Keys
  {
    ForwardCounters(h, Advanced(h2));
  }

  lemma ForwardKeeps(s: Session, s': Session)
    requires Inv(s) && !s.backward && SameSetup(s.h, s'.h) && s'.log == s.log && s'.backward == (s'.h.current == s'.h.layers)
    requires Static(s'.h) && Counters(s'.h, s'.backward) && LogSaved(s'.h, s.log)
    requires s'.h.current == s.h.current + 1 && s'.h.count == 0 && s'.h.buffers.Keys == s.h.buffers.Keys
    ensures Inv(s')
  {
    forall tag | tag in s'.log ensures TagOk(s', tag) { assert TagOk(s, tag); }
    assert Buffered(s'.h, s'.log);
  }

  // ---------------------------------------------------------------- backward commits

  lemma BackwardSucceeds(s: Session)
    requires Inv(s) && Permitted(s, CommitBackward)
    ensures CanCommitBackward(s.h)
  {
    var g := s.h.offloaded - 1;
    if WindowClosesBackward(s.h) {
      forall tag | tag in s.h.states && tag.group == g ensures CanRecover(s.h.copies[g], s.h.states[tag])
      {
        assert SavedOk(s.h, tag, s.log[tag]);
      }
    }
  }

  lemma BackwardCounters(h: Handler)
    requires Static(h) && Counters(h, true) && CanCommitBackward(h)
    ensures Static(CommittedBackward(h)) && Counters(CommittedBackward(h), true)
  {
    var h' := CommittedBackward(h);
    var k := h.offloadGroups;
    BackwardCount(h);
    forall g ensures g in h'.copies <==> 0 <= g < k && W(h', g) < h'.current {
      if 0 <= g < k { BackwardCopies(h, g); }
    }
  }

  lemma BackwardCount(h: Handler)
    requires Static(h) && Counters(h, true) && CanCommitBackward(h)
    ensures var h' := CommittedBackward(h);
            Static(h') && h'.offloaded <= h'.offloadGroups &&
            (h'.offloaded < h'.offloadGroups ==> W(h', h'.offloaded) >= h'.current) &&
            if h'.current == 0 then h'.offloaded == 0 else h'.offloaded >= 1 && (h'.offloaded == 1 || W(h', h'.offloaded - 1) < h'.current)
  {
    WindowBounds(h.layers, h.offloadGroups, 0);
    if h.offloaded > 1 { WindowStep(h.layers, h.offloadGroups, h.offloaded - 2); }
  }

  /** The window of group offloaded - 1 is the only one that can end with the layer before the current one. */
  lemma BackwardCopies(h: Handler, g: nat)
    requires Static(h) && Counters(h, true) && CanCommitBackward(h) && g < h.offloadGroups
    ensures W(h, g) == h.current - 1 <==> WindowClosesBackward(h) && g == h.offloaded - 1
  {
    var k := h.offloadGroups;
    if g <= h.offloaded - 1 { WindowGrows(h.layers, k, g, h.offloaded - 1); }
    else { WindowGrows(h.layers, k, h.offloaded, g); }
  }

  lemma ReloadKeepsSaved(h: Handler, log: map<Tag, Tensor>)
    requires LogSaved(h, log) && Static(h) && CanCommitBackward(h)
    ensures LogSaved(CommittedBackward(h), log)
  {
    var h' := CommittedBackward(h);
    forall tag | tag in log ensures SavedOk(h', tag, log[tag]) {
      assert SavedOk(h, tag, log[tag]);
    }
  }

  lemma BackwardKeeps(s: Session)
    requires Inv(s) && Permitted(s, CommitBackward) && CanCommitBackward(s.h)
    ensures Inv(s.(h := CommittedBackward(s.h)))
  {
    var s' := s.(h := CommittedBackward(s.h));
    BackwardCounters(s.h);
    ReloadKeepsSaved(s.h, s.log);
    assert s'.h.buffers == s.h.buffers && s'.h.count == s.h.count && s'.h.offloadGroups == s.h.offloadGroups;
    forall tag | tag in s'.log ensures TagOk(s', tag) {
      assert TagOk(s, tag);
    }
  }

  // ---------------------------------------------------------------- pushes and pops

  lemma NewTag(s: Session)
    requires LogOk(s) && !s.backward && s.h.current >= 0
    ensures Tag(s.h.current, s.h.count) !in s.log
  {
    var tag := Tag(s.h.current, s.h.count);
    assert tag in s.log ==> TagOk(s, tag);
  }

  lemma PushLog(s: Session, t: Tensor)
    requires LogOk(s) && 0 <= s.h.current < s.h.layers && WellFormed(t)
    ensures LogOk(Session(Pushed(s.h, t), s.log[Tag(s.h.current, s.h.count) := t], s.backward))
  {
    var tag := Tag(s.h.current, s.h.count);
    var s' := Session(Pushed(s.h, t), s.log[tag := t], s.backward);
    forall u | u in s'.log ensures TagOk(s', u) && WellFormed(s'.log[u]) {
      if u != tag { assert TagOk(s, u); }
    }
  }

  lemma PushKeeps(s: Session, t: Tensor)
    requires Inv(s) && Permitted(s, Push(t))
    ensures CanPush(s.h) && Inv(Session(Pushed(s.h, t), s.log[Tag(s.h.current, s.h.count) := t], s.backward))
  {
    NewTag(s);
    PushSaved(s.h, s.log, t);
    PushBuffers(s.h, s.log, t);
    PushLog(s, t);
  }

  lemma PushBuffers(h: Handler, log: map<Tag, Tensor>, t: Tensor)
    requires h.current >= 0 && Buffered(h, log)
    ensures Buffered(Pushed(h, t), log[Tag(h.current, h.count) := t])
  {
  }

  lemma PushSaved(h: Handler, log: map<Tag, Tensor>, t: Tensor)
    requires LogSaved(h, log) && h.current >= 0 && Tag(h.current, h.count) !in log
    ensures LogSaved(Pushed(h, t), log[Tag(h.current, h.count) := t])
  {
    var tag, h' := Tag(h.current, h.count), Pushed(h, t);
    var log' := log[tag := t];
    forall u | u in log' ensures SavedOk(h', u, log'[u]) {
      if u != tag { assert SavedOk(h, u, log[u]); }
    }
  }

  /** A tensor whose layer has been reached is back on the device, and it is the tensor that was pushed. */
  lemma PopReturns(s: Session, tag: Tag)
    requires Inv(s) && Permitted(s, Pop(tag))
    ensures CanPop(s.h, tag) && s.h.states[tag].tensor == s.log[tag]
  {
    assert SavedOk(s.h, tag, s.log[tag]);
    if tag.group < s.h.offloadGroups { WindowBounds(s.h.layers, s.h.offloadGroups, tag.group); }
  }

  lemma PopLog(s: Session, s': Session, tag: Tag)
    requires LogOk(s) && AliasFree(s.log, s.h.offloadGroups)
    requires s'.log == s.log - {tag} && s'.backward == s.backward && s'.h == s.h.(states := s'.h.states, buffers := s'.h.buffers)
    ensures LogOk(s') && AliasFree(s'.log, s'.h.offloadGroups)
  {
    forall u | u in s'.log ensures TagOk(s', u) && WellFormed(s'.log[u]) { assert TagOk(s, u); }
  }

  lemma PopKeeps(s: Session, tag: Tag)
    requires Inv(s) && Permitted(s, Pop(tag))
    ensures Inv(s.(h := Popped(s.h, tag), log := s.log - {tag}))
  {
    var s' := s.(h := Popped(s.h, tag), log := s.log - {tag});
    PopLog(s, s', tag);
    PopSaved(s.h, s.log, tag);
    PopBuffers(s.h, s.log, tag);
  }

  lemma PopBuffers(h: Handler, log: map<Tag, Tensor>, tag: Tag)
    requires Buffered(h, log)
    ensures Buffered(Popped(h, tag), log - {tag})
  {
  }

  lemma PopSaved(h: Handler, log: map<Tag, Tensor>, tag: Tag)
    requires LogSaved(h, log)
    ensures LogSaved(Popped(h, tag), log - {tag})
  {
    forall u | u in log && u != tag ensures SavedOk(Popped(h, tag), u, log[u]) { assert SavedOk(h, u, log[u]); }
  }

  /** When all tags are popped at the end of the backward pass, the handler is as it was created. */
  lemma BackToInitial(s: Session)
    requires Inv(s) && Permitted(s, NextIteration)
    ensures s.h == Initial(s.h.offloadGroups, s.h.layers)
  {
    assert s.h.states == map[] && s.h.buffers == map[];
    forall g ensures g !in s.h.copies {
      if 0 <= g < s.h.offloadGroups { WindowBounds(s.h.layers, s.h.offloadGroups, g); }
    }
    assert s.h.copies == map[];
  }

  // ---------------------------------------------------------------- transparency

  lemma ActionKeeps(s: Session, a: Action, s': Session)
    requires Inv(s) && Permitted(s, a) && Succeeds(s, a) && Effect(s, a, s')
    ensures Inv(s')
  {
    match a
    case Push(t) => PushKeeps(s, t);
    case CommitForward =>
      ForwardHandler(s, s'.h);
      ForwardKeeps(s, s');
    case CommitBackward => BackwardKeeps(s);
    case Pop(tag) => PopKeeps(s, tag);
    case NextIteration =>
      BackToInitial(s);
      StartInv(s.h.offloadGroups, s.h.layers);
  }

  lemma ActionSucceeds(s: Session, a: Action)
    requires Inv(s) && Permitted(s, a)
    ensures Succeeds(s, a)
  {
    match a
    case Push(t) => PushKeeps(s, t);
    case CommitForward => ForwardSucceeds(s);
    case CommitBackward => BackwardSucceeds(s);
    case Pop(tag) => PopReturns(s, tag);
    case NextIteration =>
  }

  /** A sequence of permitted actions, none of which raised. */
  ghost predicate Runs(ss: seq<Session>, actions: seq<Action>) {
    |ss| == |actions| + 1 &&
    forall i :: 0 <= i < |actions| ==>
      Permitted(ss[i], actions[i]) && Succeeds(ss[i], actions[i]) && Effect(ss[i], actions[i], ss[i + 1])
  }

  lemma {:induction false} RunInv(groups: nat, layers: nat, ss: seq<Session>, actions: seq<Action>, i: nat)
    requires 1 <= groups <= layers && Runs(ss, actions) && ss[0] == Start(groups, layers) && i <= |actions|
    ensures Inv(ss[i]) && ss[i].h.offloadGroups == groups && ss[i].h.layers == layers
  {
    if i == 0 {
      StartInv(groups, layers);
    } else {
      RunInv(groups, layers, ss, actions, i - 1);
      StepInv(ss[i - 1], actions[i - 1], ss[i]);
    }
  }

  lemma StepInv(s: Session, a: Action, s': Session)
    requires Inv(s) && Permitted(s, a) && Succeeds(s, a) && Effect(s, a, s')
    ensures Inv(s') && SameSetup(s.h, s'.h)
  {
    ActionKeeps(s, a, s');
    if a.CommitForward? { ForwardHandler(s, s'.h); }
  }

  /** Transparency, over any number of iterations and any pushes: whatever the caller does next, the handler does not
      raise; a pop returns the tensor that was pushed under the tag; a finished iteration leaves the initial handler. */
  lemma Transparency(groups: nat, layers: nat, ss: seq<Session>, actions: seq<Action>, a: Action)
    requires 1 <= groups <= layers && Runs(ss, actions) && ss[0] == Start(groups, layers)
    requires Permitted(ss[|actions|], a)
    ensures var s := ss[|actions|];
            Succeeds(s, a) &&
            (a.Pop? ==> s.h.states[a.tag].tensor == s.log[a.tag]) &&
            (a.NextIteration? ==> s.h == Initial(groups, layers))
  {
    RunInv(groups, layers, ss, actions, |actions|);
    var s := ss[|actions|];
    ActionSucceeds(s, a);
    if a.Pop? { PopReturns(s, a.tag); }
    if a.NextIteration? { BackToInitial(s); }
  }

  // ---------------------------------------------------------------- aliasing

  ghost predicate SameStorage(h: Handler, g: int, a: Tag, b: Tag)
    requires a in h.states && b in h.states
    ensures SameStorage(h, g, a, b) ==> h.states[a].OnDevice? && h.states[b].OnDevice?
  {
    a.group == b.group == g && h.states[a].OnDevice? && h.states[b].OnDevice? && h.states[a].tensor.key == h.states[b].tensor.key
  }

  ghost predicate GroupAliasFree(h: Handler, g: int) {
    forall a, b :: a in h.states && b in h.states && SameStorage(h, g, a, b) ==> h.states[a].tensor.flat == h.states[b].tensor.flat
  }

  lemma CopyIsContent(h: Handler, g: nat, h': Handler, tag: Tag)
    requires Offloads(h, g, h') && GroupAliasFree(h, g) && tag in h.states && tag.group == g
    ensures h.states[tag].tensor.key in h'.copies[g] && h'.copies[g][h.states[tag].tensor.key] == h.states[tag].tensor.flat
  {
    var t := h.states[tag].tensor;
    assert Holds(h, g, t.key, h'.copies[g][t.key]);
    var rep :| rep in h.states && rep.group == g && h.states[rep].OnDevice? &&
      h.states[rep].tensor.key == t.key && h.states[rep].tensor.flat == h'.copies[g][t.key];
    assert SameStorage(h, g, rep, tag);
  }

  /** Offloading a group and reloading it gives every tensor of the group back exactly when those that share storage
      and type have the same content: otherwise one of them comes back with the content of the other. */
  lemma RestoredIffAliasFree(h: Handler, g: nat, h': Handler)
    requires Offloads(h, g, h') && g < h.offloadGroups
    requires forall tag :: tag in h.states && tag.group == g ==> WellFormed(h.states[tag].tensor)
    ensures GroupAliasFree(h, g) <==> CanReload(h', g) && Reloaded(h', g).states == h.states
  {
    if GroupAliasFree(h, g) {
      forall tag | tag in h.states && tag.group == g
        ensures h.states[tag].tensor.key in h'.copies[g] && h'.copies[g][h.states[tag].tensor.key] == h.states[tag].tensor.flat
      {
        CopyIsContent(h, g, h', tag);
      }
      assert Reloaded(h', g).states == h.states;
    }
    if CanReload(h', g) && Reloaded(h', g).states == h.states {
      forall tag | tag in h.states && tag.group == g
        ensures h.states[tag].tensor.flat == h'.copies[g][h.states[tag].tensor.key]
      {
        assert Reloaded(h', g).states[tag] == h.states[tag];
      }
    }
  }

  const MATRIX := Tensor(Key(0, "float32"), [2, 2], [1, 2, 3, 4])
  const TRANSPOSED := Tensor(Key(0, "float32"), [2, 2], [1, 3, 2, 4])

  /** Both have been pushed in the first layer of two. */
  function BothPushed(): Handler {
    Pushed(Pushed(Initial(1, 2), MATRIX), TRANSPOSED)
  }

  lemma BothSaved()
    ensures BothPushed().states == map[Tag(0, 0) := OnDevice(MATRIX), Tag(0, 1) := OnDevice(TRANSPOSED)]
    ensures Numel(MATRIX.shape) == 4
  {
    assert MATRIX.shape[1..] == [2] && MATRIX.shape[1..][1..] == [];
  }

  /** There is one host copy for both, with the content of one of them. */
  lemma OneIsCopied(h': Handler)
    requires Offloads(BothPushed(), 0, h')
    ensures var key := MATRIX.key;
            key in h'.copies[0] && (h'.copies[0][key] == MATRIX.flat || h'.copies[0][key] == TRANSPOSED.flat) &&
            h'.states == map[Tag(0, 0) := Offloaded(key, [2, 2]), Tag(0, 1) := Offloaded(key, [2, 2])] && h'.offloadGroups == 1
  {
    var h := BothPushed();
    BothSaved();
    assert Tag(0, 0) in h.states && MATRIX.key in h'.copies[0];
    assert Holds(h, 0, MATRIX.key, h'.copies[0][MATRIX.key]);
  }

  /** A matrix and its transpose have one storage and different content. Pushed into one group, offloaded and reloaded,
      one of them is popped with the content of the other, and nothing raises. */
  lemma TransposeComesBackWrong(h': Handler) returns (tag: Tag)
    requires Offloads(BothPushed(), 0, h')
    ensures CanReload(h', 0) && CanPop(Reloaded(h', 0), tag)
    ensures Reloaded(h', 0).states[tag].tensor.shape == [2, 2] && 0 <= tag.index < 2 && tag.group == 0
    ensures Reloaded(h', 0).states[tag].tensor.flat == if tag.index == 0 then [1, 3, 2, 4] else [1, 2, 3, 4]
  {
    BothSaved();
    OneIsCopied(h');
    tag := if h'.copies[0][MATRIX.key] == MATRIX.flat then Tag(0, 1) else Tag(0, 0);
  }

  // ---------------------------------------------------------------- residency

  /** The groups of which the handler holds a tensor on the device. */
  ghost predicate Resident(h: Handler, g: int) {
    exists tag :: (tag in h.states && tag.group == g && h.states[tag].OnDevice?) ||
                  (tag in h.buffers && tag.group == g && h.buffers[tag].Some?)
  }

  /** A group with host copies has no saved tensor on the device. */
  ghost predicate AllOffloaded(h: Handler) {
    forall tag :: tag in h.states && tag.group in h.copies ==> h.states[tag].Offloaded?
  }

  /** With fewer groups than layers: a group with host copies has no tensor left on the device, and the buffers
      that are not freed belong to groups whose window is open. */
  ghost predicate Sparse(s: Session) {
    AllOffloaded(s.h) &&
    (forall tag :: tag in s.h.buffers && s.h.buffers[tag].Some? ==> !s.backward && tag.group >= s.h.offloaded)
  }

  /** Every tag has been popped by the time the backward pass moves on to the next layer. */
  ghost predicate Tidy(s: Session) {
    s.backward ==> forall tag :: tag in s.log ==> tag.group <= s.h.current
  }

  /** With fewer groups than layers, no copies exist of the group being pushed. */
  lemma CurrentNotCopied(s: Session)
    requires Inv(s) && !s.backward && s.h.offloadGroups < s.h.layers
    ensures s.h.current !in s.h.copies && s.h.offloaded <= s.h.current
  {
    WindowOpen(s.h);
    if s.h.offloaded > 0 { WindowBounds(s.h.layers, s.h.offloadGroups, s.h.offloaded - 1); }
  }

  lemma PushSparse(s: Session, t: Tensor)
    requires Inv(s) && Sparse(s) && s.h.offloadGroups < s.h.layers && Permitted(s, Push(t)) && CanPush(s.h)
    ensures Sparse(Session(Pushed(s.h, t), s.log[Tag(s.h.current, s.h.count) := t], s.backward))
  {
    CurrentNotCopied(s);
    PushOffloaded(s.h, t);
  }

  lemma PushOffloaded(h: Handler, t: Tensor)
    requires AllOffloaded(h) && h.current >= 0 && h.current !in h.copies
    ensures AllOffloaded(Pushed(h, t))
  {
  }

  lemma ForwardSparse(s: Session, s': Session, h1: Handler, h2: Handler)
    requires Inv(s) && Sparse(s) && s.h.offloadGroups < s.h.layers && Permitted(s, CommitForward)
    requires Kickstarts(s.h, h1) && ClosesWindow(h1, h2)
    requires s' == Session(Advanced(h2), s.log, h2.current + 1 == h2.layers)
    ensures Sparse(s')
  {
    WindowOpen(s.h);
    CloseKeeps(s, h1, h2);
    KickstartSparse(s.h, h1);
    CloseSparse(h1, h2);
    AdvancedSparse(s, h2);
  }

  lemma AdvancedSparse(s: Session, h2: Handler)
    requires Static(s.h) && Counters(s.h, false) && s.h.offloaded < s.h.offloadGroups
    requires !s.backward && forall tag :: tag in s.h.buffers && s.h.buffers[tag].Some? ==> s.h.offloaded <= tag.group
    requires forall tag :: tag in s.h.buffers ==> tag.group < s.h.offloadGroups
    requires AllOffloaded(h2)
    requires var closes := W(s.h, s.h.offloaded) == s.h.current;
             h2.buffers == (if closes then Freed(s.h, s.h.offloaded).buffers else s.h.buffers) &&
             h2.offloaded == s.h.offloaded + (if closes then 1 else 0) && h2.current == s.h.current && h2.layers == s.h.layers
    ensures Sparse(Session(Advanced(h2), s.log, h2.current + 1 == h2.layers))
  {
    if s.h.current + 1 == s.h.layers { AllFreed(s.h); }
  }

  /** The last window closes with the last layer. */
  lemma AllFreed(h: Handler)
    requires Static(h) && Counters(h, false) && h.current + 1 == h.layers
    ensures h.offloaded == h.offloadGroups - 1 && W(h, h.offloaded) == h.current
  {
    WindowOpen(h);
    WindowBounds(h.layers, h.offloadGroups, h.offloaded);
    WindowBounds(h.layers, h.offloadGroups, h.offloadGroups - 1);
    WindowGrows(h.layers, h.offloadGroups, h.offloaded, h.offloadGroups - 1);
  }

  lemma OffloadSparse(h: Handler, g: int, h': Handler)
    requires AllOffloaded(h) && Offloads(h, g, h')
    ensures AllOffloaded(h')
  {
  }

  lemma KickstartSparse(h: Handler, h1: Handler)
    requires AllOffloaded(h) && Kickstarts(h, h1)
    ensures AllOffloaded(h1)
  {
    if h.current == 0 { OffloadSparse(h, 0, h1); }
  }

  lemma CloseSparse(h1: Handler, h2: Handler)
    requires AllOffloaded(h1) && ClosesWindow(h1, h2)
    ensures AllOffloaded(h2)
  {
    if WindowClosesForward(h1) && h1.offloaded < h1.offloadGroups - 1 {
      OffloadSparse(Freed(h1, h1.offloaded), h1.offloaded + 1, h2.(offloaded := h1.offloaded));
    }
  }

  lemma SparseStep(s: Session, a: Action, s': Session)
    requires Inv(s) && Sparse(s) && s.h.offloadGroups < s.h.layers
    requires Permitted(s, a) && Succeeds(s, a) && Effect(s, a, s')
    ensures Sparse(s')
  {
    match a
    case Push(t) => PushSparse(s, t);
    case CommitForward =>
      var h1, h2 :| Kickstarts(s.h, h1) && ClosesWindow(h1, h2) && s'.h == Advanced(h2);
      CloseKeeps(s, h1, h2);
      ForwardSparse(s, s', h1, h2);
    case CommitBackward => BackwardSparse(s);
    case Pop(tag) =>
    case NextIteration => BackToInitial(s);
  }

  lemma BackwardSparse(s: Session)
    requires Inv(s) && Sparse(s) && Permitted(s, CommitBackward) && CanCommitBackward(s.h)
    ensures Sparse(s.(h := CommittedBackward(s.h)))
  {
    if WindowClosesBackward(s.h) { ReloadSparse(s.h, s.h.offloaded - 1); }
  }

  lemma ReloadSparse(h: Handler, g: int)
    requires g in h.copies && AllOffloaded(h)
    ensures Reloaded(h, g).buffers == h.buffers && AllOffloaded(Reloaded(h, g))
  {
  }

  ghost predicate AllPopped(s: Session) {
    forall tag :: tag in s.log ==> tag.group < s.h.current
  }

  /** Every layer's tensors are popped before the backward pass moves on. */
  ghost predicate PopsInTime(ss: seq<Session>, actions: seq<Action>)
    requires |actions| < |ss|
  {
    forall k :: 0 <= k < |actions| && actions[k].CommitBackward? ==> AllPopped(ss[k])
  }

  lemma TidyStep(s: Session, a: Action, s': Session)
    requires Inv(s) && Tidy(s) && Permitted(s, a) && Succeeds(s, a) && Effect(s, a, s')
    requires a.CommitBackward? ==> AllPopped(s)
    ensures Tidy(s')
  {
    if a.CommitForward? {
      ActionKeeps(s, a, s');
      forall tag | tag in s'.log && s'.backward ensures tag.group <= s'.h.current { assert TagOk(s', tag); }
    }
  }

  lemma InvTag(s: Session, tag: Tag)
    requires Inv(s) && (tag in s.h.states || tag in s.h.buffers)
    ensures tag in s.log && TagOk(s, tag)
  {
  }

  /** At most the current group and the one before it are on the device. */
  lemma TwoGroups(s: Session, g: int)
    requires Inv(s) && Sparse(s) && Tidy(s) && s.h.layers >= 2 && s.h.offloadGroups == s.h.layers - 1
    requires Resident(s.h, g)
    ensures s.h.current - 1 <= g <= s.h.current
  {
    var tag :| (tag in s.h.states && tag.group == g && s.h.states[tag].OnDevice?) ||
               (tag in s.h.buffers && tag.group == g && s.h.buffers[tag].Some?);
    InvTag(s, tag);
    if tag in s.h.states && s.h.states[tag].OnDevice? {
      assert g !in s.h.copies;
      NoCopiesNear(s.h, s.backward, g);
    } else {
      OpenNear(s.h);
    }
  }

  /** Without copies, a group that is not behind the current one is the current one or the one before it. */
  lemma NoCopiesNear(h: Handler, backward: bool, g: int)
    requires Static(h) && Counters(h, backward) && h.layers >= 2 && h.offloadGroups == h.layers - 1
    requires 0 <= g < h.layers && g !in h.copies
    ensures g >= h.current - 1
  {
    if g < h.offloadGroups { WindowAllButOne(h.layers, g); }
    if !backward { OpenNear(h); }
  }

  lemma OpenNear(h: Handler)
    requires Static(h) && Counters(h, false) && h.layers >= 2 && h.offloadGroups == h.layers - 1
    ensures h.offloaded >= h.current - 1
  {
    WindowOpen(h);
    WindowAllButOne(h.layers, h.offloaded);
  }

  lemma RunStep(ss: seq<Session>, actions: seq<Action>, i: nat)
    requires Runs(ss, actions) && i < |actions|
    ensures Permitted(ss[i], actions[i]) && Succeeds(ss[i], actions[i]) && Effect(ss[i], actions[i], ss[i + 1])
  {
  }

  lemma {:induction false} ResidencyInv(layers: nat, ss: seq<Session>, actions: seq<Action>, i: nat)
    requires layers >= 2 && Runs(ss, actions) && ss[0] == Start(layers - 1, layers) && i <= |actions|
    requires PopsInTime(ss, actions)
    ensures Sparse(ss[i]) && Tidy(ss[i])
  {
    if i > 0 {
      RunInv(layers - 1, layers, ss, actions, i - 1);
      ResidencyInv(layers, ss, actions, i - 1);
      RunStep(ss, actions, i - 1);
      assert actions[i - 1].CommitBackward? ==> AllPopped(ss[i - 1]);
      SparseStep(ss[i - 1], actions[i - 1], ss[i]);
      TidyStep(ss[i - 1], actions[i - 1], ss[i]);
    }
  }

  /** Residency, as the handler is set up for a model of two or more layers: if every layer's tensors are popped before the
      backward pass moves on, then at every point of every iteration at most two groups are on the device. */
  lemma Residency(layers: nat, ss: seq<Session>, actions: seq<Action>, resident: set<int>)
    requires layers >= 2 && Runs(ss, actions) && ss[0] == Start(layers - 1, layers)
    requires PopsInTime(ss, actions)
    requires forall g :: g in resident ==> Resident(ss[|actions|].h, g)
    ensures |resident| <= 2
  {
    var s := ss[|actions|];
    RunInv(layers - 1, layers, ss, actions, |actions|);
    ResidencyInv(layers, ss, actions, |actions|);
    ResidentPair(s, resident);
  }

  lemma AllNear(s: Session, resident: set<int>)
    requires Inv(s) && Sparse(s) && Tidy(s) && s.h.layers >= 2 && s.h.offloadGroups == s.h.layers - 1
    requires forall g :: g in resident ==> Resident(s.h, g)
    ensures resident <= {s.h.current - 1, s.h.current}
  {
    forall g | g in resident ensures s.h.current - 1 <= g <= s.h.current { TwoGroups(s, g); }
  }

  lemma ResidentPair(s: Session, resident: set<int>)
    requires Inv(s) && Sparse(s) && Tidy(s) && s.h.layers >= 2 && s.h.offloadGroups == s.h.layers - 1
    requires forall g :: g in resident ==> Resident(s.h, g)
    ensures |resident| <= 2
  {
    AllNear(s, resident);
    PairCard(resident, s.h.current - 1, s.h.current);
  }

  lemma PairCard<T>(a: set<T>, x: T, y: T)
    requires a <= {x, y}
    ensures |a| <= 2
  {
    SubsetCard(a, {x, y});
  }

  lemma {:induction false} SubsetCard<T>(a: set<T>, b: set<T>)
    requires a <= b
    ensures |a| <= |b|
  {
    if a != {} {
      var x :| x in a;
      SubsetCard(a - {x}, b - {x});
    }
  }
}
