/** The asynchronous double-buffering offload handler (verl/utils/activation_offload.py). */
module ActivationOffload {
  import opened Arithmetic
  import opened Outcomes

  /** Where a tensor's storage starts, and its type: what identical storage is recognised by. */
  datatype Key = Key(address: int, dtype: string)

  /** A tensor with its content in row-major order. */
  datatype Tensor = Tensor(key: Key, shape: seq<nat>, flat: seq<int>)

  datatype Tag = Tag(group: nat, index: nat)

  /** A saved tensor: held on the device, or as a key into the group's copies on the host. */
  datatype Saved = OnDevice(tensor: Tensor) | Offloaded(key: Key, shape: seq<nat>)

  /** What tensor_push returns: a tag, or the tensor itself if it is not to be offloaded. */
  datatype Handle = Tagged(tag: Tag) | Direct(tensor: Tensor)

  ghost predicate WellFormed(t: Tensor) {
    |t.flat| == Numel(t.shape)
  }

  /** The fields of the handler. */
  datatype Handler = Handler(
    offloadGroups: nat, layers: nat,         // num_offload_group, num_layers
    window: map<int, int>,                   // layer_window_map
    current: int, count: nat,                // current_group, tensor_count_current_group
    states: map<Tag, Saved>,                 // tensor_tag_to_state
    buffers: map<Tag, Option<Tensor>>,       // tensor_tag_to_buf
    offloaded: nat,                          // offloaded_group_count
    copies: map<int, map<Key, seq<int>>>)    // group_offload_mapping: host copies by group and key

  // ---------------------------------------------------------------- the window

  /** The layer after which group i is off the device in the forward pass and comes back in the backward pass. */
  function Window(layers: nat, groups: nat, i: nat): int
    requires groups > 0
  {
    layers / groups * (i + 1) - 1 + if i < layers % groups then i + 1 else layers % groups
  }

  function Windows(layers: nat, groups: nat): map<int, int> {
    map i: int | 0 <= i < groups :: Window(layers, groups, i)
  }

  function Initial(groups: nat, layers: nat): Handler {
    Handler(groups, layers, Windows(layers, groups), 0, 0, map[], map[], 0, map[])
  }

  // ---------------------------------------------------------------- the operations as relations between handlers

  predicate CanPush(h: Handler) {
    h.current >= 0 && Tag(h.current, h.count) !in h.states
  }

  function Pushed(h: Handler, t: Tensor): Handler
    requires h.current >= 0
  {
    var tag := Tag(h.current, h.count);
    h.(count := h.count + 1, states := h.states[tag := OnDevice(t)],
       buffers := if h.current < h.offloadGroups then h.buffers[tag := Some(t)] else h.buffers)
  }

  predicate CanPop(h: Handler, tag: Tag) {
    tag in h.states && h.states[tag].OnDevice?
  }

  function Popped(h: Handler, tag: Tag): Handler {
    h.(states := h.states - {tag}, buffers := h.buffers - {tag})
  }

  ghost predicate CanOffload(h: Handler, g: int) {
    forall tag :: tag in h.states && tag.group == g ==> h.states[tag].OnDevice?
  }

  ghost predicate Holds(h: Handler, g: int, key: Key, flat: seq<int>) {
    exists tag :: tag in h.states && tag.group == g && h.states[tag].OnDevice? &&
                  h.states[tag].tensor.key == key && h.states[tag].tensor.flat == flat
  }

  /** The copies hold, under each key of the group, the content of one of the tensors with that key. */
  ghost predicate CopiesOf(h: Handler, g: int, copies: map<Key, seq<int>>) {
    (forall tag :: tag in h.states && tag.group == g && h.states[tag].OnDevice? ==> h.states[tag].tensor.key in copies) &&
    (forall key :: key in copies ==> Holds(h, g, key, copies[key]))
  }

  function Replaced(h: Handler, g: int): map<Tag, Saved> {
    map tag | tag in h.states ::
      if tag.group == g && h.states[tag].OnDevice? then Offloaded(h.states[tag].tensor.key, h.states[tag].tensor.shape)
      else h.states[tag]
  }

  /** bulk_offload_group. Which of several tensors with one key is copied depends on dictionary order. */
  ghost predicate Offloads(h: Handler, g: int, h': Handler) {
    CanOffload(h, g) && g in h'.copies && CopiesOf(h, g, h'.copies[g]) &&
    h' == h.(states := Replaced(h, g), copies := h.copies[g := h'.copies[g]])
  }

  predicate CanRecover(copies: map<Key, seq<int>>, s: Saved) {
    s.Offloaded? ==> s.key in copies && |copies[s.key]| == Numel(s.shape)
  }

  ghost predicate CanReload(h: Handler, g: int) {
    g < h.offloadGroups && g in h.copies &&
    forall tag :: tag in h.states && tag.group == g ==> CanRecover(h.copies[g], h.states[tag])
  }

  /** A host copy back on the device, viewed in the shape that was saved. (The address of the new storage is not
      visible to anybody who pops the tensor; the model keeps the old one.) */
  function Recovered(copies: map<Key, seq<int>>, s: Saved): Saved {
    if s.Offloaded? && s.key in copies then OnDevice(Tensor(s.key, s.shape, copies[s.key])) else s
  }

  function RecoveredGroup(states: map<Tag, Saved>, g: int, copies: map<Key, seq<int>>): map<Tag, Saved> {
    map tag | tag in states :: if tag.group == g then Recovered(copies, states[tag]) else states[tag]
  }

  /** bulk_reload_group. */
  function Reloaded(h: Handler, g: int): Handler
    requires g in h.copies
  {
    h.(states := RecoveredGroup(h.states, g, h.copies[g]), copies := h.copies - {g})
  }

  function Freed(h: Handler, g: int): Handler {
    h.(buffers := map tag | tag in h.buffers :: if tag.group == g then None else h.buffers[tag])
  }

  predicate WindowClosesForward(h: Handler) {
    h.offloaded in h.window && h.window[h.offloaded] == h.current
  }

  ghost predicate CanCommitForward(h: Handler) {
    (h.current == 0 ==> CanOffload(h, 0)) && h.offloaded in h.window &&
    (WindowClosesForward(h) && h.offloaded < h.offloadGroups - 1 ==> CanOffload(h, h.offloaded + 1))
  }

  /** The first group starts to be offloaded as soon as it is complete. */
  ghost predicate Kickstarts(h: Handler, h1: Handler) {
    if h.current == 0 then Offloads(h, 0, h1) else h1 == h
  }

  /** At the end of a window the buffers of a group are freed and the next group is offloaded. */
  ghost predicate ClosesWindow(h1: Handler, h2: Handler) {
    var freed := Freed(h1, h1.offloaded);
    if !WindowClosesForward(h1) then h2 == h1
    else if h1.offloaded < h1.offloadGroups - 1 then
      h2.offloaded == h1.offloaded + 1 && Offloads(freed, h1.offloaded + 1, h2.(offloaded := h1.offloaded))
    else h2 == freed.(offloaded := h1.offloaded + 1)
  }

  function Advanced(h: Handler): Handler {
    h.(current := h.current + 1, count := 0)
  }

  /** on_group_commit_forward. */
  ghost predicate CommitsForward(h: Handler, h': Handler) {
    CanCommitForward(h) && exists h1, h2 :: Kickstarts(h, h1) && ClosesWindow(h1, h2) && h' == Advanced(h2)
  }

  /** Offloading the first group does not stand in the way of offloading another one. */
  lemma KickstartOnlyFirst(h: Handler, h1: Handler)
    requires Kickstarts(h, h1)
    ensures CanOffload(h1, h.offloaded + 1) <==> CanOffload(h, h.offloaded + 1)
  {
  }

  predicate WindowClosesBackward(h: Handler) {
    h.offloaded - 1 in h.window && h.window[h.offloaded - 1] == h.current - 1
  }

  ghost predicate CanCommitBackward(h: Handler) {
    h.current > 0 && h.offloaded - 1 in h.window && (WindowClosesBackward(h) ==> CanReload(h, h.offloaded - 1))
  }

  /** on_group_commit_backward. */
  function CommittedBackward(h: Handler): Handler
    requires WindowClosesBackward(h) ==> h.offloaded - 1 in h.copies
  {
    var h1 := if WindowClosesBackward(h)
      then Reloaded(h, h.offloaded - 1).(offloaded := h.offloaded - if h.offloaded > 1 then 1 else 0)
      else h;
    h1.(current := h.current - 1, offloaded := if h.current - 1 == 0 then 0 else h1.offloaded)
  }

  // ---------------------------------------------------------------- the handler itself

  class OffloadHandler {
    const numOffloadGroup: nat
    const numLayers: nat
    var layerWindowMap: map<int, int>
    var currentGroup: int
    var tensorCountCurrentGroup: nat
    var tagToState: map<Tag, Saved>
    var tagToBuf: map<Tag, Option<Tensor>>
    var offloadedGroupCount: nat
    var groupOffloadMapping: map<int, map<Key, seq<int>>>

    function View(): Handler
      reads this
    {
      Handler(numOffloadGroup, numLayers, layerWindowMap, currentGroup, tensorCountCurrentGroup,
              tagToState, tagToBuf, offloadedGroupCount, groupOffloadMapping)
    }

    constructor (groups: nat, layers: nat)
      ensures View() == Initial(groups, layers)
    {
      numOffloadGroup, numLayers := groups, layers;
      currentGroup, tensorCountCurrentGroup, offloadedGroupCount := 0, 0, 0;
      tagToState, tagToBuf, groupOffloadMapping := map[], map[], map[];
      layerWindowMap := map[];
      new;
      var extra := 0;
      for i := 0 to groups
        invariant View() == Initial(groups, layers).(window := layerWindowMap)
        invariant forall j :: j in layerWindowMap <==> 0 <= j < i
        invariant forall j :: 0 <= j < i ==> layerWindowMap[j] == Window(layers, groups, j)
        invariant groups > 0 ==> extra == if i <= layers % groups then i else layers % groups
      {
        layerWindowMap := layerWindowMap[i := layers / groups * (i + 1) - 1];
        if i < layers % groups {
          layerWindowMap := layerWindowMap[i := layerWindowMap[i] + i + 1];
          extra := i + 1;
        } else {
          layerWindowMap := layerWindowMap[i := layerWindowMap[i] + extra];
        }
      }
      assert layerWindowMap == Windows(layers, groups);
    }

    method TensorPush(t: Tensor, needOffload: bool) returns (error: Option<Error>, handle: Handle)
      requires currentGroup >= 0
      modifies this
      ensures !needOffload ==> error.None? && handle == Direct(t) && View() == old(View())
      ensures needOffload ==> (error.None? <==> CanPush(old(View())))
      ensures needOffload && error.None? ==>
        handle == Tagged(Tag(old(currentGroup), old(tensorCountCurrentGroup))) && View() == Pushed(old(View()), t)
    {
      error, handle := None, Direct(t);
      if needOffload {
        var tag := Tag(currentGroup, tensorCountCurrentGroup);
        tensorCountCurrentGroup := tensorCountCurrentGroup + 1;
        if tag in tagToState { return Some(AssertionError), handle; }
        tagToState := tagToState[tag := OnDevice(t)];
        if currentGroup < numOffloadGroup { tagToBuf := tagToBuf[tag := Some(t)]; }
        handle := Tagged(tag);
      }
    }

    method TensorPop(handle: Handle) returns (error: Option<Error>, t: Tensor)
      modifies this
      ensures handle.Direct? ==> error.None? && t == handle.tensor && View() == old(View())
      ensures handle.Tagged? ==> (error.None? <==> CanPop(old(View()), handle.tag))
      ensures handle.Tagged? && error.None? ==>
        t == old(tagToState[handle.tag].tensor) && View() == Popped(old(View()), handle.tag)
    {
      match handle
      case Direct(d) => return None, d;
      case Tagged(tag) =>
        t := Tensor(Key(0, ""), [], []);
        if tag !in tagToState { return Some(AssertionError), t; }
        var saved := tagToState[tag];
        tagToState := tagToState - {tag};
        tagToBuf := tagToBuf - {tag};
        if saved.Offloaded? { return Some(AssertionError), t; }
        return None, saved.tensor;
    }

    method BulkOffloadGroup(g: int) returns (error: Option<Error>)
      modifies `tagToState, `groupOffloadMapping
      ensures error.None? <==> CanOffload(old(View()), g)
      ensures error.None? ==> Offloads(old(View()), g, View())
    {
      var offloadMapping;
      error, offloadMapping := OffloadTags(g);
      if error.None? { groupOffloadMapping := groupOffloadMapping[g := offloadMapping]; }
    }

    method OffloadTags(g: int) returns (error: Option<Error>, offloadMapping: map<Key, seq<int>>)
      modifies `tagToState
      ensures error.None? <==> CanOffload(old(View()), g)
      ensures error.None? ==> tagToState == Replaced(old(View()), g) && CopiesOf(old(View()), g, offloadMapping)
    {
      offloadMapping := map[];
      var todo := tagToState.Keys;
      ghost var h := View();
      while todo != {}
        invariant todo <= h.states.Keys == tagToState.Keys
        invariant forall tag :: tag in todo ==> tagToState[tag] == h.states[tag]
        invariant forall tag :: tag in h.states && tag !in todo ==>
          tagToState[tag] == Replaced(h, g)[tag] &&
          (tag.group == g ==> h.states[tag].OnDevice? && h.states[tag].tensor.key in offloadMapping)
        invariant forall key :: key in offloadMapping ==> Holds(h, g, key, offloadMapping[key])
        decreases |todo|
      {
        var tag :| tag in todo;
        todo := todo - {tag};
        if tag.group == g {
          match tagToState[tag]
          case Offloaded(_, _) => return Some(AssertionError), map[];
          case OnDevice(t) =>
            if t.key !in offloadMapping { offloadMapping := offloadMapping[t.key := t.flat]; }
            tagToState := tagToState[tag := Offloaded(t.key, t.shape)];
        }
      }
      error := None;
    }

    method BulkReloadGroup(g: int) returns (error: Option<Error>)
      modifies `tagToState, `groupOffloadMapping
      ensures error.None? <==> CanReload(old(View()), g)
      ensures error.None? ==> View() == Reloaded(old(View()), g)
    {
      if g >= numOffloadGroup { return Some(AssertionError); }
      if g !in groupOffloadMapping { return Some(KeyError); }
      var offloadMapping := groupOffloadMapping[g];
      groupOffloadMapping := groupOffloadMapping - {g};
      error := ReloadTags(g, offloadMapping);
    }

    method ReloadTags(g: int, offloadMapping: map<Key, seq<int>>) returns (error: Option<Error>)
      modifies `tagToState
      ensures error.None? <==> forall tag :: tag in old(tagToState) && tag.group == g ==> CanRecover(offloadMapping, old(tagToState[tag]))
      ensures error.None? ==> tagToState == RecoveredGroup(old(tagToState), g, offloadMapping)
    {
      var todo := tagToState.Keys;
      ghost var states := tagToState;
      while todo != {}
        invariant todo <= states.Keys == tagToState.Keys
        invariant forall tag :: tag in todo ==> tagToState[tag] == states[tag]
        invariant forall tag :: tag in states && tag !in todo ==>
          tagToState[tag] == (if tag.group == g then Recovered(offloadMapping, states[tag]) else states[tag]) &&
          (tag.group == g ==> CanRecover(offloadMapping, states[tag]))
        decreases |todo|
      {
        var tag :| tag in todo;
        todo := todo - {tag};
        if tag.group == g {
          match tagToState[tag]
          case OnDevice(_) =>
          case Offloaded(key, shape) =>
            if key !in offloadMapping { return Some(KeyError); }
            if |offloadMapping[key]| != Numel(shape) { return Some(ShapeMismatch); }
            tagToState := tagToState[tag := OnDevice(Tensor(key, shape, offloadMapping[key]))];
        }
      }
      error := None;
    }

    method CloseWindow() returns (error: Option<Error>)
      modifies `tagToState, `tagToBuf, `offloadedGroupCount, `groupOffloadMapping
      ensures error.None? <==> old(offloadedGroupCount in layerWindowMap &&
        (WindowClosesForward(View()) && offloadedGroupCount < numOffloadGroup - 1 ==> CanOffload(View(), offloadedGroupCount + 1)))
      ensures error.None? ==> ClosesWindow(old(View()), View())
    {
      error := None;
      if offloadedGroupCount !in layerWindowMap { return Some(KeyError); }
      if layerWindowMap[offloadedGroupCount] == currentGroup {
        ghost var h := View();
        tagToBuf := map tag | tag in tagToBuf :: if tag.group == offloadedGroupCount then None else tagToBuf[tag];
        assert View() == Freed(h, h.offloaded);
        if offloadedGroupCount < numOffloadGroup - 1 {
          error := BulkOffloadGroup(offloadedGroupCount + 1);
          if error.Some? { return; }
        }
        offloadedGroupCount := offloadedGroupCount + 1;
      }
    }

    method OnGroupCommitForward() returns (error: Option<Error>)
      modifies this
      ensures error.None? <==> CanCommitForward(old(View()))
      ensures error.None? ==> CommitsForward(old(View()), View())
    {
      error := None;
      ghost var h := View();
      if currentGroup == 0 {
        error := BulkOffloadGroup(0);
        if error.Some? { return; }
      }
      ghost var h1 := View();
      KickstartOnlyFirst(h, h1);
      error := CloseWindow();
      if error.Some? { return; }
      ghost var h2 := View();
      currentGroup := currentGroup + 1;
      tensorCountCurrentGroup := 0;
      assert Kickstarts(h, h1) && ClosesWindow(h1, h2) && View() == Advanced(h2);
    }

    method OnGroupCommitBackward() returns (error: Option<Error>)
      modifies this
      ensures error.None? <==> CanCommitBackward(old(View()))
      ensures error.None? ==> CanCommitBackward(old(View())) && View() == CommittedBackward(old(View()))
    {
      error := None;
      ghost var h := View();
      currentGroup := currentGroup - 1;
      if currentGroup < 0 { return Some(AssertionError); }
      if offloadedGroupCount - 1 !in layerWindowMap { return Some(KeyError); }
      if layerWindowMap[offloadedGroupCount - 1] == currentGroup {
        error := BulkReloadGroup(offloadedGroupCount - 1);
        if error.Some? { return; }
        offloadedGroupCount := offloadedGroupCount - if offloadedGroupCount > 1 then 1 else 0;
      }
      if currentGroup == 0 { offloadedGroupCount := 0; }
    }
  }
}
