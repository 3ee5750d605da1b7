/** Overlapped broadcast from rank 0 to any number of receivers (verl/checkpoint_engine/nccl_checkpoint_engine.py).

    A broadcast operation works in its own thread: between its launch and the moment its end is awaited, the sender's
    side reads its buffer and the receiver's side writes its buffer, byte by byte and in any order. The k-th operation
    of a receiver belongs to the k-th operation of the sender, as with any collective. The sender may be done with
    an operation before the receivers are. The metadata of a bucket are a message of their own: the sender's operation
    publishes them before its first byte, and every receiver takes the messages in the order in which they were
    published, each in the operation that happens to be running, before that operation's first byte. */
module Broadcast {
  import opened Outcomes
  import opened WeightChunks
  import opened BucketPacking
  import opened WeightRoundTrip
  import opened C = ReadChain
  import WeightSync

  /** The metadata of a bucket, as published. */
  datatype Header = Header(metas: seq<TensorMeta>, isLast: bool)

  datatype SendOp = SendOp(buf: nat, header: Header, published: bool)

  datatype Sender = Sender(
    bufs: seq<seq<Byte>>, send: nat,  // the two buffers, and which one is being filled
    op: Option<SendOp>,               // the broadcast in flight
    launched: nat, filled: set<nat>)  // broadcasts launched; bytes of the next bucket already in place

  datatype Phase = Waiting | Emitting(j: nat) | Stopped

  datatype Op = Op(buf: nat, header: Option<Header>, copied: set<nat>)

  datatype Receiver = Receiver(
    bufs: seq<seq<Byte>>, send: nat,  // the two buffers, and which one is yielded from
    op: Option<Op>,                   // the broadcast in flight: the message it took and the bytes it has written
    read: nat,                        // messages taken
    got: nat, header: Header,         // operations awaited, and the metadata that the last of them brought
    phase: Phase, out: seq<Chunk>)

  /** The messages published so far, and `wire[k]`: what the sender has put out of its k-th broadcast. */
  datatype Net = Net(sender: Sender, published: seq<Header>, wire: seq<map<nat, Byte>>, receivers: seq<Receiver>)

  datatype Act =
    | FillByte(c: nat)
    | LaunchNext
    | Publish
    | PushByte(c: nat)
    | AwaitSent
    | TakeHeader(r: nat)
    | PopByte(r: nat, c: nat)
    | AwaitReceived(r: nat)
    | YieldOne(r: nat)
    | EndYields(r: nat)

  predicate OfSender(a: Act) {
    a.FillByte? || a.LaunchNext? || a.Publish? || a.PushByte? || a.AwaitSent?
  }

  ghost predicate Begins(cfg: Config, n: Net) {
    |n.receivers| + 1 == cfg.n && n.published == [] && n.wire == [] &&
    |n.sender.bufs| == 2 && |n.sender.bufs[0]| == |n.sender.bufs[1]| == cfg.size &&
    n.sender == Sender(n.sender.bufs, 0, None, 0, {}) &&
    forall r :: 0 <= r < |n.receivers| ==>
      |n.receivers[r].bufs| == 2 && |n.receivers[r].bufs[0]| == |n.receivers[r].bufs[1]| == cfg.size &&
      n.receivers[r] == Receiver(n.receivers[r].bufs, 0, Some(Op(1, None, {})), 0, 0, n.receivers[r].header, Waiting, [])
  }

  ghost predicate Can(cfg: Config, n: Net, a: Act) {
    var x := n.sender;
    match a
    case FillByte(c) =>
      x.launched < |cfg.buckets| && c < Used(cfg, x.launched) && c !in x.filled && x.send < |x.bufs| && c < |x.bufs[x.send]|
    case LaunchNext => x.launched < |cfg.buckets| && Covers(x.filled, Used(cfg, x.launched)) && x.op.None? && x.send < 2
    case Publish => x.op.Some? && !x.op.value.published
    case PushByte(c) =>
      x.op.Some? && x.op.value.published && n.wire != [] && c < cfg.size && c !in n.wire[|n.wire| - 1] &&
      x.op.value.buf < |x.bufs| && c < |x.bufs[x.op.value.buf]|
    case AwaitSent => x.op.Some? && x.op.value.published && n.wire != [] && Covers(n.wire[|n.wire| - 1].Keys, cfg.size)
    case TakeHeader(r) =>
      r < |n.receivers| &&
      var y := n.receivers[r];
      y.op.Some? && y.op.value.header.None? && y.read < |n.published|
    case PopByte(r, c) =>
      r < |n.receivers| &&
      var y := n.receivers[r];
      y.op.Some? && y.op.value.header.Some? && y.got < |n.wire| && c in n.wire[y.got] && c !in y.op.value.copied &&
      y.op.value.buf < |y.bufs| && c < |y.bufs[y.op.value.buf]|
    case AwaitReceived(r) =>
      r < |n.receivers| &&
      var y := n.receivers[r];
      y.phase.Waiting? && y.op.Some? && y.op.value.header.Some? && Covers(y.op.value.copied, cfg.size) && y.send < 2
    case YieldOne(r) =>
      r < |n.receivers| &&
      var y := n.receivers[r];
      y.phase.Emitting? && y.phase.j < |y.header.metas| && y.send < |y.bufs|
    case EndYields(r) =>
      r < |n.receivers| &&
      var y := n.receivers[r];
      y.phase.Emitting? && y.phase.j == |y.header.metas|
  }

  /** The end of a broadcast: swap the buffers, and launch the next one unless this was the last. */
  function Taken(y: Receiver): Receiver
    requires y.op.Some? && y.op.value.header.Some? && y.send < 2
  {
    var header := y.op.value.header.value;
    y.(send := 1 - y.send, got := y.got + 1, header := header, phase := Emitting(0),
       op := if header.isLast then None else Some(Op(y.send, None, {})))
  }

  function Emitted(y: Receiver): Receiver
    requires y.phase.Emitting? && y.phase.j < |y.header.metas| && y.send < |y.bufs|
  {
    y.(out := y.out + [View(y.bufs[y.send], y.header.metas[y.phase.j])], phase := Emitting(y.phase.j + 1))
  }

  function Ended(y: Receiver): Receiver {
    y.(phase := if y.header.isLast then Stopped else Waiting)
  }

  function Informed(y: Receiver, header: Header): Receiver
    requires y.op.Some?
  {
    y.(op := Some(y.op.value.(header := Some(header))), read := y.read + 1)
  }

  function Popped(y: Receiver, c: nat, byte: Byte): Receiver
    requires y.op.Some? && y.op.value.buf < |y.bufs| && c < |y.bufs[y.op.value.buf]|
  {
    var b := y.op.value.buf;
    y.(bufs := y.bufs[b := y.bufs[b][c := byte]], op := Some(y.op.value.(copied := y.op.value.copied + {c})))
  }

  function Pushed(bytes: map<nat, Byte>, c: nat, byte: Byte): map<nat, Byte> {
    bytes[c := byte]
  }

  function HeaderOf(cfg: Config, k: nat): Header
    requires k < |cfg.buckets|
  {
    Header(cfg.buckets[k].metas, cfg.buckets[k].isLast)
  }

  function Do(cfg: Config, n: Net, a: Act): Net
    requires Can(cfg, n, a)
  {
    var x := n.sender;
    match a
    case FillByte(c) =>
      n.(sender := x.(bufs := x.bufs[x.send := x.bufs[x.send][c := cfg.buckets[x.launched].content[c]]], filled := x.filled + {c}))
    case LaunchNext =>
      n.(sender := x.(op := Some(SendOp(x.send, HeaderOf(cfg, x.launched), false)),
                      send := 1 - x.send, launched := x.launched + 1, filled := {}),
         wire := n.wire + [map[]])
    case Publish =>
      n.(sender := x.(op := Some(x.op.value.(published := true))), published := n.published + [x.op.value.header])
    case PushByte(c) =>
      var k := |n.wire| - 1;
      n.(wire := n.wire[k := Pushed(n.wire[k], c, x.bufs[x.op.value.buf][c])])
    case AwaitSent => n.(sender := x.(op := None))
    case TakeHeader(r) => n.(receivers := n.receivers[r := Informed(n.receivers[r], n.published[n.receivers[r].read])])
    case PopByte(r, c) => n.(receivers := n.receivers[r := Popped(n.receivers[r], c, n.wire[n.receivers[r].got][c])])
    case AwaitReceived(r) => n.(receivers := n.receivers[r := Taken(n.receivers[r])])
    case YieldOne(r) => n.(receivers := n.receivers[r := Emitted(n.receivers[r])])
    case EndYields(r) => n.(receivers := n.receivers[r := Ended(n.receivers[r])])
  }

  // ---------------------------------------------------------------- the invariant

  ghost predicate TwoBuffers(cfg: Config, bufs: seq<seq<Byte>>, send: nat) {
    |bufs| == 2 && |bufs[0]| == |bufs[1]| == cfg.size && send < 2
  }

  ghost predicate SenderOk(cfg: Config, x: Sender) {
    TwoBuffers(cfg, x.bufs, x.send) && x.launched <= |cfg.buckets| &&
    (x.op.Some? ==> x.op.value.buf == 1 - x.send && x.launched > 0 && Full(cfg, x.bufs[x.op.value.buf], x.launched - 1) &&
                    x.op.value.header == HeaderOf(cfg, x.launched - 1)) &&
    if x.launched < |cfg.buckets|
    then Within(x.filled, Used(cfg, x.launched)) && Contains(cfg, x.bufs[x.send], x.launched, x.filled)
    else x.filled == {}
  }

  /** The k-th broadcast carries the k-th bucket, as far as it has come. */
  ghost predicate Carries(cfg: Config, k: nat, bytes: map<nat, Byte>) {
    k < |cfg.buckets| && Within(bytes.Keys, cfg.size) &&
    forall c: nat :: c in bytes && c < Used(cfg, k) ==> bytes[c] == cfg.buckets[k].content[c]
  }

  /** The k-th message tells of the k-th bucket, and only the broadcast in flight may not have been published yet. */
  ghost predicate PublishedOk(cfg: Config, n: Net) {
    n.sender.launched <= |cfg.buckets| &&
    |n.published| + (if n.sender.op.Some? && !n.sender.op.value.published then 1 else 0) == n.sender.launched &&
    forall k :: 0 <= k < |n.published| ==> n.published[k] == HeaderOf(cfg, k)
  }

  ghost predicate WireOk(cfg: Config, n: Net) {
    |n.wire| == n.sender.launched <= |cfg.buckets| &&
    forall k :: 0 <= k < |n.wire| ==>
      Carries(cfg, k, n.wire[k]) && ((k == |n.wire| - 1 && n.sender.op.Some?) || Covers(n.wire[k].Keys, cfg.size))
  }

  ghost predicate ReceiverOk(cfg: Config, y: Receiver)
    requires Fits(cfg)
  {
    TwoBuffers(cfg, y.bufs, y.send) && y.got <= |cfg.buckets| && (y.op.Some? <==> y.got < |cfg.buckets|) &&
    (y.op.Some? ==> y.op.value.buf == 1 - y.send && Within(y.op.value.copied, cfg.size) &&
                    Contains(cfg, y.bufs[y.op.value.buf], y.got, y.op.value.copied) &&
                    (y.op.value.header.Some? ==> y.op.value.header.value == HeaderOf(cfg, y.got))) &&
    y.read == y.got + (if y.op.Some? && y.op.value.header.Some? then 1 else 0) &&
    (y.got > 0 ==> y.header == HeaderOf(cfg, y.got - 1)) &&
    match y.phase
    case Waiting => y.got < |cfg.buckets| && y.out == Yields(cfg, y.got)
    case Emitting(j) =>
      y.got > 0 && j <= |y.header.metas| && Full(cfg, y.bufs[y.send], y.got - 1) &&
      y.out == Yields(cfg, y.got - 1) + Part(cfg, y.got - 1, j)
    case Stopped => y.got == |cfg.buckets| && y.out == Yields(cfg, y.got)
  }

  ghost predicate NetInv(cfg: Config, n: Net) {
    Fits(cfg) && |n.receivers| + 1 == cfg.n && SenderOk(cfg, n.sender) && PublishedOk(cfg, n) && WireOk(cfg, n) &&
    forall r :: 0 <= r < |n.receivers| ==> ReceiverOk(cfg, n.receivers[r])
  }

  lemma BeginsInv(cfg: Config, n: Net)
    requires Fits(cfg) && Begins(cfg, n)
    ensures NetInv(cfg, n)
  {
  }

  lemma SenderKeeps(cfg: Config, n: Net, a: Act)
    requires NetInv(cfg, n) && Can(cfg, n, a) && OfSender(a)
    ensures NetInv(cfg, Do(cfg, n, a))
  {
    var n' := Do(cfg, n, a);
    if a.LaunchNext? { ContainsAll(cfg, n.sender.bufs[n.sender.send], n.sender.launched, n.sender.filled); }
  }

  lemma PoppedOk(cfg: Config, y: Receiver, c: nat, byte: Byte)
    requires Fits(cfg) && ReceiverOk(cfg, y) && y.op.Some? && c < cfg.size
    requires c < Used(cfg, y.got) ==> byte == cfg.buckets[y.got].content[c]
    ensures ReceiverOk(cfg, Popped(y, c, byte))
  {
  }

  lemma InformedOk(cfg: Config, y: Receiver)
    requires Fits(cfg) && ReceiverOk(cfg, y) && y.op.Some? && y.op.value.header.None?
    ensures ReceiverOk(cfg, Informed(y, HeaderOf(cfg, y.got)))
  {
  }

  lemma TakenOk(cfg: Config, y: Receiver)
    requires Fits(cfg) && ReceiverOk(cfg, y) && y.phase.Waiting? && y.op.value.header.Some? && Covers(y.op.value.copied, cfg.size)
    ensures ReceiverOk(cfg, Taken(y))
  {
    assert InBounds(cfg.buckets[y.got], cfg.size);
    ContainsAll(cfg, y.bufs[1 - y.send], y.got, y.op.value.copied);
  }

  lemma EmittedOk(cfg: Config, y: Receiver)
    requires Fits(cfg) && ReceiverOk(cfg, y) && y.phase.Emitting? && y.phase.j < |y.header.metas|
    ensures ReceiverOk(cfg, Emitted(y))
  {
    var b := cfg.buckets[y.got - 1];
    assert InBounds(b, cfg.size);
    SameView(y.bufs[y.send], b.content, b.metas[y.phase.j]);
    assert Part(cfg, y.got - 1, y.phase.j + 1) == Part(cfg, y.got - 1, y.phase.j) + [Slice(b.content, b.metas[y.phase.j])];
  }

  lemma EndYieldsOk(cfg: Config, y: Receiver)
    requires Fits(cfg) && ReceiverOk(cfg, y) && y.phase.Emitting? && y.phase.j == |y.header.metas|
    ensures ReceiverOk(cfg, Ended(y))
  {
    assert InBounds(cfg.buckets[y.got - 1], cfg.size);
  }

  lemma ReceiverStep(cfg: Config, n: Net, a: Act)
    requires NetInv(cfg, n) && Can(cfg, n, a) && !OfSender(a)
    ensures ReceiverOk(cfg, Do(cfg, n, a).receivers[a.r])
  {
    var y := n.receivers[a.r];
    assert ReceiverOk(cfg, y);
    if a.TakeHeader? {
      InformedOk(cfg, y);
    } else if a.PopByte? {
      assert Carries(cfg, y.got, n.wire[y.got]);
      PoppedOk(cfg, y, a.c, n.wire[y.got][a.c]);
    } else if a.AwaitReceived? {
      TakenOk(cfg, y);
    } else if a.YieldOne? {
      EmittedOk(cfg, y);
    } else {
      EndYieldsOk(cfg, y);
    }
  }

  lemma SenderActFrame(cfg: Config, n: Net, a: Act)
    requires Can(cfg, n, a) && OfSender(a)
    ensures Do(cfg, n, a).receivers == n.receivers
  {
  }

  lemma ReceiverActFrame(cfg: Config, n: Net, a: Act)
    requires Can(cfg, n, a) && !OfSender(a)
    ensures var n' := Do(cfg, n, a);
            n'.sender == n.sender && n'.published == n.published && n'.wire == n.wire && |n'.receivers| == |n.receivers| > a.r &&
            n'.receivers == n.receivers[a.r := n'.receivers[a.r]]
  {
  }

  lemma ReceiverKeeps(cfg: Config, n: Net, a: Act)
    requires NetInv(cfg, n) && Can(cfg, n, a) && !OfSender(a)
    ensures NetInv(cfg, Do(cfg, n, a))
  {
    ReceiverStep(cfg, n, a);
    ReceiverActFrame(cfg, n, a);
    OneReceiver(cfg, n, Do(cfg, n, a), a.r);
  }

  lemma OneReceiver(cfg: Config, n: Net, n': Net, r: nat)
    requires NetInv(cfg, n) && r < |n.receivers| && |n'.receivers| == |n.receivers| && ReceiverOk(cfg, n'.receivers[r])
    requires n'.sender == n.sender && n'.published == n.published && n'.wire == n.wire
    requires n'.receivers == n.receivers[r := n'.receivers[r]]
    ensures NetInv(cfg, n')
  {
  }

  lemma ActKeeps(cfg: Config, n: Net, a: Act)
    requires NetInv(cfg, n) && Can(cfg, n, a)
    ensures NetInv(cfg, Do(cfg, n, a))
  {
    if OfSender(a) { SenderKeeps(cfg, n, a); } else { ReceiverKeeps(cfg, n, a); }
  }

  // ---------------------------------------------------------------- safety

  /** The chunk yielded next is that of the bucket received last, as it was launched. */
  ghost predicate YieldsContent(cfg: Config, y: Receiver)
    requires y.phase.Emitting? && y.phase.j < |y.header.metas| && y.send < |y.bufs|
  {
    0 < y.got <= |cfg.buckets| &&
    var b := cfg.buckets[y.got - 1];
    y.phase.j < |b.metas| && View(y.bufs[y.send], y.header.metas[y.phase.j]) == View(b.content, b.metas[y.phase.j])
  }

  /** The sender does not fill the buffer of a broadcast in flight, nor launch a second one; a receiver's operation takes
      the metadata of the bucket that it receives; a receiver does not yield from the buffer that is being received, and
      what it yields is the content that the bucket was launched with. */
  ghost predicate Safe(cfg: Config, n: Net, a: Act)
    requires Can(cfg, n, a)
  {
    match a
    case FillByte(c) => n.sender.op.Some? ==> n.sender.op.value.buf != n.sender.send
    case LaunchNext => n.sender.op.None?
    case TakeHeader(r) =>
      var y := n.receivers[r];
      y.got < |cfg.buckets| && n.published[y.read] == HeaderOf(cfg, y.got)
    case PopByte(r, c) => var y := n.receivers[r]; y.phase.Emitting? ==> y.op.value.buf != y.send
    case YieldOne(r) =>
      var y := n.receivers[r];
      (y.op.Some? ==> y.op.value.buf != y.send) && YieldsContent(cfg, y)
    case _ => true
  }

  lemma YieldSafe(cfg: Config, y: Receiver)
    requires Fits(cfg) && ReceiverOk(cfg, y) && y.phase.Emitting? && y.phase.j < |y.header.metas|
    ensures YieldsContent(cfg, y)
  {
    var b := cfg.buckets[y.got - 1];
    assert InBounds(b, cfg.size);
    SameView(y.bufs[y.send], b.content, b.metas[y.phase.j]);
  }

  lemma ReceiverAt(cfg: Config, n: Net, r: nat)
    requires NetInv(cfg, n) && r < |n.receivers|
    ensures ReceiverOk(cfg, n.receivers[r])
    ensures n.receivers[r].op.Some? && n.receivers[r].op.value.header.None? && n.receivers[r].read < |n.published| ==>
      n.receivers[r].got < |cfg.buckets| && n.published[n.receivers[r].read] == HeaderOf(cfg, n.receivers[r].got)
  {
  }

  lemma ActSafe(cfg: Config, n: Net, a: Act)
    requires NetInv(cfg, n) && Can(cfg, n, a)
    ensures Safe(cfg, n, a)
  {
    if !OfSender(a) { ReceiverAt(cfg, n, a.r); }
    if a.YieldOne? { YieldSafe(cfg, n.receivers[a.r]); }
  }

  lemma OutPrefix(cfg: Config, y: Receiver)
    requires Fits(cfg) && ReceiverOk(cfg, y)
    ensures y.out <= Yields(cfg, |cfg.buckets|) && (y.phase.Stopped? ==> y.out == Yields(cfg, |cfg.buckets|))
  {
    YieldsGrow(cfg, y.got, |cfg.buckets|);
    if y.got > 0 { YieldsGrow(cfg, y.got - 1, |cfg.buckets|); }
  }

  // ---------------------------------------------------------------- progress

  ghost predicate Finished(cfg: Config, n: Net) {
    n.sender.launched == |cfg.buckets| && n.sender.op.None? &&
    forall r :: 0 <= r < |n.receivers| ==> n.receivers[r].phase.Stopped?
  }

  lemma SenderCan(cfg: Config, n: Net) returns (a: Act)
    requires NetInv(cfg, n) && (n.sender.launched < |cfg.buckets| || n.sender.op.Some?)
    ensures Can(cfg, n, a)
  {
    var x := n.sender;
    if x.op.Some? && !x.op.value.published {
      a := Publish;
    } else if x.op.Some? {
      var bytes := n.wire[|n.wire| - 1];
      if Covers(bytes.Keys, cfg.size) {
        a := AwaitSent;
      } else {
        var c: nat :| c < cfg.size && c !in bytes.Keys;
        a := PushByte(c);
      }
    } else if Covers(x.filled, Used(cfg, x.launched)) {
      a := LaunchNext;
    } else {
      assert InBounds(cfg.buckets[x.launched], cfg.size);
      var c: nat :| c < Used(cfg, x.launched) && c !in x.filled;
      a := FillByte(c);
    }
  }

  lemma ReceiverCan(cfg: Config, n: Net, r: nat) returns (a: Act)
    requires NetInv(cfg, n) && n.sender.launched == |cfg.buckets| && n.sender.op.None?
    requires r < |n.receivers| && !n.receivers[r].phase.Stopped?
    ensures Can(cfg, n, a)
  {
    var y := n.receivers[r];
    assert ReceiverOk(cfg, y);
    if y.phase.Emitting? {
      a := if y.phase.j < |y.header.metas| then YieldOne(r) else EndYields(r);
    } else if y.op.value.header.None? {
      a := TakeHeader(r);
    } else if Covers(y.op.value.copied, cfg.size) {
      a := AwaitReceived(r);
    } else {
      var c: nat :| c < cfg.size && c !in y.op.value.copied;
      assert Covers(n.wire[y.got].Keys, cfg.size);
      a := PopByte(r, c);
    }
  }

  /** The steps that each side still has to take. */
  ghost function SenderWork(cfg: Config, n: Net): int {
    Repeated(|cfg.buckets| - n.sender.launched, 2 * cfg.size + 3) - |n.sender.filled| +
    if n.sender.op.Some? then cfg.size - |LastSent(n.wire)| + (if n.sender.op.value.published then 1 else 2) else 0
  }

  /** The bytes that the sender has put out of its last broadcast. */
  function LastSent(wire: seq<map<nat, Byte>>): set<nat> {
    if wire == [] then {} else wire[|wire| - 1].Keys
  }

  /** The steps that an operation of a receiver has taken. */
  function OpWork(op: Op): nat {
    |op.copied| + if op.header.Some? then 1 else 0
  }

  ghost function ReceiverWork(cfg: Config, y: Receiver): int
    requires Fits(cfg)
  {
    Repeated(|cfg.buckets| - y.got, cfg.size + 4) - (if y.op.Some? then OpWork(y.op.value) else 0) +
    |Yields(cfg, |cfg.buckets|)| - |y.out| + if y.phase.Emitting? then 1 else 0
  }

  ghost function WorkOf(cfg: Config, ys: seq<Receiver>): int
    requires Fits(cfg)
  {
    if ys == [] then 0 else ReceiverWork(cfg, ys[0]) + WorkOf(cfg, ys[1..])
  }

  lemma SenderWorkNatural(cfg: Config, n: Net)
    requires NetInv(cfg, n)
    ensures SenderWork(cfg, n) >= 0
  {
    var x := n.sender;
    if x.launched < |cfg.buckets| {
      WithinCard(x.filled, Used(cfg, x.launched));
      assert InBounds(cfg.buckets[x.launched], cfg.size);
    }
    if x.op.Some? { WithinCard(LastSent(n.wire), cfg.size); }
  }

  lemma ReceiverWorkNatural(cfg: Config, y: Receiver)
    requires Fits(cfg) && ReceiverOk(cfg, y)
    ensures ReceiverWork(cfg, y) >= 0
  {
    OutPrefix(cfg, y);
    if y.op.Some? { WithinCard(y.op.value.copied, cfg.size); }
  }

  lemma {:induction false} WorkOfNatural(cfg: Config, ys: seq<Receiver>)
    requires Fits(cfg) && forall r :: 0 <= r < |ys| ==> ReceiverOk(cfg, ys[r])
    ensures WorkOf(cfg, ys) >= 0
  {
    if ys != [] {
      ReceiverWorkNatural(cfg, ys[0]);
      WorkOfNatural(cfg, ys[1..]);
    }
  }

  lemma {:induction false} WorkOfUpdate(cfg: Config, ys: seq<Receiver>, r: nat, y: Receiver)
    requires Fits(cfg) && r < |ys|
    ensures WorkOf(cfg, ys[r := y]) == WorkOf(cfg, ys) - ReceiverWork(cfg, ys[r]) + ReceiverWork(cfg, y)
  {
    if r > 0 {
      WorkOfUpdate(cfg, ys[1..], r - 1, y);
      assert ys[r := y][1..] == ys[1..][r - 1 := y];
    } else {
      assert ys[r := y][1..] == ys[1..];
    }
  }

  lemma FillWorks(cfg: Config, n: Net, c: nat)
    requires NetInv(cfg, n) && Can(cfg, n, FillByte(c))
    ensures SenderWork(cfg, Do(cfg, n, FillByte(c))) < SenderWork(cfg, n)
  {
    assert |n.sender.filled + {c}| == |n.sender.filled| + 1;
  }

  lemma LaunchWorks(cfg: Config, n: Net)
    requires NetInv(cfg, n) && Can(cfg, n, LaunchNext)
    ensures SenderWork(cfg, Do(cfg, n, LaunchNext)) < SenderWork(cfg, n)
  {
    var x, n' := n.sender, Do(cfg, n, LaunchNext);
    WithinCard(x.filled, Used(cfg, x.launched));
    assert InBounds(cfg.buckets[x.launched], cfg.size);
    assert LastSent(n'.wire) == {};
  }

  lemma PublishWorks(cfg: Config, n: Net)
    requires NetInv(cfg, n) && Can(cfg, n, Publish)
    ensures SenderWork(cfg, Do(cfg, n, Publish)) < SenderWork(cfg, n)
  {
    assert Do(cfg, n, Publish).wire == n.wire;
  }

  lemma PushWorks(cfg: Config, n: Net, c: nat)
    requires NetInv(cfg, n) && Can(cfg, n, PushByte(c))
    ensures SenderWork(cfg, Do(cfg, n, PushByte(c))) < SenderWork(cfg, n)
  {
    LastPushed(n.wire, c, n.sender.bufs[n.sender.op.value.buf][c]);
  }

  lemma LastPushed(wire: seq<map<nat, Byte>>, c: nat, byte: Byte)
    requires wire != [] && c !in LastSent(wire)
    ensures var k := |wire| - 1; |LastSent(wire[k := Pushed(wire[k], c, byte)])| == |LastSent(wire)| + 1
  {
    var bytes := wire[|wire| - 1];
    assert Pushed(bytes, c, byte).Keys == bytes.Keys + {c};
  }

  lemma AwaitSentWorks(cfg: Config, n: Net)
    requires NetInv(cfg, n) && Can(cfg, n, AwaitSent)
    ensures SenderWork(cfg, Do(cfg, n, AwaitSent)) < SenderWork(cfg, n)
  {
    WithinCard(LastSent(n.wire), cfg.size);
  }

  lemma SenderActWorks(cfg: Config, n: Net, a: Act)
    requires NetInv(cfg, n) && Can(cfg, n, a) && OfSender(a)
    ensures SenderWork(cfg, Do(cfg, n, a)) < SenderWork(cfg, n)
  {
    if a.FillByte? { FillWorks(cfg, n, a.c); }
    else if a.LaunchNext? { LaunchWorks(cfg, n); }
    else if a.Publish? { PublishWorks(cfg, n); }
    else if a.PushByte? { PushWorks(cfg, n, a.c); }
    else { AwaitSentWorks(cfg, n); }
  }

  lemma PopWorks(cfg: Config, y: Receiver, c: nat, byte: Byte)
    requires Fits(cfg) && ReceiverOk(cfg, y) && y.op.Some? && c < cfg.size && c !in y.op.value.copied
    ensures ReceiverWork(cfg, Popped(y, c, byte)) < ReceiverWork(cfg, y)
  {
    assert |y.op.value.copied + {c}| == |y.op.value.copied| + 1;
  }

  lemma InformWorks(cfg: Config, y: Receiver, header: Header)
    requires Fits(cfg) && y.op.Some? && y.op.value.header.None?
    ensures ReceiverWork(cfg, Informed(y, header)) < ReceiverWork(cfg, y)
  {
  }

  lemma TakeWorks(cfg: Config, y: Receiver)
    requires Fits(cfg) && ReceiverOk(cfg, y) && y.phase.Waiting? && y.op.value.header.Some?
    ensures ReceiverWork(cfg, Taken(y)) < ReceiverWork(cfg, y)
  {
    WithinCard(y.op.value.copied, cfg.size);
  }

  lemma YieldWorks(cfg: Config, y: Receiver)
    requires Fits(cfg) && ReceiverOk(cfg, y) && y.phase.Emitting?
    ensures y.phase.j < |y.header.metas| ==> ReceiverWork(cfg, Emitted(y)) < ReceiverWork(cfg, y)
    ensures ReceiverWork(cfg, Ended(y)) < ReceiverWork(cfg, y)
  {
  }

  lemma ReceiverActWorks(cfg: Config, n: Net, a: Act)
    requires NetInv(cfg, n) && Can(cfg, n, a) && !OfSender(a)
    ensures ReceiverWork(cfg, Do(cfg, n, a).receivers[a.r]) < ReceiverWork(cfg, n.receivers[a.r])
  {
    var y := n.receivers[a.r];
    assert ReceiverOk(cfg, y);
    if a.TakeHeader? {
      InformWorks(cfg, y, n.published[y.read]);
    } else if a.PopByte? {
      assert Carries(cfg, y.got, n.wire[y.got]);
      PopWorks(cfg, y, a.c, n.wire[y.got][a.c]);
    } else if a.AwaitReceived? {
      TakeWorks(cfg, y);
    } else {
      YieldWorks(cfg, y);
    }
  }

  ghost function TotalWork(cfg: Config, n: Net): int
    requires Fits(cfg)
  {
    SenderWork(cfg, n) + WorkOf(cfg, n.receivers)
  }

  lemma TotalNatural(cfg: Config, n: Net)
    requires NetInv(cfg, n)
    ensures TotalWork(cfg, n) >= 0
  {
    SenderWorkNatural(cfg, n);
    WorkOfNatural(cfg, n.receivers);
  }

  lemma ReceiverTotal(cfg: Config, n: Net, n': Net, r: nat)
    requires Fits(cfg) && r < |n.receivers| && |n'.receivers| == |n.receivers|
    requires n'.sender == n.sender && n'.wire == n.wire && n'.receivers == n.receivers[r := n'.receivers[r]]
    requires ReceiverWork(cfg, n'.receivers[r]) < ReceiverWork(cfg, n.receivers[r])
    ensures TotalWork(cfg, n') < TotalWork(cfg, n)
  {
    WorkOfUpdate(cfg, n.receivers, r, n'.receivers[r]);
  }

  lemma ActWorks(cfg: Config, n: Net, a: Act)
    requires NetInv(cfg, n) && Can(cfg, n, a)
    ensures TotalWork(cfg, Do(cfg, n, a)) < TotalWork(cfg, n)
  {
    if OfSender(a) {
      SenderActWorks(cfg, n, a);
      SenderActFrame(cfg, n, a);
    } else {
      ReceiverActWorks(cfg, n, a);
      ReceiverActFrame(cfg, n, a);
      ReceiverTotal(cfg, n, Do(cfg, n, a), a.r);
    }
  }

  // ---------------------------------------------------------------- whole runs

  ghost predicate Acts(cfg: Config, n: Net, acts: seq<Act>, m: Net)
    decreases |acts|
  {
    if acts == [] then n == m
    else Can(cfg, n, acts[0]) && Acts(cfg, Do(cfg, n, acts[0]), acts[1..], m)
  }

  lemma {:induction false} ActsKeep(cfg: Config, n: Net, acts: seq<Act>, m: Net)
    requires NetInv(cfg, n) && Acts(cfg, n, acts, m)
    ensures NetInv(cfg, m)
    ensures |acts| + TotalWork(cfg, m) <= TotalWork(cfg, n)
    decreases |acts|
  {
    if acts != [] {
      ActKeeps(cfg, n, acts[0]);
      ActWorks(cfg, n, acts[0]);
      ActsKeep(cfg, Do(cfg, n, acts[0]), acts[1..], m);
    }
  }

  /** Safety of every run, for any number of receivers and however the operations interleave with the two loops. */
  lemma BroadcastSafety(cfg: Config, n: Net, acts: seq<Act>, m: Net, a: Act)
    requires Fits(cfg) && Begins(cfg, n) && Acts(cfg, n, acts, m)
    ensures forall r :: 0 <= r < |m.receivers| ==> m.receivers[r].out <= Yields(cfg, |cfg.buckets|)
    ensures Can(cfg, m, a) ==> Safe(cfg, m, a)
  {
    BeginsInv(cfg, n);
    ActsKeep(cfg, n, acts, m);
    forall r | 0 <= r < |m.receivers| ensures m.receivers[r].out <= Yields(cfg, |cfg.buckets|) {
      OutPrefix(cfg, m.receivers[r]);
    }
    if Can(cfg, m, a) { ActSafe(cfg, m, a); }
  }

  /** Progress: runs are bounded, a run that cannot go on has finished on all sides, and a receiver that has stopped has
      yielded everything. */
  lemma BroadcastProgress(cfg: Config, n: Net, acts: seq<Act>, m: Net)
    requires Fits(cfg) && Begins(cfg, n) && Acts(cfg, n, acts, m)
    ensures |acts| <= TotalWork(cfg, n)
    ensures Finished(cfg, m) || exists a :: Can(cfg, m, a)
    ensures forall r :: 0 <= r < |m.receivers| && m.receivers[r].phase.Stopped? ==> m.receivers[r].out == Yields(cfg, |cfg.buckets|)
  {
    BeginsInv(cfg, n);
    ActsKeep(cfg, n, acts, m);
    TotalNatural(cfg, m);
    if m.sender.launched < |cfg.buckets| || m.sender.op.Some? {
      var a := SenderCan(cfg, m);
    } else if !Finished(cfg, m) {
      var r: nat :| r < |m.receivers| && !m.receivers[r].phase.Stopped?;
      var a := ReceiverCan(cfg, m, r);
    }
    forall r | 0 <= r < |m.receivers| && m.receivers[r].phase.Stopped? ensures m.receivers[r].out == Yields(cfg, |cfg.buckets|) {
      OutPrefix(cfg, m.receivers[r]);
    }
  }

  /** One weight update by broadcast: every receiver that has stopped has merged exactly the weights of the trainer. */
  lemma EveryReceiverLoadsTheWeights(k: nat, bucketSize: nat, ws: seq<Weight>, n: Net, acts: seq<Act>, m: Net)
    requires bucketSize > 0 && k >= 2 && DistinctNames(ws) && AreTensors(ws)
    requires Begins(WeightSync.Sending(k, bucketSize, ws), n) && Acts(WeightSync.Sending(k, bucketSize, ws), n, acts, m)
    ensures forall r :: 0 <= r < |m.receivers| && m.receivers[r].phase.Stopped? ==>
      Merge(m.receivers[r].out, bucketSize) == if PlanAligned(ws, bucketSize) then Ok(NonEmpty(ws)) else Raise(Misaligned)
    ensures Finished(WeightSync.Sending(k, bucketSize, ws), m) || exists a :: Can(WeightSync.Sending(k, bucketSize, ws), m, a)
  {
    var cfg := WeightSync.Sending(k, bucketSize, ws);
    WeightSync.SendingFits(k, bucketSize, ws);
    BroadcastProgress(cfg, n, acts, m);
    WeightSync.SendingYields(k, bucketSize, ws);
    RoundTrip(ws, bucketSize);
  }
}
