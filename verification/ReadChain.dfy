/** The store-and-forward chain of ranks (verl/checkpoint_engine/nixl_checkpoint_engine.py).

    Rank 0 fills buckets. Every rank announces a bucket to the next one with a message; the next rank reads
    the announced buffer remotely, one byte at a time in any order, and the transfer engine posts a notice to
    the owner when the read is complete. A step is what one coroutine does between two awaits or yields, or
    one action of the transfer engine. Messages and notices are reliable and FIFO. */
module ReadChain {
  import opened Outcomes
  import opened WeightChunks
  import opened BucketPacking

  /** n ranks, the bucket size, and what rank 0 has to send. */
  datatype Config = Config(n: nat, size: nat, buckets: seq<Bucket>)

  /** At least one receiver and one bucket, and the last bucket is marked as such. */
  ghost predicate Valid(cfg: Config) {
    cfg.n >= 2 && |cfg.buckets| >= 1 &&
    forall k :: 0 <= k < |cfg.buckets| ==> cfg.buckets[k].isLast == (k == |cfg.buckets| - 1)
  }

  ghost predicate Fits(cfg: Config) {
    Valid(cfg) && forall k :: 0 <= k < |cfg.buckets| ==> InBounds(cfg.buckets[k], cfg.size)
  }

  /** Metadata of an announced bucket: which buffer of the sender to read and the key to notify. */
  datatype Msg = Msg(metas: seq<TensorMeta>, isLast: bool, buf: nat, key: nat)

  /** A remote read: the bytes copied so far, and whether the engine has reported it as done. */
  datatype Read = Read(msg: Msg, copied: set<nat>, done: bool)

  datatype Pc =
    | Filling(filled: set<nat>)  // rank 0: copying chunks into the send buffer
    | Draining                   // rank 0: waiting for the last bucket to be read
    | AwaitMeta                  // waiting for the metadata of the next bucket
    | Yielding(j: nat)           // about to yield the j-th tensor of the send buffer
    | AwaitNotice                // waiting until the next rank has read the send buffer
    | AwaitRead                  // waiting until the own read is done
    | Done

  datatype Rank = Rank(
    pc: Pc,
    bufs: seq<seq<Byte>>, send: nat,      // the two buffers, and which one is send_buf
    inbox: seq<Msg>, notices: seq<nat>,   // from the previous rank, from the next rank
    opKey: Option<nat>,                   // notify key of the outstanding ReadableOperation
    read: Option<Read>,
    metas: seq<TensorMeta>, isLast: bool, // metadata of the bucket in send_buf
    got: nat,                             // buckets received (announced, for rank 0)
    out: seq<Chunk>)                      // everything yielded so far

  type State = seq<Rank>

  datatype Step =
    | Fill(c: nat)
    | Launch
    | FinishSend
    | BeginRead(r: nat)
    | CopyByte(r: nat, c: nat)
    | CompleteRead(r: nat)
    | Yield(r: nat)
    | EndYield(r: nat)
    | TakeNotice(r: nat)
    | FinishRead(r: nat)

  /** The byte positions below n, as far as a set covers them. */
  ghost predicate Within(cells: set<nat>, n: nat) {
    forall c: nat :: c in cells ==> c < n
  }

  ghost predicate Covers(cells: set<nat>, n: nat) {
    forall c: nat :: c < n ==> c in cells
  }

  function Used(cfg: Config, k: nat): nat
    requires k < |cfg.buckets|
  {
    |cfg.buckets[k].content|
  }

  /** The slice of a buffer that a header points at. */
  function View(buffer: seq<Byte>, m: TensorMeta): Chunk {
    if m.offset.Some? && m.offset.value + m.chunkSize <= |buffer| then Slice(buffer, m) else Chunk(m, [])
  }

  ghost predicate IsInit(cfg: Config, s: State) {
    |s| == cfg.n &&
    forall r :: 0 <= r < cfg.n ==>
      |s[r].bufs| == 2 && |s[r].bufs[0]| == |s[r].bufs[1]| == cfg.size &&
      s[r] == Rank(if r == 0 then Filling({}) else AwaitMeta, s[r].bufs, 0, [], [], None, None, [], false, 0, [])
  }

  /** Only receivers in the middle of the chain have somebody to announce buckets to. */
  predicate HasNext(cfg: Config, r: nat) {
    r + 1 < cfg.n
  }

  ghost predicate Enabled(cfg: Config, s: State, step: Step) {
    |s| == cfg.n && cfg.n >= 2 &&
    match step
    case Fill(c) =>
      s[0].pc.Filling? && s[0].got < |cfg.buckets| && |s[0].bufs| == 2 && s[0].send < 2 &&
      c < Used(cfg, s[0].got) && c < |s[0].bufs[s[0].send]| && c !in s[0].pc.filled
    case Launch =>
      s[0].pc.Filling? && s[0].got < |cfg.buckets| && s[0].send < 2 &&
      Covers(s[0].pc.filled, Used(cfg, s[0].got)) && (s[0].opKey.Some? ==> s[0].notices != [])
    case FinishSend => s[0].pc.Draining? && s[0].notices != []
    case BeginRead(r) => 0 < r < cfg.n && s[r].pc.AwaitMeta? && s[r].inbox != []
    case CopyByte(r, c) =>
      0 < r < cfg.n && s[r].read.Some? && !s[r].read.value.done && c < cfg.size && c !in s[r].read.value.copied &&
      |s[r].bufs| == |s[r - 1].bufs| == 2 && s[r].send < 2 && s[r].read.value.msg.buf < 2 &&
      c < |s[r].bufs[1 - s[r].send]| && c < |s[r - 1].bufs[s[r].read.value.msg.buf]|
    case CompleteRead(r) =>
      0 < r < cfg.n && s[r].read.Some? && !s[r].read.value.done && Covers(s[r].read.value.copied, cfg.size)
    case Yield(r) =>
      0 < r < cfg.n && s[r].pc.Yielding? && s[r].pc.j < |s[r].metas| && |s[r].bufs| == 2 && s[r].send < 2
    case EndYield(r) => 0 < r < cfg.n && s[r].pc.Yielding? && s[r].pc.j == |s[r].metas|
    case TakeNotice(r) => 0 < r < cfg.n && s[r].pc.AwaitNotice? && s[r].notices != []
    case FinishRead(r) =>
      0 < r < cfg.n && s[r].pc.AwaitRead? && s[r].read.Some? && s[r].read.value.done && s[r].send < 2
  }

  /** The message that announces the k-th bucket, when it lies in buffer `buf`. */
  function Announce(cfg: Config, k: nat, buf: nat): Msg
    requires k < |cfg.buckets|
  {
    Msg(cfg.buckets[k].metas, cfg.buckets[k].isLast, buf, k)
  }

  /** What follows the yields, or the notice: wait for the own read, or stop after the last bucket. */
  function AfterSend(x: Rank): Pc {
    if x.isLast then Done else AwaitRead
  }

  // What a step does to the rank that takes it.

  function Filled(cfg: Config, x: Rank, c: nat): Rank
    requires x.pc.Filling? && x.got < |cfg.buckets| && |x.bufs| == 2 && x.send < 2
    requires c < Used(cfg, x.got) && c < |x.bufs[x.send]|
  {
    x.(bufs := x.bufs[x.send := x.bufs[x.send][c := cfg.buckets[x.got].content[c]]], pc := Filling(x.pc.filled + {c}))
  }

  function Launched(cfg: Config, x: Rank): Rank
    requires x.send < 2 && (x.opKey.Some? ==> x.notices != [])
  {
    x.(notices := if x.opKey.Some? then x.notices[1..] else x.notices, opKey := Some(x.got),
       send := 1 - x.send, got := x.got + 1,
       pc := if x.got + 1 == |cfg.buckets| then Draining else Filling({}))
  }

  function Reading(x: Rank): Rank
    requires x.inbox != []
  {
    x.(inbox := x.inbox[1..], read := Some(Read(x.inbox[0], {}, false)), pc := if x.got == 0 then AwaitRead else Yielding(0))
  }

  function Copied(x: Rank, c: nat, byte: Byte): Rank
    requires x.read.Some? && |x.bufs| == 2 && x.send < 2 && c < |x.bufs[1 - x.send]|
  {
    x.(bufs := x.bufs[1 - x.send := x.bufs[1 - x.send][c := byte]],
       read := Some(x.read.value.(copied := x.read.value.copied + {c})))
  }

  function Yielded(x: Rank): Rank
    requires x.pc.Yielding? && x.pc.j < |x.metas| && |x.bufs| == 2 && x.send < 2
  {
    x.(out := x.out + [View(x.bufs[x.send], x.metas[x.pc.j])], pc := Yielding(x.pc.j + 1))
  }

  /** Swap the buffers; what was received becomes what is yielded and announced. */
  function Received(cfg: Config, r: nat, x: Rank): Rank
    requires x.read.Some? && x.send < 2
  {
    var m := x.read.value.msg;
    x.(pc := if m.isLast then Yielding(0) else AwaitMeta, send := 1 - x.send, read := None,
       metas := m.metas, isLast := m.isLast, got := x.got + 1,
       opKey := if HasNext(cfg, r) then Some(x.got) else None)
  }

  function Completed(x: Rank): Rank
    requires x.read.Some?
  {
    x.(read := Some(x.read.value.(done := true)))
  }

  function YieldedAll(cfg: Config, r: nat, x: Rank): Rank {
    x.(pc := if HasNext(cfg, r) then AwaitNotice else AfterSend(x))
  }

  function Noticed(x: Rank): Rank
    requires x.notices != []
  {
    x.(notices := x.notices[1..], pc := AfterSend(x))
  }

  function Told(x: Rank, m: Msg): Rank {
    x.(inbox := x.inbox + [m])
  }

  function Notified(x: Rank, key: nat): Rank {
    x.(notices := x.notices + [key])
  }

  function Apply(cfg: Config, s: State, step: Step): State
    requires Enabled(cfg, s, step)
  {
    match step
    case Fill(c) => s[0 := Filled(cfg, s[0], c)]
    case Launch => s[0 := Launched(cfg, s[0])][1 := Told(s[1], Announce(cfg, s[0].got, s[0].send))]
    case FinishSend => s[0 := s[0].(notices := s[0].notices[1..], pc := Done)]
    case BeginRead(r) => s[r := Reading(s[r])]
    case CopyByte(r, c) => s[r := Copied(s[r], c, s[r - 1].bufs[s[r].read.value.msg.buf][c])]
    case CompleteRead(r) =>
      s[r - 1 := Notified(s[r - 1], s[r].read.value.msg.key)][r := Completed(s[r])]
    case Yield(r) => s[r := Yielded(s[r])]
    case EndYield(r) => s[r := YieldedAll(cfg, r, s[r])]
    case TakeNotice(r) => s[r := Noticed(s[r])]
    case FinishRead(r) =>
      var x := Received(cfg, r, s[r]);
      if HasNext(cfg, r) then s[r := x][r + 1 := Told(s[r + 1], Msg(x.metas, x.isLast, x.send, s[r].got))]
      else s[r := x]
  }

  // ---------------------------------------------------------------- the invariant

  /** The chunks of the first k buckets, in order. */
  function Yields(cfg: Config, k: nat): seq<Chunk>
    requires Fits(cfg) && k <= |cfg.buckets|
  {
    if k == 0 then [] else assert InBounds(cfg.buckets[k - 1], cfg.size); Yields(cfg, k - 1) + Unpack(cfg.buckets[k - 1])
  }

  /** Notices consumed. */
  function Acked(x: Rank): int {
    match x.pc
    case AwaitRead => x.got
    case Done => x.got
    case _ => if x.got == 0 then 0 else x.got - 1
  }

  /** Reads begun, and reads that the engine has finished. */
  function Begun(x: Rank): nat {
    x.got + if x.read.Some? then 1 else 0
  }

  function Finished(x: Rank): nat {
    x.got + if x.read.Some? && x.read.value.done then 1 else 0
  }

  /** The buffer that the rank announced last. */
  function LaunchBuf(r: nat, x: Rank): int {
    if r == 0 then 1 - x.send else x.send
  }

  /** The buffer contains the given bytes of the k-th bucket. */
  ghost predicate Contains(cfg: Config, buffer: seq<Byte>, k: nat, cells: set<nat>)
    requires k < |cfg.buckets|
  {
    forall c: nat :: c in cells && c < |buffer| && c < Used(cfg, k) ==> buffer[c] == cfg.buckets[k].content[c]
  }

  ghost predicate Full(cfg: Config, buffer: seq<Byte>, k: nat)
    requires k < |cfg.buckets|
  {
    Used(cfg, k) <= |buffer| && buffer[..Used(cfg, k)] == cfg.buckets[k].content
  }

  lemma ContainsAll(cfg: Config, buffer: seq<Byte>, k: nat, cells: set<nat>)
    requires k < |cfg.buckets| && Used(cfg, k) <= |buffer|
    requires Contains(cfg, buffer, k, cells) && Covers(cells, Used(cfg, k))
    ensures Full(cfg, buffer, k)
  {
  }

  /** Control state of a rank: where it is in its program, and what its counters, metadata and messages are. */
  ghost predicate Control(cfg: Config, r: nat, x: Rank) {
    |x.bufs| == 2 && |x.bufs[0]| == |x.bufs[1]| == cfg.size && x.send < 2 && x.got <= |cfg.buckets| &&
    (x.opKey == if x.got > 0 && HasNext(cfg, r) then Some(x.got - 1) else None) &&
    if r == 0 then SenderControl(cfg, x) else ReceiverControl(cfg, r, x)
  }

  ghost predicate SenderControl(cfg: Config, x: Rank)
    requires x.got <= |cfg.buckets|
  {
    x.read.None? &&
    match x.pc
    case Filling(f) => x.got < |cfg.buckets| && Within(f, Used(cfg, x.got))
    case Draining => x.got == |cfg.buckets|
    case Done => x.got == |cfg.buckets|
    case _ => false
  }

  ghost predicate ReceiverControl(cfg: Config, r: nat, x: Rank)
    requires x.got <= |cfg.buckets|
  {
    (x.read.Some? ==>
      var rd := x.read.value;
      x.got < |cfg.buckets| && rd.msg.buf < 2 && rd.msg == Announce(cfg, x.got, rd.msg.buf) &&
      Within(rd.copied, cfg.size) && (rd.done ==> Covers(rd.copied, cfg.size))) &&
    (x.got > 0 ==> x.metas == cfg.buckets[x.got - 1].metas && x.isLast == (x.got == |cfg.buckets|)) &&
    match x.pc
    case AwaitMeta => x.read.None? && x.got < |cfg.buckets|
    case Yielding(j) => x.got > 0 && (x.read.Some? <==> x.got < |cfg.buckets|) && j <= |x.metas|
    case AwaitNotice => x.got > 0 && HasNext(cfg, r) && (x.read.Some? <==> x.got < |cfg.buckets|)
    case AwaitRead => x.got < |cfg.buckets| && x.read.Some?
    case Done => x.got == |cfg.buckets| && x.read.None?
    case _ => false
  }

  /** What a receiver has yielded, from where it is in its program. */
  ghost function Expected(cfg: Config, x: Rank): seq<Chunk>
    requires Fits(cfg) && x.got <= |cfg.buckets|
  {
    if x.got == 0 then []
    else match x.pc
      case AwaitMeta => Yields(cfg, x.got - 1)
      case Yielding(j) => Yields(cfg, x.got - 1) + Part(cfg, x.got - 1, j)
      case _ => Yields(cfg, x.got)
  }

  /** The first j chunks of the k-th bucket. */
  ghost function Part(cfg: Config, k: nat, j: nat): seq<Chunk>
    requires Fits(cfg) && k < |cfg.buckets|
  {
    assert InBounds(cfg.buckets[k], cfg.size);
    if j <= |cfg.buckets[k].metas| then Unpack(cfg.buckets[k])[..j] else []
  }

  /** Contents: the buffer announced last holds its bucket, what is being filled or read is right as far as it goes,
      and the yields are as expected. */
  ghost predicate Data(cfg: Config, r: nat, x: Rank)
    requires Fits(cfg) && Control(cfg, r, x)
  {
    (x.got > 0 ==> Full(cfg, x.bufs[LaunchBuf(r, x)], x.got - 1)) &&
    (r == 0 && x.pc.Filling? ==> Contains(cfg, x.bufs[x.send], x.got, x.pc.filled)) &&
    (x.read.Some? ==> Contains(cfg, x.bufs[1 - x.send], x.got, x.read.value.copied)) &&
    (r > 0 ==> x.out == Expected(cfg, x))
  }

  /** What holds between a rank and the next one: at most one announced bucket is not acknowledged, the message,
      the read or the notice for it is exactly where the counters say, and an unfinished read is from its buffer. */
  ghost predicate Link(cfg: Config, r: nat, x: Rank, y: Rank) {
    x.got <= |cfg.buckets| && Acked(x) <= Finished(y) <= Begun(y) <= x.got <= Acked(x) + 1 &&
    |y.inbox| == x.got - Begun(y) && |x.notices| == Finished(y) - Acked(x) &&
    (y.inbox != [] ==> LaunchBuf(r, x) >= 0 && y.inbox[0] == Announce(cfg, x.got - 1, LaunchBuf(r, x))) &&
    (x.notices != [] ==> x.notices[0] == x.got - 1) &&
    (y.read.Some? && !y.read.value.done ==> y.read.value.msg.buf == LaunchBuf(r, x))
  }

  /** `ok` holds of every rank and `link` of every rank and the next one. */
  ghost predicate Chained(s: State, ok: (int, Rank) -> bool, link: (int, Rank, Rank) -> bool) {
    (forall r :: 0 <= r < |s| ==> ok(r, s[r])) &&
    (forall q, r {:trigger s[q], s[r]} :: 0 <= q < r < |s| && r == q + 1 ==> link(q, s[q], s[r]))
  }

  ghost function OkOf(cfg: Config): (int, Rank) -> bool {
    (r, x) => r >= 0 && Control(cfg, r, x)
  }

  ghost function LinkOf(cfg: Config): (int, Rank, Rank) -> bool {
    (r, x, y) => r >= 0 && Link(cfg, r, x, y)
  }

  /** The control invariant of the chain. */
  ghost predicate Controlled(cfg: Config, s: State) {
    Valid(cfg) && |s| == cfg.n && Chained(s, OkOf(cfg), LinkOf(cfg))
  }

  lemma At(cfg: Config, s: State, r: nat)
    requires Controlled(cfg, s) && r < cfg.n
    ensures Control(cfg, r, s[r])
  {
    assert OkOf(cfg)(r, s[r]);
  }

  lemma Between(cfg: Config, s: State, r: nat)
    requires Controlled(cfg, s) && r + 1 < cfg.n
    ensures Control(cfg, r, s[r]) && Control(cfg, r + 1, s[r + 1]) && Link(cfg, r, s[r], s[r + 1])
  {
    assert OkOf(cfg)(r, s[r]) && OkOf(cfg)(r + 1, s[r + 1]) && LinkOf(cfg)(r, s[r], s[r + 1]);
  }

  ghost predicate Loaded(cfg: Config, s: State)
    requires Fits(cfg) && |s| == cfg.n
  {
    forall r :: 0 <= r < cfg.n ==> Control(cfg, r, s[r]) && Data(cfg, r, s[r])
  }

  ghost predicate Inv(cfg: Config, s: State) {
    Fits(cfg) && Controlled(cfg, s) && Loaded(cfg, s)
  }

  // ---------------------------------------------------------------- every step keeps the control invariant

  lemma Chain(s: State, ok: (int, Rank) -> bool, link: (int, Rank, Rank) -> bool, r: nat, x: Rank)
    requires Chained(s, ok, link) && r < |s| && ok(r, x)
    requires r > 0 ==> link(r - 1, s[r - 1], x)
    requires r + 1 < |s| ==> link(r, x, s[r + 1])
    ensures Chained(s[r := x], ok, link)
  {
  }

  lemma ChainTwo(s: State, ok: (int, Rank) -> bool, link: (int, Rank, Rank) -> bool, r: nat, x: Rank, y: Rank)
    requires Chained(s, ok, link) && r + 1 < |s| && ok(r, x) && ok(r + 1, y) && link(r, x, y)
    requires r > 0 ==> link(r - 1, s[r - 1], x)
    requires r + 2 < |s| ==> link(r + 1, y, s[r + 2])
    ensures Chained(s[r := x][r + 1 := y], ok, link)
  {
  }

  /** A step that changes one rank only. */
  lemma UpdateOne(cfg: Config, s: State, r: nat, x: Rank)
    requires Controlled(cfg, s) && r < cfg.n && Control(cfg, r, x)
    requires r > 0 ==> Link(cfg, r - 1, s[r - 1], x)
    requires r + 1 < cfg.n ==> Link(cfg, r, x, s[r + 1])
    ensures Controlled(cfg, s[r := x])
  {
    Chain(s, OkOf(cfg), LinkOf(cfg), r, x);
  }

  /** A step that changes a rank and the next one. */
  lemma UpdateTwo(cfg: Config, s: State, r: nat, x: Rank, y: Rank)
    requires Controlled(cfg, s) && r + 1 < cfg.n && Control(cfg, r, x) && Control(cfg, r + 1, y) && Link(cfg, r, x, y)
    requires r > 0 ==> Link(cfg, r - 1, s[r - 1], x)
    requires r + 2 < cfg.n ==> Link(cfg, r + 1, y, s[r + 2])
    ensures Controlled(cfg, s[r := x][r + 1 := y])
  {
    ChainTwo(s, OkOf(cfg), LinkOf(cfg), r, x, y);
  }

  /** The rank that a step makes progress on. */
  function Actor(step: Step): nat {
    match step
    case Fill(_) => 0
    case Launch => 0
    case FinishSend => 0
    case BeginRead(r) => r
    case CopyByte(r, _) => r
    case CompleteRead(r) => r
    case Yield(r) => r
    case EndYield(r) => r
    case TakeNotice(r) => r
    case FinishRead(r) => r
  }

  lemma ControlStep(cfg: Config, s: State, step: Step)
    requires Controlled(cfg, s) && Enabled(cfg, s, step)
    ensures Controlled(cfg, Apply(cfg, s, step))
  {
    match step
    case Fill(c) => FillControl(cfg, s, c);
    case Launch => LaunchControl(cfg, s);
    case FinishSend => FinishSendControl(cfg, s);
    case BeginRead(r) => BeginReadControl(cfg, s, r);
    case CopyByte(r, c) => CopyByteControl(cfg, s, r, c);
    case CompleteRead(r) => CompleteReadControl(cfg, s, r - 1);
    case Yield(r) => YieldControl(cfg, s, r);
    case EndYield(r) => EndYieldControl(cfg, s, r);
    case TakeNotice(r) => TakeNoticeControl(cfg, s, r);
    case FinishRead(r) => FinishReadControl(cfg, s, r);
  }

  lemma FillControl(cfg: Config, s: State, c: nat)
    requires Controlled(cfg, s) && Enabled(cfg, s, Fill(c))
    ensures Controlled(cfg, Apply(cfg, s, Fill(c)))
  {
    Between(cfg, s, 0);
    UpdateOne(cfg, s, 0, Filled(cfg, s[0], c));
  }

  lemma FinishSendControl(cfg: Config, s: State)
    requires Controlled(cfg, s) && Enabled(cfg, s, FinishSend)
    ensures Controlled(cfg, Apply(cfg, s, FinishSend))
  {
    Between(cfg, s, 0);
    UpdateOne(cfg, s, 0, s[0].(notices := s[0].notices[1..], pc := Done));
  }

  /** Steps that move neither counters nor mail do not matter to the neighbours. */
  lemma QuietLinks(cfg: Config, r: nat, x: Rank, y: Rank, z: Rank)
    requires y == x.(pc := y.pc, bufs := y.bufs, out := y.out, read := y.read)
    requires match (x.read, y.read)
             case (None, None) => true
             case (Some(a), Some(b)) => a.msg == b.msg && a.done == b.done
             case _ => false
    ensures Acked(x) == Acked(y) && Link(cfg, r, x, z) ==> Link(cfg, r, y, z)
    ensures r > 0 && Link(cfg, r - 1, z, x) ==> Link(cfg, r - 1, z, y)
  {
  }

  lemma ReadingLinks(cfg: Config, r: nat, w: Rank, x: Rank, z: Rank)
    requires Valid(cfg) && r > 0 && Control(cfg, r, x) && x.pc.AwaitMeta? && x.inbox != []
    requires Control(cfg, r - 1, w) && Link(cfg, r - 1, w, x)
    ensures Control(cfg, r, Reading(x)) && Link(cfg, r - 1, w, Reading(x))
    ensures Link(cfg, r, x, z) ==> Link(cfg, r, Reading(x), z)
  {
  }

  lemma BeginReadControl(cfg: Config, s: State, r: nat)
    requires Controlled(cfg, s) && Enabled(cfg, s, BeginRead(r))
    ensures Controlled(cfg, Apply(cfg, s, BeginRead(r)))
  {
    Between(cfg, s, r - 1);
    if HasNext(cfg, r) { Between(cfg, s, r); }
    ReadingLinks(cfg, r, s[r - 1], s[r], if HasNext(cfg, r) then s[r + 1] else s[r]);
    UpdateOne(cfg, s, r, Reading(s[r]));
  }

  /** A step of this kind, seen from the whole chain. */
  lemma UpdateQuiet(cfg: Config, s: State, r: nat, y: Rank)
    requires Controlled(cfg, s) && 0 < r < cfg.n && Control(cfg, r, y)
    requires y == s[r].(pc := y.pc, bufs := y.bufs, out := y.out, read := y.read)
    requires Acked(s[r]) == Acked(y) || !HasNext(cfg, r)
    requires match (s[r].read, y.read)
             case (None, None) => true
             case (Some(a), Some(b)) => a.msg == b.msg && a.done == b.done
             case _ => false
    ensures Controlled(cfg, s[r := y])
  {
    Between(cfg, s, r - 1);
    QuietLinks(cfg, r, s[r], y, s[r - 1]);
    if HasNext(cfg, r) {
      Between(cfg, s, r);
      QuietLinks(cfg, r, s[r], y, s[r + 1]);
    }
    UpdateOne(cfg, s, r, y);
  }

  lemma CopyByteControl(cfg: Config, s: State, r: nat, c: nat)
    requires Controlled(cfg, s) && Enabled(cfg, s, CopyByte(r, c))
    ensures Controlled(cfg, Apply(cfg, s, CopyByte(r, c)))
  {
    At(cfg, s, r);
    UpdateQuiet(cfg, s, r, Copied(s[r], c, s[r - 1].bufs[s[r].read.value.msg.buf][c]));
  }

  lemma YieldControl(cfg: Config, s: State, r: nat)
    requires Controlled(cfg, s) && Enabled(cfg, s, Yield(r))
    ensures Controlled(cfg, Apply(cfg, s, Yield(r)))
  {
    At(cfg, s, r);
    UpdateQuiet(cfg, s, r, Yielded(s[r]));
  }

  lemma EndYieldControl(cfg: Config, s: State, r: nat)
    requires Controlled(cfg, s) && Enabled(cfg, s, EndYield(r))
    ensures Controlled(cfg, Apply(cfg, s, EndYield(r)))
  {
    At(cfg, s, r);
    UpdateQuiet(cfg, s, r, YieldedAll(cfg, r, s[r]));
  }

  lemma NoticedLinks(cfg: Config, r: nat, x: Rank, z: Rank)
    requires Control(cfg, r, x) && r > 0 && x.pc.AwaitNotice? && x.notices != []
    ensures Control(cfg, r, Noticed(x))
    ensures Link(cfg, r, x, z) ==> Link(cfg, r, Noticed(x), z)
    ensures Link(cfg, r - 1, z, x) ==> Link(cfg, r - 1, z, Noticed(x))
  {
  }

  lemma TakeNoticeControl(cfg: Config, s: State, r: nat)
    requires Controlled(cfg, s) && Enabled(cfg, s, TakeNotice(r))
    ensures Controlled(cfg, Apply(cfg, s, TakeNotice(r)))
  {
    Between(cfg, s, r - 1);
    NoticedLinks(cfg, r, s[r], s[r - 1]);
    if HasNext(cfg, r) {
      Between(cfg, s, r);
      NoticedLinks(cfg, r, s[r], s[r + 1]);
    }
    UpdateOne(cfg, s, r, Noticed(s[r]));
  }

  lemma ToldControl(cfg: Config, r: nat, x: Rank, m: Msg, z: Rank)
    requires Control(cfg, r, x)
    ensures Control(cfg, r, Told(x, m))
    ensures Link(cfg, r, x, z) ==> Link(cfg, r, Told(x, m), z)
  {
  }

  lemma NotifiedControl(cfg: Config, r: nat, x: Rank, key: nat, z: Rank)
    requires Control(cfg, r, x)
    ensures Control(cfg, r, Notified(x, key))
    ensures r > 0 && Link(cfg, r - 1, z, x) ==> Link(cfg, r - 1, z, Notified(x, key))
  {
  }

  lemma CompletedControl(cfg: Config, r: nat, y: Rank, z: Rank)
    requires r > 0 && Control(cfg, r, y) && y.read.Some? && Covers(y.read.value.copied, cfg.size)
    ensures Control(cfg, r, Completed(y))
    ensures Link(cfg, r, y, z) ==> Link(cfg, r, Completed(y), z)
  {
  }

  lemma LaunchLink(cfg: Config, x: Rank, y: Rank)
    requires Valid(cfg) && Control(cfg, 0, x) && Control(cfg, 1, y) && Link(cfg, 0, x, y)
    requires x.pc.Filling? && (x.opKey.Some? ==> x.notices != [])
    ensures Control(cfg, 0, Launched(cfg, x))
    ensures Link(cfg, 0, Launched(cfg, x), Told(y, Announce(cfg, x.got, x.send)))
  {
  }

  lemma CompleteLink(cfg: Config, r: nat, x: Rank, y: Rank)
    requires Control(cfg, r, x) && Control(cfg, r + 1, y) && Link(cfg, r, x, y)
    requires y.read.Some? && !y.read.value.done
    ensures Link(cfg, r, Notified(x, y.read.value.msg.key), Completed(y))
  {
  }

  lemma ReceivedLinks(cfg: Config, r: nat, w: Rank, x: Rank)
    requires Valid(cfg) && r > 0 && Control(cfg, r, x) && Link(cfg, r - 1, w, x) && x.pc.AwaitRead? && x.read.value.done
    ensures Control(cfg, r, Received(cfg, r, x)) && Link(cfg, r - 1, w, Received(cfg, r, x))
  {
  }

  lemma ReceivedNext(cfg: Config, r: nat, x: Rank, y: Rank)
    requires Valid(cfg) && r > 0 && Control(cfg, r, x) && Control(cfg, r + 1, y) && Link(cfg, r, x, y) && HasNext(cfg, r)
    requires x.pc.AwaitRead? && x.read.value.done
    ensures var x' := Received(cfg, r, x); Link(cfg, r, x', Told(y, Msg(x'.metas, x'.isLast, x'.send, x.got)))
  {
  }

  /** A step that also sends a message to the next rank. */
  lemma UpdateAndTell(cfg: Config, s: State, r: nat, x: Rank, m: Msg)
    requires Controlled(cfg, s) && r + 1 < cfg.n && Control(cfg, r, x) && Link(cfg, r, x, Told(s[r + 1], m))
    requires r > 0 ==> Link(cfg, r - 1, s[r - 1], x)
    ensures Controlled(cfg, s[r := x][r + 1 := Told(s[r + 1], m)])
  {
    if r + 2 < cfg.n {
      Between(cfg, s, r + 1);
      ToldControl(cfg, r + 1, s[r + 1], m, s[r + 2]);
    } else {
      At(cfg, s, r + 1);
      ToldControl(cfg, r + 1, s[r + 1], m, x);
    }
    UpdateTwo(cfg, s, r, x, Told(s[r + 1], m));
  }

  lemma LaunchControl(cfg: Config, s: State)
    requires Controlled(cfg, s) && Enabled(cfg, s, Launch)
    ensures Controlled(cfg, Apply(cfg, s, Launch))
  {
    Between(cfg, s, 0);
    LaunchLink(cfg, s[0], s[1]);
    UpdateAndTell(cfg, s, 0, Launched(cfg, s[0]), Announce(cfg, s[0].got, s[0].send));
  }

  lemma FinishReadControl(cfg: Config, s: State, r: nat)
    requires Controlled(cfg, s) && 0 < r < cfg.n && s[r].pc.AwaitRead? && s[r].read.Some? && s[r].read.value.done
    ensures s[r].send < 2 && var x := Received(cfg, r, s[r]);
            if HasNext(cfg, r) then Controlled(cfg, s[r := x][r + 1 := Told(s[r + 1], Msg(x.metas, x.isLast, x.send, s[r].got))])
            else Controlled(cfg, s[r := x])
  {
    Between(cfg, s, r - 1);
    ReceivedLinks(cfg, r, s[r - 1], s[r]);
    var x := Received(cfg, r, s[r]);
    if HasNext(cfg, r) {
      Between(cfg, s, r);
      ReceivedNext(cfg, r, s[r], s[r + 1]);
      UpdateAndTell(cfg, s, r, x, Msg(x.metas, x.isLast, x.send, s[r].got));
    } else {
      UpdateOne(cfg, s, r, x);
    }
  }

  /** A step that also posts a notice to the previous rank. */
  lemma UpdateAndNotify(cfg: Config, s: State, r: nat, y: Rank, key: nat)
    requires Controlled(cfg, s) && r + 1 < cfg.n && OkOf(cfg)(r + 1, y) && LinkOf(cfg)(r, Notified(s[r], key), y)
    requires r + 2 < cfg.n ==> LinkOf(cfg)(r + 1, y, s[r + 2])
    ensures Controlled(cfg, s[r := Notified(s[r], key)][r + 1 := y])
  {
    At(cfg, s, r);
    if r > 0 { Between(cfg, s, r - 1); }
    NotifiedControl(cfg, r, s[r], key, if r > 0 then s[r - 1] else s[r]);
    ChainTwo(s, OkOf(cfg), LinkOf(cfg), r, Notified(s[r], key), y);
  }

  lemma CompletedOk(cfg: Config, s: State, r: nat)
    requires Controlled(cfg, s) && 0 < r < cfg.n && s[r].read.Some? && Covers(s[r].read.value.copied, cfg.size)
    ensures OkOf(cfg)(r, Completed(s[r])) && (r + 1 < cfg.n ==> LinkOf(cfg)(r, Completed(s[r]), s[r + 1]))
  {
    At(cfg, s, r);
    if r + 1 < cfg.n { Between(cfg, s, r); }
    CompletedControl(cfg, r, s[r], if r + 1 < cfg.n then s[r + 1] else s[r]);
  }

  lemma CompletedLink(cfg: Config, s: State, r: nat)
    requires Controlled(cfg, s) && r + 1 < cfg.n && s[r + 1].read.Some? && !s[r + 1].read.value.done
    ensures LinkOf(cfg)(r, Notified(s[r], s[r + 1].read.value.msg.key), Completed(s[r + 1]))
  {
    Between(cfg, s, r);
    CompleteLink(cfg, r, s[r], s[r + 1]);
  }

  lemma CompleteReadControl(cfg: Config, s: State, r: nat)
    requires Controlled(cfg, s) && r + 1 < cfg.n && s[r + 1].read.Some?
    requires !s[r + 1].read.value.done && Covers(s[r + 1].read.value.copied, cfg.size)
    ensures Controlled(cfg, s[r := Notified(s[r], s[r + 1].read.value.msg.key)][r + 1 := Completed(s[r + 1])])
  {
    CompletedOk(cfg, s, r + 1);
    CompletedLink(cfg, s, r);
    UpdateAndNotify(cfg, s, r, Completed(s[r + 1]), s[r + 1].read.value.msg.key);
  }

  // ---------------------------------------------------------------- every step keeps the contents right

  lemma FilledData(cfg: Config, x: Rank, c: nat)
    requires Fits(cfg) && Control(cfg, 0, x) && Data(cfg, 0, x) && x.pc.Filling? && c < Used(cfg, x.got)
    requires Control(cfg, 0, Filled(cfg, x, c))
    ensures Data(cfg, 0, Filled(cfg, x, c))
  {
  }

  lemma LaunchedData(cfg: Config, x: Rank)
    requires Fits(cfg) && Control(cfg, 0, x) && Data(cfg, 0, x) && x.pc.Filling? && Covers(x.pc.filled, Used(cfg, x.got))
    requires x.opKey.Some? ==> x.notices != []
    requires Control(cfg, 0, Launched(cfg, x))
    ensures Data(cfg, 0, Launched(cfg, x))
  {
    assert InBounds(cfg.buckets[x.got], cfg.size);
    ContainsAll(cfg, x.bufs[x.send], x.got, x.pc.filled);
  }

  lemma ReadingData(cfg: Config, r: nat, x: Rank)
    requires Fits(cfg) && r > 0 && Control(cfg, r, x) && Data(cfg, r, x) && x.pc.AwaitMeta? && x.inbox != []
    requires Control(cfg, r, Reading(x))
    ensures Data(cfg, r, Reading(x))
  {
    if x.got > 0 {
      assert Part(cfg, x.got - 1, 0) == [];
    }
  }

  lemma CopiedData(cfg: Config, r: nat, x: Rank, c: nat, byte: Byte)
    requires Fits(cfg) && r > 0 && Control(cfg, r, x) && Data(cfg, r, x) && x.read.Some? && c < cfg.size
    requires c < Used(cfg, x.got) ==> byte == cfg.buckets[x.got].content[c]
    requires Control(cfg, r, Copied(x, c, byte))
    ensures Data(cfg, r, Copied(x, c, byte))
  {
  }

  lemma SameView(buffer: seq<Byte>, content: seq<Byte>, m: TensorMeta)
    requires |content| <= |buffer| && buffer[..|content|] == content
    requires m.offset.Some? && m.offset.value + m.chunkSize <= |content|
    ensures View(buffer, m) == Slice(content, m)
  {
    var i, j := m.offset.value, m.offset.value + m.chunkSize;
    assert content[i..j] == buffer[..|content|][i..j] == buffer[i..j];
  }

  lemma YieldedData(cfg: Config, r: nat, x: Rank)
    requires Fits(cfg) && r > 0 && Control(cfg, r, x) && Data(cfg, r, x) && x.pc.Yielding? && x.pc.j < |x.metas|
    requires Control(cfg, r, Yielded(x))
    ensures Data(cfg, r, Yielded(x))
  {
    var b := cfg.buckets[x.got - 1];
    var j := x.pc.j;
    assert InBounds(b, cfg.size);
    SameView(x.bufs[x.send], b.content, b.metas[j]);
    assert Part(cfg, x.got - 1, j + 1) == Part(cfg, x.got - 1, j) + [Unpack(b)[j]];
  }

  lemma YieldedAllData(cfg: Config, r: nat, x: Rank)
    requires Fits(cfg) && r > 0 && Control(cfg, r, x) && Data(cfg, r, x) && x.pc.Yielding? && x.pc.j == |x.metas|
    requires Control(cfg, r, YieldedAll(cfg, r, x))
    ensures Data(cfg, r, YieldedAll(cfg, r, x))
  {
    assert InBounds(cfg.buckets[x.got - 1], cfg.size);
    assert Part(cfg, x.got - 1, x.pc.j) == Unpack(cfg.buckets[x.got - 1]);
  }

  lemma ReceivedData(cfg: Config, r: nat, x: Rank)
    requires Fits(cfg) && r > 0 && Control(cfg, r, x) && Data(cfg, r, x) && x.pc.AwaitRead? && x.read.value.done
    requires Control(cfg, r, Received(cfg, r, x))
    ensures Data(cfg, r, Received(cfg, r, x))
  {
    assert InBounds(cfg.buckets[x.got], cfg.size);
    ContainsAll(cfg, x.bufs[1 - x.send], x.got, x.read.value.copied);
    assert Part(cfg, x.got, 0) == [];
  }

  /** The byte that a read in flight copies is a byte of the bucket it is for. */
  lemma SourceByte(cfg: Config, r: nat, x: Rank, y: Rank, c: nat)
    requires Fits(cfg) && Control(cfg, r, x) && Data(cfg, r, x) && Control(cfg, r + 1, y) && Link(cfg, r, x, y)
    requires y.read.Some? && !y.read.value.done && c < Used(cfg, y.got) && c < cfg.size
    ensures x.bufs[y.read.value.msg.buf][c] == cfg.buckets[y.got].content[c]
  {
    var buffer := x.bufs[y.read.value.msg.buf];
    assert Full(cfg, buffer, y.got);
    assert buffer[c] == buffer[..Used(cfg, y.got)][c];
  }

  /** Other ranks only get messages and notices. */
  lemma OthersGetMail(cfg: Config, s: State, step: Step, r: nat)
    requires Enabled(cfg, s, step) && r < cfg.n && r != Actor(step)
    ensures var x := Apply(cfg, s, step)[r]; x == s[r].(inbox := x.inbox, notices := x.notices)
  {
  }

  lemma MailKeepsData(cfg: Config, r: nat, x: Rank, y: Rank)
    requires Fits(cfg) && Control(cfg, r, x) && Data(cfg, r, x) && Control(cfg, r, y)
    requires y == x.(inbox := y.inbox, notices := y.notices)
    ensures Data(cfg, r, y)
  {
  }

  lemma SenderData(cfg: Config, s: State, step: Step)
    requires Fits(cfg) && Enabled(cfg, s, step) && Actor(step) == 0
    requires Control(cfg, 0, s[0]) && Data(cfg, 0, s[0]) && Control(cfg, 0, Apply(cfg, s, step)[0])
    ensures Data(cfg, 0, Apply(cfg, s, step)[0])
  {
    if step.Fill? {
      FilledData(cfg, s[0], step.c);
    } else if step.Launch? {
      LaunchedData(cfg, s[0]);
    }
  }

  lemma ReaderData(cfg: Config, s: State, step: Step, r: nat)
    requires Fits(cfg) && Enabled(cfg, s, step) && Actor(step) == r > 0 && r < cfg.n
    requires step.BeginRead? || step.CompleteRead? || step.FinishRead?
    requires Control(cfg, r, s[r]) && Data(cfg, r, s[r]) && Control(cfg, r, Apply(cfg, s, step)[r])
    ensures Data(cfg, r, Apply(cfg, s, step)[r])
  {
    if step.BeginRead? {
      ReadingData(cfg, r, s[r]);
    } else if step.FinishRead? {
      ReceivedData(cfg, r, s[r]);
    }
  }

  lemma YielderData(cfg: Config, s: State, step: Step, r: nat)
    requires Fits(cfg) && Enabled(cfg, s, step) && Actor(step) == r > 0 && r < cfg.n
    requires step.Yield? || step.EndYield? || step.TakeNotice?
    requires Control(cfg, r, s[r]) && Data(cfg, r, s[r]) && Control(cfg, r, Apply(cfg, s, step)[r])
    ensures Data(cfg, r, Apply(cfg, s, step)[r])
  {
    if step.Yield? {
      YieldedData(cfg, r, s[r]);
    } else if step.EndYield? {
      YieldedAllData(cfg, r, s[r]);
    }
  }

  /** The byte that a read in flight copies. */
  ghost function ReadByte(s: State, r: nat, c: nat): Byte
    requires 0 < r < |s| && s[r].read.Some? && s[r].read.value.msg.buf < |s[r - 1].bufs| && c < |s[r - 1].bufs[s[r].read.value.msg.buf]|
  {
    s[r - 1].bufs[s[r].read.value.msg.buf][c]
  }

  lemma CopierData(cfg: Config, s: State, r: nat, c: nat, y: Rank)
    requires Inv(cfg, s) && 0 < r < cfg.n && s[r].read.Some? && !s[r].read.value.done && c < cfg.size
    requires s[r].read.value.msg.buf < |s[r - 1].bufs| && c < |s[r - 1].bufs[s[r].read.value.msg.buf]|
    requires |s[r].bufs| == 2 && s[r].send < 2 && c < |s[r].bufs[1 - s[r].send]|
    requires y == Copied(s[r], c, ReadByte(s, r, c)) && Control(cfg, r, y)
    ensures Data(cfg, r, y)
  {
    Between(cfg, s, r - 1);
    var x := s[r - 1];
    assert Data(cfg, r - 1, x) && Data(cfg, r, s[r]);
    if c < Used(cfg, s[r].got) { SourceByte(cfg, r - 1, x, s[r], c); }
    CopiedData(cfg, r, s[r], c, ReadByte(s, r, c));
  }

  lemma ActorData(cfg: Config, s: State, step: Step, r: nat)
    requires Inv(cfg, s) && Enabled(cfg, s, step) && r == Actor(step) < cfg.n
    requires Control(cfg, r, Apply(cfg, s, step)[r])
    ensures Data(cfg, r, Apply(cfg, s, step)[r])
  {
    assert Control(cfg, r, s[r]) && Data(cfg, r, s[r]);
    if r == 0 {
      SenderData(cfg, s, step);
    } else if step.CopyByte? {
      CopierData(cfg, s, r, step.c, Apply(cfg, s, step)[r]);
    } else if step.Yield? || step.EndYield? || step.TakeNotice? {
      YielderData(cfg, s, step, r);
    } else {
      ReaderData(cfg, s, step, r);
    }
  }

  lemma StepKeeps(cfg: Config, s: State, step: Step)
    requires Inv(cfg, s) && Enabled(cfg, s, step)
    ensures Inv(cfg, Apply(cfg, s, step))
  {
    var t := Apply(cfg, s, step);
    ControlStep(cfg, s, step);
    forall r | 0 <= r < cfg.n ensures Control(cfg, r, t[r]) && Data(cfg, r, t[r]) {
      At(cfg, t, r);
      if r == Actor(step) {
        ActorData(cfg, s, step, r);
      } else {
        OthersGetMail(cfg, s, step, r);
        MailKeepsData(cfg, r, s[r], t[r]);
      }
    }
  }

  lemma InitInv(cfg: Config, s: State)
    requires Fits(cfg) && IsInit(cfg, s)
    ensures Inv(cfg, s)
  {
    forall r | 0 <= r < |s| ensures OkOf(cfg)(r, s[r]) {
      assert Control(cfg, r, s[r]);
    }
    forall r | 0 <= r < cfg.n ensures Control(cfg, r, s[r]) && Data(cfg, r, s[r]) {
      At(cfg, s, r);
    }
  }

  // ---------------------------------------------------------------- safety

  /** The buffer that a step writes to. */
  function Writes(s: State, step: Step): Option<(nat, int)>
    requires |s| > 0 && (step.CopyByte? ==> step.r < |s|)
  {
    match step
    case Fill(_) => Some((0, s[0].send))
    case CopyByte(r, _) => Some((r, 1 - s[r].send))
    case _ => None
  }

  /** The next rank still may read this buffer: its read is in flight, or it has not seen the message yet. */
  ghost predicate MayBeRead(s: State, r: nat, buf: int) {
    r + 1 < |s| &&
    (|| (s[r + 1].read.Some? && !s[r + 1].read.value.done && s[r + 1].read.value.msg.buf == buf)
     || exists m :: m in s[r + 1].inbox && m.buf == buf)
  }

  /** The rank has tensors of this buffer still to yield. */
  ghost predicate YieldsFrom(s: State, r: nat, buf: int) {
    0 < r < |s| && s[r].pc.Yielding? && s[r].send == buf
  }

  /** The asserted equality of notify keys, whenever a notice is consumed. */
  ghost predicate NoticeMatches(s: State, step: Step) {
    match step
    case Launch => |s| > 0 && (s[0].opKey.Some? ==> s[0].notices != [] && s[0].opKey == Some(s[0].notices[0]))
    case FinishSend => |s| > 0 && s[0].notices != [] && s[0].opKey == Some(s[0].notices[0])
    case TakeNotice(r) => r < |s| && s[r].notices != [] && s[r].opKey == Some(s[r].notices[0])
    case _ => true
  }

  ghost predicate Undisturbed(s: State, step: Step) {
    NoticeMatches(s, step) && |s| > 0 && (step.CopyByte? ==> step.r < |s|) &&
    match Writes(s, step)
    case Some((r, buf)) => !MayBeRead(s, r, buf) && !YieldsFrom(s, r, buf)
    case None => true
  }

  /** No buffer is written while the next rank may read it or its owner yields from it, and every notice
      that is consumed carries the expected key. */
  lemma StepSafe(cfg: Config, s: State, step: Step)
    requires Controlled(cfg, s) && Enabled(cfg, s, step)
    ensures Undisturbed(s, step)
  {
    KeysMatch(cfg, s, step);
    match step
    case Fill(_) => ReadOnlyAnnounced(cfg, s, 0);
    case CopyByte(r, _) => ReadOnlyAnnounced(cfg, s, r);
    case _ =>
  }

  lemma KeysMatch(cfg: Config, s: State, step: Step)
    requires Controlled(cfg, s) && Enabled(cfg, s, step)
    ensures NoticeMatches(s, step)
  {
    if step.Launch? || step.FinishSend? {
      Between(cfg, s, 0);
      NoticeKey(cfg, 0, s[0], s[1]);
    } else if step.TakeNotice? {
      At(cfg, s, step.r);
      Between(cfg, s, step.r);
      NoticeKey(cfg, step.r, s[step.r], s[step.r + 1]);
    }
  }

  lemma NoticeKey(cfg: Config, r: nat, x: Rank, y: Rank)
    requires HasNext(cfg, r) && Control(cfg, r, x) && Control(cfg, r + 1, y) && Link(cfg, r, x, y)
    ensures x.notices != [] ==> x.opKey == Some(x.notices[0])
  {
  }

  /** Only the buffer that was announced last can be read by the next rank. */
  lemma ReadOnlyAnnounced(cfg: Config, s: State, r: nat)
    requires Controlled(cfg, s) && r < cfg.n
    ensures forall buf :: MayBeRead(s, r, buf) ==> buf == LaunchBuf(r, s[r])
  {
    if HasNext(cfg, r) { Between(cfg, s, r); }
    forall buf | MayBeRead(s, r, buf) ensures buf == LaunchBuf(r, s[r]) {
      if !(s[r + 1].read.Some? && !s[r + 1].read.value.done && s[r + 1].read.value.msg.buf == buf) {
        var m :| m in s[r + 1].inbox && m.buf == buf;
        assert m == s[r + 1].inbox[0];
      }
    }
  }

  lemma {:induction false} YieldsGrow(cfg: Config, i: nat, k: nat)
    requires Fits(cfg) && i <= k <= |cfg.buckets|
    ensures Yields(cfg, i) <= Yields(cfg, k)
  {
    if i < k { YieldsGrow(cfg, i, k - 1); }
  }

  /** What a rank has yielded is a prefix of what rank 0 packed; all of it once the rank is done. */
  lemma YieldsPrefix(cfg: Config, s: State, r: nat)
    requires Inv(cfg, s) && 0 < r < cfg.n
    ensures s[r].out <= Yields(cfg, |cfg.buckets|)
    ensures s[r].pc.Done? ==> s[r].out == Yields(cfg, |cfg.buckets|)
  {
    var x := s[r];
    assert Control(cfg, r, x) && Data(cfg, r, x);
    YieldsGrow(cfg, x.got, |cfg.buckets|);
    if x.got > 0 { YieldsGrow(cfg, x.got - 1, |cfg.buckets|); }
  }

  // ---------------------------------------------------------------- progress

  ghost predicate AllDone(s: State) {
    forall r :: 0 <= r < |s| ==> s[r].pc.Done?
  }

  /** A read in flight can always go on. */
  lemma ReadGoesOn(cfg: Config, s: State, r: nat) returns (step: Step)
    requires Controlled(cfg, s) && 0 < r < cfg.n && s[r].read.Some? && !s[r].read.value.done
    ensures Enabled(cfg, s, step)
  {
    At(cfg, s, r);
    var copied := s[r].read.value.copied;
    if Covers(copied, cfg.size) {
      step := CompleteRead(r);
    } else {
      var c: nat :| c < cfg.size && c !in copied;
      step := CopyByte(r, c);
    }
  }

  lemma NextReady(cfg: Config, r: nat, x: Rank, y: Rank)
    requires Control(cfg, r, x) && Control(cfg, r + 1, y) && Link(cfg, r, x, y)
    requires x.notices == [] && x.got == Acked(x) + 1
    ensures !(y.read.Some? && !y.read.value.done) ==>
      match y.pc
      case AwaitMeta => y.inbox != []
      case Yielding(j) => j <= |y.metas|
      case AwaitNotice => HasNext(cfg, r + 1) && y.got == Acked(y) + 1
      case AwaitRead => y.read.Some? && y.read.value.done
      case _ => false
    ensures y.send < 2 && |y.bufs| == 2
  {
  }

  /** A rank that waits for a notice waits for the next rank, which can go on or itself waits further down. */
  lemma {:induction false} NextGoesOn(cfg: Config, s: State, r: nat) returns (step: Step)
    requires Controlled(cfg, s) && r + 1 < cfg.n && s[r].notices == [] && s[r].got == Acked(s[r]) + 1
    ensures Enabled(cfg, s, step)
    decreases cfg.n - r
  {
    Between(cfg, s, r);
    var y := s[r + 1];
    NextReady(cfg, r, s[r], y);
    if y.read.Some? && !y.read.value.done {
      step := ReadGoesOn(cfg, s, r + 1);
    } else if y.pc.AwaitNotice? && y.notices == [] {
      step := NextGoesOn(cfg, s, r + 1);
    } else {
      step := if y.pc.AwaitMeta? then BeginRead(r + 1)
              else if y.pc.Yielding? then if y.pc.j < |y.metas| then Yield(r + 1) else EndYield(r + 1)
              else if y.pc.AwaitNotice? then TakeNotice(r + 1)
              else FinishRead(r + 1);
    }
  }

  lemma SenderGoesOn(cfg: Config, s: State) returns (step: Step)
    requires Fits(cfg) && Controlled(cfg, s) && !s[0].pc.Done?
    ensures Enabled(cfg, s, step)
  {
    Between(cfg, s, 0);
    var x := s[0];
    if x.pc.Filling? && !Covers(x.pc.filled, Used(cfg, x.got)) {
      var c: nat :| c < Used(cfg, x.got) && c !in x.pc.filled;
      assert InBounds(cfg.buckets[x.got], cfg.size);
      step := Fill(c);
    } else if x.got > 0 && x.notices == [] {
      step := NextGoesOn(cfg, s, 0);
    } else {
      step := if x.pc.Filling? then Launch else FinishSend;
    }
  }

  lemma ReceiverGoesOn(cfg: Config, s: State, r: nat) returns (step: Step)
    requires Controlled(cfg, s) && 0 < r < cfg.n && s[r - 1].pc.Done? && !s[r].pc.Done?
    ensures Enabled(cfg, s, step)
  {
    Between(cfg, s, r - 1);
    var x := s[r];
    if x.pc.AwaitNotice? && x.notices == [] {
      step := NextGoesOn(cfg, s, r);
    } else {
      step := if x.pc.Yielding? then if x.pc.j < |x.metas| then Yield(r) else EndYield(r)
              else if x.pc.AwaitNotice? then TakeNotice(r)
              else FinishRead(r);
    }
  }

  /** Every state that is not finished has an enabled step. */
  lemma Progress(cfg: Config, s: State) returns (step: Step)
    requires Fits(cfg) && Controlled(cfg, s) && !AllDone(s)
    ensures Enabled(cfg, s, step)
  {
    if !s[0].pc.Done? {
      step := SenderGoesOn(cfg, s);
    } else {
      var r := FirstUndone(s);
      step := ReceiverGoesOn(cfg, s, r);
    }
  }

  lemma FirstUndone(s: State) returns (r: nat)
    requires |s| > 0 && s[0].pc.Done? && !AllDone(s)
    ensures 0 < r < |s| && s[r - 1].pc.Done? && !s[r].pc.Done?
  {
    var u :| 0 <= u < |s| && !s[u].pc.Done?;
    r := 1;
    while s[r].pc.Done?
      invariant 1 <= r <= u && s[r - 1].pc.Done?
      decreases u - r
    {
      r := r + 1;
    }
  }

  // ---------------------------------------------------------------- termination

  /** Buckets whose tensors have all been yielded. */
  function Ended(x: Rank): int {
    if x.got == 0 || x.pc.AwaitNotice? || x.pc.AwaitRead? || x.pc.Done? then x.got else x.got - 1
  }

  /** left * each, by repeated addition. */
  ghost function Repeated(left: int, each: nat): nat {
    if left <= 0 then 0 else each + Repeated(left - 1, each)
  }

  /** The steps that a rank, and the engine on its behalf, still have to take. */
  ghost function Work(cfg: Config, r: nat, x: Rank): int
    requires Fits(cfg)
  {
    var left := |cfg.buckets| - x.got;
    if r == 0 then
      Repeated(left, cfg.size + 1) - (if x.pc.Filling? then |x.pc.filled| else 0) + (if x.pc.Done? then 0 else 1)
    else
      Repeated(left, cfg.size + 3) - (if x.read.None? then 0 else 1 + |x.read.value.copied| + if x.read.value.done then 1 else 0)
      + (|Yields(cfg, |cfg.buckets|)| - |x.out|) + (|cfg.buckets| - Ended(x)) + (|cfg.buckets| - Acked(x))
  }

  ghost function WorkUpTo(cfg: Config, s: State, k: nat): int
    requires Fits(cfg) && k <= |s|
  {
    if k == 0 then 0 else WorkUpTo(cfg, s, k - 1) + Work(cfg, k - 1, s[k - 1])
  }

  lemma {:induction false} WithinCard(cells: set<nat>, n: nat)
    requires Within(cells, n)
    ensures |cells| <= n
  {
    if n > 0 {
      WithinCard(cells - {n - 1}, n - 1);
    } else {
      assert cells == {};
    }
  }

  lemma SenderWorkNonNegative(cfg: Config, x: Rank)
    requires Fits(cfg) && Control(cfg, 0, x)
    ensures Work(cfg, 0, x) >= 0
  {
    if x.pc.Filling? {
      WithinCard(x.pc.filled, Used(cfg, x.got));
      assert InBounds(cfg.buckets[x.got], cfg.size);
    }
  }

  lemma ReceiverWorkNonNegative(cfg: Config, r: nat, x: Rank)
    requires Fits(cfg) && r > 0 && Control(cfg, r, x) && x.out <= Yields(cfg, |cfg.buckets|)
    ensures Work(cfg, r, x) >= 0
  {
    if x.read.Some? { WithinCard(x.read.value.copied, cfg.size); }
  }

  lemma WorkNonNegative(cfg: Config, s: State, r: nat)
    requires Inv(cfg, s) && r < cfg.n
    ensures Work(cfg, r, s[r]) >= 0
  {
    At(cfg, s, r);
    if r == 0 {
      SenderWorkNonNegative(cfg, s[0]);
    } else {
      YieldsPrefix(cfg, s, r);
      ReceiverWorkNonNegative(cfg, r, s[r]);
    }
  }

  lemma SenderWorks(cfg: Config, s: State, step: Step)
    requires Fits(cfg) && Controlled(cfg, s) && Enabled(cfg, s, step) && Actor(step) == 0
    ensures Work(cfg, 0, Apply(cfg, s, step)[0]) < Work(cfg, 0, s[0])
  {
    At(cfg, s, 0);
    var x := s[0];
    if step.Launch? {
      WithinCard(x.pc.filled, Used(cfg, x.got));
      assert InBounds(cfg.buckets[x.got], cfg.size);
    }
  }

  lemma ReadWorks(cfg: Config, r: nat, x: Rank, c: nat, byte: Byte)
    requires Fits(cfg) && r > 0 && Control(cfg, r, x)
    ensures x.pc.AwaitMeta? && x.inbox != [] ==> Work(cfg, r, Reading(x)) < Work(cfg, r, x)
    ensures x.read.Some? && c < cfg.size && c !in x.read.value.copied ==> Work(cfg, r, Copied(x, c, byte)) < Work(cfg, r, x)
    ensures x.read.Some? && !x.read.value.done ==> Work(cfg, r, Completed(x)) < Work(cfg, r, x)
  {
  }

  lemma YieldWorks(cfg: Config, r: nat, x: Rank)
    requires Fits(cfg) && r > 0 && Control(cfg, r, x) && x.pc.Yielding?
    ensures x.pc.j < |x.metas| ==> Work(cfg, r, Yielded(x)) < Work(cfg, r, x)
    ensures Work(cfg, r, YieldedAll(cfg, r, x)) < Work(cfg, r, x)
  {
  }

  lemma FinishWorks(cfg: Config, r: nat, x: Rank)
    requires Fits(cfg) && r > 0 && Control(cfg, r, x)
    ensures x.pc.AwaitRead? ==> Work(cfg, r, Received(cfg, r, x)) < Work(cfg, r, x)
    ensures x.pc.AwaitNotice? && x.notices != [] ==>
      Work(cfg, r, Noticed(x)) < Work(cfg, r, x)
  {
    if x.pc.AwaitRead? { WithinCard(x.read.value.copied, cfg.size); }
  }

  lemma ReceiverWorks(cfg: Config, s: State, step: Step)
    requires Fits(cfg) && Controlled(cfg, s) && Enabled(cfg, s, step) && Actor(step) > 0
    ensures Actor(step) < cfg.n && Work(cfg, Actor(step), Apply(cfg, s, step)[Actor(step)]) < Work(cfg, Actor(step), s[Actor(step)])
  {
    var r := Actor(step);
    At(cfg, s, r);
    if step.CopyByte? {
      ReadWorks(cfg, r, s[r], step.c, s[r - 1].bufs[s[r].read.value.msg.buf][step.c]);
    } else if step.BeginRead? || step.CompleteRead? {
      ReadWorks(cfg, r, s[r], 0, 0);
    } else if step.Yield? || step.EndYield? {
      YieldWorks(cfg, r, s[r]);
    } else {
      FinishWorks(cfg, r, s[r]);
    }
  }

  lemma MailIsNoWork(cfg: Config, r: nat, x: Rank, inbox: seq<Msg>, notices: seq<nat>)
    requires Fits(cfg)
    ensures Work(cfg, r, x.(inbox := inbox, notices := notices)) == Work(cfg, r, x)
  {
  }

  lemma {:induction false} SumDecreases(cfg: Config, s: State, t: State, actor: nat, k: nat)
    requires Fits(cfg) && |s| == |t| && k <= |s|
    requires forall r :: 0 <= r < k && r != actor ==> Work(cfg, r, t[r]) == Work(cfg, r, s[r])
    requires actor < k ==> Work(cfg, actor, t[actor]) < Work(cfg, actor, s[actor])
    ensures if actor < k then WorkUpTo(cfg, t, k) < WorkUpTo(cfg, s, k) else WorkUpTo(cfg, t, k) == WorkUpTo(cfg, s, k)
  {
    if k > 0 { SumDecreases(cfg, s, t, actor, k - 1); }
  }

  lemma {:induction false} SumNonNegative(cfg: Config, s: State, k: nat)
    requires Fits(cfg) && k <= |s| && forall r :: 0 <= r < k ==> Work(cfg, r, s[r]) >= 0
    ensures WorkUpTo(cfg, s, k) >= 0
  {
    if k > 0 { SumNonNegative(cfg, s, k - 1); }
  }

  lemma NonNegative(cfg: Config, s: State)
    requires Inv(cfg, s)
    ensures WorkUpTo(cfg, s, cfg.n) >= 0
  {
    forall r | 0 <= r < cfg.n ensures Work(cfg, r, s[r]) >= 0 {
      WorkNonNegative(cfg, s, r);
    }
    SumNonNegative(cfg, s, cfg.n);
  }

  /** Every step takes something off the work that is left. */
  lemma StepWorks(cfg: Config, s: State, step: Step)
    requires Inv(cfg, s) && Enabled(cfg, s, step)
    ensures 0 <= WorkUpTo(cfg, Apply(cfg, s, step), cfg.n) < WorkUpTo(cfg, s, cfg.n)
  {
    var t := Apply(cfg, s, step);
    StepKeeps(cfg, s, step);
    NonNegative(cfg, t);
    if Actor(step) == 0 { SenderWorks(cfg, s, step); } else { ReceiverWorks(cfg, s, step); }
    forall r | 0 <= r < cfg.n && r != Actor(step) ensures Work(cfg, r, t[r]) == Work(cfg, r, s[r]) {
      OthersGetMail(cfg, s, step, r);
      MailIsNoWork(cfg, r, s[r], t[r].inbox, t[r].notices);
    }
    SumDecreases(cfg, s, t, Actor(step), cfg.n);
  }

  // ---------------------------------------------------------------- whole runs

  /** `steps` leads from s to t. */
  ghost predicate Run(cfg: Config, s: State, steps: seq<Step>, t: State)
    decreases |steps|
  {
    if steps == [] then s == t
    else Enabled(cfg, s, steps[0]) && Run(cfg, Apply(cfg, s, steps[0]), steps[1..], t)
  }

  lemma {:induction false} RunKeeps(cfg: Config, s: State, steps: seq<Step>, t: State)
    requires Inv(cfg, s) && Run(cfg, s, steps, t)
    ensures Inv(cfg, t) && |steps| + WorkUpTo(cfg, t, cfg.n) <= WorkUpTo(cfg, s, cfg.n)
    decreases |steps|
  {
    if steps != [] {
      StepKeeps(cfg, s, steps[0]);
      StepWorks(cfg, s, steps[0]);
      RunKeeps(cfg, Apply(cfg, s, steps[0]), steps[1..], t);
    }
  }

  /** Safety of every run, however the ranks and the engine interleave: what has been yielded is a prefix of what was
      packed, and no step that is possible now disturbs a buffer in use or meets an unexpected notify key. */
  lemma ChainSafety(cfg: Config, s: State, steps: seq<Step>, t: State, step: Step)
    requires Fits(cfg) && IsInit(cfg, s) && Run(cfg, s, steps, t)
    ensures forall r :: 0 < r < cfg.n ==> |t| == cfg.n && t[r].out <= Yields(cfg, |cfg.buckets|)
    ensures Enabled(cfg, t, step) ==> Undisturbed(t, step)
  {
    InitInv(cfg, s);
    RunKeeps(cfg, s, steps, t);
    forall r | 0 < r < cfg.n ensures t[r].out <= Yields(cfg, |cfg.buckets|) {
      YieldsPrefix(cfg, t, r);
    }
    if Enabled(cfg, t, step) { StepSafe(cfg, t, step); }
  }

  /** Progress: no run is longer than the work there was at the start, a run that cannot go on has finished
      every rank, and a finished receiver has yielded exactly what rank 0 packed. */
  lemma ChainProgress(cfg: Config, s: State, steps: seq<Step>, t: State)
    requires Fits(cfg) && IsInit(cfg, s) && Run(cfg, s, steps, t)
    ensures |steps| <= WorkUpTo(cfg, s, cfg.n)
    ensures |t| == cfg.n && (AllDone(t) || exists step :: Enabled(cfg, t, step))
    ensures forall r :: 0 < r < cfg.n && t[r].pc.Done? ==> t[r].out == Yields(cfg, |cfg.buckets|)
  {
    InitInv(cfg, s);
    RunKeeps(cfg, s, steps, t);
    NonNegative(cfg, t);
    if !AllDone(t) {
      var step := Progress(cfg, t);
    }
    forall r | 0 < r < cfg.n && t[r].pc.Done? ensures t[r].out == Yields(cfg, |cfg.buckets|) {
      YieldsPrefix(cfg, t, r);
    }
  }
}
