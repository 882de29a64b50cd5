/** The bounded capture queue (`FlowBuffer`): one step per lock section, any number of
    concurrent pushes and receives, in any interleaving. */
module CaptureBuffer {
  import opened Counting

  datatype Policy = Block | DropOldest | FailFast

  datatype Outcome = Accepted | Duplicate | Overflow

  /** A captured flow as the buffer sees it: fingerprint and approximate size. */
  datatype Item = Item(id: string, fingerprint: string, sizeBytes: nat)

  datatype Config = Config(capacity: nat, maxBytes: nat, dedupEnabled: bool, dedupLimit: nat, policy: Policy)

  datatype Removal = Removal(item: Item, evicted: bool)

  /** The buffer's fields, followed by its history: what was accepted, what left the queue
      and how, how many pushes were refused, how often the fingerprint set was emptied. */
  datatype Core = Core(
    queue: seq<Item>, queuedBytes: int, seen: set<string>, closed: bool,
    accepted: nat, duplicates: nat, dropped: nat,
    acceptedLog: seq<Item>, removed: seq<Removal>, refused: nat, clears: nat)

  const EMPTY := Core([], 0, {}, false, 0, 0, 0, [], [], 0, 0)

  // ---- the lock sections ----

  predicate Fits(k: Config, c: Core, incoming: nat) {
    |c.queue| < k.capacity && (k.maxBytes == 0 || c.queuedBytes + incoming <= k.maxBytes)
  }

  function PopFront(c: Core, evicted: bool): Core
    requires c.queue != []
  {
    c.(queue := c.queue[1..], queuedBytes := c.queuedBytes - c.queue[0].sizeBytes,
       removed := c.removed + [Removal(c.queue[0], evicted)])
  }

  /** The eviction loop of DropOldest. */
  function EvictUntilFits(k: Config, c: Core, incoming: nat): Core
    decreases |c.queue|
  {
    if c.queue == [] || Fits(k, c, incoming) then c
    else EvictUntilFits(k, PopFront(c, true).(dropped := c.dropped + 1), incoming)
  }

  function Enqueue(c: Core, item: Item): Core {
    c.(queue := c.queue + [item], queuedBytes := c.queuedBytes + item.sizeBytes,
       accepted := c.accepted + 1, acceptedLog := c.acceptedLog + [item])
  }

  datatype Verdict = Return(outcome: Outcome) | Continue | Wait

  /** First lock section of push: the fingerprint set. */
  function DedupSection(k: Config, c: Core, item: Item): (Verdict, Core) {
    if !k.dedupEnabled then (Continue, c)
    else if item.fingerprint in c.seen then (Return(Duplicate), c.(duplicates := c.duplicates + 1))
    else if 0 < k.dedupLimit < |c.seen + {item.fingerprint}| then (Continue, c.(seen := {}, clears := c.clears + 1))
    else (Continue, c.(seen := c.seen + {item.fingerprint}))
  }

  /** Second lock section of push: the queue. */
  function QueueSection(k: Config, c: Core, item: Item): (Verdict, Core) {
    if Fits(k, c, item.sizeBytes) then (Return(Accepted), Enqueue(c, item))
    else match k.policy
      case DropOldest => (Return(Accepted), Enqueue(EvictUntilFits(k, c, item.sizeBytes), item))
      case FailFast => (Return(Overflow), c.(dropped := c.dropped + 1, refused := c.refused + 1))
      case Block => (Wait, c)
  }

  function ResetSection(k: Config, c: Core): Core {
    if k.dedupEnabled then c.(seen := {}, clears := c.clears + 1) else c
  }

  // ---- the object ----

  class FlowBuffer {
    const config: Config
    var queue: seq<Item>
    var queuedBytes: int
    var dedup: set<string>
    var closed: bool
    var accepted: nat
    var duplicates: nat
    var dropped: nat
    ghost var acceptedLog: seq<Item>
    ghost var removed: seq<Removal>
    ghost var refused: nat
    ghost var clears: nat

    ghost function Abstract(): Core
      reads this
    {
      Core(queue, queuedBytes, dedup, closed, accepted, duplicates, dropped, acceptedLog, removed, refused, clears)
    }

    constructor (config: Config)
      ensures this.config == config && Abstract() == EMPTY
    {
      this.config := config;
      queue, queuedBytes, dedup, closed := [], 0, {}, false;
      accepted, duplicates, dropped := 0, 0, 0;
      acceptedLog, removed, refused, clears := [], [], 0, 0;
    }

    method PushDedup(item: Item) returns (verdict: Verdict)
      modifies this
      ensures (verdict, Abstract()) == DedupSection(config, old(Abstract()), item)
    {
      if config.dedupEnabled {
        if item.fingerprint in dedup {
          duplicates := duplicates + 1;
          return Return(Duplicate);
        }
        dedup := dedup + {item.fingerprint};
        if config.dedupLimit > 0 && |dedup| > config.dedupLimit {
          dedup, clears := {}, clears + 1;
        }
      }
      verdict := Continue;
    }

    method RoomFor(incoming: nat) returns (fits: bool)
      ensures fits == Fits(config, Abstract(), incoming)
    {
      if |queue| >= config.capacity {
        return false;
      }
      fits := config.maxBytes == 0 || queuedBytes + incoming <= config.maxBytes;
    }

    method EvictOldest(incoming: nat)
      modifies this
      ensures Abstract() == EvictUntilFits(config, old(Abstract()), incoming)
    {
      var fits := RoomFor(incoming);
      while queue != [] && !fits
        invariant fits == Fits(config, Abstract(), incoming)
        invariant EvictUntilFits(config, Abstract(), incoming) == EvictUntilFits(config, old(Abstract()), incoming)
        decreases |queue|
      {
        queuedBytes := queuedBytes - queue[0].sizeBytes;
        removed := removed + [Removal(queue[0], true)];
        queue := queue[1..];
        dropped := dropped + 1;
        fits := RoomFor(incoming);
      }
    }

    method PushQueue(item: Item) returns (verdict: Verdict)
      modifies this
      ensures (verdict, Abstract()) == QueueSection(config, old(Abstract()), item)
    {
      var fits := RoomFor(item.sizeBytes);
      if !fits {
        match config.policy {
          case DropOldest =>
            EvictOldest(item.sizeBytes);
          case FailFast =>
            dropped, refused := dropped + 1, refused + 1;
            return Return(Overflow);
          case Block =>
            return Wait;
        }
      }
      queue := queue + [item];
      queuedBytes := queuedBytes + item.sizeBytes;
      accepted := accepted + 1;
      acceptedLog := acceptedLog + [item];
      verdict := Return(Accepted);
    }

    /** The lock section of recv: a flow, the end of the stream, or nothing yet. */
    method Receive() returns (item: seq<Item>, ended: bool)
      modifies this
      ensures old(queue) != [] ==> item == [old(queue)[0]] && !ended && Abstract() == PopFront(old(Abstract()), false)
      ensures old(queue) == [] ==> item == [] && ended == closed && Abstract() == old(Abstract())
    {
      if queue != [] {
        item, ended := [queue[0]], false;
        queuedBytes := queuedBytes - queue[0].sizeBytes;
        removed := removed + [Removal(queue[0], false)];
        queue := queue[1..];
      } else {
        item, ended := [], closed;
      }
    }

    method Close()
      modifies this
      ensures Abstract() == old(Abstract()).(closed := true)
    {
      closed := true;
    }

    method ResetDedup()
      modifies this
      ensures Abstract() == ResetSection(config, old(Abstract()))
    {
      if config.dedupEnabled {
        dedup, clears := {}, clears + 1;
      }
    }
  }

  // ---- interleaved pushes ----

  /** Where a push stands between two sections. */
  datatype Pc = Checking | Deduping | Queueing | Waiting | Returned(outcome: Outcome)

  /** One call of push. `waited` says that it has been through the wait at least once;
      `firstEpoch` and `epoch` are the number of set clears when it entered its fingerprint
      for the first and for the last time. */
  datatype Push = Push(item: Item, pc: Pc, waited: bool, firstEpoch: nat, epoch: nat)

  /** All push calls, started or not, and whether a recv has returned None. */
  datatype System = System(core: Core, pushes: seq<Push>, ended: bool)

  datatype Action = PushStep(i: nat) | RecvStep | CloseStep | ResetStep

  predicate Enabled(s: System, a: Action) {
    match a
    case PushStep(i) => i < |s.pushes| && !s.pushes[i].pc.Returned?
    case RecvStep => s.core.queue != [] || s.core.closed
    case CloseStep => true
    case ResetStep => true
  }

  function After(verdict: Verdict, next: Pc): Pc {
    match verdict
    case Return(o) => Returned(o)
    case Continue => next
    case Wait => Waiting
  }

  /** The section a push runs, given the shared state. */
  function PushSection(k: Config, c: Core, p: Push): (Core, Push) {
    match p.pc
    case Checking => (c, p.(pc := if c.closed then Returned(Overflow) else Deduping))
    case Deduping =>
      var (v, c') := DedupSection(k, c, p.item);
      if v.Continue? then
        (c', p.(pc := Queueing, epoch := c.clears, firstEpoch := if p.waited then p.firstEpoch else c.clears))
      else (c', p.(pc := After(v, Queueing)))
    case Queueing =>
      var (v, c') := QueueSection(k, c, p.item);
      (c', p.(pc := After(v, Queueing)))
    case Waiting => (c, p.(pc := Checking, waited := true))
    case Returned(_) => (c, p)
  }

  function Apply(k: Config, s: System, a: Action): System
    requires Enabled(s, a)
  {
    match a
    case PushStep(i) =>
      var (c, p) := PushSection(k, s.core, s.pushes[i]);
      s.(core := c, pushes := s.pushes[i := p])
    case RecvStep =>
      if s.core.queue != [] then s.(core := PopFront(s.core, false)) else s.(ended := true)
    case CloseStep => s.(core := s.core.(closed := true))
    case ResetStep => s.(core := ResetSection(k, s.core))
  }

  function Fresh(item: Item): Push {
    Push(item, Checking, false, 0, 0)
  }

  ghost predicate IsInit(s: System) {
    s.core == EMPTY && !s.ended && forall i | 0 <= i < |s.pushes| :: s.pushes[i] == Fresh(s.pushes[i].item)
  }

  ghost predicate Run(k: Config, t: seq<System>) {
    t != [] && IsInit(t[0]) && forall j | 0 <= j < |t| - 1 :: Next(k, t[j], t[j + 1])
  }

  ghost predicate Next(k: Config, s: System, s': System) {
    exists a :: Enabled(s, a) && s' == Apply(k, s, a)
  }

  ghost predicate Reachable(k: Config, s: System) {
    exists t :: Run(k, t) && t[|t| - 1] == s
  }

  // ---- queue invariant: a property of the shared state alone ----

  function Bytes(q: seq<Item>): nat {
    if q == [] then 0 else q[0].sizeBytes + Bytes(q[1..])
  }

  function ItemsOf(r: seq<Removal>): seq<Item> {
    if r == [] then [] else ItemsOf(r[..|r| - 1]) + [r[|r| - 1].item]
  }

  function Evictions(r: seq<Removal>): nat {
    if r == [] then 0 else Evictions(r[..|r| - 1]) + (if r[|r| - 1].evicted then 1 else 0)
  }

  ghost predicate WithinCap(k: Config, c: Core) {
    || k.maxBytes == 0 || c.queuedBytes <= k.maxBytes
    || (k.policy == DropOldest && |c.queue| == 1 && c.queue[0].sizeBytes > k.maxBytes)
  }

  /** What holds in every reachable state with capacity at least one. */
  ghost predicate QueueInv(k: Config, c: Core) {
    && |c.queue| <= k.capacity
    && c.queuedBytes == Bytes(c.queue)
    && WithinCap(k, c)
    && History(k, c)
  }

  /** First in, first out: what was accepted is what left, in order, then what is queued.
      Every counter agrees with the history. */
  ghost predicate History(k: Config, c: Core) {
    && c.acceptedLog == ItemsOf(c.removed) + c.queue
    && c.accepted == |c.acceptedLog|
    && c.dropped == Evictions(c.removed) + c.refused
    && (k.policy != DropOldest ==> Evictions(c.removed) == 0)
    && (k.policy != FailFast ==> c.refused == 0)
  }

  lemma {:induction false} BytesAppend(q: seq<Item>, x: Item)
    ensures Bytes(q + [x]) == Bytes(q) + x.sizeBytes
  {
    if q == [] {
      assert q + [x] == [x];
    } else {
      assert (q + [x])[1..] == q[1..] + [x];
      BytesAppend(q[1..], x);
    }
  }

  /** A flow fits if and only if the queue with it respects both bounds, the bytes being the
      sizes of the flows actually queued. */
  lemma FitsIffBoundsHold(k: Config, c: Core, item: Item)
    requires c.queuedBytes == Bytes(c.queue)
    ensures Fits(k, c, item.sizeBytes) <==> (
              |c.queue + [item]| <= k.capacity && (k.maxBytes == 0 || Bytes(c.queue + [item]) <= k.maxBytes))
  {
    BytesAppend(c.queue, item);
  }

  lemma PopFrontHistory(k: Config, c: Core, evicted: bool)
    requires c.queue != [] && c.acceptedLog == ItemsOf(c.removed) + c.queue
    ensures var c' := PopFront(c, evicted);
            && c'.acceptedLog == ItemsOf(c'.removed) + c'.queue
            && Evictions(c'.removed) == Evictions(c.removed) + (if evicted then 1 else 0)
  {
    var c' := PopFront(c, evicted);
    assert c'.removed[..|c'.removed| - 1] == c.removed;
    assert ItemsOf(c.removed) + c.queue == (ItemsOf(c.removed) + [c.queue[0]]) + c.queue[1..];
  }

  lemma {:induction false} EvictKeeps(k: Config, c: Core, incoming: nat)
    requires |c.queue| <= k.capacity && c.queuedBytes == Bytes(c.queue)
    requires k.policy == DropOldest && History(k, c)
    ensures var e := EvictUntilFits(k, c, incoming);
            && |e.queue| <= |c.queue| && e.queuedBytes == Bytes(e.queue) && History(k, e)
            && (e.queue == [] || Fits(k, e, incoming))
    decreases |c.queue|
  {
    if c.queue != [] && !Fits(k, c, incoming) {
      PopFrontHistory(k, c, true);
      EvictKeeps(k, PopFront(c, true).(dropped := c.dropped + 1), incoming);
    }
  }

  lemma EnqueueKeeps(k: Config, c: Core, item: Item)
    requires c.queuedBytes == Bytes(c.queue) && History(k, c)
    requires Fits(k, c, item.sizeBytes) || (k.policy == DropOldest && c.queue == [])
    requires k.capacity > 0
    ensures QueueInv(k, Enqueue(c, item))
  {
    BytesAppend(c.queue, item);
    assert c.acceptedLog + [item] == ItemsOf(c.removed) + (c.queue + [item]);
  }

  lemma QueueSectionKeeps(k: Config, c: Core, item: Item)
    requires QueueInv(k, c) && k.capacity > 0
    ensures QueueInv(k, QueueSection(k, c, item).1)
  {
    if Fits(k, c, item.sizeBytes) {
      EnqueueKeeps(k, c, item);
    } else if k.policy == DropOldest {
      EvictKeeps(k, c, item.sizeBytes);
      EnqueueKeeps(k, EvictUntilFits(k, c, item.sizeBytes), item);
    }
  }

  lemma RecvKeeps(k: Config, c: Core)
    requires QueueInv(k, c) && c.queue != []
    ensures QueueInv(k, PopFront(c, false))
  {
    PopFrontHistory(k, c, false);
  }

  /** The parts of the state that the queue invariant reads. */
  predicate SameQueue(c: Core, d: Core) {
    && c.queue == d.queue && c.queuedBytes == d.queuedBytes && c.accepted == d.accepted && c.dropped == d.dropped
    && c.acceptedLog == d.acceptedLog && c.removed == d.removed && c.refused == d.refused
  }

  lemma OtherSectionsLeaveQueue(k: Config, c: Core, p: Push)
    requires p.pc != Queueing
    ensures SameQueue(PushSection(k, c, p).0, c)
  {
  }

  lemma SameQueueKeeps(k: Config, c: Core, d: Core)
    requires QueueInv(k, c) && SameQueue(d, c)
    ensures QueueInv(k, d)
  {
  }

  lemma QueueInvStep(k: Config, s: System, a: Action)
    requires QueueInv(k, s.core) && k.capacity > 0 && Enabled(s, a)
    ensures QueueInv(k, Apply(k, s, a).core)
  {
    var d := Apply(k, s, a).core;
    if a.PushStep? && s.pushes[a.i].pc == Queueing {
      QueueSectionKeeps(k, s.core, s.pushes[a.i].item);
    } else if a.PushStep? {
      OtherSectionsLeaveQueue(k, s.core, s.pushes[a.i]);
      SameQueueKeeps(k, s.core, d);
    } else if a.RecvStep? && s.core.queue != [] {
      RecvKeeps(k, s.core);
    } else {
      SameQueueKeeps(k, s.core, d);
    }
  }

  // ---- push invariant: what each call's answer means ----

  predicate AnsweredWith(p: Push, o: Outcome) {
    p.pc == Returned(o)
  }

  ghost function AcceptedPushes(s: System, item: Item): nat {
    Count(s.pushes, (p: Push) => p.item == item && AnsweredWith(p, Accepted))
  }

  ghost function DuplicatePushes(s: System): nat {
    Count(s.pushes, (p: Push) => AnsweredWith(p, Duplicate))
  }

  /** A call answered Accepted put its flow in the queue, once; no other call did. */
  ghost predicate AnswersInv(s: System) {
    && (forall item :: AcceptedPushes(s, item) == multiset(s.core.acceptedLog)[item])
    && DuplicatePushes(s) == s.core.duplicates
  }

  lemma {:induction false} EvictKeepsLog(k: Config, c: Core, incoming: nat)
    ensures var e := EvictUntilFits(k, c, incoming);
            && e.acceptedLog == c.acceptedLog && e.duplicates == c.duplicates && e.seen == c.seen
            && e.clears == c.clears && e.closed == c.closed && e.refused == c.refused
    decreases |c.queue|
  {
    if c.queue != [] && !Fits(k, c, incoming) {
      EvictKeepsLog(k, PopFront(c, true).(dropped := c.dropped + 1), incoming);
    }
  }

  /** What one section does to the history: it accepts its own flow or nothing. */
  lemma SectionEffect(k: Config, c: Core, p: Push)
    requires !p.pc.Returned?
    ensures var (c', p') := PushSection(k, c, p);
            && p'.item == p.item
            && c'.acceptedLog == c.acceptedLog + (if AnsweredWith(p', Accepted) then [p.item] else [])
            && c'.duplicates == c.duplicates + (if AnsweredWith(p', Duplicate) then 1 else 0)
            && c'.closed == c.closed
            && ((c'.seen == c.seen && c'.clears == c.clears) || p.pc == Deduping)
            && (AnsweredWith(p', Accepted) ==> p.pc == Queueing)
  {
    EvictKeepsLog(k, c, p.item.sizeBytes);
  }

  lemma AnswersStep(k: Config, s: System, a: Action)
    requires AnswersInv(s) && Enabled(s, a)
    ensures AnswersInv(Apply(k, s, a))
  {
    var s' := Apply(k, s, a);
    if a.PushStep? {
      var p, p' := s.pushes[a.i], s'.pushes[a.i];
      SectionEffect(k, s.core, p);
      CountAfterUpdate(s.pushes, a.i, p', (q: Push) => AnsweredWith(q, Duplicate));
      forall item ensures AcceptedPushes(s', item) == multiset(s'.core.acceptedLog)[item] {
        CountAfterUpdate(s.pushes, a.i, p', (q: Push) => q.item == item && AnsweredWith(q, Accepted));
        assert AcceptedPushes(s, item) == multiset(s.core.acceptedLog)[item];
      }
    } else {
      assert s'.pushes == s.pushes && s'.core.acceptedLog == s.core.acceptedLog;
      forall item ensures AcceptedPushes(s', item) == multiset(s'.core.acceptedLog)[item] {
        assert AcceptedPushes(s, item) == multiset(s.core.acceptedLog)[item];
      }
    }
  }

  // ---- dedup invariant ----

  /** The call has entered its fingerprint and not been answered. */
  predicate Entered(p: Push) {
    p.pc == Queueing || p.pc == Waiting || (p.waited && (p.pc == Checking || p.pc == Deduping))
  }

  /** The fingerprint of an entered call is in the set unless the set was cleared since; a
      call that waited and still got through did so after a clear. */
  predicate DedupPush(c: Core, p: Push) {
    && p.epoch <= c.clears
    && (Entered(p) && p.epoch == c.clears ==> p.item.fingerprint in c.seen)
    && p.firstEpoch <= p.epoch
    && (p.waited && (p.pc == Queueing || AnsweredWith(p, Accepted)) ==> p.firstEpoch < p.epoch)
  }

  function AcceptedWith(log: seq<Item>, f: string): nat {
    if log == [] then 0 else AcceptedWith(log[..|log| - 1], f) + (if log[|log| - 1].fingerprint == f then 1 else 0)
  }

  ghost function QueueingWith(s: System, f: string): nat {
    Count(s.pushes, (p: Push) => p.pc == Queueing && p.item.fingerprint == f)
  }

  ghost function LetThrough(s: System, f: string): nat {
    AcceptedWith(s.core.acceptedLog, f) + QueueingWith(s, f)
  }

  ghost predicate DedupInv(k: Config, s: System) {
    k.dedupEnabled ==>
      && (forall i | 0 <= i < |s.pushes| :: DedupPush(s.core, s.pushes[i]))
      && (k.dedupLimit > 0 ==> |s.core.seen| <= k.dedupLimit)
      && (s.core.clears == 0 ==> forall f :: LetThrough(s, f) <= if f in s.core.seen then 1 else 0)
  }

  lemma DedupPushStep(k: Config, c: Core, p: Push)
    requires k.dedupEnabled && DedupPush(c, p) && !p.pc.Returned?
    ensures var (c', p') := PushSection(k, c, p); DedupPush(c', p')
  {
    EvictKeepsLog(k, c, p.item.sizeBytes);
  }

  lemma DedupOthersStep(k: Config, c: Core, p: Push, q: Push)
    requires k.dedupEnabled && DedupPush(c, q) && !p.pc.Returned?
    ensures DedupPush(PushSection(k, c, p).0, q)
  {
    EvictKeepsLog(k, c, p.item.sizeBytes);
  }

  lemma DedupBound(k: Config, c: Core, p: Push)
    requires k.dedupLimit > 0 && |c.seen| <= k.dedupLimit && !p.pc.Returned?
    ensures |PushSection(k, c, p).0.seen| <= k.dedupLimit
  {
    EvictKeepsLog(k, c, p.item.sizeBytes);
  }

  lemma LetThroughStep(k: Config, s: System, i: nat, f: string)
    requires k.dedupEnabled && Enabled(s, PushStep(i))
    requires Apply(k, s, PushStep(i)).core.clears == 0
    requires LetThrough(s, f) <= if f in s.core.seen then 1 else 0
    ensures var s' := Apply(k, s, PushStep(i)); LetThrough(s', f) <= if f in s'.core.seen then 1 else 0
  {
    var s' := Apply(k, s, PushStep(i));
    var p, p' := s.pushes[i], s'.pushes[i];
    SectionEffect(k, s.core, p);
    CountAfterUpdate(s.pushes, i, p', (q: Push) => q.pc == Queueing && q.item.fingerprint == f);
    if AnsweredWith(p', Accepted) {
      assert s'.core.acceptedLog[..|s'.core.acceptedLog| - 1] == s.core.acceptedLog;
    }
  }

  lemma DedupInvStep(k: Config, s: System, a: Action)
    requires DedupInv(k, s) && Enabled(s, a)
    ensures DedupInv(k, Apply(k, s, a))
  {
    var s' := Apply(k, s, a);
    if k.dedupEnabled {
      match a
      case PushStep(i) =>
        SectionEffect(k, s.core, s.pushes[i]);
        forall j | 0 <= j < |s'.pushes| ensures DedupPush(s'.core, s'.pushes[j]) {
          if j == i {
            DedupPushStep(k, s.core, s.pushes[i]);
          } else {
            DedupOthersStep(k, s.core, s.pushes[i], s.pushes[j]);
          }
        }
        if k.dedupLimit > 0 { DedupBound(k, s.core, s.pushes[i]); }
        if s'.core.clears == 0 {
          ClearsGrow(k, s.core, s.pushes[i]);
          forall f ensures LetThrough(s', f) <= if f in s'.core.seen then 1 else 0 { LetThroughStep(k, s, i, f); }
        }
      case RecvStep => SameLetThrough(s, s');
      case CloseStep => SameLetThrough(s, s');
      case ResetStep =>
    }
  }

  lemma ClearsGrow(k: Config, c: Core, p: Push)
    ensures PushSection(k, c, p).0.clears >= c.clears
  {
    EvictKeepsLog(k, c, p.item.sizeBytes);
  }

  lemma SameLetThrough(s: System, s': System)
    requires s'.pushes == s.pushes && s'.core.acceptedLog == s.core.acceptedLog
    ensures forall f :: LetThrough(s', f) == LetThrough(s, f)
  {
  }

  // ---- over whole runs ----

  ghost predicate Invariant(k: Config, s: System) {
    (k.capacity > 0 ==> QueueInv(k, s.core)) && AnswersInv(s) && DedupInv(k, s)
  }

  lemma InvariantAtStart(k: Config, s: System)
    requires IsInit(s)
    ensures Invariant(k, s)
  {
    forall item ensures AcceptedPushes(s, item) == 0 {
      CountZero(s.pushes, (p: Push) => p.item == item && AnsweredWith(p, Accepted));
    }
    CountZero(s.pushes, (p: Push) => AnsweredWith(p, Duplicate));
    forall f ensures LetThrough(s, f) == 0 {
      CountZero(s.pushes, (p: Push) => p.pc == Queueing && p.item.fingerprint == f);
    }
  }

  lemma InvariantStep(k: Config, s: System, a: Action)
    requires Invariant(k, s) && Enabled(s, a)
    ensures Invariant(k, Apply(k, s, a))
  {
    if k.capacity > 0 { QueueInvStep(k, s, a); }
    AnswersStep(k, s, a);
    DedupInvStep(k, s, a);
  }

  lemma {:induction false} InvariantAlongRun(k: Config, t: seq<System>, j: nat)
    requires Run(k, t) && j < |t|
    ensures Invariant(k, t[j])
  {
    if j == 0 {
      InvariantAtStart(k, t[0]);
    } else {
      InvariantAlongRun(k, t, j - 1);
      assert Next(k, t[j - 1], t[j]);
      var a :| Enabled(t[j - 1], a) && t[j] == Apply(k, t[j - 1], a);
      InvariantStep(k, t[j - 1], a);
    }
  }

  lemma InvariantReached(k: Config, s: System)
    requires Reachable(k, s)
    ensures Invariant(k, s)
  {
    var t :| Run(k, t) && t[|t| - 1] == s;
    InvariantAlongRun(k, t, |t| - 1);
  }

  // ---- main results ----

  /** In every reachable state with capacity at least one: length and bytes are bounded,
      the queue is first in first out, and every counter agrees with the history. */
  lemma BufferIsSafe(k: Config, s: System)
    requires Reachable(k, s) && k.capacity > 0
    ensures |s.core.queue| <= k.capacity && s.core.queuedBytes == Bytes(s.core.queue)
    ensures WithinCap(k, s.core)
    ensures s.core.acceptedLog == ItemsOf(s.core.removed) + s.core.queue
    ensures s.core.accepted == |s.core.removed| + |s.core.queue|
    ensures s.core.dropped == Evictions(s.core.removed) + s.core.refused
  {
    InvariantReached(k, s);
    ItemsOfLength(s.core.removed);
  }

  lemma {:induction false} ItemsOfLength(r: seq<Removal>)
    ensures |ItemsOf(r)| == |r|
  {
    if r != [] { ItemsOfLength(r[..|r| - 1]); }
  }

  /** Under Block nothing that was accepted is lost: what left the queue was delivered. */
  lemma BlockLosesNothingAccepted(k: Config, s: System)
    requires Reachable(k, s) && k.capacity > 0 && k.policy == Block
    ensures s.core.dropped == 0 && s.core.refused == 0
    ensures forall r | r in s.core.removed :: !r.evicted
  {
    InvariantReached(k, s);
    NoEvictions(s.core.removed);
  }

  lemma {:induction false} NoEvictions(r: seq<Removal>)
    requires Evictions(r) == 0
    ensures forall x | x in r :: !x.evicted
  {
    if r != [] {
      NoEvictions(r[..|r| - 1]);
      assert r == r[..|r| - 1] + [r[|r| - 1]];
    }
  }

  /** The answer of a call tells what happened to its flow: for every flow, the calls
      answered Accepted are as many as its entries in the accepted history. */
  lemma AnswersAreTrue(k: Config, s: System, item: Item)
    requires Reachable(k, s)
    ensures AcceptedPushes(s, item) == multiset(s.core.acceptedLog)[item]
    ensures s.core.duplicates == DuplicatePushes(s)
  {
    InvariantReached(k, s);
  }

  /** Until the set is first cleared, no fingerprint is accepted twice; the set respects
      its limit. */
  lemma DedupWorks(k: Config, s: System, f: string)
    requires Reachable(k, s) && k.dedupEnabled
    ensures s.core.clears == 0 ==> AcceptedWith(s.core.acceptedLog, f) <= 1
    ensures k.dedupLimit > 0 ==> |s.core.seen| <= k.dedupLimit
  {
    InvariantReached(k, s);
    assert s.core.clears == 0 ==> LetThrough(s, f) <= 1;
  }

  /** A push that waited meets its own fingerprint when it retries: with dedup on and the
      set not cleared since, its next pass through the set answers Duplicate. */
  lemma WaitedPushIsCalledDuplicate(k: Config, s: System, i: nat)
    requires Reachable(k, s) && k.dedupEnabled
    requires i < |s.pushes| && s.pushes[i].waited && s.pushes[i].pc == Deduping
    requires s.pushes[i].epoch == s.core.clears
    ensures AnsweredWith(Apply(k, s, PushStep(i)).pushes[i], Duplicate)
  {
    InvariantReached(k, s);
    assert DedupPush(s.core, s.pushes[i]);
  }

  /** So, with dedup on, a push that waited was accepted only if the set was cleared after
      it first entered its fingerprint. */
  lemma WaitedPushAcceptedOnlyAfterClear(k: Config, s: System, i: nat)
    requires Reachable(k, s) && k.dedupEnabled
    requires i < |s.pushes| && s.pushes[i].waited && AnsweredWith(s.pushes[i], Accepted)
    ensures s.pushes[i].firstEpoch < s.pushes[i].epoch <= s.core.clears
  {
    InvariantReached(k, s);
    assert DedupPush(s.core, s.pushes[i]);
  }

  /** With a byte cap, a flow larger than the cap is accepted under DropOldest only; the
      other policies never take it, not even into an empty queue. */
  lemma OversizedNeverAccepted(k: Config, t: seq<System>, j: nat)
    requires Run(k, t) && j < |t| && k.capacity > 0 && k.policy != DropOldest && k.maxBytes > 0
    ensures forall item | item in t[j].core.acceptedLog :: item.sizeBytes <= k.maxBytes
    ensures forall i | 0 <= i < |t[j].pushes| && t[j].pushes[i].item.sizeBytes > k.maxBytes ::
              !AnsweredWith(t[j].pushes[i], Accepted)
  {
    AcceptedFit(k, t, j);
    InvariantAlongRun(k, t, j);
    forall i | 0 <= i < |t[j].pushes| && t[j].pushes[i].item.sizeBytes > k.maxBytes
      ensures !AnsweredWith(t[j].pushes[i], Accepted)
    {
      var item := t[j].pushes[i].item;
      assert AcceptedPushes(t[j], item) == multiset(t[j].core.acceptedLog)[item] == 0;
      CountZero(t[j].pushes, (p: Push) => p.item == item && AnsweredWith(p, Accepted));
    }
  }

  lemma {:induction false} AcceptedFit(k: Config, t: seq<System>, j: nat)
    requires Run(k, t) && j < |t| && k.capacity > 0 && k.policy != DropOldest && k.maxBytes > 0
    ensures forall item | item in t[j].core.acceptedLog :: item.sizeBytes <= k.maxBytes
  {
    if j > 0 {
      AcceptedFit(k, t, j - 1);
      InvariantAlongRun(k, t, j - 1);
      assert Next(k, t[j - 1], t[j]);
      var a :| Enabled(t[j - 1], a) && t[j] == Apply(k, t[j - 1], a);
      if a.PushStep? {
        SectionEffect(k, t[j - 1].core, t[j - 1].pushes[a.i]);
      }
    }
  }

  // ---- closing ----

  /** Past the closed check and not yet answered or waiting. */
  predicate PastCheck(p: Push) {
    p.pc == Deduping || p.pc == Queueing
  }

  /** Once closed with nobody past the check, the accepted history is final, and a queue
      that is empty stays empty. */
  lemma {:induction false} ClosedIsFinal(k: Config, t: seq<System>, i: nat, j: nat)
    requires Run(k, t) && i <= j < |t|
    requires t[i].core.closed && forall m | 0 <= m < |t[i].pushes| :: !PastCheck(t[i].pushes[m])
    ensures t[j].core.closed && forall m | 0 <= m < |t[j].pushes| :: !PastCheck(t[j].pushes[m])
    ensures t[j].core.acceptedLog == t[i].core.acceptedLog
    ensures t[i].core.queue == [] ==> t[j].core.queue == []
    decreases j - i
  {
    if i < j {
      ClosedIsFinal(k, t, i, j - 1);
      assert Next(k, t[j - 1], t[j]);
      var a :| Enabled(t[j - 1], a) && t[j] == Apply(k, t[j - 1], a);
      ClosedStep(k, t[j - 1], a);
    }
  }

  lemma ClosedStep(k: Config, s: System, a: Action)
    requires Enabled(s, a) && s.core.closed && forall m | 0 <= m < |s.pushes| :: !PastCheck(s.pushes[m])
    ensures var s' := Apply(k, s, a);
            && s'.core.closed && (forall m | 0 <= m < |s'.pushes| :: !PastCheck(s'.pushes[m]))
            && s'.core.acceptedLog == s.core.acceptedLog && (s.core.queue == [] ==> s'.core.queue == [])
  {
    if a.PushStep? {
      assert !PastCheck(s.pushes[a.i]);
    }
  }

  /** One more step of a run. */
  lemma Extend(k: Config, t: seq<System>, a: Action) returns (t': seq<System>)
    requires Run(k, t) && Enabled(t[|t| - 1], a)
    ensures Run(k, t') && t'[|t'| - 1] == Apply(k, t[|t| - 1], a)
  {
    t' := t + [Apply(k, t[|t| - 1], a)];
    forall j | 0 <= j < |t'| - 1 ensures Next(k, t'[j], t'[j + 1]) {
      if j < |t| - 1 { assert Next(k, t[j], t[j + 1]); }
    }
  }

  /** A push past the check can land after recv has reported the end of the stream. */
  lemma LateLanding(item: Item) returns (k: Config, s: System)
    ensures Reachable(k, s) && s.ended && s.core.queue == [item]
  {
    k := Config(1, 0, false, 0, Block);
    var t := [System(EMPTY, [Fresh(item)], false)];
    t := Extend(k, t, PushStep(0));
    t := Extend(k, t, CloseStep);
    t := Extend(k, t, RecvStep);
    t := Extend(k, t, PushStep(0));
    t := Extend(k, t, PushStep(0));
    s := t[|t| - 1];
  }
}
