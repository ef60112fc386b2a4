/** The playback queue: an array ring with an item limit and a duration budget, which evicts its oldest items to make
    room, and a start-up gate that waits until enough audio is buffered. */
module PlaybackQueue {
  import opened Options
  import opened Division

  datatype InputMode = NoInput | Pcm | Encoded

  datatype Item = Item(mode: InputMode, durationUs: nat, payload: int)

  datatype Config = Config(maxItems: nat, maxDurationUs: nat, prebufferUs: nat)

  predicate ConfigOk(c: Config) {
    c.maxItems > 0 && c.maxDurationUs > 0
  }

  /** The queue as a plain sequence, with the counters that describe its history since the last clear. */
  datatype Queue = Queue(items: seq<Item>, mode: InputMode, started: bool, acceptedItems: nat, droppedItems: nat,
                         poppedItems: nat)

  function TotalUs(items: seq<Item>): nat
    decreases |items|
  {
    if items == [] then 0 else items[0].durationUs + TotalUs(items[1..])
  }

  lemma {:induction false} TotalUsAppend(items: seq<Item>, item: Item)
    ensures TotalUs(items + [item]) == TotalUs(items) + item.durationUs
    decreases |items|
  {
    if items == [] {
      assert items + [item] == [item];
      assert TotalUs([item]) == item.durationUs + TotalUs([]);
    } else {
      assert (items + [item])[1..] == items[1..] + [item];
      TotalUsAppend(items[1..], item);
    }
  }

  /** One more item respects both limits. */
  predicate Fits(items: seq<Item>, item: Item, c: Config) {
    |items| < c.maxItems && TotalUs(items) + item.durationUs <= c.maxDurationUs
  }

  /** The eviction loop. */
  function Evict(items: seq<Item>, item: Item, c: Config): (kept: seq<Item>)
    ensures |kept| <= |items|
    decreases |items|
  {
    if items == [] || Fits(items, item, c) then items else Evict(items[1..], item, c)
  }

  /** enqueueItemLocked on a running, not stopping queue. */
  function Push(q: Queue, item: Item, c: Config): (Queue, bool) {
    if q.mode != NoInput && q.mode != item.mode then (q, false)
    else
      var kept := Evict(q.items, item, c);
      (Queue(kept + [item], item.mode, q.started, q.acceptedItems + 1, q.droppedItems + (|q.items| - |kept|),
             q.poppedItems), true)
  }

  /** The worker's wait condition, while nobody asks it to stop. */
  predicate GateOpen(q: Queue, c: Config) {
    q.items != [] && (q.started || TotalUs(q.items) >= c.prebufferUs)
  }

  function Pop(q: Queue): Queue
    requires q.items != []
  {
    q.(items := q.items[1..], started := true, poppedItems := q.poppedItems + 1)
  }

  // ---------------------------------------------------------------- what a push does

  /** Exactly the shortest prefix that makes room is evicted: everything shorter leaves a non-empty queue that does
      not fit, and what is left is empty or fits. */
  lemma {:induction false} EvictsShortestPrefix(items: seq<Item>, item: Item, c: Config)
    returns (k: nat)
    ensures k <= |items| && Evict(items, item, c) == items[k..]
    ensures items[k..] == [] || Fits(items[k..], item, c)
    ensures forall j: nat | j < k :: items[j..] != [] && !Fits(items[j..], item, c)
    decreases |items|
  {
    if items == [] || Fits(items, item, c) {
      assert items[0..] == items;
      return 0;
    }
    var rest := EvictsShortestPrefix(items[1..], item, c);
    k := rest + 1;
    assert items[1..][rest..] == items[k..];
    forall j: nat | j < k ensures items[j..] != [] && !Fits(items[j..], item, c) {
      if j == 0 {
        assert items[0..] == items;
      } else {
        assert items[1..][j - 1..] == items[j..];
      }
    }
  }

  ghost predicate WithinLimits(items: seq<Item>, c: Config) {
    |items| <= c.maxItems && (TotalUs(items) <= c.maxDurationUs || |items| <= 1)
  }

  /** Everything accepted is queued, was popped or was dropped. */
  predicate Balanced(q: Queue) {
    q.acceptedItems == q.poppedItems + q.droppedItems + |q.items|
  }

  ghost predicate Inv(q: Queue, c: Config) {
    WithinLimits(q.items, c) && Balanced(q) && (forall i | 0 <= i < |q.items| :: q.items[i].mode == q.mode)
    && (q.items != [] ==> q.mode != NoInput)
  }

  lemma AppendKeepsLimits(kept: seq<Item>, item: Item, c: Config)
    requires ConfigOk(c) && (kept == [] || Fits(kept, item, c))
    ensures WithinLimits(kept + [item], c)
  {
    TotalUsAppend(kept, item);
  }

  /** What is kept is a suffix, so modes and balance carry over. */
  lemma PushKeepsModes(q: Queue, item: Item, c: Config, k: nat)
    requires ConfigOk(c) && Inv(q, c) && item.mode != NoInput && (q.mode == NoInput || q.mode == item.mode)
    requires k <= |q.items| && Evict(q.items, item, c) == q.items[k..]
    ensures var r := Push(q, item, c).0;
            && Balanced(r) && r.items == q.items[k..] + [item]
            && forall i | 0 <= i < |r.items| :: r.items[i].mode == r.mode
  {
    assert forall i | 0 <= i < |q.items[k..]| :: q.items[k..][i] == q.items[k + i];
  }

  lemma PushKeepsInv(q: Queue, item: Item, c: Config) returns (k: nat)
    requires ConfigOk(c) && Inv(q, c) && item.mode != NoInput
    ensures var (r, ok) := Push(q, item, c);
            && Inv(r, c)
            && (ok <==> q.mode == NoInput || q.mode == item.mode)
            && (if ok then k <= |q.items| && r.items == q.items[k..] + [item] else r == q)
  {
    k := 0;
    if q.mode == NoInput || q.mode == item.mode {
      k := EvictsShortestPrefix(q.items, item, c);
      PushKeepsModes(q, item, c, k);
      AppendKeepsLimits(Evict(q.items, item, c), item, c);
    }
  }

  lemma {:induction false} TotalUsTail(items: seq<Item>, k: nat)
    requires k <= |items|
    ensures TotalUs(items[k..]) <= TotalUs(items)
    decreases |items|
  {
    if k == 0 {
      assert items[0..] == items;
    } else {
      assert items[1..][k - 1..] == items[k..];
      TotalUsTail(items[1..], k - 1);
    }
  }

  lemma PopKeepsInv(q: Queue, c: Config)
    requires ConfigOk(c) && Inv(q, c) && q.items != []
    ensures Inv(Pop(q), c)
  {
    TotalUsTail(q.items, 1);
  }

  datatype Event = Pushed(item: Item) | Popped | Starved

  /** Starved: the device ran dry, so the gate has to be passed again. */
  function Step(q: Queue, e: Event, c: Config): Queue {
    match e
    case Pushed(item) => if item.mode == NoInput then q else Push(q, item, c).0
    case Popped => if GateOpen(q, c) then Pop(q) else q
    case Starved => q.(started := false)
  }

  function Run(q: Queue, es: seq<Event>, c: Config): Queue
    decreases |es|
  {
    if es == [] then q else Run(Step(q, es[0], c), es[1..], c)
  }

  const EMPTY_QUEUE: Queue := Queue([], NoInput, false, 0, 0, 0)

  /** Along every run: at most maxItems items; the budget is kept unless a single item exceeds it; and every accepted
      item is queued, popped or dropped. */
  lemma {:induction false} RunKeepsInv(q: Queue, es: seq<Event>, c: Config)
    requires ConfigOk(c) && Inv(q, c)
    ensures Inv(Run(q, es, c), c)
    decreases |es|
  {
    if es != [] {
      match es[0] {
        case Pushed(item) => if item.mode != NoInput { var _ := PushKeepsInv(q, item, c); }
        case Popped => if q.items != [] { PopKeepsInv(q, c); }
        case Starved =>
      }
      RunKeepsInv(Step(q, es[0], c), es[1..], c);
    }
  }

  // ---------------------------------------------------------------- what is played

  /** An item comes out. */
  predicate Plays(q: Queue, e: Event, c: Config) {
    e.Popped? && |Step(q, e, c).items| < |q.items|
  }

  /** Whether an item has come out since the device last ran dry. */
  function Playing(playing: bool, q: Queue, es: seq<Event>, c: Config): bool
    decreases |es|
  {
    if es == [] then playing
    else Playing(!es[0].Starved? && (playing || Plays(q, es[0], c)), Step(q, es[0], c), es[1..], c)
  }

  lemma {:induction false} StartedMeansPlaying(q: Queue, es: seq<Event>, c: Config)
    ensures Run(q, es, c).started == Playing(q.started, q, es, c)
    decreases |es|
  {
    if es != [] {
      StartedMeansPlaying(Step(q, es[0], c), es[1..], c);
    }
  }

  /** Over every run the worker takes the oldest item if and only if there is one and either an item has come out since
      the device last ran dry or the prebuffer is reached; otherwise it changes nothing. */
  lemma PlaysOldestIff(es: seq<Event>, c: Config)
    ensures var q, r := Run(EMPTY_QUEUE, es, c), Step(Run(EMPTY_QUEUE, es, c), Popped, c);
            if q.items != [] && (Playing(false, EMPTY_QUEUE, es, c) || TotalUs(q.items) >= c.prebufferUs)
            then r.items == q.items[1..] && r.mode == q.mode && r.poppedItems == q.poppedItems + 1
                 && r.acceptedItems == q.acceptedItems && r.droppedItems == q.droppedItems
            else r == q
  {
    StartedMeansPlaying(EMPTY_QUEUE, es, c);
  }

  /** The items that come out along a run, and those that were accepted. */
  function Played(q: Queue, es: seq<Event>, c: Config): seq<Item>
    decreases |es|
  {
    if es == [] then []
    else (if Plays(q, es[0], c) then [q.items[0]] else []) + Played(Step(q, es[0], c), es[1..], c)
  }

  function Accepted(q: Queue, es: seq<Event>, c: Config): seq<Item>
    decreases |es|
  {
    if es == [] then []
    else
      (if es[0].Pushed? && Step(q, es[0], c) != q then [es[0].item] else []) + Accepted(Step(q, es[0], c), es[1..], c)
  }

  /** s is what is left of t when some items are taken out. */
  predicate Subsequence(s: seq<Item>, t: seq<Item>)
    decreases |t|
  {
    s == []
    || (t != [] && ((s[0] == t[0] && Subsequence(s[1..], t[1..])) || Subsequence(s, t[1..])))
  }

  lemma {:induction false} WithMoreInFront(s: seq<Item>, before: seq<Item>, t: seq<Item>)
    requires Subsequence(s, t)
    ensures Subsequence(s, before + t)
    decreases |before|
  {
    if before == [] {
      assert before + t == t;
    } else {
      WithMoreInFront(s, before[1..], t);
      assert (before + t)[1..] == before[1..] + t;
    }
  }

  lemma {:induction false} Whole(s: seq<Item>)
    ensures Subsequence(s, s)
    decreases |s|
  {
    if s != [] {
      Whole(s[1..]);
    }
  }

  lemma PlayedFirst(item: Item, s: seq<Item>, t: seq<Item>)
    requires Subsequence(s, t)
    ensures Subsequence([item] + s, [item] + t)
  {
    assert ([item] + s)[1..] == s && ([item] + t)[1..] == t;
  }

  /** What a push adds at the end and evicts at the front. */
  lemma PushedInOrder(q: Queue, item: Item, c: Config, s: seq<Item>, later: seq<Item>)
    requires Push(q, item, c).1 && Subsequence(s, Push(q, item, c).0.items + later)
    ensures Subsequence(s, q.items + ([item] + later))
  {
    var k := EvictsShortestPrefix(q.items, item, c);
    assert Push(q, item, c).0.items + later == q.items[k..] + ([item] + later);
    WithMoreInFront(s, q.items[..k], q.items[k..] + ([item] + later));
    assert q.items[..k] + (q.items[k..] + ([item] + later)) == q.items + ([item] + later);
  }

  /** What is played along the run, followed by what is still queued then, is what was queued and accepted, in the same
      order, without the items that were evicted. */
  predicate InOrder(q: Queue, es: seq<Event>, c: Config) {
    Subsequence(Played(q, es, c) + Run(q, es, c).items, q.items + Accepted(q, es, c))
  }

  lemma TakenInOrder(q: Queue, es: seq<Event>, c: Config)
    requires es != [] && Plays(q, es[0], c) && InOrder(Step(q, es[0], c), es[1..], c)
    ensures InOrder(q, es, c)
  {
    var r := Step(q, es[0], c);
    var s, later := Played(r, es[1..], c) + Run(r, es[1..], c).items, Accepted(r, es[1..], c);
    PlayedFirst(q.items[0], s, r.items + later);
    assert [q.items[0]] + (r.items + later) == q.items + Accepted(q, es, c);
    assert [q.items[0]] + s == Played(q, es, c) + Run(q, es, c).items;
  }

  lemma QueuedInOrder(q: Queue, es: seq<Event>, c: Config)
    requires es != [] && !Plays(q, es[0], c) && InOrder(Step(q, es[0], c), es[1..], c)
    ensures InOrder(q, es, c)
  {
    var r, e := Step(q, es[0], c), es[0];
    var s, later := Played(r, es[1..], c) + Run(r, es[1..], c).items, Accepted(r, es[1..], c);
    assert s == Played(q, es, c) + Run(q, es, c).items;
    if r != q && e.Pushed? {
      PushedInOrder(q, e.item, c, s, later);
    } else {
      assert r.items == q.items && Accepted(q, es, c) == later;
    }
  }

  /** Nothing is reordered, repeated or invented: over every run, items come out in the order in which they were
      accepted, and only those the queue evicted are missing. */
  lemma {:induction false} PlayedInOrder(q: Queue, es: seq<Event>, c: Config)
    ensures InOrder(q, es, c)
    decreases |es|
  {
    if es == [] {
      Whole(q.items);
      assert [] + q.items == q.items && q.items + [] == q.items;
    } else {
      PlayedInOrder(Step(q, es[0], c), es[1..], c);
      if Plays(q, es[0], c) {
        TakenInOrder(q, es, c);
      } else {
        QueuedInOrder(q, es, c);
      }
    }
  }

  // ---------------------------------------------------------------- when the start-up gate can open

  /** How many items of duration d the queue can hold. */
  function Depth(d: nat, c: Config): nat
    requires d > 0
  {
    var byDuration := if c.maxDurationUs / d > 1 then c.maxDurationUs / d else 1;
    if c.maxItems < byDuration then c.maxItems else byDuration
  }

  predicate EachLasts(items: seq<Item>, d: nat) {
    forall i | 0 <= i < |items| :: items[i].durationUs == d
  }

  lemma {:induction false} TotalOfEqual(items: seq<Item>, d: nat)
    requires EachLasts(items, d)
    ensures TotalUs(items) == d * |items|
    decreases |items|
  {
    if items != [] {
      TotalOfEqual(items[1..], d);
      assert d * |items| == d + d * (|items| - 1);
    }
  }

  lemma ProductMonotone(d: nat, j: nat, k: nat)
    requires j <= k
    ensures d * j <= d * k
  {
    assert d * k == d * j + d * (k - j);
  }

  lemma ProductBound(d: nat, k: nat, budget: nat)
    requires d > 0
    ensures d * k <= budget <==> k <= budget / d
  {
    var q, m := budget / d, budget % d;
    assert budget == d * q + m && m < d;
    if k <= q {
      ProductMonotone(d, k, q);
    } else {
      ProductMonotone(d, q + 1, k);
      assert d * (q + 1) == d * q + d;
    }
  }

  /** A push of equal items fills the queue up to its depth and keeps it there. */
  lemma PushOfEqual(q: Queue, item: Item, d: nat, c: Config)
    requires ConfigOk(c) && d > 0 && item.durationUs == d && EachLasts(q.items, d) && |q.items| <= Depth(d, c)
    requires q.mode == NoInput || q.mode == item.mode
    ensures var r := Push(q, item, c).0;
            EachLasts(r.items, d) && r.mode == item.mode && r.started == q.started
            && |r.items| == (if |q.items| < Depth(d, c) then |q.items| + 1 else Depth(d, c))
  {
    var n := |q.items|;
    FitsEqual(q.items, item, d, c);
    if n == Depth(d, c) {
      FitsEqual(q.items[1..], item, d, c);
      assert Evict(q.items, item, c) == Evict(q.items[1..], item, c) == q.items[1..];
    } else {
      assert Evict(q.items, item, c) == q.items;
    }
  }

  /** Among equal items, one more fits a non-empty queue exactly up to the depth. */
  lemma FitsEqual(items: seq<Item>, item: Item, d: nat, c: Config)
    requires ConfigOk(c) && d > 0 && item.durationUs == d && EachLasts(items, d)
    ensures items != [] ==> (Fits(items, item, c) <==> |items| < Depth(d, c))
  {
    TotalOfEqual(items, d);
    ProductBound(d, |items| + 1, c.maxDurationUs);
    assert d * (|items| + 1) == d * |items| + d;
  }

  function PushMany(q: Queue, items: seq<Item>, c: Config): Queue
    decreases |items|
  {
    if items == [] then q else PushMany(Push(q, items[0], c).0, items[1..], c)
  }

  function Copies(n: nat, item: Item): (items: seq<Item>)
    ensures |items| == n && forall i | 0 <= i < n :: items[i] == item
  {
    seq(n, _ => item)
  }

  lemma {:induction false} PushManyOfEqual(q: Queue, items: seq<Item>, item: Item, c: Config)
    requires ConfigOk(c) && item.durationUs > 0 && EachLasts(q.items, item.durationUs)
    requires |q.items| <= Depth(item.durationUs, c) && (q.mode == NoInput || q.mode == item.mode)
    requires forall i | 0 <= i < |items| :: items[i] == item
    ensures var r := PushMany(q, items, c);
            var depth := Depth(item.durationUs, c);
            EachLasts(r.items, item.durationUs) && r.started == q.started
            && |r.items| == (if |q.items| + |items| < depth then |q.items| + |items| else depth)
    decreases |items|
  {
    if items != [] {
      PushOfEqual(q, items[0], item.durationUs, c);
      PushManyOfEqual(Push(q, items[0], c).0, items[1..], item, c);
    }
  }

  /** The queue after n pushes of the same item into a queue that has not started. */
  function AfterPushes(n: nat, item: Item, c: Config): Queue {
    PushMany(EMPTY_QUEUE, Copies(n, item), c)
  }

  /** Then the gate is open exactly when the items the queue still holds are long enough. */
  lemma GateAfter(n: nat, item: Item, c: Config)
    requires ConfigOk(c) && item.durationUs > 0 && item.mode != NoInput
    ensures var d := item.durationUs;
            GateOpen(AfterPushes(n, item, c), c)
            <==> n > 0 && c.prebufferUs <= d * (if n < Depth(d, c) then n else Depth(d, c))
  {
    PushManyOfEqual(EMPTY_QUEUE, Copies(n, item), item, c);
    TotalOfEqual(AfterPushes(n, item, c).items, item.durationUs);
  }

  /** Playback of items of constant duration d can ever start if and only if the prebuffer is at most what the queue
      can hold: d times the smaller of the item limit and the budget in whole items (at least one). */
  lemma GateReachability(item: Item, c: Config)
    requires ConfigOk(c) && item.durationUs > 0 && item.mode != NoInput
    ensures (exists n: nat :: GateOpen(AfterPushes(n, item, c), c))
       <==> c.prebufferUs <= item.durationUs * Depth(item.durationUs, c)
  {
    var d, depth := item.durationUs, Depth(item.durationUs, c);
    forall n: nat ensures GateOpen(AfterPushes(n, item, c), c) ==> c.prebufferUs <= d * depth {
      GateAfter(n, item, c);
      if n < depth {
        ProductMonotone(d, n, depth);
      }
    }
    GateAfter(depth, item, c);
  }

  /** Items of 20 ms and room for two of them, but 60 ms to be buffered first. */
  const TIGHT := Config(2, 1000000, 60000)

  const PACKET := Item(Encoded, 20000, 0)

  /** An accepted configuration whose gate never opens, whatever number of packets is pushed. */
  lemma SomeGatesNeverOpen(n: nat)
    ensures ConfigOk(TIGHT) && !GateOpen(AfterPushes(n, PACKET, TIGHT), TIGHT)
  {
    assert Depth(20000, TIGHT) == 2;
    GateReachability(PACKET, TIGHT);
  }

  // ---------------------------------------------------------------- the ring

  /** Position i places behind head in a ring of n. */
  function Slot(head: nat, i: nat, n: nat): nat
    requires head < n && i <= n
  {
    if head + i < n then head + i else head + i - n
  }

  lemma SlotIsMod(head: nat, i: nat, n: nat)
    requires head < n && i <= n
    ensures (head + i) % n == Slot(head, i, n)
  {
    if head + i < n {
      DivUnique(head + i, n, 0, head + i);
    } else {
      DivUnique(head + i, n, 1, head + i - n);
    }
  }

  function RingContents(ring: seq<Item>, head: nat, count: nat): (s: seq<Item>)
    requires head < |ring| && count <= |ring|
    ensures |s| == count
  {
    seq(count, i requires 0 <= i < count => ring[Slot(head, i, |ring|)])
  }

  const NO_ITEM: Item := Item(NoInput, 0, 0)

  class Ring {
    const config: Config
    const queue: array<Item>
    var head: nat
    var count: nat
    var queuedDurationUs: nat
    var mode: InputMode
    var playbackStarted: bool
    var running: bool
    var stopRequested: bool
    var acceptedItems: nat
    var droppedQueuedItems: nat
    ghost var poppedItems: nat

    ghost predicate Valid()
      reads this, queue
    {
      && ConfigOk(config) && queue.Length == config.maxItems && head < queue.Length && count <= queue.Length
      && queuedDurationUs == TotalUs(Contents())
    }

    ghost function Contents(): seq<Item>
      requires head < queue.Length && count <= queue.Length
      reads this, queue
    {
      RingContents(queue[..], head, count)
    }

    ghost function View(): Queue
      requires Valid()
      reads this, queue
    {
      Queue(Contents(), mode, playbackStarted, acceptedItems, droppedQueuedItems, poppedItems)
    }

    /** start with an accepted configuration and an open device. */
    constructor (config: Config)
      requires ConfigOk(config)
      ensures Valid() && fresh(queue) && running && !stopRequested && this.config == config && View() == EMPTY_QUEUE
    {
      this.config := config;
      queue := new Item[config.maxItems](_ => NO_ITEM);
      head, count, queuedDurationUs, mode, playbackStarted := 0, 0, 0, NoInput, false;
      running, stopRequested, acceptedItems, droppedQueuedItems, poppedItems := true, false, 0, 0, 0;
    }

    method Enqueue(item: Item) returns (ok: bool)
      requires Valid() && item.mode != NoInput
      modifies this, queue
      ensures Valid() && running == old(running) && stopRequested == old(stopRequested)
      ensures (View(), ok) == if old(running) && !old(stopRequested)
                              then Push(old(View()), item, config)
                              else (old(View()), false)
    {
      if !running || stopRequested {
        return false;
      }
      if mode == NoInput {
        mode := item.mode;
      } else if mode != item.mode {
        return false;
      }
      EvictFor(item);
      Append(item);
      acceptedItems := acceptedItems + 1;
      return true;
    }

    /** The eviction loop; the clamp on the duration never bites. */
    method EvictFor(item: Item)
      requires Valid()
      modifies this`head, this`count, this`queuedDurationUs, this`droppedQueuedItems, queue
      ensures Valid() && Contents() == Evict(old(Contents()), item, config)
      ensures droppedQueuedItems == old(droppedQueuedItems) + (old(count) - count)
    {
      while count != 0 && (count == queue.Length || queuedDurationUs + item.durationUs > config.maxDurationUs)
        invariant Valid() && count <= old(count)
        invariant Evict(Contents(), item, config) == Evict(old(Contents()), item, config)
        invariant droppedQueuedItems == old(droppedQueuedItems) + (old(count) - count)
        decreases count
      {
        var oldest := RemoveOldest();
        droppedQueuedItems := droppedQueuedItems + 1;
      }
    }

    /** Take the item at the head and clear its place. */
    method RemoveOldest() returns (oldest: Item)
      requires Valid() && count > 0
      modifies this`head, this`count, this`queuedDurationUs, queue
      ensures Valid() && oldest == old(Contents())[0] && Contents() == old(Contents())[1..]
      ensures queuedDurationUs == old(queuedDurationUs) - oldest.durationUs
    {
      ghost var before := queue[..];
      oldest := queue[head];
      var freed := if queuedDurationUs < oldest.durationUs then queuedDurationUs else oldest.durationUs;
      queuedDurationUs := queuedDurationUs - freed;
      queue[head] := NO_ITEM;
      SlotIsMod(head, 1, queue.Length);
      head := (head + 1) % queue.Length;
      count := count - 1;
      assert queue[..] == before[old(head) := NO_ITEM];
      assert Contents() == old(Contents())[1..];
    }

    method Append(item: Item)
      requires Valid() && count < queue.Length
      modifies this`count, this`queuedDurationUs, queue
      ensures Valid() && Contents() == old(Contents()) + [item]
    {
      SlotIsMod(head, count, queue.Length);
      TotalUsAppend(Contents(), item);
      ghost var before := queue[..];
      var tail := (head + count) % queue.Length;
      queue[tail] := item;
      assert queue[..] == before[tail := item];
      queuedDurationUs := queuedDurationUs + queue[tail].durationUs;
      count := count + 1;
      assert Contents() == old(Contents()) + [item];
    }

    /** One pass of the worker through its wait: an item once the gate is open, nothing otherwise. */
    method TakeNext() returns (item: Option<Item>)
      requires Valid()
      modifies this`head, this`count, this`queuedDurationUs, this`playbackStarted, this`poppedItems, queue
      ensures Valid()
      ensures if stopRequested || !GateOpen(old(View()), config) then item == None && View() == old(View())
              else item == Some(old(Contents())[0]) && View() == Pop(old(View()))
    {
      if stopRequested || !(count != 0 && (playbackStarted || queuedDurationUs >= config.prebufferUs)) {
        return None;
      }
      playbackStarted := true;
      var oldest := RemoveOldest();
      poppedItems := poppedItems + 1;
      return Some(oldest);
    }

    /** The device reported a discontinuity. */
    method MarkStarved()
      requires Valid()
      modifies this`playbackStarted
      ensures Valid() && View() == Step(old(View()), Starved, config)
    {
      playbackStarted := false;
    }

    method Clear()
      requires Valid()
      modifies this, queue
      ensures Valid() && View() == old(View()).(items := [], started := false)
      ensures running == old(running) && stopRequested == old(stopRequested)
    {
      var i := 0;
      while i < queue.Length
        invariant 0 <= i <= queue.Length
        invariant unchanged(this)
      {
        queue[i] := NO_ITEM;
        i := i + 1;
      }
      head := 0;
      count := 0;
      queuedDurationUs := 0;
      playbackStarted := false;
    }
  }
}
