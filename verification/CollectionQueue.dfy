// The per-client collection queue (server/dashboard/queue.js): one lane per agent, a bounded
// FIFO in front of a single running slot.
module CollectionQueues {
  import opened Wrappers

  type ClientId = string

  // Analysis ids are UUIDs; the source tests `running` for truthiness, so an id is never empty.
  type TaskId = s: string | s != "" witness "-"

  datatype Item = Item(analysisId: TaskId, owner: string, enqueuedAt: int)

  /** What the queue holds for one client. */
  datatype Lane = Lane(queue: seq<Item>, running: Option<TaskId>)

  /** Everything that ever happened to one client's items. */
  datatype Books = Books(
    accepted: seq<Item>,
    dispatched: seq<Item>,
    finished: multiset<TaskId>,
    failed: multiset<TaskId>,
    expired: multiset<TaskId>)

  const EMPTY_LANE := Lane([], None)
  const EMPTY_BOOKS := Books([], [], multiset{}, multiset{}, multiset{})

  function Ids(q: seq<Item>): multiset<TaskId> {
    if q == [] then multiset{} else multiset{q[0].analysisId} + Ids(q[1..])
  }

  predicate Subsequence<T(==)>(a: seq<T>, b: seq<T>) {
    if a == [] then true
    else if b == [] then false
    else if a[0] == b[0] then Subsequence(a[1..], b[1..])
    else Subsequence(a, b[1..])
  }

  /** Conservation and order: every accepted id is queued, running, finished, failed or expired, as
      often as it was accepted; and what was dispatched, followed by what still waits, is in acceptance order. */
  ghost predicate Balanced(l: Lane, b: Books) {
    && Ids(b.accepted) == Ids(l.queue) + Bag(l.running) + b.finished + b.failed + b.expired
    && Subsequence(b.dispatched + l.queue, b.accepted)
  }

  // ---- what each operation does to a lane and its books ----

  function Kept(q: seq<Item>, cutoff: int): seq<Item> {
    if q == [] then []
    else if q[0].enqueuedAt <= cutoff then Kept(q[1..], cutoff)
    else [q[0]] + Kept(q[1..], cutoff)
  }

  function Expired(q: seq<Item>, cutoff: int): seq<Item> {
    if q == [] then []
    else if q[0].enqueuedAt <= cutoff then [q[0]] + Expired(q[1..], cutoff)
    else Expired(q[1..], cutoff)
  }

  /** Whether a pump of this lane dispatches anything. */
  predicate Pumps(l: Lane) {
    l.running.None? && l.queue != []
  }

  function PumpLane(l: Lane): Lane
    requires Pumps(l)
  {
    Lane(l.queue[1..], Some(l.queue[0].analysisId))
  }

  function DoneLane(l: Lane, id: TaskId): Lane {
    if l.running == Some(id) then l.(running := None) else l
  }

  function AcceptBooks(b: Books, it: Item): Books { b.(accepted := b.accepted + [it]) }

  function PumpBooks(b: Books, it: Item): Books { b.(dispatched := b.dispatched + [it]) }

  function FinishBooks(b: Books, id: TaskId): Books { b.(finished := b.finished + multiset{id}) }

  function FailBooks(b: Books, gone: Option<TaskId>): Books { b.(failed := b.failed + Bag(gone)) }

  function ExpireBooks(b: Books, gone: seq<Item>): Books { b.(expired := b.expired + Ids(gone)) }

  // ---- each operation keeps the books balanced ----

  lemma AcceptBalanced(l: Lane, b: Books, it: Item)
    requires Balanced(l, b)
    ensures Balanced(l.(queue := l.queue + [it]), AcceptBooks(b, it))
  {
    hide Subsequence, Ids;
    IdsSnoc(b.accepted, it);
    IdsSnoc(l.queue, it);
    SubsequenceSnoc(b.dispatched + l.queue, b.accepted, it);
    assert b.dispatched + l.queue + [it] == b.dispatched + (l.queue + [it]);
  }

  lemma PumpBalanced(l: Lane, b: Books)
    requires Balanced(l, b) && Pumps(l)
    ensures Balanced(PumpLane(l), PumpBooks(b, l.queue[0]))
  {
    assert b.dispatched + [l.queue[0]] + l.queue[1..] == b.dispatched + l.queue;
  }

  lemma DoneBalanced(l: Lane, b: Books, id: TaskId)
    requires Balanced(l, b)
    ensures Balanced(DoneLane(l, id), if l.running == Some(id) then FinishBooks(b, id) else b)
  {
  }

  lemma FailBalanced(l: Lane, b: Books)
    requires Balanced(l, b)
    ensures Balanced(l.(running := None), FailBooks(b, l.running))
  {
  }

  lemma SweepBalanced(l: Lane, b: Books, cutoff: int)
    requires Balanced(l, b)
    ensures Balanced(l.(queue := Kept(l.queue, cutoff)), ExpireBooks(b, Expired(l.queue, cutoff)))
  {
    SweepIds(l.queue, cutoff);
    KeptSubsequence(b.dispatched, l.queue, cutoff);
    SubsequenceTransitive(b.dispatched + Kept(l.queue, cutoff), b.dispatched + l.queue, b.accepted);
  }

  lemma {:induction false} IdsAppend(a: seq<Item>, b: seq<Item>)
    ensures Ids(a + b) == Ids(a) + Ids(b)
  {
    if a == [] {
      assert a + b == b;
    } else {
      assert (a + b)[1..] == a[1..] + b;
      IdsAppend(a[1..], b);
    }
  }

  lemma IdsSnoc(a: seq<Item>, it: Item)
    ensures Ids(a + [it]) == Ids(a) + multiset{it.analysisId}
  {
    IdsAppend(a, [it]);
    assert [it][1..] == [];
  }

  lemma NoneDropped(cutoff: int)
    ensures Kept([], cutoff) == [] == Expired([], cutoff)
    ensures forall c :: DroppedOf([], c) == []
  {
  }

  lemma NoIds(b: Books)
    ensures ExpireBooks(b, []) == b
  {
  }

  lemma {:induction false} SweepIds(q: seq<Item>, cutoff: int)
    ensures Ids(q) == Ids(Kept(q, cutoff)) + Ids(Expired(q, cutoff))
  {
    if q != [] {
      SweepIds(q[1..], cutoff);
    }
  }

  lemma {:induction false} SubsequenceSnoc<T>(a: seq<T>, b: seq<T>, x: T)
    requires Subsequence(a, b)
    ensures Subsequence(a + [x], b + [x])
    decreases |b|
  {
    if b == [] {
      assert a + [x] == [x] == b + [x];
    } else if a == [] {
      assert (b + [x])[1..] == b[1..] + [x];
      SubsequenceSnoc([], b[1..], x);
      if b[0] == x {
        assert ([x] + [])[1..] == [];
      }
      assert a + [x] == [] + [x];
    } else {
      assert (b + [x])[1..] == b[1..] + [x] && (a + [x])[1..] == a[1..] + [x];
      SubsequenceSnoc(if a[0] == b[0] then a[1..] else a, b[1..], x);
    }
  }

  lemma {:induction false} SubsequenceTransitive<T>(a: seq<T>, b: seq<T>, c: seq<T>)
    requires Subsequence(a, b) && Subsequence(b, c)
    ensures Subsequence(a, c)
    decreases |c|
  {
    if a != [] {
      if b[0] != c[0] {
        SubsequenceTransitive(a, b, c[1..]);
        SubsequenceSkip(a, c);
      } else if a[0] == b[0] {
        SubsequenceTransitive(a[1..], b[1..], c[1..]);
      } else {
        SubsequenceTransitive(a, b[1..], c[1..]);
      }
    }
  }

  /** A subsequence of the tail is one of the whole. */
  lemma {:induction false} SubsequenceSkip<T>(a: seq<T>, c: seq<T>)
    requires c != [] && Subsequence(a, c[1..])
    ensures Subsequence(a, c)
    decreases |c|, |a|
  {
    if a != [] && a[0] == c[0] {
      SubsequenceTail(a, c[1..]);
    }
  }

  lemma {:induction false} SubsequenceTail<T>(a: seq<T>, c: seq<T>)
    requires a != [] && Subsequence(a, c)
    ensures Subsequence(a[1..], c)
    decreases |c|, |a|
  {
    if a[0] == c[0] {
      SubsequenceSkip(a[1..], c);
    } else {
      SubsequenceTail(a, c[1..]);
      SubsequenceSkip(a[1..], c);
    }
  }

  lemma {:induction false} KeptSubsequence(front: seq<Item>, q: seq<Item>, cutoff: int)
    ensures Subsequence(front + Kept(q, cutoff), front + q)
    decreases |front|, |q|
  {
    if front != [] {
      assert (front + Kept(q, cutoff))[1..] == front[1..] + Kept(q, cutoff);
      assert (front + q)[1..] == front[1..] + q;
      KeptSubsequence(front[1..], q, cutoff);
    } else if q != [] {
      assert [] + Kept(q, cutoff) == Kept(q, cutoff) && [] + q == q;
      KeptSubsequence([], q[1..], cutoff);
      assert [] + Kept(q[1..], cutoff) == Kept(q[1..], cutoff) && [] + q[1..] == q[1..];
      if q[0].enqueuedAt <= cutoff {
        SubsequenceSkip(Kept(q, cutoff), q);
      }
    }
  }

  // ---- with a clock that never goes back ----

  /** Queued in the order of their time stamps, none of them ahead of the clock. */
  predicate ByTime(q: seq<Item>, clock: int) {
    && (forall i, j :: 0 <= i < j < |q| ==> q[i].enqueuedAt <= q[j].enqueuedAt)
    && (forall i :: 0 <= i < |q| ==> q[i].enqueuedAt <= clock)
  }

  /** An item stamped by a clock that has not gone back keeps the queue in time order. */
  lemma EnqueuedByTime(q: seq<Item>, clock: int, it: Item, now: int)
    requires ByTime(q, clock) && clock <= now && it.enqueuedAt == now
    ensures ByTime(q + [it], now)
  {
  }

  /** A sweep of a queue in time order takes off exactly a prefix, and leaves it in time order. */
  lemma SweepTakesPrefix(q: seq<Item>, cutoff: int, clock: int) returns (n: nat)
    requires ByTime(q, clock)
    ensures n <= |q| && Expired(q, cutoff) == q[..n] && Kept(q, cutoff) == q[n..]
    ensures forall i :: 0 <= i < |q| ==> (q[i].enqueuedAt <= cutoff <==> i < n)
    ensures ByTime(Kept(q, cutoff), clock)
  {
    hide Expired, Kept;
    n := 0;
    while n < |q| && q[n].enqueuedAt <= cutoff
      invariant n <= |q| && forall i :: 0 <= i < n ==> q[i].enqueuedAt <= cutoff
    {
      n := n + 1;
    }
    SweepAt(q, cutoff, n);
  }

  lemma {:induction false} SweepAt(q: seq<Item>, cutoff: int, n: nat)
    requires n <= |q| && forall i :: 0 <= i < |q| ==> (q[i].enqueuedAt <= cutoff <==> i < n)
    ensures Expired(q, cutoff) == q[..n] && Kept(q, cutoff) == q[n..]
  {
    hide Expired, Kept;
    if n == 0 {
      NothingExpires(q, cutoff);
    } else {
      SweepStep(q, cutoff);
      assert forall i :: 0 <= i < |q| - 1 ==> q[1..][i] == q[i + 1];
      SweepAt(q[1..], cutoff, n - 1);
      OneMore(q, n - 1);
    }
  }

  lemma OneMore(q: seq<Item>, m: nat)
    requires m < |q|
    ensures q[1..][m..] == q[m + 1..] && q[..m + 1] == [q[0]] + q[1..][..m]
  {
  }

  lemma SweepStep(q: seq<Item>, cutoff: int)
    requires q != []
    ensures var over := q[0].enqueuedAt <= cutoff;
            && Expired(q, cutoff) == (if over then [q[0]] else []) + Expired(q[1..], cutoff)
            && Kept(q, cutoff) == (if over then [] else [q[0]]) + Kept(q[1..], cutoff)
  {
  }

  lemma {:induction false} NothingExpires(q: seq<Item>, cutoff: int)
    requires forall i :: 0 <= i < |q| ==> q[i].enqueuedAt > cutoff
    ensures Expired(q, cutoff) == [] && Kept(q, cutoff) == q
  {
    if q != [] {
      NothingExpires(q[1..], cutoff);
    }
  }

  // ---- the class ----

  function LaneAt(queues: map<ClientId, seq<Item>>, running: map<ClientId, TaskId>, c: ClientId): Lane {
    Lane(if c in queues then queues[c] else [], if c in running then Some(running[c]) else None)
  }

  function BooksAt(books: map<ClientId, Books>, c: ClientId): Books {
    if c in books then books[c] else EMPTY_BOOKS
  }

  /** The part of a sweep's result that belongs to one client. */
  function DroppedOf(dropped: seq<(ClientId, Item)>, c: ClientId): seq<Item> {
    if dropped == [] then []
    else
      var rest := DroppedOf(dropped[..|dropped| - 1], c);
      var last := dropped[|dropped| - 1];
      if last.0 == c then rest + [last.1] else rest
  }

  lemma DroppedMore(dropped: seq<(ClientId, Item)>, c: ClientId, it: Item)
    ensures forall d ::
      DroppedOf(dropped + [(c, it)], d) == DroppedOf(dropped, d) + (if d == c then [it] else [])
  {
    assert (dropped + [(c, it)])[..|dropped|] == dropped;
  }

  // A sweep of all lanes, on the maps.
  lemma SweptLanes(queues: map<ClientId, seq<Item>>, queues': map<ClientId, seq<Item>>,
                   running: map<ClientId, TaskId>, dropped: seq<(ClientId, Item)>, cutoff: int)
    requires queues'.Keys == queues.Keys && forall c :: c in queues' ==> queues'[c] == Kept(queues[c], cutoff)
    requires forall c :: DroppedOf(dropped, c) == if c in queues then Expired(queues[c], cutoff) else []
    ensures forall c :: (
      LaneAt(queues', running, c) ==
        LaneAt(queues, running, c).(queue := Kept(LaneAt(queues, running, c).queue, cutoff)))
    ensures forall c :: DroppedOf(dropped, c) == Expired(LaneAt(queues, running, c).queue, cutoff)
  {
    hide Kept, Expired, DroppedOf;
    NoneDropped(cutoff);
  }

  function ExpireAll(books: map<ClientId, Books>, clients: set<ClientId>, dropped: seq<(ClientId, Item)>):
    map<ClientId, Books>
  {
    map c | c in clients :: ExpireBooks(BooksAt(books, c), DroppedOf(dropped, c))
  }

  lemma ExpiredAll(books: map<ClientId, Books>, clients: set<ClientId>, dropped: seq<(ClientId, Item)>)
    requires books.Keys <= clients && forall c :: c !in clients ==> DroppedOf(dropped, c) == []
    ensures forall c ::
      BooksAt(ExpireAll(books, clients, dropped), c) == ExpireBooks(BooksAt(books, c), DroppedOf(dropped, c))
  {
    hide DroppedOf, ExpireBooks;
    NoIds(EMPTY_BOOKS);
  }

  lemma NoLanes()
    ensures forall c :: LaneAt(map[], map[], c) == EMPTY_LANE && BooksAt(map[], c) == EMPTY_BOOKS
    ensures Balanced(EMPTY_LANE, EMPTY_BOOKS)
  {
  }

  /** The books of a queue restored from disk: what waits was accepted, and nothing else is known. */
  function RestoredBooks(queue: seq<Item>): Books { EMPTY_BOOKS.(accepted := queue) }

  function RestoreAll(saved: map<ClientId, seq<Item>>): map<ClientId, Books> {
    map c | c in saved :: RestoredBooks(saved[c])
  }

  lemma RestoredAll(saved: map<ClientId, seq<Item>>)
    ensures forall c :: Balanced(LaneAt(saved, map[], c), BooksAt(RestoreAll(saved), c))
    ensures forall c :: LaneAt(saved, map[], c).running == None
  {
    hide Balanced;
    forall c ensures Balanced(LaneAt(saved, map[], c), BooksAt(RestoreAll(saved), c)) {
      RestoredBalanced(LaneAt(saved, map[], c).queue);
    }
  }

  lemma RestoredBalanced(queue: seq<Item>)
    ensures Balanced(Lane(queue, None), RestoredBooks(queue))
  {
    SubsequenceReflexive(queue);
    assert [] + queue == queue;
  }

  class CollectionQueue {
    const maxPerClient: nat
    const itemTtlMs: int
    var queues: map<ClientId, seq<Item>>  // head is index 0
    var running: map<ClientId, TaskId>
    var persistAsked: bool  // whether onPersist was called
    ghost var books: map<ClientId, Books>

    ghost function LaneOf(c: ClientId): Lane
      reads this
    {
      LaneAt(queues, running, c)
    }

    ghost function BooksOf(c: ClientId): Books
      reads this
    {
      BooksAt(books, c)
    }

    ghost predicate Valid()
      reads this
    {
      forall c :: Balanced(LaneOf(c), BooksOf(c))
    }

    /** Nothing but client `c` changed. */
    twostate predicate OthersKept(c: ClientId)
      reads this
    {
      forall d :: d != c ==> LaneOf(d) == old(LaneOf(d)) && BooksOf(d) == old(BooksOf(d))
    }

    constructor (maxPerClient: nat, itemTtlMs: int)
      ensures Valid() && this.maxPerClient == maxPerClient && this.itemTtlMs == itemTtlMs
      ensures forall c :: LaneOf(c) == EMPTY_LANE && BooksOf(c) == EMPTY_BOOKS
    {
      this.maxPerClient, this.itemTtlMs := maxPerClient, itemTtlMs;
      queues, running, persistAsked, books := map[], map[], false, map[];
      new;
      NoLanes();
    }

    method Depth(c: ClientId) returns (n: nat)
      ensures n == |LaneOf(c).queue|
    {
      n := if c in queues then |queues[c]| else 0;
    }

    /** `enqueue`, which stamps the item with the clock. */
    method Enqueue(c: ClientId, id: TaskId, owner: string, now: int) returns (position: Option<nat>)
      requires Valid()
      modifies this
      ensures Valid() && OthersKept(c)
      ensures position.Some? <==> |old(LaneOf(c)).queue| < maxPerClient
      ensures position.Some? ==>
        && LaneOf(c) == old(LaneOf(c)).(queue := old(LaneOf(c)).queue + [Item(id, owner, now)])
        && position.value == |LaneOf(c).queue| <= maxPerClient
        && BooksOf(c) == AcceptBooks(old(BooksOf(c)), Item(id, owner, now)) && persistAsked
      ensures position.None? ==>
        LaneOf(c) == old(LaneOf(c)) && BooksOf(c) == old(BooksOf(c)) && persistAsked == old(persistAsked)
    {
      hide Balanced;
      var q := if c in queues then queues[c] else [];
      if |q| >= maxPerClient {
        return None;
      }
      var it := Item(id, owner, now);
      AcceptBalanced(LaneOf(c), BooksOf(c), it);
      books := books[c := AcceptBooks(BooksOf(c), it)];
      q := q + [it];
      queues := queues[c := q];
      persistAsked := true;
      assert Balanced(LaneOf(c), BooksOf(c));
      forall d | d != c
        ensures LaneOf(d) == old(LaneOf(d)) && BooksOf(d) == old(BooksOf(d))
      {
      }
      return Some(|q|);
    }

    method PositionOf(c: ClientId, id: TaskId) returns (position: Option<nat>)
      ensures position.Some? ==>
        && 1 <= position.value <= |LaneOf(c).queue| && LaneOf(c).queue[position.value - 1].analysisId == id
        && forall k :: 0 <= k < position.value - 1 ==> LaneOf(c).queue[k].analysisId != id
      ensures position.None? ==> id !in Ids(LaneOf(c).queue)
    {
      var q := if c in queues then queues[c] else [];
      var i := 0;
      assert q[0..] == q;
      while i < |q|
        invariant 0 <= i <= |q|
        invariant forall k :: 0 <= k < i ==> q[k].analysisId != id
        invariant id in Ids(q) <==> id in Ids(q[i..])
      {
        if q[i].analysisId == id {
          return Some(i + 1);
        }
        assert q[i..][1..] == q[i + 1..];
        i := i + 1;
      }
      return None;
    }

    /** `pump` up to its `await`: claims the head of the queue for a free client. */
    method Pump(c: ClientId) returns (item: Option<Item>)
      requires Valid()
      modifies this
      ensures Valid() && OthersKept(c)
      ensures Pumps(old(LaneOf(c))) ==>
        && item == Some(old(LaneOf(c)).queue[0]) && LaneOf(c) == PumpLane(old(LaneOf(c)))
        && BooksOf(c) == PumpBooks(old(BooksOf(c)), item.value) && persistAsked
      ensures !Pumps(old(LaneOf(c))) ==>
        item == None && LaneOf(c) == old(LaneOf(c)) && BooksOf(c) == old(BooksOf(c)) &&
          persistAsked == old(persistAsked)
    {
      hide Balanced;
      if c in running {
        return None;
      }
      var q := if c in queues then queues[c] else [];
      if q == [] {
        return None;
      }
      PumpBalanced(LaneOf(c), BooksOf(c));
      books := books[c := PumpBooks(BooksOf(c), q[0])];
      queues := queues[c := q[1..]];
      running := running[c := q[0].analysisId];
      persistAsked := true;
      assert LaneOf(c) == PumpLane(old(LaneOf(c)));
      assert Balanced(LaneOf(c), BooksOf(c));
      forall d | d != c
        ensures LaneOf(d) == old(LaneOf(d)) && BooksOf(d) == old(BooksOf(d))
      {
      }
      return Some(q[0]);
    }

    /** The `catch` of `pump`, which frees whatever the slot holds by then. */
    method PumpCaught(c: ClientId)
      requires Valid()
      modifies this
      ensures Valid() && OthersKept(c) && persistAsked
      ensures LaneOf(c) == old(LaneOf(c)).(running := None)
      ensures BooksOf(c) == FailBooks(old(BooksOf(c)), old(LaneOf(c)).running)
    {
      hide Balanced;
      FailBalanced(LaneOf(c), BooksOf(c));
      books := books[c := FailBooks(BooksOf(c), LaneOf(c).running)];
      running := running - {c};
      persistAsked := true;
      assert Balanced(LaneOf(c), BooksOf(c));
      forall d | d != c
        ensures LaneOf(d) == old(LaneOf(d)) && BooksOf(d) == old(BooksOf(d))
      {
      }
    }

    method MarkDone(c: ClientId, id: TaskId)
      requires Valid()
      modifies this
      ensures Valid() && OthersKept(c)
      ensures LaneOf(c) == DoneLane(old(LaneOf(c)), id)
      ensures old(LaneOf(c)).running == Some(id) ==> BooksOf(c) == FinishBooks(old(BooksOf(c)), id) && persistAsked
      ensures old(LaneOf(c)).running != Some(id) ==> BooksOf(c) == old(BooksOf(c)) && persistAsked == old(persistAsked)
    {
      hide Balanced;
      DoneBalanced(LaneOf(c), BooksOf(c), id);
      if c in running && running[c] == id {
        books := books[c := FinishBooks(BooksOf(c), id)];
        running := running - {c};
        persistAsked := true;
        assert Balanced(LaneOf(c), BooksOf(c));
      }
      forall d | d != c
        ensures LaneOf(d) == old(LaneOf(d)) && BooksOf(d) == old(BooksOf(d))
      {
      }
    }

    // The inner loop of `sweepExpired`.
    static method SweepLane(c: ClientId, q: seq<Item>, cutoff: int, before: seq<(ClientId, Item)>)
      returns (kept: seq<Item>, dropped: seq<(ClientId, Item)>)
      ensures kept == Kept(q, cutoff)
      ensures DroppedOf(dropped, c) == DroppedOf(before, c) + Expired(q, cutoff)
      ensures forall d :: d != c ==> DroppedOf(dropped, d) == DroppedOf(before, d)
      ensures before != [] ==> dropped != []
    {
      hide Kept, Expired, DroppedOf;
      var i := 0;
      kept, dropped := [], before;
      assert q[0..] == q;
      NoneDropped(cutoff);
      while i < |q|
        invariant 0 <= i <= |q|
        invariant kept + Kept(q[i..], cutoff) == Kept(q, cutoff)
        invariant DroppedOf(dropped, c) + Expired(q[i..], cutoff) == DroppedOf(before, c) + Expired(q, cutoff)
        invariant forall d :: d != c ==> DroppedOf(dropped, d) == DroppedOf(before, d)
        invariant before != [] ==> dropped != []
      {
        assert q[i..][1..] == q[i + 1..];
        SweepStep(q[i..], cutoff);
        if q[i].enqueuedAt <= cutoff {
          DroppedMore(dropped, c, q[i]);
          dropped := dropped + [(c, q[i])];
        } else {
          kept := kept + [q[i]];
        }
        i := i + 1;
      }
      assert q[|q|..] == [];
    }

    // The loop of `sweepExpired` over all clients.
    method SweepQueues(cutoff: int) returns (dropped: seq<(ClientId, Item)>)
      modifies this`queues
      ensures queues.Keys == old(queues).Keys
      ensures forall c :: c in queues ==> queues[c] == Kept(old(queues)[c], cutoff)
      ensures forall c :: DroppedOf(dropped, c) == if c in queues then Expired(old(queues)[c], cutoff) else []
    {
      hide Kept, Expired, DroppedOf;
      NoneDropped(cutoff);
      var todo := queues.Keys;
      ghost var was := queues;
      dropped := [];
      while todo != {}
        invariant todo <= queues.Keys == was.Keys
        invariant forall c :: c in todo ==> queues[c] == was[c]
        invariant forall c :: c in was && c !in todo ==> queues[c] == Kept(was[c], cutoff)
        invariant forall c :: DroppedOf(dropped, c) == if c in was && c !in todo then Expired(was[c], cutoff) else []
        decreases todo
      {
        var c :| c in todo;
        var kept;
        kept, dropped := SweepLane(c, queues[c], cutoff, dropped);
        queues := queues[c := kept];
        todo := todo - {c};
      }
    }

    method SweepExpired(now: int) returns (dropped: seq<(ClientId, Item)>)
      requires Valid()
      modifies this
      ensures Valid()
      ensures forall c :: LaneOf(c) == old(LaneOf(c)).(queue := Kept(old(LaneOf(c)).queue, now - itemTtlMs))
      ensures forall c :: DroppedOf(dropped, c) == Expired(old(LaneOf(c)).queue, now - itemTtlMs)
      ensures forall c :: BooksOf(c) == ExpireBooks(old(BooksOf(c)), DroppedOf(dropped, c))
      ensures persistAsked <==> old(persistAsked) || dropped != []
    {
      hide Balanced, Kept, Expired, DroppedOf, ExpireBooks, LaneAt, BooksAt, ExpireAll;
      var cutoff := now - itemTtlMs;
      ghost var clients := books.Keys + queues.Keys;
      dropped := SweepQueues(cutoff);
      if dropped != [] {
        persistAsked := true;
      }
      SweptLanes(old(queues), queues, running, dropped, cutoff);
      ExpiredAll(books, clients, dropped);
      books := ExpireAll(books, clients, dropped);
      forall c
        ensures Balanced(LaneOf(c), BooksOf(c))
      {
        assert old(Balanced(LaneOf(c), BooksOf(c)));
        SweepBalanced(old(LaneOf(c)), old(BooksOf(c)), cutoff);
      }
    }

    /** `fromJSON` of what `toJSON` wrote: the waiting items survive, the running slot does not. */
    constructor FromJSON(saved: map<ClientId, seq<Item>>, maxPerClient: nat, itemTtlMs: int)
      ensures Valid() && this.maxPerClient == maxPerClient && this.itemTtlMs == itemTtlMs
      ensures ToJSON() == saved
      ensures forall c :: LaneOf(c).running == None
    {
      this.maxPerClient, this.itemTtlMs := maxPerClient, itemTtlMs;
      queues, running, persistAsked := saved, map[], false;
      books := RestoreAll(saved);
      new;
      hide Balanced, LaneAt, BooksAt, RestoreAll;
      RestoredAll(saved);
    }

    function ToJSON(): (saved: map<ClientId, seq<Item>>)
      reads this
      ensures forall c :: (if c in saved then saved[c] else []) == LaneOf(c).queue
    {
      queues
    }
  }

  lemma {:induction false} SubsequenceReflexive<T>(a: seq<T>)
    ensures Subsequence(a, a)
  {
    if a != [] {
      SubsequenceReflexive(a[1..]);
    }
  }
}
