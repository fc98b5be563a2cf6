// Debounced persistence (server/dashboard/dashboardServer.js): a pending flag per store, one timer,
// and a promise chain of flushes that write one file at a time.
module Persistence {
  import opened Wrappers

  datatype Kind = Clients | Tasks | Queues

  datatype Write<T> = Write(kind: Kind, snapshot: T)

  /** The stores and their files, and what is scheduled between them. The first flush of the chain
      is the running one; `writing` is the write it awaits. */
  datatype Persist<T> = Persist(
    memory: map<Kind, T>,
    files: map<Kind, T>,
    pending: set<Kind>,
    timerArmed: bool,
    chain: seq<seq<Kind>>,
    writing: Option<Write<T>>)

  /** The order in which one flush saves its kinds. */
  function FlushOrder(kinds: set<Kind>): seq<Kind> {
    (if Clients in kinds then [Clients] else [])
    + (if Tasks in kinds then [Tasks] else [])
    + (if Queues in kinds then [Queues] else [])
  }

  /** A flush saves each of its kinds once, and no other: clients, then tasks, then queues. */
  lemma FlushOrderSaves(kinds: set<Kind>)
    ensures forall i, j :: 0 <= i < j < |FlushOrder(kinds)| ==>
      FlushOrder(kinds)[i] != Queues && FlushOrder(kinds)[j] != Clients
    ensures forall k :: k in FlushOrder(kinds) <==> k in kinds
    ensures forall i, j :: 0 <= i < j < |FlushOrder(kinds)| ==> FlushOrder(kinds)[i] != FlushOrder(kinds)[j]
  {
    var order := FlushOrder(kinds);
    forall k
      ensures k in order <==> k in kinds
    {
      match k
      case Clients => assert k in kinds ==> order[0] == k;
      case Tasks => assert k in kinds ==> order[if Clients in kinds then 1 else 0] == k;
      case Queues => assert k in kinds ==> order[|order| - 1] == k;
    }
  }

  function Schedule<T>(p: Persist<T>, k: Kind): Persist<T> {
    p.(pending := p.pending + {k}, timerArmed := true)
  }

  /** A store changes and marks its kind, in one stretch. */
  function Change<T>(p: Persist<T>, k: Kind, v: T): Persist<T> {
    Schedule(p.(memory := p.memory[k := v]), k)
  }

  function TimerFires<T>(p: Persist<T>): Persist<T> {
    if p.timerArmed then p.(timerArmed := false, pending := {}, chain := p.chain + [FlushOrder(p.pending)]) else p
  }

  /** The running flush goes on until its next `await`: it ends, or serialises a store and starts to write it. */
  function FlushRuns<T>(p: Persist<T>): Persist<T>
    requires All(p.memory)
  {
    if p.chain == [] || p.writing.Some? then p
    else if p.chain[0] == [] then p.(chain := p.chain[1..])
    else p.(writing := Some(Write(p.chain[0][0], p.memory[p.chain[0][0]])))
  }

  function WriteEnds<T>(p: Persist<T>): Persist<T> {
    if p.writing.None? || p.chain == [] || p.chain[0] == [] then p
    else p.(
      files := p.files[p.writing.value.kind := p.writing.value.snapshot],
      writing := None,
      chain := [p.chain[0][1..]] + p.chain[1..])
  }

  predicate All<T>(m: map<Kind, T>) {
    forall k: Kind :: k in m
  }

  /** A store is marked, or in a flush still to come; or it is on file or in the running flush, and
      not being overwritten with an older snapshot. */
  predicate Covered<T(==)>(p: Persist<T>, k: Kind)
    requires All(p.memory) && All(p.files)
  {
    || k in p.pending
    || (exists i :: 0 < i < |p.chain| && k in p.chain[i])
    || (&& (p.files[k] == p.memory[k] || (p.chain != [] && k in p.chain[0]))
        && (p.writing.Some? && p.writing.value.kind == k ==> p.writing.value.snapshot == p.memory[k]))
  }

  /** `stale` are the kinds whose store may differ from its file unnoticed, since it has not changed from boot on. */
  predicate Inv<T(==)>(p: Persist<T>, stale: set<Kind>) {
    && All(p.memory) && All(p.files)
    && (p.pending != {} ==> p.timerArmed)
    && (p.writing.Some? ==> p.chain != [] && p.chain[0] != [] && p.chain[0][0] == p.writing.value.kind)
    && (forall i, j, k :: 0 <= k < |p.chain| && 0 <= i < j < |p.chain[k]| ==> p.chain[k][i] != p.chain[k][j])
    && (forall k :: k !in stale ==> Covered(p, k))
  }

  predicate Quiescent<T>(p: Persist<T>) {
    !p.timerArmed && p.chain == [] && p.writing.None?
  }

  lemma ChangeInv<T>(p: Persist<T>, stale: set<Kind>, k: Kind, v: T)
    requires Inv(p, stale)
    ensures Inv(Change(p, k, v), stale - {k})
  {
    forall j | j !in stale - {k}
      ensures Covered(Change(p, k, v), j)
    {
      assert j != k ==> Covered(p, j);
    }
  }

  lemma TimerInv<T>(p: Persist<T>, stale: set<Kind>)
    requires Inv(p, stale)
    ensures Inv(TimerFires(p), stale)
  {
    hide FlushOrder;
    FlushOrderSaves(p.pending);
    if p.timerArmed {
      var q := TimerFires(p);
      var n := |p.chain|;
      assert forall i :: 0 <= i < n ==> q.chain[i] == p.chain[i];
      forall k | k !in stale
        ensures Covered(q, k)
      {
        assert Covered(p, k);
        if k in p.pending {
          assert k in q.chain[n];
        } else if i :| 0 < i < n && k in p.chain[i] {
          assert k in q.chain[i];
        }
      }
    }
  }

  lemma FlushInv<T>(p: Persist<T>, stale: set<Kind>)
    requires Inv(p, stale)
    ensures Inv(FlushRuns(p), stale)
  {
    var q := FlushRuns(p);
    if p.chain != [] && p.writing.None? && p.chain[0] == [] {
      forall k | k !in stale
        ensures Covered(q, k)
      {
        assert Covered(p, k);
        if i :| 0 < i < |p.chain| && k in p.chain[i] {
          assert q.chain[i - 1] == p.chain[i];
        }
      }
    } else {
      forall k | k !in stale
        ensures Covered(q, k)
      {
        assert Covered(p, k);
      }
    }
  }

  lemma WriteInv<T>(p: Persist<T>, stale: set<Kind>)
    requires Inv(p, stale)
    ensures Inv(WriteEnds(p), stale)
  {
    if p.writing.Some? {
      var q := WriteEnds(p);
      assert forall i :: 0 < i < |p.chain| ==> q.chain[i] == p.chain[i];
      assert forall i :: 0 <= i < |q.chain[0]| ==> q.chain[0][i] == p.chain[0][i + 1];
      forall k | k !in stale
        ensures Covered(q, k)
      {
        assert Covered(p, k);
        if i :| 0 < i < |p.chain| && k in p.chain[i] {
          assert k in q.chain[i];
        } else if p.files[k] != p.memory[k] && k !in p.pending && k != p.writing.value.kind {
          var i :| 0 <= i < |p.chain[0]| && p.chain[0][i] == k;
          assert q.chain[0][i - 1] == k;
        }
      }
    }
  }

  /** When no timer is armed and the chain is empty, every file equals its store, the stale ones aside. */
  lemma QuiescentConsistent<T>(p: Persist<T>, stale: set<Kind>)
    requires Inv(p, stale) && Quiescent(p)
    ensures forall k: Kind :: k !in stale ==> p.files[k] == p.memory[k]
  {
    forall k | k !in stale
      ensures p.files[k] == p.memory[k]
    {
      assert Covered(p, k);
    }
  }

  datatype Move<T> = Changes(kind: Kind, value: T) | Fires | Runs | Ends

  function Moved<T>(p: Persist<T>, m: Move<T>): (q: Persist<T>)
    requires All(p.memory)
    ensures All(q.memory)
  {
    match m
    case Changes(k, v) => Change(p, k, v)
    case Fires => TimerFires(p)
    case Runs => FlushRuns(p)
    case Ends => WriteEnds(p)
  }

  function After<T>(p: Persist<T>, moves: seq<Move<T>>): (q: Persist<T>)
    requires All(p.memory)
    ensures All(q.memory)
    decreases |moves|
  {
    if moves == [] then p else After(Moved(p, moves[0]), moves[1..])
  }

  /** The kinds that a run changes. */
  function Changed<T>(moves: seq<Move<T>>): set<Kind> {
    if moves == [] then {} else (if moves[0].Changes? then {moves[0].kind} else {}) + Changed(moves[1..])
  }

  /** Over every run no changed store is ever forgotten. */
  lemma {:induction false} RunInv<T>(p: Persist<T>, stale: set<Kind>, moves: seq<Move<T>>)
    requires Inv(p, stale)
    ensures Inv(After(p, moves), stale - Changed(moves))
    decreases |moves|
  {
    hide Inv;
    InvDomains(p, stale);
    if moves == [] {
      assert stale - {} == stale;
    } else {
      match moves[0] {
        case Changes(k, v) => ChangeInv(p, stale, k, v);
        case Fires => TimerInv(p, stale);
        case Runs => FlushInv(p, stale);
        case Ends => WriteInv(p, stale);
      }
      var now := if moves[0].Changes? then {moves[0].kind} else {};
      assert stale - {} == stale && stale - now - Changed(moves[1..]) == stale - Changed(moves);
      RunInv(Moved(p, moves[0]), stale - now, moves[1..]);
    }
  }

  lemma InvDomains<T>(p: Persist<T>, stale: set<Kind>)
    requires Inv(p, stale)
    ensures All(p.memory) && All(p.files)
  {
  }

  // ---- from boot on ----

  /** A client as saved. Records that a poll, a heartbeat or a plain registration made have no `wsConnected`. */
  datatype SavedClient = SavedClient(status: Option<string>, wsConnected: Option<bool>, rest: string)

  /** `loadClientsFromDisk`: on boot every client is offline until it registers again. */
  function LoadClients(saved: map<string, SavedClient>): map<string, SavedClient> {
    map c | c in saved :: saved[c].(status := Some("Offline"), wsConnected := Some(false))
  }

  /** Loading changes nothing exactly when every saved client was offline already, and said that its socket was
      closed: a client without the field gets one. */
  lemma LoadClientsSame(saved: map<string, SavedClient>)
    ensures LoadClients(saved) == saved <==>
      forall c :: c in saved ==> saved[c].status == Some("Offline") && saved[c].wsConnected == Some(false)
  {
    if LoadClients(saved) == saved {
      forall c | c in saved
        ensures saved[c].status == Some("Offline") && saved[c].wsConnected == Some(false)
      {
        assert LoadClients(saved)[c] == saved[c];
      }
    }
  }

  /** The stores as read from the files; `load` is what loading does to the clients, which marks nothing. */
  function Boot<T>(files: map<Kind, T>, load: T -> T): Persist<T>
    requires All(files)
  {
    Persist(files[Clients := load(files[Clients])], files, {}, false, [], None)
  }

  function StaleAtBoot<T(==)>(files: map<Kind, T>, load: T -> T): set<Kind>
    requires All(files)
  {
    if load(files[Clients]) == files[Clients] then {} else {Clients}
  }

  lemma BootInv<T>(files: map<Kind, T>, load: T -> T)
    requires All(files)
    ensures Inv(Boot(files, load), StaleAtBoot(files, load)) && Quiescent(Boot(files, load))
  {
    forall k | k !in StaleAtBoot(files, load)
      ensures Covered(Boot(files, load), k)
    {
    }
  }

  /** Nothing is scheduled for a kind, and its store and file are these. */
  predicate Untouched<T(==)>(p: Persist<T>, k: Kind, store: T, file: T)
    requires All(p.memory) && All(p.files)
  {
    && k !in p.pending && (forall i :: 0 <= i < |p.chain| ==> k !in p.chain[i])
    && (p.writing.Some? ==> p.writing.value.kind != k)
    && p.memory[k] == store && p.files[k] == file
  }

  lemma MovedDomains<T>(p: Persist<T>, m: Move<T>)
    requires All(p.memory) && All(p.files)
    ensures All(Moved(p, m).files)
  {
  }

  lemma {:induction false} AfterDomains<T>(p: Persist<T>, moves: seq<Move<T>>)
    requires All(p.memory) && All(p.files)
    ensures All(After(p, moves).files)
    decreases |moves|
  {
    hide Moved;
    if moves != [] {
      MovedDomains(p, moves[0]);
      AfterDomains(Moved(p, moves[0]), moves[1..]);
    }
  }

  // Moves of other kinds leave it so.
  lemma MovedUntouched<T>(p: Persist<T>, m: Move<T>, k: Kind, store: T, file: T)
    requires All(p.memory) && All(p.files) && Untouched(p, k, store, file)
    requires m.Changes? ==> m.kind != k
    ensures All(Moved(p, m).files) && Untouched(Moved(p, m), k, store, file)
  {
    hide FlushOrder;
    FlushOrderSaves(p.pending);
  }

  lemma {:induction false} AfterUntouched<T>(p: Persist<T>, moves: seq<Move<T>>, k: Kind, store: T, file: T)
    requires All(p.memory) && All(p.files) && Untouched(p, k, store, file)
    requires k !in Changed(moves)
    ensures All(After(p, moves).files) && Untouched(After(p, moves), k, store, file)
    decreases |moves|
  {
    hide Moved, Untouched;
    if moves != [] {
      MovedUntouched(p, moves[0], k, store, file);
      AfterUntouched(Moved(p, moves[0]), moves[1..], k, store, file);
    }
  }

  /** Over every run from boot: whenever things come to rest, tasks and queues are on file as they are in memory;
      and so are the clients, if and only if loading had changed none of them or one has changed since. */
  lemma RunConsistent<T>(files: map<Kind, T>, load: T -> T, moves: seq<Move<T>>)
    requires All(files)
    ensures var p := After(Boot(files, load), moves);
            All(p.files) && (Quiescent(p) ==>
              && p.files[Tasks] == p.memory[Tasks] && p.files[Queues] == p.memory[Queues]
              && (p.files[Clients] == p.memory[Clients] <==>
                    load(files[Clients]) == files[Clients] || Clients in Changed(moves)))
  {
    hide Inv;
    var p := After(Boot(files, load), moves);
    BootInv(files, load);
    RunInv(Boot(files, load), StaleAtBoot(files, load), moves);
    AfterDomains(Boot(files, load), moves);
    if Quiescent(p) {
      QuiescentConsistent(p, StaleAtBoot(files, load) - Changed(moves));
      if Clients !in Changed(moves) {
        AfterUntouched(Boot(files, load), moves, Clients, load(files[Clients]), files[Clients]);
      }
    }
  }

  /** The machine itself; its methods are the stretches of `schedulePersist`, of the timer callback and of a flush. */
  class Persister<T(==)> {
    var memory: map<Kind, T>
    var files: map<Kind, T>
    var pending: set<Kind>
    var timerArmed: bool
    var chain: seq<seq<Kind>>
    var writing: Option<Write<T>>

    ghost var stale: set<Kind>  // unchanged since boot, and loaded otherwise than saved

    ghost predicate Valid()
      reads this
    {
      Inv(View(), stale)
    }

    ghost function View(): Persist<T>
      reads this
    {
      Persist(memory, files, pending, timerArmed, chain, writing)
    }

    /** Boot: `load` is what loading does to the clients. */
    constructor (saved: map<Kind, T>, load: T -> T)
      requires All(saved)
      ensures View() == Boot(saved, load) && stale == StaleAtBoot(saved, load) && Valid()
    {
      memory, files := saved[Clients := load(saved[Clients])], saved;
      pending, timerArmed, chain, writing := {}, false, [], None;
      stale := StaleAtBoot(saved, load);
      new;
      BootInv(saved, load);
    }

    method SchedulePersist(k: Kind)
      modifies this`pending, this`timerArmed
      ensures View() == Schedule(old(View()), k)
    {
      pending := pending + {k};
      if timerArmed {
        return;
      }
      timerArmed := true;
    }

    method Set(k: Kind, v: T)
      requires Valid()
      modifies this
      ensures Valid() && View() == Change(old(View()), k, v) && stale == old(stale) - {k}
    {
      ChangeInv(View(), stale, k, v);
      memory := memory[k := v];
      SchedulePersist(k);
      stale := stale - {k};
    }

    method OnTimer()
      requires Valid() && timerArmed
      modifies this
      ensures Valid() && View() == TimerFires(old(View())) && stale == old(stale)
    {
      TimerInv(View(), stale);
      timerArmed := false;
      var flush := FlushOrder(pending);
      pending := {};
      chain := chain + [flush];
    }

    method RunFlush()
      requires Valid() && chain != [] && writing.None?
      modifies this
      ensures Valid() && View() == FlushRuns(old(View())) && stale == old(stale)
    {
      FlushInv(View(), stale);
      if chain[0] == [] {
        chain := chain[1..];
      } else {
        writing := Some(Write(chain[0][0], memory[chain[0][0]]));
      }
    }

    method EndWrite()
      requires Valid() && writing.Some?
      modifies this
      ensures Valid() && View() == WriteEnds(old(View())) && stale == old(stale)
    {
      WriteInv(View(), stale);
      files := files[writing.value.kind := writing.value.snapshot];
      writing := None;
      chain := [chain[0][1..]] + chain[1..];
    }

    /** Left alone, from any state, the timer and the chain bring every file up to its store, except of clients
        unchanged since boot. */
    method Settle()
      requires Valid()
      modifies this
      ensures Valid() && Quiescent(View()) && memory == old(memory) && stale == old(stale)
      ensures forall k :: k !in stale ==> k in memory && k in files && files[k] == memory[k]
    {
      if timerArmed {
        OnTimer();
      }
      while chain != []
        invariant Valid() && !timerArmed && memory == old(memory) && stale == old(stale)
        decreases |chain|, if chain != [] then |chain[0]| else 0, writing.None?
      {
        if writing.Some? {
          EndWrite();
        } else {
          RunFlush();
        }
      }
      QuiescentConsistent(View(), stale);
    }
  }
}
