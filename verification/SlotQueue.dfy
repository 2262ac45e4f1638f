/** The browser's three query slots and their abortable queue (web/app.js). */
module SlotQueue {
  import opened Base

  const CONCURRENCY := 3

  type Signal = nat

  /** One call of `acquireQuerySlot`; tickets number the calls in order. */
  datatype Waiter = Waiter(ticket: nat, signal: Option<Signal>)

  /** `active` and `queue` are the program's variables, `aborted` the signals whose abort has begun. The rest
      is history: calls made, slots held, promises resolved (in order) and rejected. */
  datatype Slots = Slots(
    active: int, queue: seq<Waiter>, aborted: set<Signal>,
    calls: nat, held: set<nat>, granted: seq<nat>, rejected: set<nat>)

  const IDLE := Slots(0, [], {}, 0, {}, [], {})

  predicate IsAborted(s: Slots, signal: Option<Signal>) {
    signal.Some? && signal.value in s.aborted
  }

  /** `acquireQuerySlot`: rejected, granted at once, or queued at the end. */
  function Acquire(s: Slots, signal: Option<Signal>): Slots {
    var t := s.calls;
    var s' := s.(calls := t + 1);
    if IsAborted(s, signal) then s'.(rejected := s.rejected + {t})
    else if s.active < CONCURRENCY
    then s'.(active := s.active + 1, held := s.held + {t}, granted := s.granted + [t])
    else s'.(queue := s.queue + [Waiter(t, signal)])
  }

  /** A signal's abort begins; the listeners of its waiters run one by one afterwards. */
  function BeginAbort(s: Slots, signal: Signal): Slots {
    s.(aborted := s.aborted + {signal})
  }

  /** The abort listener of one waiter: if still queued, leave the queue and be rejected. */
  function OnAbort(s: Slots, w: Waiter): Slots {
    if w !in s.queue then s
    else
      var i := IndexOf(s.queue, w);
      s.(queue := s.queue[..i] + s.queue[i + 1..], rejected := s.rejected + {w.ticket})
  }

  function IndexOf(queue: seq<Waiter>, w: Waiter): (i: nat)
    requires w in queue
    ensures i < |queue| && queue[i] == w
  {
    if queue[0] == w then 0 else 1 + IndexOf(queue[1..], w)
  }

  /** `releaseQuerySlot` by the holder of `t`. */
  function Release(s: Slots, t: nat): Slots {
    HandOver(s.(held := s.held - {t}))
  }

  /** Reject aborted waiters from the front; pass the slot to the first other one, or free it. */
  function HandOver(s: Slots): Slots
    decreases |s.queue|
  {
    if s.queue == [] then s.(active := s.active - 1)
    else
      var w := s.queue[0];
      var rest := s.(queue := s.queue[1..]);
      if IsAborted(s, w.signal) then HandOver(rest.(rejected := s.rejected + {w.ticket}))
      else rest.(held := s.held + {w.ticket}, granted := s.granted + [w.ticket])
  }

  class QuerySlots {
    var queryActive: int
    var queryQueue: seq<Waiter>
    var aborted: set<Signal>
    ghost var calls: nat
    ghost var held: set<nat>
    ghost var granted: seq<nat>
    ghost var rejected: set<nat>

    ghost function State(): Slots
      reads this
    {
      Slots(queryActive, queryQueue, aborted, calls, held, granted, rejected)
    }

    constructor ()
      ensures State() == IDLE
    {
      queryActive, queryQueue, aborted := 0, [], {};
      calls, held, granted, rejected := 0, {}, [], {};
    }

    method AcquireQuerySlot(ticket: nat, signal: Option<Signal>)
      requires ticket == calls
      modifies this
      ensures State() == Acquire(old(State()), signal)
    {
      calls := calls + 1;
      if signal.Some? && signal.value in aborted {
        rejected := rejected + {ticket};
        return;
      }
      if queryActive < CONCURRENCY {
        queryActive := queryActive + 1;
        held, granted := held + {ticket}, granted + [ticket];
        return;
      }
      queryQueue := queryQueue + [Waiter(ticket, signal)];
    }

    method Abort(signal: Signal)
      modifies this`aborted
      ensures State() == BeginAbort(old(State()), signal)
    {
      aborted := aborted + {signal};
    }

    method RemoveOnAbort(w: Waiter)
      modifies this
      ensures State() == OnAbort(old(State()), w)
    {
      if w in queryQueue {
        var i := IndexOf(queryQueue, w);
        queryQueue := queryQueue[..i] + queryQueue[i + 1..];
        rejected := rejected + {w.ticket};
      }
    }

    method ReleaseQuerySlot(ghost t: nat)
      modifies this
      ensures State() == Release(old(State()), t)
    {
      held := held - {t};
      while queryQueue != []
        invariant HandOver(State()) == Release(old(State()), t)
        decreases |queryQueue|
      {
        var entry := queryQueue[0];
        queryQueue := queryQueue[1..];
        if entry.signal.Some? && entry.signal.value in aborted {
          rejected := rejected + {entry.ticket};
          continue;
        }
        held, granted := held + {entry.ticket}, granted + [entry.ticket];
        return;
      }
      queryActive := queryActive - 1;
    }
  }

  // ---------- What every interleaving keeps ----------

  predicate Queued(s: Slots, t: nat) {
    exists i :: 0 <= i < |s.queue| && s.queue[i].ticket == t
  }

  /** Each call has been settled one way, once, or is still queued. */
  ghost predicate SettledOnce(s: Slots, t: nat) {
    && (t < s.calls <==> t in s.granted || t in s.rejected || Queued(s, t))
    && !(t in s.granted && t in s.rejected) && !(t in s.granted && Queued(s, t)) && !(t in s.rejected && Queued(s, t))
  }

  /** First in, first out: grants and waiters stand in the order of the calls, the grants before the waiters. */
  ghost predicate Increasing(s: Slots) {
    QueueOrdered(s.queue) && GrantsOrdered(s.granted) && GrantsFirst(s)
  }

  ghost predicate QueueOrdered(queue: seq<Waiter>) {
    forall i, j :: 0 <= i < j < |queue| ==> queue[i].ticket < queue[j].ticket
  }

  ghost predicate GrantsOrdered(granted: seq<nat>) {
    forall i, j :: 0 <= i < j < |granted| ==> granted[i] < granted[j]
  }

  ghost predicate GrantsFirst(s: Slots) {
    forall t, j :: t in s.granted && 0 <= j < |s.queue| ==> t < s.queue[j].ticket
  }

  lemma GrantAppends(granted: seq<nat>, t: nat)
    requires GrantsOrdered(granted) && forall g :: g in granted ==> g < t
    ensures GrantsOrdered(granted + [t])
  {
    forall i | 0 <= i < |granted| ensures granted[i] < t { assert granted[i] in granted; }
  }

  /** `spare` slots are being handed over. */
  ghost predicate Counted(s: Slots, spare: nat) {
    && s.active == |s.held| + spare && s.active <= CONCURRENCY
    && (s.queue != [] ==> s.active == CONCURRENCY)
    && (forall t :: t in s.held ==> t in s.granted)
  }

  ghost predicate SlotsOk(s: Slots) {
    Counted(s, 0) && Increasing(s) && forall t: nat :: SettledOnce(s, t)
  }

  lemma AcquireKeeps(s: Slots, signal: Option<Signal>)
    requires SlotsOk(s)
    ensures SlotsOk(Acquire(s, signal))
  {
    var t, after := s.calls, Acquire(s, signal);
    assert SettledOnce(s, t);
    forall j | 0 <= j < |s.queue| ensures s.queue[j].ticket < t {
      assert SettledOnce(s, s.queue[j].ticket) && Queued(s, s.queue[j].ticket);
    }
    forall g | g in s.granted ensures g < t { assert SettledOnce(s, g); }
    GrantAppends(s.granted, t);
    if IsAborted(s, signal) || s.active < CONCURRENCY {
      forall k: nat ensures SettledOnce(after, k) {
        assert SettledOnce(s, k);
        assert Queued(after, k) == Queued(s, k);
      }
    } else {
      forall k: nat ensures SettledOnce(after, k) {
        assert SettledOnce(s, k);
        QueuedAfterAppend(Waiter(t, signal), s, after, k);
      }
    }
  }

  lemma QueuedAfterAppend(w: Waiter, s: Slots, after: Slots, k: nat)
    requires after.queue == s.queue + [w]
    ensures Queued(after, k) <==> Queued(s, k) || k == w.ticket
  {
    if Queued(s, k) {
      var i :| 0 <= i < |s.queue| && s.queue[i].ticket == k;
      assert after.queue[i].ticket == k;
    }
    assert after.queue[|s.queue|] == w;
  }

  lemma QueuedAfterRemove(s: Slots, after: Slots, i: nat, k: nat)
    requires Increasing(s) && i < |s.queue| && after.queue == s.queue[..i] + s.queue[i + 1..]
    ensures Queued(after, k) <==> Queued(s, k) && k != s.queue[i].ticket
  {
    if Queued(s, k) && k != s.queue[i].ticket {
      var j :| 0 <= j < |s.queue| && s.queue[j].ticket == k;
      assert after.queue[if j < i then j else j - 1].ticket == k;
    }
    if Queued(after, k) {
      var j :| 0 <= j < |after.queue| && after.queue[j].ticket == k;
      assert s.queue[if j < i then j else j + 1].ticket == k;
    }
  }

  lemma RemoveKeeps(s: Slots, w: Waiter)
    requires SlotsOk(s)
    ensures SlotsOk(OnAbort(s, w))
  {
    if w in s.queue {
      var after, i := OnAbort(s, w), IndexOf(s.queue, w);
      assert Queued(s, w.ticket);
      forall k: nat ensures SettledOnce(after, k) {
        assert SettledOnce(s, k);
        QueuedAfterRemove(s, after, i, k);
      }
    }
  }

  /** One slot is between holders: what is kept while the queue is searched for the next one. */
  ghost predicate SpareOk(s: Slots) {
    Counted(s, 1) && Increasing(s) && forall t: nat :: SettledOnce(s, t)
  }

  lemma FrontRejected(s: Slots)
    requires SpareOk(s) && s.queue != []
    ensures SpareOk(s.(queue := s.queue[1..], rejected := s.rejected + {s.queue[0].ticket}))
  {
    var w := s.queue[0];
    var next := s.(queue := s.queue[1..], rejected := s.rejected + {w.ticket});
    assert Queued(s, w.ticket) && s.queue[..0] + s.queue[1..] == s.queue[1..];
    forall k: nat ensures SettledOnce(next, k) {
      assert SettledOnce(s, k) && SettledOnce(s, w.ticket);
      QueuedAfterRemove(s, next, 0, k);
    }
  }

  lemma FrontGranted(s: Slots)
    requires SpareOk(s) && s.queue != []
    ensures SlotsOk(s.(queue := s.queue[1..], held := s.held + {s.queue[0].ticket},
                       granted := s.granted + [s.queue[0].ticket]))
  {
    var w := s.queue[0];
    var next := s.(queue := s.queue[1..], held := s.held + {w.ticket}, granted := s.granted + [w.ticket]);
    assert Queued(s, w.ticket) && SettledOnce(s, w.ticket) && s.queue[..0] + s.queue[1..] == s.queue[1..];
    GrantAppends(s.granted, w.ticket);
    forall k: nat ensures SettledOnce(next, k) {
      assert SettledOnce(s, k);
      QueuedAfterRemove(s, next, 0, k);
    }
  }

  lemma {:induction false} HandOverKeeps(s: Slots)
    requires SpareOk(s)
    ensures SlotsOk(HandOver(s))
    decreases |s.queue|
  {
    if s.queue == [] {
      var after := HandOver(s);
      forall k: nat ensures SettledOnce(after, k) { assert SettledOnce(s, k); }
    } else {
      hide SlotsOk, SpareOk;
      var w := s.queue[0];
      if IsAborted(s, w.signal) {
        FrontRejected(s);
        HandOverKeeps(s.(queue := s.queue[1..], rejected := s.rejected + {w.ticket}));
      } else {
        FrontGranted(s);
      }
    }
  }

  lemma ReleaseKeeps(s: Slots, t: nat)
    requires SlotsOk(s) && t in s.held
    ensures SlotsOk(Release(s, t))
  {
    var given := s.(held := s.held - {t});
    forall k: nat ensures SettledOnce(given, k) {
      assert SettledOnce(s, k);
      assert Queued(given, k) == Queued(s, k);
    }
    HandOverKeeps(given);
  }

  /** Position `i` holds the first waiter whose signal is not aborted. */
  predicate FirstLive(s: Slots, i: int) {
    && 0 <= i < |s.queue| && !IsAborted(s, s.queue[i].signal)
    && (forall j :: 0 <= j < i ==> IsAborted(s, s.queue[j].signal))
  }

  predicate AllAborted(s: Slots) {
    forall i :: 0 <= i < |s.queue| ==> IsAborted(s, s.queue[i].signal)
  }

  /** Who gets a slot that comes free: the first waiter whose signal is not aborted, and nobody else; those before
      it leave the queue. With no such waiter the slot is freed. */
  lemma {:induction false} SlotGoesToFirstLiveWaiter(s: Slots)
    ensures var after := HandOver(s); AllAborted(s) ==>
      after.granted == s.granted && after.held == s.held && after.queue == [] && after.active == s.active - 1
    ensures AllAborted(s) || exists i :: FirstLive(s, i)
    ensures var after := HandOver(s); forall i :: FirstLive(s, i) ==>
      && after.granted == s.granted + [s.queue[i].ticket] && after.held == s.held + {s.queue[i].ticket}
      && after.queue == s.queue[i + 1..] && after.active == s.active
    decreases |s.queue|
  {
    if s.queue != [] {
      var w := s.queue[0];
      if IsAborted(s, w.signal) {
        var next := s.(queue := s.queue[1..], rejected := s.rejected + {w.ticket});
        SlotGoesToFirstLiveWaiter(next);
        assert forall j :: 0 < j < |s.queue| ==> s.queue[j] == next.queue[j - 1];
        if k :| FirstLive(next, k) {
          assert FirstLive(s, k + 1);
        }
        forall i | FirstLive(s, i) ensures FirstLive(next, i - 1) && s.queue[i + 1..] == next.queue[i..] {
        }
      } else {
        assert FirstLive(s, 0);
      }
    }
  }

  // ---------- Runs ----------

  datatype Event = Call(signal: Option<Signal>) | Abort(target: Signal) | Listener(w: Waiter) | Done(t: nat)

  /** A listener runs only once its signal is aborted; a slot is released by a call that holds one. */
  predicate CanHappen(s: Slots, e: Event) {
    match e
    case Listener(w) => IsAborted(s, w.signal)
    case Done(t) => t in s.held
    case _ => true
  }

  function Happen(s: Slots, e: Event): Slots {
    match e
    case Call(signal) => Acquire(s, signal)
    case Abort(signal) => BeginAbort(s, signal)
    case Listener(w) => OnAbort(s, w)
    case Done(t) => Release(s, t)
  }

  ghost predicate IsRun(states: seq<Slots>, events: seq<Event>) {
    |states| == |events| + 1 &&
    forall i :: 0 <= i < |events| ==> CanHappen(states[i], events[i]) && states[i + 1] == Happen(states[i], events[i])
  }

  /** A promise settled stays settled the same way, and in the same order. */
  ghost predicate Settled(s: Slots, after: Slots) {
    s.granted <= after.granted && s.rejected <= after.rejected && s.calls <= after.calls
  }

  lemma {:induction false} HandOverSettles(s: Slots)
    ensures Settled(s, HandOver(s))
    decreases |s.queue|
  {
    if s.queue != [] && IsAborted(s, s.queue[0].signal) {
      HandOverSettles(s.(queue := s.queue[1..], rejected := s.rejected + {s.queue[0].ticket}));
    }
  }

  lemma EventKeeps(s: Slots, e: Event)
    requires SlotsOk(s) && CanHappen(s, e)
    ensures SlotsOk(Happen(s, e)) && Settled(s, Happen(s, e))
  {
    match e {
      case Call(signal) => AcquireKeeps(s, signal);
      case Abort(signal) =>
        forall k: nat ensures SettledOnce(BeginAbort(s, signal), k) {
          assert SettledOnce(s, k);
          assert Queued(BeginAbort(s, signal), k) == Queued(s, k);
        }
      case Listener(w) => RemoveKeeps(s, w);
      case Done(t) =>
        ReleaseKeeps(s, t);
        HandOverSettles(s.(held := s.held - {t}));
    }
  }

  /** For every interleaving: slots held equal `queryActive` and never exceed three, waiters queue only when all
      are held, grants come in the order of the calls, and each call settles at most once, for good. */
  lemma {:induction false} SlotsAreSafe(states: seq<Slots>, events: seq<Event>, j: nat, k: nat)
    requires IsRun(states, events) && j <= k <= |events| && states[0] == IDLE
    ensures SlotsOk(states[k]) && Settled(states[j], states[k])
    decreases k
  {
    hide SlotsOk, Happen, CanHappen;
    if k == 0 {
      StartOk();
    } else {
      SlotsAreSafe(states, events, if j < k then j else k - 1, k - 1);
      EventKeeps(states[k - 1], events[k - 1]);
    }
  }

  lemma StartOk()
    ensures SlotsOk(IDLE)
  {
    forall t: nat ensures SettledOnce(IDLE, t) {
    }
  }

  // ---------- What each event does ----------

  /** A call is rejected when its signal is aborted, else gets a slot while fewer than three are held, else waits at the
      end; nobody else is touched. */
  lemma CallSays(s: Slots, signal: Option<Signal>)
    requires SlotsOk(s)
    ensures var after := Happen(s, Call(signal));
            && after.calls == s.calls + 1 && after.aborted == s.aborted
            && (if signal.Some? && signal.value in s.aborted
                then after == s.(calls := after.calls, rejected := s.rejected + {s.calls})
                else if |s.held| < 3
                then after.held == s.held + {s.calls} && after.granted == s.granted + [s.calls] &&
                     after.queue == s.queue && after.rejected == s.rejected
                else after.queue == s.queue + [Waiter(s.calls, signal)] && after.held == s.held &&
                     after.granted == s.granted && after.rejected == s.rejected)
  {
  }

  /** The listener of a waiter takes that one out of the queue and rejects it, and leaves the others in their order;
      of one that no longer waits it does nothing. */
  lemma ListenerSays(s: Slots, w: Waiter)
    requires SlotsOk(s)
    ensures var after := OnAbort(s, w);
            if w in s.queue
            then TakenOut(s.queue, after.queue, w) &&
                 after == s.(queue := after.queue, rejected := s.rejected + {w.ticket})
            else after == s
  {
    if w in s.queue {
      var i := IndexOf(s.queue, w);
      assert s.queue == s.queue[..i] + [w] + s.queue[i + 1..];
      forall v | v in s.queue[..i] || v in s.queue[i + 1..] ensures v != w {
        if v in s.queue[..i] { var j :| 0 <= j < i && s.queue[j] == v; }
        if v in s.queue[i + 1..] { var j :| i < j < |s.queue| && s.queue[j] == v; }
      }
    }
  }

  ghost predicate TakenOut(queue: seq<Waiter>, after: seq<Waiter>, w: Waiter) {
    exists i :: 0 <= i < |queue| && queue[i] == w && after == queue[..i] + queue[i + 1..] && w !in after
  }

  /** Its signal is aborted and it still waits, or it was rejected. */
  predicate OutOfLuck(s: Slots, w: Waiter) {
    (w in s.queue && IsAborted(s, w.signal)) || w.ticket in s.rejected
  }

  lemma {:induction false} HandOverLeaves(s: Slots, w: Waiter)
    requires OutOfLuck(s, w)
    ensures OutOfLuck(HandOver(s), w)
    decreases |s.queue|
  {
    if s.queue != [] {
      var front, rest := s.queue[0], s.(queue := s.queue[1..]);
      assert w in s.queue && w != front ==> w in rest.queue;
      if IsAborted(s, front.signal) {
        HandOverLeaves(rest.(rejected := s.rejected + {front.ticket}), w);
      }
    }
  }

  lemma StaysOutOfLuck(s: Slots, e: Event, w: Waiter)
    requires OutOfLuck(s, w) && CanHappen(s, e)
    ensures OutOfLuck(Happen(s, e), w)
  {
    match e {
      case Done(t) => HandOverLeaves(s.(held := s.held - {t}), w);
      case Listener(v) =>
        if v in s.queue && v != w && w in s.queue {
          var i, j := IndexOf(s.queue, v), IndexOf(s.queue, w);
          assert (s.queue[..i] + s.queue[i + 1..])[if j < i then j else j - 1] == w;
        }
      case Call(_) =>
      case Abort(_) =>
    }
  }

  lemma OutOfLuckIsNotGranted(s: Slots, w: Waiter)
    requires SlotsOk(s) && OutOfLuck(s, w)
    ensures w.ticket !in s.granted
  {
    assert SettledOnce(s, w.ticket);
    if w in s.queue {
      assert s.queue[IndexOf(s.queue, w)].ticket == w.ticket;
      assert Queued(s, w.ticket);
    }
  }

  /** For every interleaving: a waiter whose signal is aborted while it waits gets no slot in any later state, whether
      or not its listener has run. */
  lemma {:induction false} AbortedWaiterGetsNoSlot(states: seq<Slots>, events: seq<Event>, j: nat, k: nat, w: Waiter)
    requires IsRun(states, events) && j <= k <= |events| && states[0] == IDLE
    requires w in states[j].queue && IsAborted(states[j], w.signal)
    ensures OutOfLuck(states[k], w) && w.ticket !in states[k].granted
    decreases k
  {
    SlotsAreSafe(states, events, k, k);
    hide SlotsOk, Happen, CanHappen;
    if j < k {
      AbortedWaiterGetsNoSlot(states, events, j, k - 1, w);
      StaysOutOfLuck(states[k - 1], events[k - 1], w);
    }
    OutOfLuckIsNotGranted(states[k], w);
  }

  // ---------- The slots themselves ----------

  ghost predicate CanPlay(s: Slots, events: seq<Event>)
    decreases |events|
  {
    events != [] ==> CanHappen(s, events[0]) && CanPlay(Happen(s, events[0]), events[1..])
  }

  method Perform(slots: QuerySlots, e: Event, ticket: nat)
    requires CanHappen(slots.State(), e) && ticket == slots.calls
    modifies slots
    ensures slots.State() == Happen(old(slots.State()), e)
  {
    match e {
      case Call(signal) => slots.AcquireQuerySlot(ticket, signal);
      case Abort(signal) => slots.Abort(signal);
      case Listener(w) => slots.RemoveOnAbort(w);
      case Done(t) => slots.ReleaseQuerySlot(t);
    }
  }

  /** Any interleaving of calls, aborts, listeners and releases on fresh slots is a run: at most three are held, calls
      are served in order, and each settles at most once. */
  method Run(slots: QuerySlots, events: seq<Event>) returns (ghost states: seq<Slots>)
    requires slots.State() == IDLE && CanPlay(IDLE, events)
    modifies slots
    ensures IsRun(states, events) && states[0] == IDLE && states[|events|] == slots.State()
    ensures SlotsOk(slots.State()) && |slots.held| == slots.queryActive <= 3
  {
    hide Happen, CanHappen;
    states := [IDLE];
    var ticket := 0;
    for k := 0 to |events|
      invariant |states| == k + 1 && states[0] == IDLE && states[k] == slots.State()
      invariant IsRun(states, events[..k]) && CanPlay(states[k], events[k..]) && ticket == slots.calls
    {
      Perform(slots, events[k], ticket);
      CallsCount(states[k], events[k]);
      if events[k].Call? { ticket := ticket + 1; }
      states := states + [Happen(states[k], events[k])];
      assert events[k..][1..] == events[k + 1..];
    }
    assert events[..|events|] == events;
    SlotsAreSafe(states, events, 0, |events|);
  }

  lemma CallsCount(s: Slots, e: Event)
    ensures Happen(s, e).calls == s.calls + if e.Call? then 1 else 0
  {
    if e.Done? { HandOverCalls(s.(held := s.held - {e.t})); }
  }

  lemma {:induction false} HandOverCalls(s: Slots)
    ensures HandOver(s).calls == s.calls
    decreases |s.queue|
  {
    if s.queue != [] && IsAborted(s, s.queue[0].signal) {
      HandOverCalls(s.(queue := s.queue[1..], rejected := s.rejected + {s.queue[0].ticket}));
    }
  }
}
