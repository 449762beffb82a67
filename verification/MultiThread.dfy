/**
 Entry movement and task claiming of multi_thread_scheduler.cpp.  A local queue is the sequential deque
 that module WorkStealing shows it to be, oldest entry first; the owner works at its end, thieves at its
 front.  Entries are task numbers; a task woken twice has two entries.
 */
module MultiThread {
  import opened Wrappers

  /** Capacity of a local queue, and the batch a worker asks for. */
  const CAPACITY: nat := 256
  const MAX_GRAB: nat := 128

  datatype TaskState = Pending | Running | Completed

  /**
   What a worker has in its hands: an entry its full local queue refused; the grab loop (which holds the
   global lock) with the count so far, the entry it is moving and the entry popped before the grab, if any;
   or an entry about to be claimed.
   */
  datatype Hand = Nothing | Overflow(e: nat) | Claiming(e: nat)
    | Grabbing(n: nat, moving: Option<nat>, held: Option<nat>)

  datatype Worker = Worker(local: seq<nat>, hand: Hand, polling: Option<nat>)

  /**
   The global queue and its lock, and the task states.  `entered` and `consumed` count the entries ever
   scheduled and those taken for a claim, `owed` are the tasks woken since their last poll began (history).
   */
  datatype Shared = Shared(global: seq<nat>, lock: Option<nat>, tasks: map<nat, TaskState>,
                           entered: multiset<nat>, consumed: multiset<nat>, owed: set<nat>)

  datatype State = State(shared: Shared, workers: seq<Worker>)

  /** What a worker does: schedule on itself, or its next step in worker_main and what that calls. */
  datatype Action = Schedule(e: nat) | PushOverflow | Grab | GrabStep | Pop | Claim | EndPoll(ready: bool)

  /** Wake: any thread pushes to the global queue. */
  datatype Event = Wake(e: nat) | Work(i: nat, a: Action) | Steal(i: nat, victim: nat)

  function Init(n: nat): State {
    State(Shared([], None, map[], multiset{}, multiset{}, {}), seq(n, _ => Worker([], Nothing, None)))
  }

  function StateOf(g: Shared, e: nat): TaskState {
    if e in g.tasks then g.tasks[e] else Pending
  }

  function Entered(g: Shared, e: nat): Shared {
    g.(entered := g.entered + multiset{e}, owed := g.owed + {e})
  }

  /** Leaving grab_global with the entry popped before it, if there was one. */
  function Kept(held: Option<nat>): Hand {
    if held.Some? then Claiming(held.value) else Nothing
  }

  /** One step of the loop of grab_global. */
  function GrabApply(g: Shared, w: Worker, h: Hand): (Shared, Worker)
    requires h.Grabbing?
  {
    match h.moving
    case None =>
      if h.n < MAX_GRAB && g.global != []
      then (g.(global := g.global[1..]), w.(hand := h.(moving := Some(g.global[0]))))
      else (g.(lock := None), w.(hand := Kept(h.held)))
    case Some(e) =>
      if |w.local| < CAPACITY then (g, w.(local := w.local + [e], hand := Grabbing(h.n + 1, None, h.held)))
      else (g.(global := [e] + g.global, lock := None), w.(hand := Kept(h.held)))
  }

  /** The claim: compare_exchange from Pending to Running; an entry that loses it is dropped. */
  function ClaimApply(g: Shared, w: Worker, e: nat): (Shared, Worker) {
    var g' := g.(consumed := g.consumed + multiset{e});
    if StateOf(g, e).Pending?
    then (g'.(tasks := g.tasks[e := Running], owed := g.owed - {e}), w.(hand := Nothing, polling := Some(e)))
    else (g', w.(hand := Nothing))
  }

  /** In worker_main, between two tasks. */
  predicate Free(w: Worker) {
    w.hand.Nothing? && w.polling.None?
  }

  function WorkApply(g: Shared, w: Worker, i: nat, a: Action): (Shared, Worker) {
    match a
    case Schedule(e) =>
      if !w.hand.Nothing? then (g, w)
      else if |w.local| < CAPACITY then (Entered(g, e), w.(local := w.local + [e]))
      else (Entered(g, e), w.(hand := Overflow(e)))
    case PushOverflow =>
      if w.hand.Overflow? && g.lock.None?
      then (g.(global := g.global + [w.hand.e]), w.(hand := Nothing)) else (g, w)
    case Grab =>
      if g.lock.Some? || !(Free(w) || w.hand.Claiming?) then (g, w)
      else (g.(lock := Some(i)), w.(hand := Grabbing(0, None, if w.hand.Claiming? then Some(w.hand.e) else None)))
    case GrabStep => if w.hand.Grabbing? then GrabApply(g, w, w.hand) else (g, w)
    case Pop =>
      if Free(w) && w.local != []
      then (g, w.(local := w.local[..|w.local| - 1], hand := Claiming(w.local[|w.local| - 1]))) else (g, w)
    case Claim => if w.hand.Claiming? then ClaimApply(g, w, w.hand.e) else (g, w)
    case EndPoll(ready) =>
      if w.polling.None? || !w.hand.Nothing? then (g, w)
      else (g.(tasks := g.tasks[w.polling.value := if ready then Completed else Pending]), w.(polling := None))
  }

  function Apply(s: State, e: Event): State {
    match e
    case Wake(x) =>
      if s.shared.lock.Some? then s
      else s.(shared := Entered(s.shared, x).(global := s.shared.global + [x]))
    case Work(i, a) =>
      if i >= |s.workers| then s else
        var (g, w) := WorkApply(s.shared, s.workers[i], i, a);
        State(g, s.workers[i := w])
    case Steal(i, v) =>
      if i >= |s.workers| || v >= |s.workers| || i == v || !Free(s.workers[i]) || s.workers[v].local == [] then s else
        var item, rest := s.workers[v].local[0], s.workers[v].local[1..];
        s.(workers := s.workers[v := s.workers[v].(local := rest)][i := s.workers[i].(hand := Claiming(item))])
  }

  function Run(n: nat, es: seq<Event>): State {
    if es == [] then Init(n) else Apply(Run(n, es[..|es| - 1]), es[|es| - 1])
  }

  /** The entries of a queue, in no order. */
  function Bag(q: seq<nat>): multiset<nat> {
    multiset(q)
  }

  function InHand(h: Hand): multiset<nat> {
    match h
    case Nothing => multiset{}
    case Overflow(e) => multiset{e}
    case Claiming(e) => multiset{e}
    case Grabbing(_, moving, held) => One(moving) + One(held)
  }

  function One(e: Option<nat>): multiset<nat> {
    if e.Some? then multiset{e.value} else multiset{}
  }

  function InWorker(w: Worker): multiset<nat> {
    Bag(w.local) + InHand(w.hand)
  }

  function InWorkers(ws: seq<Worker>): multiset<nat> {
    if ws == [] then multiset{} else InWorkers(ws[..|ws| - 1]) + InWorker(ws[|ws| - 1])
  }

  /** Every entry ever scheduled is in exactly one place, or has been taken for a claim. */
  ghost predicate Balanced(s: State) {
    s.shared.entered == Bag(s.shared.global) + InWorkers(s.workers) + s.shared.consumed
  }

  /** Both sides of an exchange gain l. */
  lemma Both(a: multiset<nat>, a': multiset<nat>, l: multiset<nat>, x: multiset<nat>, y: multiset<nat>)
    requires a' + x == a + y
    ensures a' + l + x == a + l + y
  {
    forall e: nat ensures (a' + l + x)[e] == (a + l + y)[e] { assert (a' + x)[e] == (a + y)[e]; }
  }

  lemma {:induction false} PutKeeps(ws: seq<Worker>, i: nat, w: Worker)
    requires i < |ws|
    ensures InWorkers(ws[i := w]) + InWorker(ws[i]) == InWorkers(ws) + InWorker(w)
  {
    hide InWorker;
    var last := |ws| - 1;
    if i == last {
      assert ws[i := w][..last] == ws[..last];
      Both(InWorker(ws[i]), InWorker(w), InWorkers(ws[..last]), InWorker(ws[i]), InWorker(w));
    } else {
      assert ws[i := w][..last] == ws[..last][i := w];
      PutKeeps(ws[..last], i, w);
      Both(InWorkers(ws[..last]), InWorkers(ws[..last][i := w]), InWorker(ws[last]), InWorker(ws[i]), InWorker(w));
    }
  }

  /** Entries are conserved when what one worker and the shared part exchange is. */
  lemma Account(g: Shared, w: Worker, ws: multiset<nat>, g': Shared, w': Worker, ws': multiset<nat>)
    requires g.entered == Bag(g.global) + ws + g.consumed
    requires ws' + InWorker(w) == ws + InWorker(w') && Exchange(g, w, g', w')
    ensures g'.entered == Bag(g'.global) + ws' + g'.consumed
  {
    hide InWorker;
    var y := Bag(g'.global);
    hide Times, Bag;
    forall e: nat ensures g'.entered[e] == (y + ws' + g'.consumed)[e] {
      TimesInHand(w, e);
      TimesInHand(w', e);
      assert (ws' + InWorker(w))[e] == (ws + InWorker(w'))[e];
      assert g.entered[e] == (Bag(g.global) + ws + g.consumed)[e];
    }
  }

  /** Entry by entry, a step moves as much out of one place as into another. */
  ghost predicate Exchange(g: Shared, w: Worker, g': Shared, w': Worker) {
    forall e: nat ::
      Bag(g.global)[e] + Bag(w.local)[e] + Times(w.hand, e) + g.consumed[e] + g'.entered[e] ==
      Bag(g'.global)[e] + Bag(w'.local)[e] + Times(w'.hand, e) + g'.consumed[e] + g.entered[e]
  }

  /** How often e is in a hand. */
  function Times(h: Hand, e: nat): nat {
    match h
    case Nothing => 0
    case Overflow(x) => if x == e then 1 else 0
    case Claiming(x) => if x == e then 1 else 0
    case Grabbing(_, moving, held) => (if moving == Some(e) then 1 else 0) + (if held == Some(e) then 1 else 0)
  }

  lemma TimesInHand(w: Worker, e: nat)
    ensures InWorker(w)[e] == Bag(w.local)[e] + Times(w.hand, e)
  {
    TimesIs(w.hand, e);
    hide Bag, InHand, Times;
  }

  lemma TimesIs(h: Hand, e: nat)
    ensures InHand(h)[e] == Times(h, e)
  {
    if h.Grabbing? {
      TimesOne(h.moving, e);
      TimesOne(h.held, e);
      hide One;
    }
  }

  lemma TimesOne(x: Option<nat>, e: nat)
    ensures One(x)[e] == if x == Some(e) then 1 else 0
  {
  }

  lemma Ends(q: seq<nat>)
    ensures q != [] ==> Bag(q) == Bag(q[1..]) + multiset{q[0]} && Bag(q) == Bag(q[..|q| - 1]) + multiset{q[|q| - 1]}
  {
    if q != [] { assert q == [q[0]] + q[1..] && q == q[..|q| - 1] + [q[|q| - 1]]; }
  }

  lemma Grown(q: seq<nat>, e: nat)
    ensures Bag(q + [e]) == Bag(q) + multiset{e}
  {
  }

  lemma PutBack(q: seq<nat>, e: nat)
    ensures Bag([e] + q) == Bag(q) + multiset{e}
  {
  }

  lemma WorkBalance(g: Shared, w: Worker, i: nat, a: Action)
    ensures Exchange(g, w, WorkApply(g, w, i, a).0, WorkApply(g, w, i, a).1)
  {
    match a
    case Schedule(e) => QueueBalance(g, w, i, a);
    case PushOverflow => OverflowBalance(g, w, i);
    case GrabStep => if w.hand.Grabbing? { GrabBalance(g, w, w.hand); }
    case Pop => QueueBalance(g, w, i, a);
    case Claim => if w.hand.Claiming? { ClaimBalance(g, w, w.hand.e); }
    case _ => HandBalance(g, w, i, a);
  }

  lemma HandBalance(g: Shared, w: Worker, i: nat, a: Action)
    requires a.Grab? || a.EndPoll?
    ensures Exchange(g, w, WorkApply(g, w, i, a).0, WorkApply(g, w, i, a).1)
  {
    hide Bag;
  }

  lemma ClaimBalance(g: Shared, w: Worker, e: nat)
    requires w.hand == Claiming(e)
    ensures Exchange(g, w, ClaimApply(g, w, e).0, ClaimApply(g, w, e).1)
  {
    hide Bag;
  }

  lemma OverflowBalance(g: Shared, w: Worker, i: nat)
    ensures Exchange(g, w, WorkApply(g, w, i, PushOverflow).0, WorkApply(g, w, i, PushOverflow).1)
  {
    hide Bag;
    if w.hand.Overflow? { Grown(g.global, w.hand.e); }
  }

  lemma QueueBalance(g: Shared, w: Worker, i: nat, a: Action)
    requires a.Schedule? || a.Pop?
    ensures Exchange(g, w, WorkApply(g, w, i, a).0, WorkApply(g, w, i, a).1)
  {
    hide Bag;
    if a.Schedule? { Grown(w.local, a.e); } else { Ends(w.local); }
  }

  lemma GrabBalance(g: Shared, w: Worker, h: Hand)
    requires w.hand == h && h.Grabbing?
    ensures Exchange(g, w, GrabApply(g, w, h).0, GrabApply(g, w, h).1)
  {
    hide Bag;
    match h.moving
    case None => Ends(g.global);
    case Some(e) => if |w.local| < CAPACITY { Grown(w.local, e); } else { PutBack(g.global, e); }
  }

  lemma BalanceStep(s: State, e: Event)
    requires Balanced(s)
    ensures Balanced(Apply(s, e))
  {
    hide InWorker, WorkApply, Exchange;
    match e
    case Wake(x) =>
    case Work(i, a) =>
      if i < |s.workers| {
        var (g, w) := WorkApply(s.shared, s.workers[i], i, a);
        WorkBalance(s.shared, s.workers[i], i, a);
        PutKeeps(s.workers, i, w);
        Account(s.shared, s.workers[i], InWorkers(s.workers), g, w, InWorkers(s.workers[i := w]));
      }
    case Steal(i, v) =>
      var s' := Apply(s, e);
      if s' != s {
        var local := s.workers[v].local;
        var wv, wi := s.workers[v].(local := local[1..]), s.workers[i].(hand := Claiming(local[0]));
        PutKeeps(s.workers, v, wv);
        PutKeeps(s.workers[v := wv], i, wi);
        StealBalance(s.workers[i], s.workers[v], InWorkers(s.workers), InWorkers(s.workers[v := wv]),
                     InWorkers(s'.workers));
      }
  }

  lemma StealBalance(i: Worker, v: Worker, a: multiset<nat>, b: multiset<nat>, c: multiset<nat>)
    requires Free(i) && v.local != []
    requires b + InWorker(v) == a + InWorker(v.(local := v.local[1..]))
    requires c + InWorker(i) == b + InWorker(i.(hand := Claiming(v.local[0])))
    ensures c == a
  {
    var x, v', i' := v.local[0], InWorker(v.(local := v.local[1..])), InWorker(i.(hand := Claiming(v.local[0])));
    Ends(v.local);
    assert InWorker(v) == v' + multiset{x} && i' == InWorker(i) + multiset{x};
    hide InWorker;
    forall e: nat ensures c[e] == a[e] {
      assert (b + InWorker(v))[e] == (a + v')[e] && (c + InWorker(i))[e] == (b + i')[e];
    }
  }

  lemma {:induction false} NoEntries(ws: seq<Worker>)
    requires forall i :: 0 <= i < |ws| ==> ws[i] == Worker([], Nothing, None)
    ensures InWorkers(ws) == multiset{}
  {
    if ws != [] {
      NoEntries(ws[..|ws| - 1]);
      assert InWorker(ws[|ws| - 1]) == multiset{};
    }
  }

  /**
   Conservation: in every run every entry ever scheduled is in the global queue, in exactly one local queue or
   hand, or has been taken for a claim.  Overflow, grabbing with put-back, and stealing lose and copy none.
   */
  lemma {:induction false} EntriesConserved(n: nat, es: seq<Event>)
    ensures var s := Run(n, es);
            s.shared.entered == multiset(s.shared.global) + InWorkers(s.workers) + s.shared.consumed
  {
    if es == [] {
      NoEntries(Init(n).workers);
    } else {
      EntriesConserved(n, es[..|es| - 1]);
      BalanceStep(Run(n, es[..|es| - 1]), es[|es| - 1]);
    }
  }

  /** An entry taken from the global queue that the local queue refuses goes back to where it was. */
  lemma PutBackRestores(g: Shared, w: Worker, n: nat, held: Option<nat>)
    requires w.hand == Grabbing(n, None, held) && n < MAX_GRAB && g.global != [] && |w.local| >= CAPACITY
    ensures var (g1, w1) := GrabApply(g, w, w.hand);
            w1.hand.Grabbing? && GrabApply(g1, w1, w1.hand) == (g.(lock := None), w.(hand := Kept(held)))
  {
    assert g.global == [g.global[0]] + g.global[1..];
  }

  predicate Polls(s: State, i: nat, e: nat) {
    i < |s.workers| && s.workers[i].polling == Some(e)
  }

  ghost predicate WorkerInv(w: Worker, i: nat, lock: Option<nat>) {
    && |w.local| <= CAPACITY
    && (w.hand.Grabbing? <==> lock == Some(i))
    && (w.hand.Grabbing? ==> w.hand.n <= MAX_GRAB && (w.hand.moving.Some? ==> w.hand.n < MAX_GRAB) && w.polling.None?)
    && (w.hand.Claiming? ==> w.polling.None?)
  }

  ghost predicate OnePolls(s: State) {
    forall i: nat, j: nat, e: nat :: Polls(s, i, e) && Polls(s, j, e) ==> i == j
  }

  ghost predicate RunningPolled(s: State) {
    forall e: nat :: StateOf(s.shared, e).Running? <==> exists i: nat :: Polls(s, i, e)
  }

  ghost predicate Inv(s: State) {
    && (forall i :: 0 <= i < |s.workers| ==> WorkerInv(s.workers[i], i, s.shared.lock))
    && OnePolls(s)
    && RunningPolled(s)
  }

  /** Only the claim and the end of a poll touch the task states. */
  lemma TasksMove(g: Shared, w: Worker, i: nat, a: Action)
    ensures var (g', w') := WorkApply(g, w, i, a);
            && (a.Claim? && w.hand.Claiming? && StateOf(g, w.hand.e).Pending? ==>
                  w'.polling == Some(w.hand.e) && g'.tasks == g.tasks[w.hand.e := Running])
            && (a.EndPoll? && w.polling.Some? && w.hand.Nothing? ==>
                  w'.polling == None && g'.tasks == g.tasks[w.polling.value := if a.ready then Completed else Pending])
            && (!(a.Claim? && w.hand.Claiming? && StateOf(g, w.hand.e).Pending?)
                && !(a.EndPoll? && w.polling.Some? && w.hand.Nothing?) ==>
                  w'.polling == w.polling && g'.tasks == g.tasks)
  {
  }

  lemma WorkerStep(g: Shared, w: Worker, i: nat, a: Action)
    requires WorkerInv(w, i, g.lock)
    ensures WorkerInv(WorkApply(g, w, i, a).1, i, WorkApply(g, w, i, a).0.lock)
    ensures WorkApply(g, w, i, a).0.lock != g.lock ==>
              g.lock in {None, Some(i)} && WorkApply(g, w, i, a).0.lock in {None, Some(i)}
  {
  }

  lemma OthersPoll(s: State, i: nat, a: Action)
    requires i < |s.workers|
    ensures forall j: nat, e: nat :: j != i ==> (Polls(Apply(s, Work(i, a)), j, e) <==> Polls(s, j, e))
  {
    hide WorkApply;
  }

  lemma PollingStep(s: State, i: nat, a: Action)
    requires Inv(s) && i < |s.workers|
    ensures OnePolls(Apply(s, Work(i, a))) && RunningPolled(Apply(s, Work(i, a)))
  {
    var s', w := Apply(s, Work(i, a)), s.workers[i];
    TasksMove(s.shared, w, i, a);
    OthersPoll(s, i, a);
    assert WorkerInv(w, i, s.shared.lock);
    var w' := s'.workers[i];
    assert forall e: nat :: Polls(s, i, e) <==> w.polling == Some(e);
    assert forall e: nat :: Polls(s', i, e) <==> w'.polling == Some(e);
    if w'.polling.Some? && w'.polling != w.polling {
      assert !exists k: nat :: Polls(s, k, w'.polling.value);
    }
    hide WorkApply, Apply, WorkerInv, Polls;
    forall e: nat ensures StateOf(s'.shared, e).Running? <==> exists k: nat :: Polls(s', k, e) {
      if StateOf(s.shared, e).Running? {
        var k: nat :| Polls(s, k, e);
        if k != i { assert Polls(s', k, e); }
      }
      if k: nat :| Polls(s', k, e) && k != i { assert Polls(s, k, e); }
      if k: nat :| Polls(s', k, e) && k == i { assert Polls(s', i, e); }
    }
  }

  lemma Step(s: State, e: Event)
    requires Inv(s)
    ensures Inv(Apply(s, e))
  {
    var s' := Apply(s, e);
    match e
    case Wake(_) => SamePolling(s, s');
    case Work(i, a) =>
      if i < |s.workers| {
        WorkerStep(s.shared, s.workers[i], i, a);
        PollingStep(s, i, a);
        assert WorkerInv(s.workers[i], i, s.shared.lock);
        hide WorkApply, OnePolls, RunningPolled;
        forall k | 0 <= k < |s.workers| ensures WorkerInv(s'.workers[k], k, s'.shared.lock) {
          assert WorkerInv(s.workers[k], k, s.shared.lock);
        }
      }
    case Steal(i, v) => SamePolling(s, s');
  }

  lemma SamePolling(s: State, s': State)
    requires OnePolls(s) && RunningPolled(s) && s'.shared.tasks == s.shared.tasks && |s'.workers| == |s.workers|
    requires forall k :: 0 <= k < |s.workers| ==> s'.workers[k].polling == s.workers[k].polling
    ensures OnePolls(s') && RunningPolled(s')
  {
    assert forall i: nat, x: nat :: Polls(s', i, x) <==> Polls(s, i, x);
    hide Polls;
    forall e: nat ensures StateOf(s'.shared, e).Running? <==> exists i: nat :: Polls(s', i, e) {
      assert StateOf(s.shared, e).Running? <==> exists i: nat :: Polls(s, i, e);
      if i: nat :| Polls(s, i, e) { assert Polls(s', i, e); }
      if i: nat :| Polls(s', i, e) { assert Polls(s, i, e); }
    }
  }

  lemma InitInv(n: nat)
    ensures Inv(Init(n))
  {
    var s := Init(n);
    assert forall i: nat, e: nat :: !Polls(s, i, e);
  }

  lemma {:induction false} RunInv(n: nat, es: seq<Event>)
    ensures Inv(Run(n, es))
  {
    if es == [] {
      InitInv(n);
    } else {
      RunInv(n, es[..|es| - 1]);
      Step(Run(n, es[..|es| - 1]), es[|es| - 1]);
    }
  }

  /** A task that is polled is Running and has one poller. */
  lemma {:induction false} OnePoller(n: nat, es: seq<Event>, i: nat, j: nat, e: nat)
    requires Polls(Run(n, es), i, e)
    ensures StateOf(Run(n, es).shared, e).Running? && (Polls(Run(n, es), j, e) ==> i == j)
  {
    RunInv(n, es);
  }

  /** Once completed, a task stays completed and nobody polls it again. */
  lemma {:induction false} CompletedIsFinal(n: nat, es: seq<Event>, more: seq<Event>, e: nat)
    requires StateOf(Run(n, es).shared, e).Completed?
    ensures StateOf(Run(n, es + more).shared, e).Completed? && forall i: nat :: !Polls(Run(n, es + more), i, e)
  {
    hide Apply, Polls, Inv;
    RunInv(n, es + more);
    if more == [] {
      assert es + more == es;
    } else {
      var less, last := more[..|more| - 1], more[|more| - 1];
      CompletedIsFinal(n, es, less, e);
      assert (es + more)[..|es + more| - 1] == es + less;
      StaysCompleted(Run(n, es + less), last, e);
    }
    CompletedIsNotPolled(Run(n, es + more), e);
  }

  lemma CompletedIsNotPolled(s: State, e: nat)
    requires Inv(s) && StateOf(s.shared, e).Completed?
    ensures forall i: nat :: !Polls(s, i, e)
  {
    assert StateOf(s.shared, e).Running? <==> exists i: nat :: Polls(s, i, e);
    hide Polls;
  }

  lemma StaysCompleted(s: State, next: Event, e: nat)
    requires StateOf(s.shared, e).Completed? && forall i: nat :: !Polls(s, i, e)
    ensures StateOf(Apply(s, next).shared, e).Completed?
  {
    if next.Work? && next.i < |s.workers| {
      TasksMove(s.shared, s.workers[next.i], next.i, next.a);
      hide WorkApply;
      assert !Polls(s, next.i, e);
    }
  }

  lemma {:induction false} RunWorkers(n: nat, es: seq<Event>)
    ensures |Run(n, es).workers| == n
  {
    hide WorkApply;
    if es != [] { RunWorkers(n, es[..|es| - 1]); }
  }

  /**
   Exactly when a claim throws an entry away although its task is not done: the task is being polled, by another
   worker, at that instant.
   */
  lemma ClaimDropsExactly(n: nat, es: seq<Event>, i: nat, e: nat)
    requires i < |Run(n, es).workers| && Run(n, es).workers[i].hand == Claiming(e)
    ensures var s, s' := Run(n, es), Apply(Run(n, es), Work(i, Claim));
            && i < n && |s'.workers| == n && s'.workers[i].hand == Nothing
            && (Polls(s', i, e) <==> StateOf(s.shared, e).Pending?)
            && (!Polls(s', i, e) && !StateOf(s.shared, e).Completed? <==> exists j: nat :: j != i && Polls(s, j, e))
  {
    var s := Run(n, es);
    RunInv(n, es);
    RunWorkers(n, es);
    assert WorkerInv(s.workers[i], i, s.shared.lock);
    assert !Polls(s, i, e);
    hide OnePolls;
    if j: nat :| Polls(s, j, e) { assert j != i; }
  }

  /** The entries there are, in queues and hands. */
  function Entries(s: State): multiset<nat> {
    Bag(s.shared.global) + InWorkers(s.workers)
  }

  /** Every task that was woken since its last poll began, and has not completed, has an entry. */
  ghost predicate WakesKept(s: State) {
    forall e: nat :: e in s.shared.owed ==> StateOf(s.shared, e).Completed? || e in Entries(s)
  }

  /** The claim of the last entry of a task that is being polled and was woken since that poll began. */
  ghost predicate Loses(s: State, e: Event) {
    && e.Work? && e.a.Claim? && e.i < |s.workers| && s.workers[e.i].hand.Claiming?
    && var task := s.workers[e.i].hand.e;
       StateOf(s.shared, task).Running? && task in s.shared.owed && Entries(s)[task] == 1
  }

  lemma EntriesAre(s: State, e: nat)
    requires Balanced(s)
    ensures Entries(s)[e] + s.shared.consumed[e] == s.shared.entered[e]
  {
    var x := Entries(s);
    assert s.shared.entered == x + s.shared.consumed;
    hide Entries;
  }

  /** What a step other than a claim does to the history: only new entries are owed anew. */
  ghost predicate OnlyAdds(g: Shared, g': Shared) {
    && g'.consumed == g.consumed
    && (forall e: nat :: g'.entered[e] >= g.entered[e])
    && (forall e: nat :: e in g'.owed ==> e in g.owed || g'.entered[e] > g.entered[e])
    && g.owed <= g'.owed
  }

  lemma WorkOnlyAdds(g: Shared, w: Worker, i: nat, a: Action)
    ensures !(a.Claim? && w.hand.Claiming?) ==> OnlyAdds(g, WorkApply(g, w, i, a).0)
  {
    if a.Schedule? { ScheduleOnlyAdds(g, w, i, a.e); }
  }

  lemma ScheduleOnlyAdds(g: Shared, w: Worker, i: nat, x: nat)
    ensures OnlyAdds(g, WorkApply(g, w, i, Schedule(x)).0)
  {
    var g' := Entered(g, x);
    forall e: nat | e in g'.owed ensures e in g.owed || g'.entered[e] > g.entered[e] {}
  }

  lemma AddingKeepsOwed(s: State, s': State)
    requires Balanced(s) && Balanced(s') && WakesKept(s) && OnlyAdds(s.shared, s'.shared)
    requires forall e: nat :: StateOf(s.shared, e).Completed? ==> StateOf(s'.shared, e).Completed?
    ensures WakesKept(s')
  {
    hide Balanced, Entries;
    forall e: nat | e in s'.shared.owed ensures StateOf(s'.shared, e).Completed? || e in Entries(s') {
      EntriesAre(s, e);
      EntriesAre(s', e);
      assert e in s.shared.owed ==> StateOf(s.shared, e).Completed? || e in Entries(s);
    }
  }

  /** What a claim does to the history and to the states. */
  lemma ClaimMoves(s: State, i: nat)
    requires i < |s.workers| && s.workers[i].hand.Claiming?
    ensures var g, g', task := s.shared, Apply(s, Work(i, Claim)).shared, s.workers[i].hand.e;
            && g'.entered == g.entered && g'.consumed == g.consumed + multiset{task}
            && g'.owed == (if StateOf(g, task).Pending? then g.owed - {task} else g.owed)
            && (!StateOf(g, task).Pending? ==> StateOf(g', task) == StateOf(g, task))
            && forall e: nat :: e != task ==> StateOf(g', e) == StateOf(g, e)
  {
  }

  lemma ClaimKeepsOthers(s: State, s': State, task: nat)
    requires Balanced(s) && Balanced(s') && WakesKept(s)
    requires s'.shared.entered == s.shared.entered && s'.shared.consumed == s.shared.consumed + multiset{task}
    requires s'.shared.owed <= s.shared.owed
    requires forall e: nat :: e != task ==> StateOf(s'.shared, e) == StateOf(s.shared, e)
    ensures forall e: nat :: e != task && e in s'.shared.owed ==> StateOf(s'.shared, e).Completed? || e in Entries(s')
    ensures Entries(s')[task] + 1 == Entries(s)[task]
  {
    hide Balanced, Entries, StateOf;
    EntriesAre(s, task);
    EntriesAre(s', task);
    forall e: nat | e != task && e in s'.shared.owed ensures StateOf(s'.shared, e).Completed? || e in Entries(s') {
      EntriesAre(s, e);
      EntriesAre(s', e);
    }
  }

  lemma ClaimKeepsOwed(s: State, i: nat)
    requires Balanced(s) && Balanced(Apply(s, Work(i, Claim))) && WakesKept(s)
    requires i < |s.workers| && s.workers[i].hand.Claiming?
    ensures WakesKept(Apply(s, Work(i, Claim))) <==> !Loses(s, Work(i, Claim))
  {
    var s', task := Apply(s, Work(i, Claim)), s.workers[i].hand.e;
    ClaimMoves(s, i);
    ClaimKeepsOthers(s, s', task);
    hide Balanced, Entries, Apply, InWorkers;
  }

  /** Exactly when a step loses a wake. */
  lemma KeptStep(s: State, e: Event)
    requires Inv(s) && Balanced(s) && WakesKept(s)
    ensures WakesKept(Apply(s, e)) <==> !Loses(s, e)
  {
    BalanceStep(s, e);
    if e.Work? && e.a.Claim? && e.i < |s.workers| && s.workers[e.i].hand.Claiming? {
      ClaimKeepsOwed(s, e.i);
    } else {
      var s' := Apply(s, e);
      assert OnlyAdds(s.shared, s'.shared) by { StepOnlyAdds(s, e); }
      forall k: nat | StateOf(s.shared, k).Completed? ensures StateOf(s'.shared, k).Completed? {
        CompletedIsNotPolled(s, k);
        StaysCompleted(s, e, k);
      }
      hide Inv, Apply, Balanced, StateOf, OnlyAdds;
      AddingKeepsOwed(s, s');
    }
  }

  lemma StepOnlyAdds(s: State, e: Event)
    requires !(e.Work? && e.a.Claim? && e.i < |s.workers| && s.workers[e.i].hand.Claiming?)
    ensures OnlyAdds(s.shared, Apply(s, e).shared)
  {
    match e
    case Wake(x) =>
      var g' := Entered(s.shared, x);
      forall k: nat | k in g'.owed ensures k in s.shared.owed || g'.entered[k] > s.shared.entered[k] {}
    case Work(i, a) =>
      if i < |s.workers| {
        WorkOnlyAdds(s.shared, s.workers[i], i, a);
        hide WorkApply;
      }
    case Steal(_, _) =>
  }

  lemma {:induction false} BalanceRun(n: nat, es: seq<Event>)
    ensures Balanced(Run(n, es))
  {
    EntriesConserved(n, es);
  }

  ghost predicate AlwaysKept(n: nat, es: seq<Event>) {
    forall k :: 0 <= k <= |es| ==> WakesKept(Run(n, es[..k]))
  }

  ghost predicate NeverLoses(n: nat, es: seq<Event>) {
    forall k :: 0 <= k < |es| ==> !Loses(Run(n, es[..k]), es[k])
  }

  lemma KeptLonger(n: nat, es: seq<Event>, e: Event)
    ensures AlwaysKept(n, es + [e]) <==> AlwaysKept(n, es) && WakesKept(Run(n, es + [e]))
    ensures NeverLoses(n, es + [e]) <==> NeverLoses(n, es) && !Loses(Run(n, es), e)
  {
    hide WakesKept, Loses, Run;
    var all := es + [e];
    assert all[..|all|] == all && all[..|es|] == es && all[|es|] == e;
    assert forall k :: 0 <= k <= |es| ==> all[..k] == es[..k];
    assert forall k :: 0 <= k < |es| ==> all[k] == es[k];
    if AlwaysKept(n, all) {
      forall k | 0 <= k <= |es| ensures WakesKept(Run(n, es[..k])) { assert WakesKept(Run(n, all[..k])); }
    }
    if NeverLoses(n, all) {
      forall k | 0 <= k < |es| ensures !Loses(Run(n, es[..k]), es[k]) { assert !Loses(Run(n, all[..k]), all[k]); }
    }
  }

  /**
   Exactly which runs lose no wake: at every point every woken task that has not completed has an entry, if and
   only if no step claims the last entry of a task that is being polled and was woken since that poll began.
   */
  lemma {:induction false} WakesKeptExactly(n: nat, es: seq<Event>)
    ensures AlwaysKept(n, es) <==> NeverLoses(n, es)
  {
    if es == [] {
      NothingOwed(n);
    } else {
      var prior, last := es[..|es| - 1], es[|es| - 1];
      assert es == prior + [last];
      WakesKeptExactly(n, prior);
      KeptLonger(n, prior, last);
      RunInv(n, prior);
      BalanceRun(n, prior);
      assert AlwaysKept(n, prior) ==> WakesKept(Run(n, prior)) by { assert prior[..|prior|] == prior; }
      hide WakesKept, Loses, Apply, AlwaysKept, NeverLoses, Inv, Balanced;
      if WakesKept(Run(n, prior)) { KeptStep(Run(n, prior), last); }
    }
  }

  lemma NothingOwed(n: nat)
    ensures WakesKept(Init(n))
  {
  }

  /** A single worker loses none. */
  lemma {:induction false} OneWorkerKeepsWakes(es: seq<Event>)
    ensures WakesKept(Run(1, es))
  {
    hide WakesKept, Loses, Run;
    forall k | 0 <= k < |es| ensures !Loses(Run(1, es[..k]), es[k]) { OneWorkerNeverLoses(es[..k], es[k]); }
    WakesKeptExactly(1, es);
    assert es[..|es|] == es;
  }

  lemma OneWorkerNeverLoses(es: seq<Event>, e: Event)
    ensures !Loses(Run(1, es), e)
  {
    hide Run, Entries, Inv, Apply;
    RunInv(1, es);
    RunWorkers(1, es);
    var s := Run(1, es);
    if s.workers[0].hand.Claiming? { ClaimantAlone(s, s.workers[0].hand.e); }
  }

  lemma ClaimantAlone(s: State, task: nat)
    requires Inv(s) && |s.workers| == 1 && s.workers[0].hand == Claiming(task)
    ensures !StateOf(s.shared, task).Running?
  {
    assert WorkerInv(s.workers[0], 0, s.shared.lock);
    assert StateOf(s.shared, task).Running? <==> exists i: nat :: Polls(s, i, task);
    assert forall i: nat :: !Polls(s, i, task);
  }

  lemma RunSnoc(n: nat, es: seq<Event>, e: Event)
    ensures Run(n, es + [e]) == Apply(Run(n, es), e)
  {
    assert (es + [e])[..|es|] == es;
  }

  /** Grab the one entry of the global queue, pop it and try to claim it. */
  function Fetch(i: nat): seq<Event> {
    Grabs(i) + [Work(i, GrabStep), Work(i, Pop)] + [Work(i, Claim)]
  }

  /** Lock, take the entry, put it into the local queue. */
  function Grabs(i: nat): seq<Event> {
    [Work(i, Grab), Work(i, GrabStep), Work(i, GrabStep)]
  }

  function Idle(): Worker {
    Worker([], Nothing, None)
  }

  function Moving(n: nat, e: Option<nat>): Worker {
    Worker([], Grabbing(n, e, None), None)
  }

  lemma FetchSteps(g: Shared, i: nat, e: nat)
    requires g.global == [e] && g.lock == None
    ensures var g', none, w := g.(lock := Some(i)), g.(lock := Some(i), global := []), Worker([], Claiming(e), None);
            && WorkApply(g, Idle(), i, Grab) == (g', Moving(0, None))
            && WorkApply(g', Moving(0, None), i, GrabStep) == (none, Moving(0, Some(e)))
            && WorkApply(none, Moving(0, Some(e)), i, GrabStep) == (none, Moving(1, None).(local := [e]))
            && WorkApply(none, Moving(1, None).(local := [e]), i, GrabStep) == (g.(global := []), Idle().(local := [e]))
            && WorkApply(g.(global := []), Idle().(local := [e]), i, Pop) == (g.(global := []), w)
            && WorkApply(g.(global := []), w, i, Claim) == ClaimApply(g.(global := []), w, e)
  {
    var none, e1 := g.(lock := Some(i), global := []), Moving(1, None).(local := [e]);
    assert [e][1..] == [] && [] + [e] == [e] && [e][..0] == [];
    assert GrabApply(none, e1, e1.hand) == (g.(global := []), Idle().(local := [e]));
    hide ClaimApply, GrabApply;
  }

  lemma Works(n: nat, es: seq<Event>, ws: seq<Worker>, g: Shared, i: nat, w: Worker, a: Action)
    requires i < |ws| && Run(n, es) == State(g, ws[i := w])
    ensures Run(n, es + [Work(i, a)]) == State(WorkApply(g, w, i, a).0, ws[i := WorkApply(g, w, i, a).1])
  {
    hide WorkApply;
    RunSnoc(n, es, Work(i, a));
  }

  lemma GrabRuns(n: nat, es: seq<Event>, s: State, i: nat, e: nat)
    requires s == Run(n, es) && i < |s.workers| && s.workers[i] == Idle()
    requires s.shared.global == [e] && s.shared.lock == None
    ensures Run(n, es + Grabs(i)) ==
              State(s.shared.(lock := Some(i), global := []), s.workers[i := Moving(1, None).(local := [e])])
  {
    var g, ws := s.shared, s.workers;
    FetchSteps(g, i, e);
    hide WorkApply;
    assert ws[i := Idle()] == ws;
    Works(n, es, ws, g, i, Idle(), Grab);
    var es1 := es + [Work(i, Grab)];
    Works(n, es1, ws, g.(lock := Some(i)), i, Moving(0, None), GrabStep);
    var es2 := es1 + [Work(i, GrabStep)];
    Works(n, es2, ws, g.(lock := Some(i), global := []), i, Moving(0, Some(e)), GrabStep);
    assert es2 + [Work(i, GrabStep)] == es + Grabs(i);
  }

  lemma PopRuns(n: nat, es: seq<Event>, s: State, i: nat, e: nat)
    requires s == Run(n, es) && i < |s.workers| && s.workers[i] == Idle()
    requires s.shared.global == [e] && s.shared.lock == None
    ensures Run(n, es + Grabs(i) + [Work(i, GrabStep), Work(i, Pop)]) ==
              State(s.shared.(global := []), s.workers[i := Worker([], Claiming(e), None)])
  {
    var g, ws := s.shared, s.workers;
    FetchSteps(g, i, e);
    GrabRuns(n, es, s, i, e);
    hide WorkApply, ClaimApply, Grabs;
    var es3 := es + Grabs(i);
    Works(n, es3, ws, g.(lock := Some(i), global := []), i, Moving(1, None).(local := [e]), GrabStep);
    var es4 := es3 + [Work(i, GrabStep)];
    Works(n, es4, ws, g.(global := []), i, Idle().(local := [e]), Pop);
    assert es4 + [Work(i, Pop)] == es + Grabs(i) + [Work(i, GrabStep), Work(i, Pop)];
  }

  lemma FetchRuns(n: nat, es: seq<Event>, s: State, i: nat, e: nat)
    requires s == Run(n, es) && i < |s.workers| && s.workers[i] == Idle()
    requires s.shared.global == [e] && s.shared.lock == None
    ensures var (g, w) := ClaimApply(s.shared.(global := []), Worker([], Claiming(e), None), e);
            Run(n, es + Fetch(i)) == State(g, s.workers[i := w])
  {
    FetchSteps(s.shared, i, e);
    PopRuns(n, es, s, i, e);
    hide WorkApply, ClaimApply;
    var popped := es + Grabs(i) + [Work(i, GrabStep), Work(i, Pop)];
    Works(n, popped, s.workers, s.shared.(global := []), i, Worker([], Claiming(e), None), Claim);
    assert es + Grabs(i) + [Work(i, GrabStep), Work(i, Pop)] + [Work(i, Claim)] == es + Fetch(i);
  }

  /** Worker 0 polls task 5 and another thread wakes it meanwhile. */
  function WokenWhilePolled(): seq<Event> {
    [Wake(5)] + Fetch(0) + [Wake(5)]
  }

  lemma WokenWhilePolledRun()
    ensures Run(2, WokenWhilePolled()) ==
              State(Shared([5], None, map[5 := Running], multiset{5, 5}, multiset{5}, {5}),
                    [Worker([], Nothing, Some(5)), Idle()])
  {
    RunSnoc(2, [], Wake(5));
    var es1 := [Wake(5)];
    assert [] + es1 == es1;
    var s1 := State(Shared([5], None, map[], multiset{5}, multiset{}, {5}), [Idle(), Idle()]);
    assert Run(2, es1) == s1;
    FetchRuns(2, es1, s1, 0, 5);
    var es2 := es1 + Fetch(0);
    var s2 := State(Shared([], None, map[5 := Running], multiset{5}, multiset{5}, {}),
                    [Worker([], Nothing, Some(5)), Idle()]);
    assert Run(2, es2) == s2;
    RunSnoc(2, es2, Wake(5));
    assert es2 + [Wake(5)] == WokenWhilePolled();
  }

  /** The run whose last step is the losing one: worker 1 takes that entry and drops it. */
  function Dropping(): seq<Event> {
    WokenWhilePolled() + Grabs(1) + [Work(1, GrabStep), Work(1, Pop)] + [Work(1, Claim)]
  }

  /** After it no entry for the woken task is left anywhere. */
  function Lost(): State {
    State(Shared([], None, map[5 := Running], multiset{5, 5}, multiset{5, 5}, {5}),
          [Worker([], Nothing, Some(5)), Idle()])
  }

  lemma DroppingRun()
    ensures var es := Dropping()[..|Dropping()| - 1];
            Run(2, es) == State(Lost().shared.(consumed := multiset{5}),
                                Lost().workers[1 := Worker([], Claiming(5), None)])
    ensures Run(2, Dropping()) == Lost()
  {
    var es := WokenWhilePolled();
    WokenWhilePolledRun();
    PopRuns(2, es, Run(2, es), 1, 5);
    FetchRuns(2, es, Run(2, es), 1, 5);
    hide Run, Grabs, WokenWhilePolled;
    var before := es + Grabs(1) + [Work(1, GrabStep), Work(1, Pop)];
    assert Dropping() == before + [Work(1, Claim)];
    assert Dropping()[..|Dropping()| - 1] == before;
    assert Dropping() == es + Fetch(1);
  }

  /** A run that loses a wake: its last claim is the losing step, and then worker 0's poll ends not ready. */
  lemma DroppedWake()
    ensures Loses(Run(2, Dropping()[..|Dropping()| - 1]), Dropping()[|Dropping()| - 1])
    ensures !WakesKept(Run(2, Dropping()))
    ensures var s := Run(2, Dropping() + [Work(0, EndPoll(false))]);
            && StateOf(s.shared, 5).Pending? && 5 in s.shared.owed && !WakesKept(s)
            && s.shared.entered == multiset{5, 5} == s.shared.consumed
            && s.shared.global == [] && |s.workers| == 2 && forall i :: 0 <= i < 2 ==> s.workers[i] == Idle()
  {
    DroppingRun();
    assert Dropping()[|Dropping()| - 1] == Work(1, Claim);
    RunSnoc(2, Dropping(), Work(0, EndPoll(false)));
    hide Run, Dropping, Entries, InWorkers;
    OneEntry(Run(2, Dropping()[..|Dropping()| - 1]));
    NoEntry(Lost());
    NoEntry(Run(2, Dropping() + [Work(0, EndPoll(false))]));
  }

  lemma NoEntry(s: State)
    requires s.shared.global == [] && |s.workers| == 2
    requires forall i :: 0 <= i < 2 ==> s.workers[i].local == [] && s.workers[i].hand.Nothing?
    ensures Entries(s) == multiset{}
  {
    var ws := s.workers;
    assert ws[..1] == [ws[0]] && ws[..1][..0] == [];
    assert InWorkers(ws[..1]) == multiset{};
  }

  lemma OneEntry(s: State)
    requires s.shared.global == [] && |s.workers| == 2 && s.workers[0].local == [] == s.workers[1].local
    requires s.workers[0].hand.Nothing? && s.workers[1].hand == Claiming(5)
    ensures Entries(s)[5] == 1
  {
    var ws := s.workers;
    assert ws[..1] == [ws[0]] && ws[..1][..0] == [];
    assert InWorkers(ws[..1]) == multiset{};
  }

  /** A wake by any thread: the entry is the last of the global queue, and the task is owed a poll. */
  lemma WakeIsThere(n: nat, es: seq<Event>, e: nat)
    requires Run(n, es).shared.lock.None?
    ensures var g, s' := Run(n, es).shared, Run(n, es + [Wake(e)]);
            && s'.shared.global == g.global + [e] && e in s'.shared.owed
            && s'.shared.entered == g.entered + multiset{e} && s'.shared.tasks == g.tasks
            && s'.workers == Run(n, es).workers
  {
    RunSnoc(n, es, Wake(e));
    hide Run;
  }

  /** A schedule on the worker's own thread: its local queue ends in the entry, or if it was full the global one. */
  lemma ScheduleIsThere(n: nat, es: seq<Event>, i: nat, e: nat)
    requires var s := Run(n, es); i < |s.workers| && s.workers[i].hand.Nothing? && s.shared.lock.None?
    ensures var s, s' := Run(n, es), Run(n, es + [Work(i, Schedule(e)), Work(i, PushOverflow)]);
            && |s'.workers| == |s.workers|
            && var q, q' := s.workers[i].local, s'.workers[i].local;
            && e in s'.shared.owed && s'.shared.entered == s.shared.entered + multiset{e}
            && s'.workers[i].hand.Nothing? && s'.shared.tasks == s.shared.tasks
            && if |q| < CAPACITY then q' == q + [e] && s'.shared.global == s.shared.global
               else q' == q && s'.shared.global == s.shared.global + [e]
  {
    RunSnoc(n, es, Work(i, Schedule(e)));
    RunSnoc(n, es + [Work(i, Schedule(e))], Work(i, PushOverflow));
    assert es + [Work(i, Schedule(e))] + [Work(i, PushOverflow)] == es + [Work(i, Schedule(e)), Work(i, PushOverflow)];
    hide Run;
  }

  lemma PopClaims(g: Shared, w: Worker, i: nat, ready: bool)
    requires Free(w) && w.local != []
    ensures var e := w.local[|w.local| - 1];
            var (g1, w1) := WorkApply(g, w, i, Pop);
            var (g2, w2) := WorkApply(g1, w1, i, Claim);
            var (g3, w3) := WorkApply(g2, w2, i, EndPoll(ready));
            && w2.local == w.local[..|w.local| - 1] && w2.hand.Nothing?
            && w2.polling == (if StateOf(g, e).Pending? then Some(e) else None)
            && (StateOf(g, e).Pending? ==> StateOf(g2, e).Running? && Free(w3))
            && (StateOf(g, e).Pending? ==> StateOf(g3, e) == if ready then Completed else Pending)
  {
  }

  /** An idle worker runs the newest entry of its queue: pending, it is polled, and ends as the poll says. */
  lemma NewestIsPolled(n: nat, es: seq<Event>, i: nat, ready: bool)
    requires var s := Run(n, es); i < |s.workers| && Free(s.workers[i]) && s.workers[i].local != []
    ensures var s := Run(n, es); var q := s.workers[i].local; var e := q[|q| - 1];
            var s', s'' := Run(n, es + [Work(i, Pop), Work(i, Claim)]),
                           Run(n, es + [Work(i, Pop), Work(i, Claim)] + [Work(i, EndPoll(ready))]);
            && |s'.workers| == |s''.workers| == |s.workers|
            && s'.workers[i].local == q[..|q| - 1] && s'.workers[i].hand.Nothing?
            && (Polls(s', i, e) <==> StateOf(s.shared, e).Pending?)
            && (Polls(s', i, e) ==> StateOf(s'.shared, e).Running? && Free(s''.workers[i]))
            && (Polls(s', i, e) ==> StateOf(s''.shared, e) == if ready then Completed else Pending)
  {
    var s := Run(n, es);
    var g, ws, w := s.shared, s.workers, s.workers[i];
    assert ws[i := w] == ws;
    hide WorkApply, Run;
    PopClaims(g, w, i, ready);
    Works(n, es, ws, g, i, w, Pop);
    var (g1, w1) := WorkApply(g, w, i, Pop);
    Works(n, es + [Work(i, Pop)], ws, g1, i, w1, Claim);
    assert es + [Work(i, Pop)] + [Work(i, Claim)] == es + [Work(i, Pop), Work(i, Claim)];
    var (g2, w2) := WorkApply(g1, w1, i, Claim);
    Works(n, es + [Work(i, Pop), Work(i, Claim)], ws, g2, i, w2, EndPoll(ready));
  }

  /** An idle worker that steals runs the victim's oldest entry. */
  lemma StolenIsPolled(n: nat, es: seq<Event>, i: nat, v: nat)
    requires var s := Run(n, es); i < |s.workers| && v < |s.workers| && i != v
    requires Free(Run(n, es).workers[i]) && Run(n, es).workers[v].local != []
    ensures var s, s' := Run(n, es), Run(n, es + [Steal(i, v), Work(i, Claim)]);
            var e := s.workers[v].local[0];
            && |s'.workers| == |s.workers|
            && s'.workers[v].local == s.workers[v].local[1..] && s'.workers[i].local == s.workers[i].local
            && (Polls(s', i, e) <==> StateOf(s.shared, e).Pending?)
  {
    RunSnoc(n, es, Steal(i, v));
    RunSnoc(n, es + [Steal(i, v)], Work(i, Claim));
    assert es + [Steal(i, v)] + [Work(i, Claim)] == es + [Steal(i, v), Work(i, Claim)];
    hide Run;
  }

  /** The victims of thief t among n workers, in the order try_steal visits them. */
  function Victims(t: nat, n: nat): (vs: seq<nat>)
    requires t < n
  {
    seq(n - 1, k requires 0 <= k < n - 1 => (t + 1 + k) % n)
  }

  lemma Wraps(x: nat, n: nat)
    requires 0 < n && x < 2 * n
    ensures x % n == if x < n then x else x - n
  {
    RemainderIs(x, n, if x < n then 0 else 1);
  }

  lemma RemainderIs(x: nat, n: nat, q: nat)
    requires 0 < n && q * n <= x < q * n + n
    ensures x % n == x - q * n
  {
    var p := x / n;
    assert x == p * n + x % n;
    assert (q + 1) * n == q * n + n && (p + 1) * n == p * n + n;
    assert p > q ==> p * n >= (q + 1) * n;
    assert p < q ==> (p + 1) * n <= q * n;
  }

  /** try_steal visits every other worker exactly once and never itself. */
  lemma VictimsAreTheOthers(t: nat, n: nat)
    requires t < n
    ensures t !in Victims(t, n) && forall v :: v in Victims(t, n) ==> v < n
    ensures forall v :: 0 <= v < n && v != t ==> v in Victims(t, n)
    ensures forall j, k :: 0 <= j < k < |Victims(t, n)| ==> Victims(t, n)[j] != Victims(t, n)[k]
    ensures forall k :: 0 <= k < n - 1 ==> Victims(t, n)[k] == if t + 1 + k < n then t + 1 + k else t + 1 + k - n
  {
    var vs := Victims(t, n);
    forall k | 0 <= k < n - 1 ensures vs[k] == if t + 1 + k < n then t + 1 + k else t + 1 + k - n {
      Wraps(t + 1 + k, n);
    }
    forall v | 0 <= v < n && v != t ensures v in vs {
      var k := if v > t then v - t - 1 else v + n - t - 1;
      assert vs[k] == v;
    }
  }

  /** The entries one uninterrupted grab moves: the batch limit, what there is, and what fits. */
  function GrabCount(global: nat, local: nat): nat {
    var room := if local < CAPACITY then CAPACITY - local else 0;
    var wanted := if global < MAX_GRAB then global else MAX_GRAB;
    if wanted < room then wanted else room
  }

  /** The steps of a grab, run to its end with nobody in between. */
  function GrabAll(g: Shared, w: Worker): (Shared, Worker)
    decreases if w.hand.Grabbing? then 2 * |g.global| + |One(w.hand.moving)| + 1 else 0
  {
    if !w.hand.Grabbing? then (g, w) else
      var (g', w') := GrabApply(g, w, w.hand);
      GrabAll(g', w')
  }

  /** The state a grab leaves after k more entries have gone to the local queue. */
  function Moved(g: Shared, w: Worker, k: nat): (Shared, Worker)
    requires k <= |g.global|
  {
    (g.(global := g.global[k..], lock := None), w.(local := w.local + g.global[..k]))
  }

  lemma {:induction false} GrabAllMoves(g: Shared, w: Worker)
    requires w.hand.Grabbing? && w.hand.moving.None? && w.hand.n <= MAX_GRAB && |w.local| <= CAPACITY
    ensures var left := MAX_GRAB - w.hand.n;
            var k := GrabCount(if |g.global| < left then |g.global| else left, |w.local|);
            GrabAll(g, w) == Moved(g, w.(hand := Kept(w.hand.held)), k)
    decreases |g.global|
  {
    var (g1, w1) := GrabApply(g, w, w.hand);
    var done := w.(hand := Kept(w.hand.held));
    NoneMoved(g, done);
    if w1.hand.Grabbing? {
      var x, rest := g.global[0], g.global[1..];
      assert [x] + rest == g.global;
      var (g2, w2) := GrabApply(g1, w1, w1.hand);
      assert GrabAll(g1, w1) == GrabAll(g2, w2);
      if |w.local| < CAPACITY {
        assert g2 == g.(global := rest);
        assert w2 == w.(local := w.local + [x], hand := Grabbing(w.hand.n + 1, None, w.hand.held));
        GrabAllMoves(g2, w2);
        hide GrabApply, Moved, GrabAll;
        var left := MAX_GRAB - w2.hand.n;
        OneMoreMoved(g, done, GrabCount(if |rest| < left then |rest| else left, |w2.local|));
      }
    }
  }

  lemma OneMoreMoved(g: Shared, w: Worker, k: nat)
    requires k < |g.global|
    ensures Moved(g.(global := g.global[1..]), w.(local := w.local + [g.global[0]]), k) == Moved(g, w, k + 1)
  {
    var x, rest := g.global[0], g.global[1..];
    assert rest[k..] == g.global[k + 1..] && (w.local + [x]) + rest[..k] == w.local + g.global[..k + 1];
  }

  lemma NoneMoved(g: Shared, w: Worker)
    ensures Moved(g, w, 0) == (g.(lock := None), w)
  {
    assert g.global[0..] == g.global && w.local + g.global[..0] == w.local;
  }

  /** What grab_global does when no thief interferes is the run of its steps. */
  lemma GrabIsItsSteps(g: Shared, w: Worker, i: nat)
    requires g.lock.None? && (Free(w) || w.hand.Claiming?) && |w.local| <= CAPACITY
    ensures var (g1, w1) := WorkApply(g, w, i, Grab);
            GrabAll(g1, w1) == Moved(g, w, GrabCount(|g.global|, |w.local|))
  {
    var (g1, w1) := WorkApply(g, w, i, Grab);
    GrabAllMoves(g1, w1);
  }

  function RunFrom(s: State, es: seq<Event>): State {
    if es == [] then s else Apply(RunFrom(s, es[..|es| - 1]), es[|es| - 1])
  }

  /** No step is one of worker i. */
  predicate NotBy(i: nat, es: seq<Event>) {
    forall k :: 0 <= k < |es| ==> es[k].Wake? || es[k].i != i
  }

  /** The k-th of a list of schedules; none when the list is at its end. */
  function Segment(ws: seq<seq<Event>>, k: nat): seq<Event> {
    if k < |ws| then ws[k] else []
  }

  predicate AllNotBy(i: nat, ws: seq<seq<Event>>) {
    forall k :: 0 <= k < |ws| ==> NotBy(i, ws[k])
  }

  /** Others leave a worker's hand and poll alone, the global queue too while it has the lock; they may steal. */
  ghost predicate LeftTo(s: State, s': State, i: nat) {
    && |s'.workers| == |s.workers| && i < |s.workers|
    && s'.workers[i].hand == s.workers[i].hand && s'.workers[i].polling == s.workers[i].polling
    && (s.shared.lock == Some(i) ==> s'.shared.lock == Some(i) && s'.shared.global == s.shared.global)
    && Suffix(s.workers[i].local, s'.workers[i].local)
  }

  predicate Suffix(q: seq<nat>, q': seq<nat>) {
    |q'| <= |q| && q' == q[|q| - |q'|..]
  }

  lemma SuffixTwice(q: seq<nat>, m: seq<nat>, q': seq<nat>)
    requires Suffix(q, m) && Suffix(m, q')
    ensures Suffix(q, q')
  {
  }

  lemma LeftSame(s: State, s': State, i: nat)
    requires |s'.workers| == |s.workers| && i < |s.workers| && s'.workers[i] == s.workers[i]
    requires s.shared.lock == Some(i) ==> s'.shared.lock == Some(i) && s'.shared.global == s.shared.global
    ensures LeftTo(s, s', i)
  {
  }

  lemma OtherLeaves(s: State, e: Event, i: nat)
    requires Inv(s) && i < |s.workers| && (e.Wake? || e.i != i)
    ensures LeftTo(s, Apply(s, e), i)
  {
    match e
    case Wake(_) => LeftSame(s, Apply(s, e), i);
    case Work(j, a) =>
      if j < |s.workers| { LockedOut(s.shared, s.workers[j], i, j, a, s); }
      hide WorkApply;
      LeftSame(s, Apply(s, e), i);
    case Steal(_, v) =>
      if v == i && Apply(s, e) != s {
        assert Suffix(s.workers[i].local, Apply(s, e).workers[i].local);
      } else {
        LeftSame(s, Apply(s, e), i);
      }
  }

  lemma LockedOut(g: Shared, w: Worker, i: nat, j: nat, a: Action, s: State)
    requires Inv(s) && g == s.shared && j < |s.workers| && w == s.workers[j] && i != j
    ensures g.lock == Some(i) ==> WorkApply(g, w, j, a).0.lock == Some(i) && WorkApply(g, w, j, a).0.global == g.global
  {
    assert WorkerInv(w, j, g.lock);
  }

  lemma {:induction false} OthersLeave(s: State, es: seq<Event>, i: nat)
    requires Inv(s) && i < |s.workers| && NotBy(i, es)
    ensures Inv(RunFrom(s, es)) && LeftTo(s, RunFrom(s, es), i)
  {
    hide Apply, Inv;
    if es == [] {
      LeftSame(s, s, i);
    } else {
      var prior, e := es[..|es| - 1], es[|es| - 1];
      OthersLeave(s, prior, i);
      var m := RunFrom(s, prior);
      Step(m, e);
      OtherLeaves(m, e, i);
      hide RunFrom;
      LeftTwice(s, m, Apply(m, e), i);
    }
  }

  lemma LeftTwice(s: State, m: State, s': State, i: nat)
    requires LeftTo(s, m, i) && LeftTo(m, s', i)
    ensures LeftTo(s, s', i)
  {
    SuffixTwice(s.workers[i].local, m.workers[i].local, s'.workers[i].local);
    hide Suffix;
  }

  class MultiThreadHandle {
    var shared: Shared
    const remotes: array<Worker>

    constructor (n: nat)
      ensures View() == Init(n) && fresh(remotes)
    {
      shared := Init(0).shared;
      remotes := new Worker[n](_ => Idle());
      new;
      assert remotes[..] == Init(n).workers;
    }

    ghost function View(): State
      reads this, remotes
    {
      State(shared, remotes[..])
    }

    method PushGlobal(e: nat)
      requires shared.lock.None?
      modifies `shared
      ensures View() == Apply(old(View()), Wake(e))
      ensures shared.global == old(shared.global) + [e] && e in shared.owed && shared.tasks == old(shared.tasks)
    {
      shared := Entered(shared, e).(global := shared.global + [e]);
    }

    /**
     schedule on the owner's own thread: the local queue, or when that is full the global one, whose lock must
     then be free.
     */
    method Schedule(i: nat, e: nat)
      requires i < remotes.Length && remotes[i].hand.Nothing?
      requires |remotes[i].local| >= CAPACITY ==> shared.lock.None?
      modifies `shared, remotes
      ensures View() == Apply(Apply(old(View()), Work(i, Action.Schedule(e))), Work(i, PushOverflow))
      ensures if |old(remotes[i].local)| < CAPACITY
              then shared.global == old(shared.global) && remotes[i].local == old(remotes[i].local) + [e]
              else shared.global == old(shared.global) + [e] && remotes[i].local == old(remotes[i].local)
      ensures e in shared.owed && shared.entered == old(shared.entered) + multiset{e}
    {
      var w := remotes[i];
      if |w.local| < CAPACITY {
        remotes[i] := w.(local := w.local + [e]);
        shared := Entered(shared, e);
      } else {
        PushGlobal(e);
        assert |(old(shared.global) + [e])| > |old(shared.global)|;
      }
      assert remotes[..] == old(remotes[..])[i := remotes[i]];
    }

    /** Other threads run. */
    method Others(es: seq<Event>)
      requires Inv(View())
      modifies this, remotes
      ensures Inv(View()) && View() == RunFrom(old(View()), es)
    {
      hide Apply, Inv;
      for k := 0 to |es|
        invariant Inv(View()) && View() == RunFrom(old(View()), es[..k])
      {
        Step(View(), es[k]);
        Access(es[k]);
        assert es[..k + 1][..k] == es[..k];
      }
      assert es[..|es|] == es;
    }

    method Access(e: Event)
      modifies this, remotes
      ensures View() == Apply(old(View()), e)
    {
      var s' := Apply(State(shared, remotes[..]), e);
      SameLength(View(), e);
      shared := s'.shared;
      forall k | 0 <= k < remotes.Length { remotes[k] := s'.workers[k]; }
      assert remotes[..] == s'.workers;
    }

    lemma SameLength(s: State, e: Event)
      ensures |Apply(s, e).workers| == |s.workers|
    {
      hide WorkApply;
    }

    method AllBut(i: nat, es: seq<Event>)
      requires Inv(View()) && i < remotes.Length && NotBy(i, es)
      modifies this, remotes
      ensures Inv(View()) && LeftTo(old(View()), View(), i) && View() == RunFrom(old(View()), es)
    {
      OthersLeave(View(), es, i);
      hide Inv, LeftTo, NotBy;
      Others(es);
    }

    /** grab_global: take the lock. */
    method LockQueue(i: nat)
      requires Inv(View()) && i < remotes.Length
      requires shared.lock.None? && (Free(remotes[i]) || remotes[i].hand.Claiming?)
      modifies this, remotes
      ensures Inv(View()) && View() == Apply(old(View()), Work(i, Grab)) && shared.lock == Some(i)
      ensures shared.global == old(shared.global)
      ensures remotes[i] == old(remotes[i]).(hand := Grabbing(0, None, HeldBy(old(remotes[i].hand))))
    {
      Step(View(), Work(i, Grab));
      hide Inv;
      shared := shared.(lock := Some(i));
      remotes[i] := remotes[i].(hand := Grabbing(0, None, HeldBy(remotes[i].hand)));
      assert remotes[..] == old(remotes[..])[i := remotes[i]];
    }

    /** The loop test and the pop of the front; none ends the loop and frees the lock. */
    method TakeFront(i: nat) returns (task: Option<nat>)
      requires Inv(View()) && i < remotes.Length && remotes[i].hand.Grabbing? && remotes[i].hand.moving.None?
      modifies this, remotes
      ensures Inv(View()) && View() == Apply(old(View()), Work(i, GrabStep))
      ensures task.Some? <==> old(remotes[i].hand.n) < MAX_GRAB && old(shared.global) != []
      ensures remotes[i].local == old(remotes[i].local)
      ensures task.Some? ==> shared.lock == old(shared.lock) && [task.value] + shared.global == old(shared.global)
      ensures task.Some? ==> remotes[i].hand == old(remotes[i].hand).(moving := task)
      ensures task.None? ==> shared.lock.None? && shared.global == old(shared.global)
      ensures task.None? ==> remotes[i].hand == Kept(old(remotes[i].hand.held))
    {
      Step(View(), Work(i, GrabStep));
      hide Inv;
      var h := remotes[i].hand;
      if h.n < MAX_GRAB && shared.global != [] {
        task := Some(shared.global[0]);
        shared := shared.(global := shared.global[1..]);
        remotes[i] := remotes[i].(hand := h.(moving := task));
      } else {
        task := None;
        shared := shared.(lock := None);
        remotes[i] := remotes[i].(hand := Kept(h.held));
      }
      assert remotes[..] == old(remotes[..])[i := remotes[i]];
    }

    /** The push to the local queue; refused, the entry goes back to the front and the lock is freed. */
    method PutLocal(i: nat) returns (ok: bool)
      requires Inv(View()) && i < remotes.Length && remotes[i].hand.Grabbing? && remotes[i].hand.moving.Some?
      modifies this, remotes
      ensures Inv(View()) && View() == Apply(old(View()), Work(i, GrabStep))
      ensures ok <==> |old(remotes[i].local)| < CAPACITY
      ensures var h := old(remotes[i].hand);
              if ok then
                && shared == old(shared) && remotes[i].local == old(remotes[i].local) + [h.moving.value]
                && remotes[i].hand == Grabbing(h.n + 1, None, h.held)
              else
                && shared.lock.None? && shared.global == [h.moving.value] + old(shared.global)
                && remotes[i].local == old(remotes[i].local) && remotes[i].hand == Kept(h.held)
    {
      Step(View(), Work(i, GrabStep));
      hide Inv;
      var h := remotes[i].hand;
      ok := |remotes[i].local| < CAPACITY;
      if ok {
        remotes[i] := remotes[i].(local := remotes[i].local + [h.moving.value],
                                  hand := Grabbing(h.n + 1, None, h.held));
      } else {
        shared := shared.(global := [h.moving.value] + shared.global, lock := None);
        remotes[i] := remotes[i].(hand := Kept(h.held));
      }
      assert remotes[..] == old(remotes[..])[i := remotes[i]];
    }

    /**
     grab_global, others running between its accesses.  The first n entries of the global queue move in order
     behind the local ones, of which thieves take `stolen` from the front meanwhile; it stops at the batch limit,
     at an empty global queue, or when the local queue is full.
     */
    method GrabGlobal(i: nat, ws: seq<seq<Event>>) returns (n: nat, ghost stolen: nat)
      requires Inv(View()) && i < remotes.Length && AllNotBy(i, ws)
      requires shared.lock.None? && (Free(remotes[i]) || remotes[i].hand.Claiming?)
      modifies this, remotes
      ensures Inv(View()) && shared.lock.None? && remotes[i].hand == old(remotes[i].hand)
      ensures n <= MAX_GRAB && n <= |old(shared.global)| && stolen <= |old(remotes[i].local)| + n
      ensures shared.global == old(shared.global)[n..]
      ensures remotes[i].local == (old(remotes[i].local) + old(shared.global)[..n])[stolen..]
      ensures n == MAX_GRAB || n == |old(shared.global)| || |remotes[i].local| >= CAPACITY
    {
      hide Inv, Apply, NotBy, AllNotBy, HeldBy, Kept;
      ghost var global, local := shared.global, remotes[i].local;
      var held := HeldBy(remotes[i].hand);
      LockQueue(i);
      n, stolen := 0, 0;
      assert local == (local + global[..0])[0..] && global == global[0..];
      var task := NextFront(i, held, 0, 0, local, global);
      while task.Some?
        invariant Inv(View()) && Midway(i, task, held, n, stolen, local, global)
        decreases |global| - n, task.Some?
      {
        assert NotBy(i, Segment(ws, n)) by { SegmentNotBy(i, ws, n); }
        var ok;
        ok, stolen := MoveOne(i, Segment(ws, n), task.value, held, n, stolen, local, global);
        if !ok {
          assert remotes[i].hand == old(remotes[i].hand) by { KeptHeld(old(remotes[i].hand)); }
          return;
        }
        n := n + 1;
        task := NextFront(i, held, n, stolen, local, global);
      }
      KeptHeld(old(remotes[i].hand));
    }

    lemma KeptHeld(h: Hand)
      requires h.Nothing? || h.Claiming?
      ensures Kept(HeldBy(h)) == h
    {
    }

    /** TakeFront with n entries moved. */
    method NextFront(i: nat, ghost held: Option<nat>, ghost n: nat, ghost stolen: nat, ghost local: seq<nat>,
                     ghost global: seq<nat>)
      returns (task: Option<nat>)
      requires Inv(View()) && i < remotes.Length && n <= MAX_GRAB && n <= |global| && stolen <= |local| + n
      requires remotes[i].local == (local + global[..n])[stolen..] && shared.global == global[n..]
      requires remotes[i].hand == Grabbing(n, None, held) && shared.lock == Some(i)
      modifies this, remotes
      ensures Inv(View()) && Midway(i, task, held, n, stolen, local, global)
    {
      hide Inv, Apply;
      task := TakeFront(i);
      if task.Some? { assert global[n..] == [global[n]] + global[n + 1..]; }
    }

    /** In the loop of grab_global, or just after it; n entries have been moved. */
    ghost predicate Midway(i: nat, task: Option<nat>, held: Option<nat>, n: nat, stolen: nat, local: seq<nat>,
                           global: seq<nat>)
      reads this, remotes
    {
      && i < remotes.Length && n <= MAX_GRAB && n <= |global| && stolen <= |local| + n
      && remotes[i].local == (local + global[..n])[stolen..]
      && if task.Some? then
           && n < MAX_GRAB && n < |global| && task.value == global[n] && shared.global == global[n + 1..]
           && shared.lock == Some(i) && remotes[i].hand == Grabbing(n, task, held)
         else
           && shared.global == global[n..] && shared.lock.None? && remotes[i].hand == Kept(held)
           && (n == MAX_GRAB || n == |global|)
    }

    /** Others run, then the entry taken from the front goes to the local queue or back. */
    method MoveOne(i: nat, es: seq<Event>, x: nat, ghost held: Option<nat>, ghost n: nat, ghost stolen: nat,
                   ghost local: seq<nat>, ghost global: seq<nat>)
      returns (ok: bool, ghost stolen': nat)
      requires Inv(View()) && NotBy(i, es) && Midway(i, Some(x), held, n, stolen, local, global)
      modifies this, remotes
      ensures Inv(View()) && stolen' <= |local| + n
      ensures if ok then
                && remotes[i].local == (local + global[..n + 1])[stolen'..] && shared.global == global[n + 1..]
                && remotes[i].hand == Grabbing(n + 1, None, held) && shared.lock == Some(i)
                && n + 1 <= MAX_GRAB && n + 1 <= |global|
              else
                && remotes[i].local == (local + global[..n])[stolen'..] && shared.global == global[n..]
                && remotes[i].hand == Kept(held) && shared.lock.None? && |remotes[i].local| >= CAPACITY
    {
      hide Inv, Apply, NotBy;
      ghost var q := remotes[i].local;
      AllBut(i, es);
      stolen' := stolen + |q| - |remotes[i].local|;
      SuffixOfSuffix(local + global[..n], stolen, stolen' - stolen);
      PushedSuffix(local, global, n, stolen', x);
      ok := PutLocal(i);
    }

    lemma SegmentNotBy(i: nat, ws: seq<seq<Event>>, k: nat)
      requires AllNotBy(i, ws)
      ensures NotBy(i, Segment(ws, k))
    {
    }

    /**
     steal on the victim's queue; what it returns goes into the thief's hand.  `refused` says that the ring
     answers null although it holds an item.
     */
    method StealOne(thief: nat, victim: nat, refused: bool) returns (task: Option<nat>)
      requires thief < remotes.Length && victim < remotes.Length && victim != thief && Free(remotes[thief])
      modifies remotes
      ensures View() == if refused then old(View()) else Apply(old(View()), Steal(thief, victim))
      ensures task == if refused || old(remotes[victim].local) == [] then None else Some(old(remotes[victim].local[0]))
      ensures task.None? ==> View() == old(View())
    {
      var q := remotes[victim].local;
      if refused || q == [] { return None; }
      remotes[victim] := remotes[victim].(local := q[1..]);
      remotes[thief] := remotes[thief].(hand := Claiming(q[0]));
      assert remotes[..] == old(remotes[..])[victim := remotes[victim]][thief := remotes[thief]];
      task := Some(q[0]);
    }

    /**
     One round over the other workers, starting after the thief, others running before each visit.  `looks` are
     the states at the visits.
     */
    method TrySteal(thief: nat, ws: seq<seq<Event>>, refused: set<nat>)
      returns (task: Option<nat>, ghost looks: seq<State>)
      requires Inv(View()) && thief < remotes.Length && Free(remotes[thief]) && AllNotBy(thief, ws)
      modifies this, remotes
      ensures Inv(View()) && Round(old(View()), ws, looks) && |looks| <= remotes.Length
      ensures task.None? ==> |looks| == remotes.Length - 1 && View() == Latest(old(View()), looks)
      ensures task.None? ==> forall k :: 0 <= k < |looks| ==> Barren(looks[k], thief, k, refused)
      ensures task.Some? ==> looks != [] && Yields(looks[|looks| - 1], View(), thief, |looks| - 1, task.value)
    {
      hide Inv, Apply, RunFrom, Round, Barren, Yields, Latest, NotBy;
      var active, k := remotes.Length, 0;
      looks, task := [], None;
      assert Round(View(), ws, looks) && Latest(View(), looks) == View() by { RoundStarts(View(), ws); }
      while k < active - 1
        invariant 0 <= k <= active - 1 && |looks| == k
        invariant Inv(View()) && Free(remotes[thief]) && task.None?
        invariant Round(old(View()), ws, looks) && View() == Latest(old(View()), looks)
        invariant forall j :: 0 <= j < k ==> Barren(looks[j], thief, j, refused)
      {
        assert NotBy(thief, Segment(ws, k)) by { SegmentNotBy(thief, ws, k); }
        AllBut(thief, Segment(ws, k));
        RoundMore(old(View()), ws, looks, View());
        looks := looks + [View()];
        task := Visit(thief, k, refused);
        if task.Some? { return; }
        k := k + 1;
      }
    }

    /** One visit of the round. */
    method Visit(thief: nat, k: nat, refused: set<nat>) returns (task: Option<nat>)
      requires Inv(View()) && thief < remotes.Length && k < remotes.Length - 1 && Free(remotes[thief])
      modifies this, remotes
      ensures Inv(View())
      ensures task.None? ==> View() == old(View()) && remotes[thief] == old(remotes[thief])
      ensures task.None? ==> Barren(old(View()), thief, k, refused)
      ensures task.Some? ==> Yields(old(View()), View(), thief, k, task.value)
    {
      hide Inv, Apply;
      VictimsAreTheOthers(thief, remotes.Length);
      var victim := (thief + 1 + k) % remotes.Length;
      assert Victims(thief, remotes.Length)[k] == victim;
      Step(View(), Steal(thief, victim));
      task := StealOne(thief, victim, k in refused);
    }

    /** The compare-exchange of worker_main; ran says whether the worker goes on to poll the task. */
    method Claim(i: nat) returns (ran: bool)
      requires i < remotes.Length && remotes[i].hand.Claiming?
      modifies `shared, remotes
      ensures View() == Apply(old(View()), Work(i, Action.Claim))
      ensures ran <==> StateOf(old(shared), old(remotes[i].hand.e)).Pending?
      ensures remotes[i].hand.Nothing? && shared.consumed == old(shared.consumed) + multiset{old(remotes[i].hand.e)}
      ensures if ran then
                remotes[i].polling == Some(old(remotes[i].hand.e)) && StateOf(shared, old(remotes[i].hand.e)).Running?
              else remotes[i].polling == old(remotes[i].polling) && shared.tasks == old(shared.tasks)
    {
      var e := remotes[i].hand.e;
      shared := shared.(consumed := shared.consumed + multiset{e});
      ran := StateOf(shared, e).Pending?;
      if ran {
        shared := shared.(tasks := shared.tasks[e := Running], owed := shared.owed - {e});
        remotes[i] := remotes[i].(hand := Nothing, polling := Some(e));
      } else {
        remotes[i] := remotes[i].(hand := Nothing);
      }
      assert remotes[..] == old(remotes[..])[i := remotes[i]];
    }

    /** The store that ends a poll. */
    method EndPoll(i: nat, ready: bool)
      requires i < remotes.Length && remotes[i].hand.Nothing? && remotes[i].polling.Some?
      modifies `shared, remotes
      ensures View() == Apply(old(View()), Work(i, Action.EndPoll(ready))) && remotes[i].polling.None?
      ensures StateOf(shared, old(remotes[i].polling.value)) == if ready then Completed else Pending
    {
      var e := remotes[i].polling.value;
      shared := shared.(tasks := shared.tasks[e := if ready then Completed else Pending]);
      remotes[i] := remotes[i].(polling := None);
      assert remotes[..] == old(remotes[..])[i := remotes[i]];
    }
  }

  /** The entry popped before a grab. */
  function HeldBy(h: Hand): Option<nat> {
    if h.Claiming? then Some(h.e) else None
  }

  lemma SuffixOfSuffix(q: seq<nat>, a: nat, b: nat)
    requires a <= |q| && b <= |q| - a
    ensures q[a..][b..] == q[a + b..]
  {
  }

  lemma PushedSuffix(local: seq<nat>, global: seq<nat>, n: nat, stolen: nat, x: nat)
    requires n < |global| && global[n] == x && stolen <= |local| + n
    ensures (local + global[..n])[stolen..] + [x] == (local + global[..n + 1])[stolen..]
    ensures global[n + 1..] == global[n..][1..]
  {
  }

  /** The state after the last visit. */
  function Latest(s: State, looks: seq<State>): State {
    if looks == [] then s else looks[|looks| - 1]
  }

  /** Each visit is made after the others have run for one segment; nothing else happens between visits. */
  ghost predicate Round(s: State, ws: seq<seq<Event>>, looks: seq<State>) {
    forall k :: 0 <= k < |looks| ==> looks[k] == RunFrom(Latest(s, looks[..k]), Segment(ws, k))
  }

  lemma RoundStarts(s: State, ws: seq<seq<Event>>)
    ensures Round(s, ws, []) && Latest(s, []) == s
  {
  }

  lemma RoundMore(s: State, ws: seq<seq<Event>>, looks: seq<State>, v: State)
    requires Round(s, ws, looks) && v == RunFrom(Latest(s, looks), Segment(ws, |looks|))
    ensures Round(s, ws, looks + [v]) && Latest(s, looks + [v]) == v
  {
    hide RunFrom, Segment;
    var more := looks + [v];
    assert more[..|looks|] == looks;
    forall k | 0 <= k < |more| ensures more[k] == RunFrom(Latest(s, more[..k]), Segment(ws, k)) {
      if k < |looks| { assert more[..k] == looks[..k]; }
    }
  }

  /** At visit k the victim's queue is empty, or refuses. */
  ghost predicate Barren(s: State, thief: nat, k: nat, refused: set<nat>) {
    var n := |s.workers|;
    thief < n && k < n - 1 && (k in refused || (var v := Victims(thief, n)[k]; v < n && s.workers[v].local == []))
  }

  /** When nobody else moves and no ring refuses, a round without an entry means that all the others have none. */
  lemma QuietRoundIsThorough(s: State, thief: nat, looks: seq<State>)
    requires Round(s, [], looks) && |looks| == |s.workers| - 1 && thief < |s.workers|
    requires forall k :: 0 <= k < |looks| ==> Barren(looks[k], thief, k, {})
    ensures forall v :: 0 <= v < |s.workers| && v != thief ==> s.workers[v].local == []
  {
    var n := |s.workers|;
    var vs := Victims(thief, n);
    VictimsAreTheOthers(thief, n);
    forall v | 0 <= v < n && v != thief ensures s.workers[v].local == [] {
      assert v in vs;
      var k :| 0 <= k < |vs| && vs[k] == v;
      QuietLooks(s, looks, k);
      assert Barren(looks[k], thief, k, {});
    }
  }

  lemma {:induction false} QuietLooks(s: State, looks: seq<State>, k: nat)
    requires Round(s, [], looks) && k < |looks|
    ensures looks[k] == s
  {
    assert looks[k] == Latest(s, looks[..k]);
    if k > 0 { QuietLooks(s, looks, k - 1); }
  }

  /** At visit k the thief found the victim's oldest entry, took it and did nothing else. */
  ghost predicate Yields(s: State, s': State, thief: nat, k: nat, task: nat) {
    var n := |s.workers|;
    && thief < n && k < n - 1
    && var v := Victims(thief, n)[k];
       v < n && s.workers[v].local != [] && s.workers[v].local[0] == task && s' == Apply(s, Steal(thief, v))
  }
}
