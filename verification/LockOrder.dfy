/**
 The ordered-lock checker of sys/mutex.cpp: every thread keeps a stack of the lock ids it has taken and
 panics when it takes one that is not above all of them.  Threads and locks are unbounded in number.
 */
module LockOrder {
  import opened Wrappers

  const MAX_HELD: nat := 32

  datatype Verdict = Ok | Reentrant | OutOfOrder | TooDeep

  predicate Ascending(held: seq<nat>) {
    forall i, j :: 0 <= i < j < |held| ==> held[i] < held[j]
  }

  /** What on_lock decides. */
  function Check(held: seq<nat>, id: nat): Verdict {
    if id in held then Reentrant
    else if |held| > 0 && id <= held[|held| - 1] then OutOfOrder
    else if |held| >= MAX_HELD then TooDeep
    else Ok
  }

  /** On an ascending stack the checker lets exactly the ids above everything held pass. */
  lemma CheckExact(held: seq<nat>, id: nat)
    requires Ascending(held)
    ensures Check(held, id) == Ok <==> |held| < MAX_HELD && forall i :: 0 <= i < |held| ==> held[i] < id
    ensures Check(held, id) == Ok ==> Ascending(held + [id])
    ensures Check(held, id) == Reentrant <==> id in held
  {
    if Check(held, id) == Ok {
      forall i | 0 <= i < |held| ensures held[i] < id {
        if i < |held| - 1 { assert held[i] < held[|held| - 1]; }
      }
    }
  }

  /** Where a thread is: between calls, blocked in xMutexLock, or inside try_lock or unlock. */
  datatype Phase = Running | Waiting(id: nat) | TryTaken(id: nat) | Released(id: nat)

  datatype Thread = Thread(held: seq<nat>, phase: Phase)

  /** `owner` says which thread has each lock that is taken. */
  datatype State = State(threads: map<nat, Thread>, owner: map<nat, nat>, panicked: bool)

  datatype Event = Lock(t: nat, id: nat) | Acquire(t: nat) | TryLock(t: nat, id: nat) | Register(t: nat)
                 | Unlock(t: nat, id: nat) | Unregister(t: nat)

  const Init := State(map[], map[], false)

  function At(s: State, t: nat): Thread {
    if t in s.threads then s.threads[t] else Thread([], Running)
  }

  function Put(s: State, t: nat, th: Thread): State {
    s.(threads := s.threads[t := th])
  }

  function Push(s: State, t: nat, id: nat, phase: Phase): State {
    if Check(At(s, t).held, id) == Ok then Put(s, t, Thread(At(s, t).held + [id], phase))
    else s.(panicked := true)
  }

  /**
   One step of thread t; a step its code is not at, or a lock that is not free, leaves the state alone.
   lock: check and push, then block until the mutex is free.  try_lock: take the mutex if it is free, then
   check and push.  unlock, by the thread that has the lock: free the mutex, then check and pop.
   */
  function Apply(s: State, e: Event): State {
    var th := At(s, e.t);
    match e
    case Lock(t, id) => if th.phase.Running? then Push(s, t, id, Waiting(id)) else s
    case Acquire(t) =>
      if th.phase.Waiting? && th.phase.id !in s.owner
      then Put(s, t, th.(phase := Running)).(owner := s.owner[th.phase.id := t]) else s
    case TryLock(t, id) =>
      if th.phase.Running? && id !in s.owner
      then Put(s, t, th.(phase := TryTaken(id))).(owner := s.owner[id := t]) else s
    case Register(t) => if th.phase.TryTaken? then Push(s, t, th.phase.id, Running) else s
    case Unlock(t, id) =>
      if th.phase.Running? && Owns(s, t, id)
      then Put(s, t, th.(phase := Released(id))).(owner := s.owner - {id}) else s
    case Unregister(t) =>
      if !th.phase.Released? then s
      else if |th.held| > 0 && th.held[|th.held| - 1] == th.phase.id
      then Put(s, t, Thread(th.held[..|th.held| - 1], Running))
      else s.(panicked := true)
  }

  function Run(es: seq<Event>): State {
    if es == [] then Init else Apply(Run(es[..|es| - 1]), es[|es| - 1])
  }

  /** The ids on a thread's stack that it really has: all but one it is waiting for or has just given back. */
  ghost predicate Has(th: Thread, id: nat) {
    || (th.phase.TryTaken? && th.phase.id == id)
    || (id in th.held && !(th.phase.Waiting? && th.phase.id == id) && !(th.phase.Released? && th.phase.id == id))
  }

  ghost predicate ThreadInv(th: Thread) {
    && Ascending(th.held)
    && |th.held| <= MAX_HELD
    && (th.phase.Waiting? ==> |th.held| > 0 && th.held[|th.held| - 1] == th.phase.id)
    && (th.phase.Released? ==> th.phase.id in th.held)
    && (th.phase.TryTaken? ==> th.phase.id !in th.held)
  }

  predicate Owns(s: State, t: nat, id: nat) {
    id in s.owner && s.owner[id] == t
  }

  ghost predicate Inv(s: State) {
    && (forall t :: ThreadInv(At(s, t)))
    && (forall t, id :: Has(At(s, t), id) <==> Owns(s, t, id))
  }

  /** What a step does to its own thread and its locks. */
  lemma ThreadStep(s: State, e: Event)
    requires ThreadInv(At(s, e.t)) && !Apply(s, e).panicked
    requires forall id :: Has(At(s, e.t), id) <==> Owns(s, e.t, id)
    ensures ThreadInv(At(Apply(s, e), e.t))
    ensures forall id :: Has(At(Apply(s, e), e.t), id) <==> Owns(Apply(s, e), e.t, id)
  {
    var s', th, th' := Apply(s, e), At(s, e.t), At(Apply(s, e), e.t);
    if |th'.held| == |th.held| + 1 {
      CheckExact(th.held, th'.held[|th.held|]);
    }
    if e.TryLock? && e.id !in s.owner { assert !Owns(s, e.t, e.id) && !Has(th, e.id); }
    if e.Unlock? && Owns(s, e.t, e.id) { assert Has(th, e.id); }
    if e.Acquire? && th.phase.Waiting? { assert th.phase.id in th.held; }
    if e.Unregister? && th.phase.Released? { PopHas(th, th'); }
    forall x ensures Has(th', x) <==> Owns(s', e.t, x) {
      assert Has(th, x) <==> Owns(s, e.t, x);
    }
  }

  /** A step changes no other thread's stack or locks. */
  lemma OthersStep(s: State, e: Event, t: nat)
    requires t != e.t
    ensures At(Apply(s, e), t) == At(s, t)
    ensures forall id :: Owns(Apply(s, e), t, id) <==> Owns(s, t, id)
  {
  }

  lemma PopHas(th: Thread, th': Thread)
    requires ThreadInv(th) && th.phase.Released? && |th.held| > 0 && th.held[|th.held| - 1] == th.phase.id
    requires th' == Thread(th.held[..|th.held| - 1], Running)
    ensures ThreadInv(th') && forall id :: Has(th', id) <==> Has(th, id)
  {
    assert th.held == th'.held + [th.phase.id];
    assert forall i :: 0 <= i < |th'.held| ==> th'.held[i] == th.held[i] < th.phase.id;
  }

  lemma Step(s: State, e: Event)
    requires Inv(s) && !Apply(s, e).panicked
    ensures Inv(Apply(s, e))
  {
    hide Has, ThreadInv, Owns, Apply, At;
    ThreadStep(s, e);
    forall t ensures ThreadInv(At(Apply(s, e), t)) {
      if t != e.t { OthersStep(s, e, t); }
    }
    forall t, id ensures Has(At(Apply(s, e), t), id) <==> Owns(Apply(s, e), t, id) {
      if t != e.t { OthersStep(s, e, t); }
    }
  }

  lemma PanicStays(s: State, e: Event)
    ensures s.panicked ==> Apply(s, e).panicked
  {
  }

  lemma {:induction false} RunInv(es: seq<Event>)
    requires !Run(es).panicked
    ensures Inv(Run(es))
  {
    if es != [] {
      PanicStays(Run(es[..|es| - 1]), es[|es| - 1]);
      RunInv(es[..|es| - 1]);
      Step(Run(es[..|es| - 1]), es[|es| - 1]);
    }
  }

  /** Thread t is blocked on a lock that thread u has. */
  predicate WaitsFor(s: State, t: nat, u: nat) {
    var th := At(s, t);
    th.phase.Waiting? && th.phase.id in s.owner && s.owner[th.phase.id] == u
  }

  /** Along a wait-for edge between two waiting threads the awaited id grows. */
  lemma WaitsAscend(s: State, t: nat, u: nat)
    requires Inv(s) && WaitsFor(s, t, u) && At(s, u).phase.Waiting?
    ensures At(s, t).phase.id < At(s, u).phase.id
  {
    var id, uh := At(s, t).phase.id, At(s, u);
    assert Has(uh, id) && ThreadInv(uh);
    var i :| 0 <= i < |uh.held| && uh.held[i] == id;
    assert uh.held[i] < uh.held[|uh.held| - 1];
  }

  ghost predicate Chain(s: State, ts: seq<nat>) {
    forall i :: 0 <= i < |ts| - 1 ==> WaitsFor(s, ts[i], ts[i + 1])
  }

  lemma {:induction false} ChainAscends(s: State, ts: seq<nat>)
    requires Inv(s) && |ts| >= 2 && Chain(s, ts) && At(s, ts[|ts| - 1]).phase.Waiting?
    ensures At(s, ts[0]).phase.Waiting? && At(s, ts[0]).phase.id < At(s, ts[|ts| - 1]).phase.id
  {
    var n := |ts| - 1;
    assert WaitsFor(s, ts[n - 1], ts[n]);
    WaitsAscend(s, ts[n - 1], ts[n]);
    if n > 1 {
      assert forall i :: 0 <= i < n - 1 ==> WaitsFor(s, ts[..n][i], ts[..n][i + 1]);
      ChainAscends(s, ts[..n]);
    }
  }

  /** No deadlock: in a run without a panic no threads wait for each other in a circle. */
  lemma NoWaitCycle(es: seq<Event>, ts: seq<nat>)
    requires !Run(es).panicked && |ts| >= 2 && ts[0] == ts[|ts| - 1]
    ensures !Chain(Run(es), ts)
  {
    RunInv(es);
    if Chain(Run(es), ts) {
      assert WaitsFor(Run(es), ts[0], ts[1]);
      ChainAscends(Run(es), ts);
    }
  }

  /** Held stacks are strictly ascending. */
  lemma {:induction false} StacksAscend(es: seq<Event>, t: nat)
    requires !Run(es).panicked
    ensures Ascending(At(Run(es), t).held) && |At(Run(es), t).held| <= MAX_HELD
  {
    RunInv(es);
    assert ThreadInv(At(Run(es), t));
  }

  /** Thread t has a step to make now: take the free lock it waits for, finish its call, or unlock. */
  ghost predicate CanProceed(s: State, t: nat) {
    var th := At(s, t);
    match th.phase
    case Waiting(id) => id !in s.owner
    case Running => |th.held| > 0 && Owns(s, t, th.held[|th.held| - 1])
    case _ => true
  }

  /** That step exists, and an unlock of the innermost lock then passes the checker. */
  lemma ProceedMoves(s: State, t: nat) returns (e: Event)
    requires Inv(s) && CanProceed(s, t)
    ensures e.t == t && !e.Lock? && !e.TryLock?
    ensures Apply(s, e).panicked || At(Apply(s, e), t) != At(s, t)
    ensures e.Unlock? ==> !s.panicked ==> !Apply(Apply(s, e), Unregister(t)).panicked
  {
    var th := At(s, t);
    match th.phase
    case Waiting(id) => e := Acquire(t);
    case Running => e := Unlock(t, th.held[|th.held| - 1]);
    case TryTaken(id) => e := Register(t);
    case Released(id) => e := Unregister(t);
  }

  /** The ids awaited are below this. */
  ghost predicate Bounded(s: State, top: nat) {
    forall t :: t in s.threads && s.threads[t].phase.Waiting? ==> s.threads[t].phase.id < top
  }

  lemma {:induction false} SomeBound(es: seq<Event>) returns (top: nat)
    ensures Bounded(Run(es), top)
  {
    if es == [] {
      top := 0;
    } else {
      top := SomeBound(es[..|es| - 1]);
      if es[|es| - 1].Lock? && es[|es| - 1].id >= top { top := es[|es| - 1].id + 1; }
    }
  }

  /** Every waiting thread is at the start of a chain of waits that ends in a thread which can proceed. */
  lemma {:induction false} ChainEnds(s: State, t: nat, top: nat) returns (ts: seq<nat>)
    requires Inv(s) && At(s, t).phase.Waiting? && Bounded(s, top)
    ensures |ts| >= 1 && ts[0] == t && Chain(s, ts) && CanProceed(s, ts[|ts| - 1])
    decreases top - At(s, t).phase.id
  {
    var id := At(s, t).phase.id;
    assert ThreadInv(At(s, t));
    if id !in s.owner {
      ts := [t];
    } else {
      var u := s.owner[id];
      assert Has(At(s, u), id);
      if At(s, u).phase.Waiting? {
        WaitsAscend(s, t, u);
        assert s.threads[u].phase.id < top;
        var rest := ChainEnds(s, u, top);
        ts := [t] + rest;
        assert forall i :: 0 <= i < |rest| - 1 ==> WaitsFor(s, rest[i], rest[i + 1]);
        forall i | 0 <= i < |ts| - 1 ensures WaitsFor(s, ts[i], ts[i + 1]) {
          if i > 0 { assert WaitsFor(s, rest[i - 1], rest[i]); }
        }
      } else {
        OwnerCanProceed(s, u, id);
        ts := [t, u];
      }
    }
  }

  lemma OwnerCanProceed(s: State, u: nat, id: nat)
    requires Inv(s) && Has(At(s, u), id) && !At(s, u).phase.Waiting?
    ensures CanProceed(s, u)
  {
    var uh := At(s, u);
    assert ThreadInv(uh);
    if uh.phase.Running? { assert Has(uh, uh.held[|uh.held| - 1]); }
  }

  /**
   Deadlock freedom: in every run without a panic, whoever waits, waits at the start of a finite chain of
   waits whose last thread can take a step now: finish its call, take a free lock, or unlock.
   */
  lemma WaitingIsNotDeadlock(es: seq<Event>, t: nat) returns (ts: seq<nat>)
    requires !Run(es).panicked && At(Run(es), t).phase.Waiting?
    ensures |ts| >= 1 && ts[0] == t && Chain(Run(es), ts) && CanProceed(Run(es), ts[|ts| - 1])
  {
    RunInv(es);
    var top := SomeBound(es);
    ts := ChainEnds(Run(es), t, top);
  }

  lemma RunSnoc(es: seq<Event>, e: Event)
    ensures Run(es + [e]) == Apply(Run(es), e)
  {
    assert (es + [e])[..|es|] == es;
  }

  lemma RunTwo(es: seq<Event>, e: Event, f: Event)
    ensures Run(es + [e, f]) == Apply(Apply(Run(es), e), f)
  {
    RunSnoc(es, e);
    RunSnoc(es + [e], f);
    assert es + [e] + [f] == es + [e, f];
  }

  /** All locks held are below id, and there is room for one more. */
  predicate MayTake(held: seq<nat>, id: nat) {
    |held| < MAX_HELD && forall i :: 0 <= i < |held| ==> held[i] < id
  }

  /** Thread t is as th, and has the free lock id on top of that. */
  predicate Took(s: State, t: nat, th: Thread, id: nat) {
    !s.panicked && At(s, t) == Thread(th.held + [id], Running) && Owns(s, t, id)
  }

  /** No other thread and no other lock is touched. */
  ghost predicate OnlyOf(s: State, s': State, t: nat, id: nat) {
    && (forall u: nat :: u != t ==> At(s', u) == At(s, u))
    && (forall x: nat, u: nat :: x != id ==> (Owns(s', u, x) <==> Owns(s, u, x)))
  }

  /**
   What lock does for a correct caller: of a free lock above all it holds, a thread becomes the owner; if it is
   not above all, or the stack is full, and only then, the call panics.
   */
  lemma LockTakes(es: seq<Event>, t: nat, id: nat)
    requires !Run(es).panicked && At(Run(es), t).phase.Running?
    ensures var s, s' := Run(es), Run(es + [Lock(t, id), Acquire(t)]);
            && (Apply(s, Lock(t, id)).panicked <==> !MayTake(At(s, t).held, id))
            && (MayTake(At(s, t).held, id) && id !in s.owner ==>
                  Took(s', t, At(s, t), id) && OnlyOf(s, s', t, id))
            && (MayTake(At(s, t).held, id) && id in s.owner ==>
                  At(s', t) == Thread(At(s, t).held + [id], Waiting(id)) && s'.owner == s.owner)
  {
    RunInv(es);
    RunTwo(es, Lock(t, id), Acquire(t));
    assert ThreadInv(At(Run(es), t));
    CheckExact(At(Run(es), t).held, id);
    hide Run, Check, Ascending;
  }

  /**
   What try_lock does: it takes a free lock, and panics afterwards exactly if that is not above all it holds or
   the stack is full; of a taken lock it touches nothing and does not panic.
   */
  lemma TryLockTakes(es: seq<Event>, t: nat, id: nat)
    requires !Run(es).panicked && At(Run(es), t).phase.Running?
    ensures var s, s' := Run(es), Run(es + [TryLock(t, id), Register(t)]);
            && (id in s.owner ==> s' == s)
            && (id !in s.owner ==> (s'.panicked <==> !MayTake(At(s, t).held, id)))
            && (id !in s.owner && MayTake(At(s, t).held, id) ==>
                  Took(s', t, At(s, t), id) && OnlyOf(s, s', t, id))
  {
    RunInv(es);
    RunTwo(es, TryLock(t, id), Register(t));
    assert ThreadInv(At(Run(es), t));
    CheckExact(At(Run(es), t).held, id);
    hide Run, Check, Ascending;
  }

  /** What unlock does: it frees the lock at once, and panics exactly if that was not the innermost one. */
  lemma UnlockFrees(es: seq<Event>, t: nat, id: nat)
    requires !Run(es).panicked && At(Run(es), t).phase.Running? && Owns(Run(es), t, id)
    ensures var s, s1, s' := Run(es), Run(es + [Unlock(t, id)]), Run(es + [Unlock(t, id), Unregister(t)]);
            var held := At(s, t).held;
            && |held| > 0 && id !in s1.owner
            && (s'.panicked <==> held[|held| - 1] != id)
            && (held[|held| - 1] == id ==> At(s', t) == Thread(held[..|held| - 1], Running) && OnlyOf(s, s', t, id))
  {
    RunInv(es);
    RunSnoc(es, Unlock(t, id));
    RunTwo(es, Unlock(t, id), Unregister(t));
    var s := Run(es);
    assert Has(At(s, t), id) && ThreadInv(At(s, t));
    hide Run, Ascending;
  }

  /** A waiting thread gets its lock as soon as that is free. */
  lemma WaiterTakes(es: seq<Event>, t: nat)
    requires !Run(es).panicked && At(Run(es), t).phase.Waiting? && At(Run(es), t).phase.id !in Run(es).owner
    ensures var s, s' := Run(es), Run(es + [Acquire(t)]); var id := At(s, t).phase.id;
            && !s'.panicked && Owns(s', t, id) && At(s', t) == At(s, t).(phase := Running)
            && OnlyOf(s, s', t, id)
  {
    RunSnoc(es, Acquire(t));
    hide Run;
  }

  /** The thread-local checker in place. */
  class ThreadState {
    const held: array<nat>
    var depth: nat

    ghost predicate Valid()
      reads this
    {
      held.Length == MAX_HELD && depth <= MAX_HELD
    }

    ghost function Stack(): seq<nat>
      requires Valid()
      reads this, held
    {
      held[..depth]
    }

    constructor ()
      ensures Valid() && fresh(held) && Stack() == []
    {
      held := new nat[MAX_HELD];
      depth := 0;
    }

    method OnLock(id: nat) returns (v: Verdict)
      requires Valid()
      modifies this`depth, held
      ensures Valid() && v == Check(old(Stack()), id)
      ensures Stack() == if v == Ok then old(Stack()) + [id] else old(Stack())
    {
      for i := 0 to depth
        invariant id !in held[..i]
      {
        if held[i] == id {
          return Reentrant;
        }
      }
      if depth > 0 {
        var top := held[depth - 1];
        if id <= top {
          return OutOfOrder;
        }
      }
      if depth >= MAX_HELD {
        return TooDeep;
      }
      held[depth] := id;
      depth := depth + 1;
      return Ok;
    }

    /** False stands for the failed assertion: empty stack, or another lock on top. */
    method OnUnlock(id: nat) returns (ok: bool)
      requires Valid()
      modifies this`depth
      ensures Valid() && (ok <==> old(depth) > 0 && old(Stack())[old(depth) - 1] == id)
      ensures Stack() == if ok then old(Stack())[..old(depth) - 1] else old(Stack())
    {
      ok := depth > 0 && held[depth - 1] == id;
      if ok {
        depth := depth - 1;
      }
    }
  }
}
