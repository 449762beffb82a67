/**
 The cooperative mutex of sync/mutex.h.  A section under its spin lock is one step.  Every lock or try_lock
 call is a request with its own number; a guard belongs to the request it was made for.
 */
module AsyncMutex {
  import opened Wrappers

  /** Where a guard is: held by a task, inside a ready promise, or in the hands of an unlock that passes it on. */
  datatype Place = Held | InPromise | Passing

  /** `asked` and `granted`, the requests that had to queue and those the queue was handed to, are history. */
  datatype State = State(locked: bool, queue: seq<nat>, guards: map<nat, Place>, used: set<nat>,
                         asked: seq<nat>, granted: seq<nat>)

  datatype Event = Lock(r: nat) | TryLock(r: nat) | Take(r: nat) | Unlock(r: nat) | Resolve(r: nat)

  const Init := State(false, [], map[], {}, [], [])

  /**
   Take moves the guard out of its promise; Unlock is the destruction of a guard, or of a ready promise with
   the guard inside; Resolve is what unlock does after the spin lock.
   */
  function Apply(s: State, e: Event): State {
    match e
    case Lock(r) =>
      if r in s.used then s
      else if !s.locked then s.(locked := true, guards := s.guards[r := InPromise], used := s.used + {r})
      else s.(queue := s.queue + [r], used := s.used + {r}, asked := s.asked + [r])
    case TryLock(r) =>
      if r in s.used || s.locked then s
      else s.(locked := true, guards := s.guards[r := Held], used := s.used + {r})
    case Take(r) =>
      if r in s.guards && s.guards[r].InPromise? then s.(guards := s.guards[r := Held]) else s
    case Unlock(r) =>
      if r !in s.guards || s.guards[r].Passing? then s
      else if s.queue == [] then s.(locked := false, guards := s.guards - {r})
      else s.(queue := s.queue[1..], guards := (s.guards - {r})[s.queue[0] := Passing],
              granted := s.granted + [s.queue[0]])
    case Resolve(r) =>
      if r in s.guards && s.guards[r].Passing? then s.(guards := s.guards[r := InPromise]) else s
  }

  function Run(es: seq<Event>): State {
    if es == [] then Init else Apply(Run(es[..|es| - 1]), es[|es| - 1])
  }

  ghost predicate Inv(s: State) {
    && (s.locked <==> s.guards != map[])
    && (forall a, b :: a in s.guards && b in s.guards ==> a == b)
    && (s.queue != [] ==> s.locked)
    && (forall a :: a in s.guards ==> a in s.used)
    && s.asked == s.granted + s.queue
    && (forall i :: 0 <= i < |s.asked| ==> s.asked[i] in s.used)
    && (forall i, j :: 0 <= i < j < |s.asked| ==> s.asked[i] != s.asked[j])
  }

  lemma Step(s: State, e: Event)
    requires Inv(s)
    ensures Inv(Apply(s, e))
  {
    var s' := Apply(s, e);
    match e
    case Lock(r) =>
      if r !in s.used {
        assert s.locked ==> s'.asked == s.granted + (s.queue + [r]);
        assert !s.locked ==> r in s'.guards;
      }
    case TryLock(r) => if r !in s.used { assert !s.locked ==> r in s'.guards; }
    case Take(r) =>
    case Unlock(r) =>
      if r in s.guards && !s.guards[r].Passing? {
        assert s.guards - {r} == map[];
        if s.queue != [] {
          assert s.queue == [s.queue[0]] + s.queue[1..];
          assert s.queue[0] in s'.guards && s.asked[|s.granted|] == s.queue[0];
          assert s'.granted + s'.queue == s.granted + s.queue;
        }
      }
    case Resolve(r) =>
  }

  lemma {:induction false} RunInv(es: seq<Event>)
    ensures Inv(Run(es))
  {
    if es != [] {
      RunInv(es[..|es| - 1]);
      Step(Run(es[..|es| - 1]), es[|es| - 1]);
    }
  }

  /** Mutual exclusion: at most one guard exists, wherever it is, and the flag is up exactly while one does. */
  lemma OneGuard(es: seq<Event>)
    ensures var s := Run(es);
            && (forall a, b :: a in s.guards && b in s.guards ==> a == b)
            && (s.locked <==> s.guards != map[])
  {
    RunInv(es);
  }

  /** Fairness: requests that had to queue are granted exactly in the order in which they queued. */
  lemma {:induction false} GrantsAreFifo(es: seq<Event>)
    ensures var s := Run(es); s.granted <= s.asked && s.asked[|s.granted|..] == s.queue
  {
    RunInv(es);
  }

  /** No barging: a lock or try_lock gets the mutex at once only when nobody is waiting. */
  lemma NoBarging(es: seq<Event>, e: Event)
    requires e.Lock? || e.TryLock?
    requires e.r !in Run(es).used && e.r in Apply(Run(es), e).guards
    ensures Run(es).queue == [] && Run(es).guards == map[]
  {
    RunInv(es);
  }

  /** Destroying the guard hands the mutex straight to the first waiter; the mutex is never free in between. */
  lemma HandOver(es: seq<Event>, r: nat)
    requires var s := Run(es); r in s.guards && !s.guards[r].Passing? && s.queue != []
    ensures var s := Run(es); var s1 := Apply(s, Unlock(r)); var s2 := Apply(s1, Resolve(s.queue[0]));
            && s1.locked && s1.guards == map[s.queue[0] := Passing]
            && s2.locked && s2.guards == map[s.queue[0] := InPromise] && s2.queue == s.queue[1..]
  {
    RunInv(es);
    assert Run(es).guards - {r} == map[];
  }

  lemma RunSnoc(es: seq<Event>, e: Event)
    ensures Run(es + [e]) == Apply(Run(es), e)
  {
    assert (es + [e])[..|es|] == es;
  }

  /**
   What lock and try_lock do.  On a free mutex a new request gets the only guard, lock in a ready promise and
   try_lock in hand; on a taken one lock queues it at the end and try_lock leaves everything alone.
   */
  lemma RequestsAreServed(es: seq<Event>, r: nat)
    requires r !in Run(es).used
    ensures var s, l, t := Run(es), Apply(Run(es), Lock(r)), Apply(Run(es), TryLock(r));
            && (!s.locked ==> l.locked && l.guards == map[r := InPromise] && l.queue == [])
            && (!s.locked ==> t.locked && t.guards == map[r := Held] && t.queue == [])
            && (s.locked ==> l.locked && l.guards == s.guards && l.queue == s.queue + [r])
            && (s.locked ==> t == s)
  {
    RunInv(es);
  }

  /** What destroying the last guard does, and moving a guard out of its promise. */
  lemma LastGuardFrees(es: seq<Event>, r: nat)
    requires var s := Run(es); r in s.guards && !s.guards[r].Passing?
    ensures var s, u := Run(es), Apply(Run(es), Unlock(r));
            && (s.queue == [] ==> !u.locked && u.guards == map[] && u.queue == [])
            && (s.guards[r].InPromise? ==> Apply(s, Take(r)).guards == map[r := Held] && Apply(s, Take(r)).locked)
  {
    RunInv(es);
    assert Run(es).guards - {r} == map[];
    assert IsOnly(Run(es).guards, r);
  }

  /** r is the only key. */
  predicate IsOnly(guards: map<nat, Place>, r: nat) {
    r in guards && guards == map[r := guards[r]]
  }

  /**
   Every queued request is served: k unlocks, each with what follows it, bring the k-th in the queue its guard,
   with those behind it still queued in order.
   */
  lemma {:induction false} QueuedIsServed(es: seq<Event>, k: nat) returns (fs: seq<Event>)
    requires k < |Run(es).queue|
    ensures var s, s' := Run(es), Run(es + fs);
            && s'.guards == map[s.queue[k] := InPromise] && s'.queue == s.queue[k + 1..] && s'.locked
            && |fs| <= 2 * k + 3
  {
    var s := Run(es);
    RunInv(es);
    var g :| g in s.guards;
    assert IsOnly(s.guards, g);
    if s.guards[g].Passing? {
      RunSnoc(es, Resolve(g));
      fs := ServeFrom(es + [Resolve(g)], g, k);
      assert es + [Resolve(g)] + fs == es + ([Resolve(g)] + fs);
      fs := [Resolve(g)] + fs;
    } else {
      fs := ServeFrom(es, g, k);
    }
  }

  lemma {:induction false} ServeFrom(es: seq<Event>, g: nat, k: nat) returns (fs: seq<Event>)
    requires var s := Run(es); k < |s.queue| && g in s.guards && !s.guards[g].Passing?
    ensures var s, s' := Run(es), Run(es + fs);
            && s'.guards == map[s.queue[k] := InPromise] && s'.queue == s.queue[k + 1..] && s'.locked
            && |fs| == 2 * k + 2
    decreases k
  {
    var s := Run(es);
    var first := s.queue[0];
    HandOver(es, g);
    RunSnoc(es, Unlock(g));
    RunSnoc(es + [Unlock(g)], Resolve(first));
    fs := [Unlock(g), Resolve(first)];
    assert es + [Unlock(g)] + [Resolve(first)] == es + fs;
    hide Run, Apply;
    if k > 0 {
      var rest := ServeFrom(es + fs, first, k - 1);
      assert es + fs + rest == es + (fs + rest);
      fs := fs + rest;
    }
  }

  /** A queued request. */
  class Waiter {
    const adapter: nat
    var next: Waiter?

    constructor (r: nat)
      ensures adapter == r && next == null
    {
      adapter, next := r, null;
    }
  }

  /** The mutex in place, with its linked list of waiters. */
  class Mutex {
    var locked: bool
    var head: Waiter?
    var tail: Waiter?
    var guards: map<nat, Place>
    ghost var used: set<nat>
    ghost var asked: seq<nat>
    ghost var granted: seq<nat>
    ghost var nodes: seq<Waiter>

    /** head, tail and the next pointers spell out `nodes`. */
    ghost predicate Valid()
      reads this, nodes
    {
      && (forall i, j :: 0 <= i < j < |nodes| ==> nodes[i] != nodes[j])
      && head == (if nodes == [] then null else nodes[0])
      && tail == (if nodes == [] then null else nodes[|nodes| - 1])
      && (forall i :: 0 <= i < |nodes| - 1 ==> nodes[i].next == nodes[i + 1])
      && (nodes != [] ==> nodes[|nodes| - 1].next == null)
    }

    ghost function Queue(): seq<nat>
      reads this
    {
      seq(|nodes|, i requires 0 <= i < |nodes| reads this => nodes[i].adapter)
    }

    ghost function View(): State
      reads this
    {
      State(locked, Queue(), guards, used, asked, granted)
    }

    constructor ()
      ensures Valid() && View() == Init
    {
      locked, head, tail, guards := false, null, null, map[];
      used, asked, granted, nodes := {}, [], [], [];
    }

    /** lock(): true when the promise returned is already resolved. */
    method Lock(r: nat) returns (ready: bool)
      requires Valid() && r !in used
      modifies this, nodes
      ensures Valid() && ready == !old(locked)
      ensures View() == Apply(old(View()), Event.Lock(r))
      ensures locked && r in used
      ensures if ready then r in guards && guards[r].InPromise? && Queue() == old(Queue())
              else guards == old(guards) && Queue() == old(Queue()) + [r]
    {
      used := used + {r};
      if !locked {
        locked := true;
        guards := guards[r := InPromise];
        return true;
      }
      var waiter := new Waiter(r);
      if tail != null {
        tail.next := waiter;
      } else {
        head := waiter;
      }
      tail := waiter;
      nodes := nodes + [waiter];
      asked := asked + [r];
      return false;
    }

    method TryLock(r: nat) returns (got: bool)
      requires Valid() && r !in used
      modifies this
      ensures Valid() && got == !old(locked)
      ensures View() == Apply(old(View()), Event.TryLock(r))
      ensures locked && Queue() == old(Queue())
      ensures if got then r in guards && guards[r].Held? else guards == old(guards)
    {
      got := !locked;
      if got {
        locked := true;
        guards := guards[r := Held];
        used := used + {r};
      }
    }

    /** unlock(), up to the spin unlock: takes the first waiter off the list, or frees the mutex. */
    method Unlock(r: nat) returns (w: Option<nat>)
      requires Valid() && r in guards && !guards[r].Passing?
      modifies this
      ensures Valid() && w == (if old(head) == null then None else Some(old(head.adapter)))
      ensures View() == Apply(old(View()), Event.Unlock(r))
      ensures if w.Some? then
                && locked == old(locked) && w.value in guards && guards[w.value].Passing?
                && [w.value] + Queue() == old(Queue())
              else
                !locked && guards == old(guards) - {r} && Queue() == []
    {
      if head != null {
        var first := head;
        head := first.next;
        if head == null {
          tail := null;
        }
        nodes := nodes[1..];
        guards := (guards - {r})[first.adapter := Passing];
        granted := granted + [first.adapter];
        return Some(first.adapter);
      }
      locked := false;
      guards := guards - {r};
      return None;
    }

    /** The rest of unlock(): the guard goes into the waiter's promise. */
    method Resolve(r: nat)
      requires Valid() && r in guards && guards[r].Passing?
      modifies this`guards
      ensures Valid() && View() == Apply(old(View()), Event.Resolve(r)) && guards == old(guards)[r := InPromise]
    {
      guards := guards[r := InPromise];
    }
  }

  /** A guard object; it is empty once moved from or released. */
  class MutexGuard {
    var mutex: Mutex?
    var request: nat

    /** A guard that is not empty is the guard of its request. */
    ghost predicate Valid()
      reads this, mutex, if mutex == null then [] else mutex.nodes
    {
      mutex != null ==> mutex.Valid() && request in mutex.guards && !mutex.guards[request].Passing?
    }

    /** Destruction, or an assignment over it: unlocks exactly once, whatever is done with it later. */
    method Release() returns (w: Option<nat>)
      requires Valid()
      modifies this, mutex
      ensures Valid() && mutex == null
      ensures old(mutex) == null ==> w == None
      ensures old(mutex) != null ==>
                old(mutex).Valid() && old(mutex).View() == Apply(old(mutex.View()), Unlock(old(request)))
    {
      w := None;
      if mutex != null {
        w := mutex.Unlock(request);
        mutex := null;
      }
    }

    /**
     Move assignment: releases what this guard had and leaves o empty; onto itself it does nothing.  Two full
     guards of one mutex do not exist (OneGuard).
     */
    method MoveFrom(o: MutexGuard) returns (w: Option<nat>)
      requires Valid() && o.Valid()
      requires o != this ==> mutex == null || mutex != o.mutex
      modifies this, o, mutex
      ensures o == this ==> w == None && mutex == old(mutex) && request == old(request)
      ensures Valid() && o.Valid()
      ensures o != this ==> o.mutex == null && mutex == old(o.mutex) && request == old(o.request)
      ensures o != this && old(mutex) != null ==>
                old(mutex).View() == Apply(old(mutex.View()), Unlock(old(request)))
      ensures o == this && mutex != null ==> mutex.View() == old(mutex.View())
    {
      w := None;
      if o != this {
        w := Release();
        mutex, request := o.mutex, o.request;
        o.mutex := null;
      }
    }
  }
}
