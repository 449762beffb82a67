/**
 The readiness cell of runtime/scheduled_io.h: a lock-free bit set and, under a mutex, one waker slot a
 direction.  Any number of threads poll, deliver events, clear bits and close.
 */
module ScheduledIo {
  import opened Wrappers

  datatype Dir = Read | Write

  /** The actions of an event delivery or a close that are still to come. */
  datatype Action = SetBit(d: Dir) | WakeSlot(d: Dir)

  /** The next access of a thread inside a call: a poll before or in its locked section, or a setter. */
  datatype Access = PollLock(d: Dir, w: nat) | PollRecheck(d: Dir, w: nat) | Setting(todo: seq<Action>)

  /**
   `locked` is the mutex around the slots.  `stored` counts all wakers ever stored; `fired`, `replaced` and
   `withdrawn` say what became of them (history).
   */
  datatype State = State(ready: set<Dir>, closed: bool, slots: map<Dir, nat>, locked: Option<nat>,
                         threads: map<nat, Access>, stored: multiset<nat>, fired: multiset<nat>,
                         replaced: multiset<nat>, withdrawn: multiset<nat>)

  datatype Event = Poll(t: nat, d: Dir, w: nat) | OnEvent(t: nat, read: bool, write: bool) | Close(t: nat)
                 | Clear(d: Dir) | Continue(t: nat)

  const Init := State({}, false, map[], None, map[], multiset{}, multiset{}, multiset{}, multiset{})

  function Content(slots: map<Dir, nat>, d: Dir): multiset<nat> {
    if d in slots then multiset{slots[d]} else multiset{}
  }

  function Kept(slots: map<Dir, nat>): multiset<nat> {
    Content(slots, Read) + Content(slots, Write)
  }

  /** What delivering an event with this mask does, in order. */
  function Delivery(read: bool, write: bool): seq<Action> {
    if read && write then [SetBit(Read), WakeSlot(Read), SetBit(Write), WakeSlot(Write)]
    else if read then [SetBit(Read), WakeSlot(Read)]
    else if write then [SetBit(Write), WakeSlot(Write)]
    else []
  }

  function Leave(s: State, t: nat): State {
    s.(threads := s.threads - {t})
  }

  /** One step; a thread can only enter a call when it is in none, and the mutex only when that is free. */
  function Apply(s: State, e: Event): State {
    match e
    case Poll(t, d, w) =>
      if t in s.threads || d in s.ready then s else s.(threads := s.threads[t := PollLock(d, w)])
    case OnEvent(t, read, write) =>
      if t in s.threads then s else
        s.(threads := s.threads[t := Setting(Delivery(read, write))])
    case Close(t) =>
      if t in s.threads then s
      else if s.closed then s.(ready := {Read, Write})
      else s.(ready := {Read, Write}, closed := true,
              threads := s.threads[t := Setting([WakeSlot(Read), WakeSlot(Write)])])
    case Clear(d) => s.(ready := s.ready - {d})
    case Continue(t) =>
      if t !in s.threads then s else
      match s.threads[t]
      case PollLock(d, w) =>
        if s.locked.Some? then s else
          s.(locked := Some(t), slots := s.slots[d := w], threads := s.threads[t := PollRecheck(d, w)],
             stored := s.stored + multiset{w}, replaced := s.replaced + Content(s.slots, d))
      case PollRecheck(d, w) =>
        if d in s.ready
        then Leave(s, t).(locked := None, slots := s.slots - {d}, withdrawn := s.withdrawn + Content(s.slots, d))
        else Leave(s, t).(locked := None)
      case Setting(todo) =>
        if todo == [] then Leave(s, t) else
          var next := s.threads[t := Setting(todo[1..])];
          match todo[0]
          case SetBit(d) => s.(ready := s.ready + {d}, threads := next)
          case WakeSlot(d) =>
            if s.locked.Some? then s else
              s.(slots := s.slots - {d}, fired := s.fired + Content(s.slots, d), threads := next)
  }

  function Run(es: seq<Event>): State {
    if es == [] then Init else Apply(Run(es[..|es| - 1]), es[|es| - 1])
  }

  /** A setter has set the bit of d and has not yet woken its slot. */
  predicate Owes(todo: seq<Action>, d: Dir) {
    |todo| > 0 && (todo[0] == WakeSlot(d) || (todo[0] != SetBit(d) && Owes(todo[1..], d)))
  }

  predicate OwesAt(s: State, t: nat, d: Dir) {
    t in s.threads && s.threads[t].Setting? && Owes(s.threads[t].todo, d)
  }

  /** Every SetBit still to come is followed by its WakeSlot. */
  predicate Paired(todo: seq<Action>) {
    todo == [] || ((todo[0].SetBit? ==> |todo| > 1 && todo[1] == WakeSlot(todo[0].d)) && Paired(todo[1..]))
  }

  predicate Rechecks(s: State, t: nat, d: Dir) {
    s.locked == Some(t) && t in s.threads && s.threads[t].PollRecheck? && s.threads[t].d == d
  }

  /** The waker in slot d is looked after: its bit is clear, a wake is due, or its own poll is about to look again. */
  ghost predicate Attended(s: State, d: Dir) {
    || d !in s.slots
    || d !in s.ready
    || (exists t :: OwesAt(s, t, d))
    || (exists t :: Rechecks(s, t, d))
  }

  /** Every waker ever stored is accounted for exactly once. */
  ghost predicate Balanced(s: State) {
    s.stored == s.fired + s.replaced + s.withdrawn + Kept(s.slots)
  }

  ghost predicate Shape(s: State) {
    && (forall t :: t in s.threads && s.threads[t].Setting? ==> Paired(s.threads[t].todo))
    && (forall t :: t in s.threads && s.threads[t].PollRecheck? ==> s.locked == Some(t))
    && (s.locked.Some? ==> s.locked.value in s.threads && s.threads[s.locked.value].PollRecheck?)
  }

  ghost predicate Inv(s: State) {
    Shape(s) && Balanced(s) && forall d :: Attended(s, d)
  }

  /** Closing again sets the bits without waking: d's waker then waits although its bit is set. */
  ghost predicate Strands(s: State, e: Event, d: Dir) {
    && e.Close? && e.t !in s.threads && s.closed
    && d !in s.ready && d in s.slots
    && !(exists t :: OwesAt(s, t, d)) && !(exists t :: Rechecks(s, t, d))
  }

  lemma Emptied(slots: map<Dir, nat>, d: Dir)
    ensures Kept(slots) == Kept(slots - {d}) + Content(slots, d)
  {
    var o := if d == Read then Write else Read;
    assert Content(slots - {d}, d) == multiset{} && Content(slots - {d}, o) == Content(slots, o);
    hide Content;
    assert Kept(slots) == Content(slots, o) + Content(slots, d);
  }

  lemma Filled(slots: map<Dir, nat>, d: Dir, w: nat)
    ensures Kept(slots[d := w]) == Kept(slots - {d}) + multiset{w}
  {
    assert slots[d := w] - {d} == slots - {d};
    Emptied(slots[d := w], d);
  }

  /** Where x wakers leave the slots for one of the three fates, and y enter. */
  lemma Account(stored: multiset<nat>, gone: multiset<nat>, kept: multiset<nat>, x: multiset<nat>, rest: multiset<nat>,
                y: multiset<nat>)
    requires stored == gone + kept && kept == rest + x
    ensures stored + y == gone + x + (rest + y)
  {
  }

  lemma BalanceStep(s: State, e: Event)
    requires Balanced(s)
    ensures Balanced(Apply(s, e))
  {
    hide Kept, Content;
    var gone := s.fired + s.replaced + s.withdrawn;
    if e.Continue? && e.t in s.threads {
      match s.threads[e.t]
      case PollLock(d, w) =>
        Emptied(s.slots, d);
        Filled(s.slots, d, w);
        Account(s.stored, gone, Kept(s.slots), Content(s.slots, d), Kept(s.slots - {d}), multiset{w});
      case PollRecheck(d, w) =>
        Emptied(s.slots, d);
        Account(s.stored, gone, Kept(s.slots), Content(s.slots, d), Kept(s.slots - {d}), multiset{});
      case Setting(todo) =>
        if todo != [] {
          Emptied(s.slots, todo[0].d);
          Account(s.stored, gone, Kept(s.slots), Content(s.slots, todo[0].d), Kept(s.slots - {todo[0].d}), multiset{});
        }
    }
  }

  lemma DeliveryIsPaired(read: bool, write: bool)
    ensures Paired(Delivery(read, write)) && Paired([WakeSlot(Read), WakeSlot(Write)])
  {
    assert Paired([WakeSlot(Write)]) && [WakeSlot(Read), WakeSlot(Write)][1..] == [WakeSlot(Write)];
    assert forall d :: [SetBit(d), WakeSlot(d)][1..] == [WakeSlot(d)] && Paired([WakeSlot(d)]);
    var both := Delivery(true, true);
    assert both[1..] == [WakeSlot(Read)] + Delivery(false, true);
    assert both[2..] == both[1..][1..] == Delivery(false, true);
  }

  lemma ShapeStep(s: State, e: Event)
    requires Shape(s)
    ensures Shape(Apply(s, e))
  {
    hide Content, Delivery, Paired;
    match e
    case Poll(_, _, _) =>
    case OnEvent(_, read, write) => DeliveryIsPaired(read, write);
    case Close(_) => DeliveryIsPaired(true, true);
    case Clear(_) =>
    case Continue(t) =>
      if t in s.threads {
        if s.threads[t].Setting? { SetterShape(s, t); } else { PollerShape(s, t); }
      }
  }

  lemma PollerShape(s: State, t: nat)
    requires Shape(s) && t in s.threads && !s.threads[t].Setting?
    ensures Shape(Apply(s, Continue(t)))
  {
    hide Content, Paired;
  }

  lemma SetterShape(s: State, t: nat)
    requires Shape(s) && t in s.threads && s.threads[t].Setting?
    ensures Shape(Apply(s, Continue(t)))
  {
    PairedTail(s.threads[t].todo);
    hide Content, Paired;
  }

  lemma PairedTail(todo: seq<Action>)
    requires Paired(todo)
    ensures todo != [] ==> Paired(todo[1..])
  {
  }

  /** Nothing but a second close can leave a waker unattended. */
  lemma AttendedStep(s: State, e: Event, d: Dir)
    requires Inv(s)
    ensures Attended(Apply(s, e), d) <==> !Strands(s, e, d)
  {
    hide Content, Balanced;
    assert Attended(s, d);
    match e
    case Poll(t, _, _) => SameThreads(s, e, t, d);
    case OnEvent(t, _, _) => SameThreads(s, e, t, d);
    case Close(t) => CloseStep(s, t, d);
    case Clear(_) => SameThreads(s, e, 0, d);
    case Continue(t) => ContinueStep(s, t, d);
  }

  lemma SameThreads(s: State, e: Event, t: nat, d: Dir)
    requires Attended(s, d) && (e.Clear? || ((e.Poll? || e.OnEvent?) && e.t == t))
    ensures Attended(Apply(s, e), d)
  {
    hide Content, Owes;
    var s' := Apply(s, e);
    if u :| OwesAt(s, u, d) { assert OwesAt(s', u, d); }
    if u :| Rechecks(s, u, d) { assert Rechecks(s', u, d); }
  }

  lemma CloseStep(s: State, t: nat, d: Dir)
    requires Attended(s, d)
    ensures Attended(Apply(s, Close(t)), d) <==> !Strands(s, Close(t), d)
  {
    hide Content;
    var s' := Apply(s, Close(t));
    if u :| OwesAt(s, u, d) { assert OwesAt(s', u, d); }
    if u :| Rechecks(s, u, d) { assert Rechecks(s', u, d); }
    if t !in s.threads {
      if s.closed {
        assert forall u :: OwesAt(s', u, d) == OwesAt(s, u, d) && Rechecks(s', u, d) == Rechecks(s, u, d);
      } else {
        assert Owes([WakeSlot(Write)], Write) && [WakeSlot(Read), WakeSlot(Write)][1..] == [WakeSlot(Write)];
        assert OwesAt(s', t, d);
      }
    }
  }

  lemma ContinueStep(s: State, t: nat, d: Dir)
    requires Shape(s) && Attended(s, d)
    ensures Attended(Apply(s, Continue(t)), d)
  {
    if t in s.threads {
      if s.threads[t].Setting? { SetterStep(s, t, d); } else { PollerStep(s, t, d); }
    }
  }

  lemma PollerStep(s: State, t: nat, d: Dir)
    requires Shape(s) && Attended(s, d) && t in s.threads && !s.threads[t].Setting?
    ensures Attended(Apply(s, Continue(t)), d)
  {
    if s.threads[t].PollLock? { StoreStep(s, t, d); } else { RecheckStep(s, t, d); }
  }

  lemma StoreStep(s: State, t: nat, d: Dir)
    requires Attended(s, d) && t in s.threads && s.threads[t].PollLock?
    ensures Attended(Apply(s, Continue(t)), d)
  {
    hide Content, Owes;
    var s', a := Apply(s, Continue(t)), s.threads[t];
    if u :| OwesAt(s, u, d) { assert OwesAt(s', u, d); }
    if s.locked.Some? {
      assert s' == s;
    } else if a.d == d {
      assert Rechecks(s', t, d);
    }
  }

  lemma RecheckStep(s: State, t: nat, d: Dir)
    requires Shape(s) && Attended(s, d) && t in s.threads && s.threads[t].PollRecheck?
    ensures Attended(Apply(s, Continue(t)), d)
  {
    hide Content, Owes, Paired;
    var s' := Apply(s, Continue(t));
    if u :| OwesAt(s, u, d) { assert OwesAt(s', u, d); }
    if u :| Rechecks(s, u, d) { assert u == t; }
  }

  lemma SetterStep(s: State, t: nat, d: Dir)
    requires Shape(s) && Attended(s, d) && t in s.threads && s.threads[t].Setting?
    ensures Attended(Apply(s, Continue(t)), d)
  {
    hide Content;
    var s', todo := Apply(s, Continue(t)), s.threads[t].todo;
    if u :| OwesAt(s, u, d) {
      if u != t { assert OwesAt(s', u, d); } else if d in s'.slots { assert OwesAt(s', t, d); }
    }
    if u :| Rechecks(s, u, d) { assert Rechecks(s', u, d); }
    if todo != [] && todo[0] == SetBit(d) {
      assert Paired(todo);
      assert OwesAt(s', t, d);
    }
  }

  /** Bits are never cleared once the descriptor is closed. */
  ghost predicate ClearsOnlyWhileOpen(es: seq<Event>) {
    forall k :: 0 <= k < |es| && es[k].Clear? ==> !Run(es[..k]).closed
  }

  lemma {:induction false} BalanceRun(es: seq<Event>)
    ensures Balanced(Run(es)) && Shape(Run(es))
  {
    if es != [] {
      BalanceRun(es[..|es| - 1]);
      BalanceStep(Run(es[..|es| - 1]), es[|es| - 1]);
      ShapeStep(Run(es[..|es| - 1]), es[|es| - 1]);
    }
  }

  lemma {:induction false} RunInv(es: seq<Event>)
    requires ClearsOnlyWhileOpen(es)
    ensures Inv(Run(es)) && (Run(es).closed ==> Run(es).ready == {Read, Write})
  {
    hide Inv, Apply;
    if es == [] {
      assert Inv(Init) by { InitInv(); }
    } else {
      var init, e := es[..|es| - 1], es[|es| - 1];
      forall k | 0 <= k < |init| && init[k].Clear? ensures !Run(init[..k]).closed {
        assert init[..k] == es[..k] && es[k].Clear?;
      }
      RunInv(init);
      BitsStayUp(Run(init), e);
      assert e.Clear? ==> !Run(init).closed;
      InvStep(Run(init), e);
    }
  }

  lemma InitInv()
    ensures Inv(Init)
  {
  }

  lemma BitsStayUp(s: State, e: Event)
    requires s.closed ==> s.ready == {Read, Write} && !e.Clear?
    ensures Apply(s, e).closed ==> Apply(s, e).ready == {Read, Write}
  {
    hide Content;
    if e.Continue? && e.t in s.threads && s.threads[e.t].Setting? && s.threads[e.t].todo != [] {
      TwoDirections(s.threads[e.t].todo[0].d);
    }
  }

  lemma TwoDirections(d: Dir)
    ensures d in {Read, Write}
  {
  }

  lemma InvStep(s: State, e: Event)
    requires Inv(s) && (s.closed ==> s.ready == {Read, Write})
    ensures Inv(Apply(s, e))
  {
    hide Balanced, Shape, Apply;
    BalanceStep(s, e);
    ShapeStep(s, e);
    forall d ensures Attended(Apply(s, e), d) {
      AttendedStep(s, e, d);
      assert d == Read || d == Write;
    }
  }

  /** Every waker ever stored was fired, replaced, withdrawn, or is still stored: once each, in every run. */
  lemma {:induction false} EveryWakerHasOneFate(es: seq<Event>)
    ensures var s := Run(es);
            s.stored == s.fired + s.replaced + s.withdrawn + Content(s.slots, Read) + Content(s.slots, Write)
  {
    BalanceRun(es);
    var s := Run(es);
    assert s.fired + s.replaced + s.withdrawn + (Content(s.slots, Read) + Content(s.slots, Write)) ==
           s.fired + s.replaced + s.withdrawn + Content(s.slots, Read) + Content(s.slots, Write);
  }

  /**
   No lost wakeup: when no bit is cleared after close, then whenever the bit of d is set, no setter is between
   setting it and waking, and the mutex is free, the slot of d is empty.
   */
  lemma {:induction false} NoStrandedWaker(es: seq<Event>, d: Dir)
    requires ClearsOnlyWhileOpen(es)
    requires var s := Run(es); d in s.ready && s.locked.None? && forall t :: !OwesAt(s, t, d)
    ensures d !in Run(es).slots
  {
    RunInv(es);
    assert Attended(Run(es), d);
  }

  /**
   Exactly when a step breaks this: a close of a descriptor already closed, while the bit of some d is clear
   and a waker that no thread is about to look after sits in its slot.
   */
  lemma StrandedExactly(s: State, e: Event)
    requires Inv(s)
    ensures Inv(Apply(s, e)) <==> forall d :: !Strands(s, e, d)
  {
    BalanceStep(s, e);
    ShapeStep(s, e);
    forall d ensures Attended(Apply(s, e), d) <==> !Strands(s, e, d) { AttendedStep(s, e, d); }
  }

  lemma RunSnoc(es: seq<Event>, e: Event)
    ensures Run(es + [e]) == Apply(Run(es), e)
  {
    assert (es + [e])[..|es|] == es;
  }

  lemma ClosedRun()
    ensures Run([Close(0), Continue(0), Continue(0), Continue(0)]) == Init.(ready := {Read, Write}, closed := true)
  {
    var es: seq<Event> := [];
    RunSnoc(es, Close(0)); es := es + [Close(0)];
    RunSnoc(es, Continue(0)); es := es + [Continue(0)];
    RunSnoc(es, Continue(0)); es := es + [Continue(0)];
    RunSnoc(es, Continue(0)); es := es + [Continue(0)];
    assert es == [Close(0), Continue(0), Continue(0), Continue(0)];
  }

  /** It does happen: close, clear, poll, close again; the poll's waker is never fired. */
  lemma SecondCloseStrands()
    ensures var s := Run([Close(0), Continue(0), Continue(0), Continue(0), Clear(Read), Poll(1, Read, 7), Continue(1),
                          Continue(1), Close(0)]);
            Read in s.ready && s.locked.None? && s.threads == map[] && Read in s.slots && s.fired == multiset{}
  {
    var s0 := Init.(ready := {Read, Write}, closed := true);
    var s1 := s0.(ready := {Write});
    var s2 := s1.(threads := map[1 := PollLock(Read, 7)]);
    var s3 := s1.(locked := Some(1), slots := map[Read := 7], threads := map[1 := PollRecheck(Read, 7)],
                  stored := multiset{7});
    var s4 := s1.(slots := map[Read := 7], stored := multiset{7});
    PollStores(s1, s2, s3, s4);
    assert Apply(s0, Clear(Read)) == s1;
    assert Apply(s4, Close(0)) == s4.(ready := {Read, Write});
    hide Apply;
    ClosedRun();
    var es := [Close(0), Continue(0), Continue(0), Continue(0)];
    hide Run;
    RunSnoc(es, Clear(Read)); es := es + [Clear(Read)];
    RunSnoc(es, Poll(1, Read, 7)); es := es + [Poll(1, Read, 7)];
    RunSnoc(es, Continue(1)); es := es + [Continue(1)];
    RunSnoc(es, Continue(1)); es := es + [Continue(1)];
    RunSnoc(es, Close(0)); es := es + [Close(0)];
    assert es == [Close(0), Continue(0), Continue(0), Continue(0), Clear(Read), Poll(1, Read, 7), Continue(1),
                  Continue(1), Close(0)];
  }

  lemma PollStores(s1: State, s2: State, s3: State, s4: State)
    requires s1.threads == map[] && s1.slots == map[] && s1.locked == None
    requires s1.ready == {Write} && s1.stored == multiset{}
    requires s2 == s1.(threads := map[1 := PollLock(Read, 7)])
    requires s3 == s2.(locked := Some(1), slots := map[Read := 7], threads := map[1 := PollRecheck(Read, 7)],
                       stored := multiset{7})
    requires s4 == s1.(slots := map[Read := 7], stored := multiset{7})
    ensures Apply(s1, Poll(1, Read, 7)) == s2 && Apply(s2, Continue(1)) == s3 && Apply(s3, Continue(1)) == s4
  {
    assert s2.replaced + multiset{} == s2.replaced;
    assert s3.threads - {1} == map[];
  }

  function RunFrom(s: State, es: seq<Event>): State {
    if es == [] then s else Apply(RunFrom(s, es[..|es| - 1]), es[|es| - 1])
  }

  lemma FromSnoc(s: State, es: seq<Event>, e: Event)
    ensures RunFrom(s, es + [e]) == Apply(RunFrom(s, es), e)
  {
    assert (es + [e])[..|es|] == es;
  }

  /** The bit of d is set and the waker waiting for it has been fired and taken out. */
  function Served(s: State, d: Dir): State {
    s.(ready := s.ready + {d}, slots := s.slots - {d}, fired := s.fired + Content(s.slots, d))
  }

  lemma SetAndWake(s: State, t: nat, d: Dir, rest: seq<Action>)
    requires t in s.threads && s.threads[t] == Setting([SetBit(d), WakeSlot(d)] + rest) && s.locked == None
    ensures Apply(Apply(s, Continue(t)), Continue(t)) == Served(s, d).(threads := s.threads[t := Setting(rest)])
  {
    hide Content;
    var todo := [SetBit(d), WakeSlot(d)] + rest;
    assert todo[1..] == [WakeSlot(d)] + rest && todo[1..][1..] == rest;
    var s1 := Apply(s, Continue(t));
    assert s1.threads[t] == Setting([WakeSlot(d)] + rest);
    assert s.threads[t := Setting(todo[1..])][t := Setting(rest)] == s.threads[t := Setting(rest)];
  }

  /** Going on for k steps. */
  function Onwards(t: nat, k: nat): seq<Event> {
    seq(k, _ => Continue(t))
  }

  lemma GoesTwo(s: State, es: seq<Event>, t: nat)
    ensures RunFrom(s, es + Onwards(t, 2)) == Apply(Apply(RunFrom(s, es), Continue(t)), Continue(t))
  {
    hide RunFrom, Apply;
    FromSnoc(s, es, Continue(t));
    FromSnoc(s, es + [Continue(t)], Continue(t));
    assert es + [Continue(t)] + [Continue(t)] == es + Onwards(t, 2);
  }

  /** An event for one direction, from any state in which the mutex is free: its bit is set, its waiter fired. */
  lemma DeliversOne(s: State, t: nat, d: Dir)
    requires t !in s.threads && s.locked == None
    ensures RunFrom(s, [OnEvent(t, d == Read, d == Write)] + Onwards(t, 3)) == Served(s, d)
  {
    var e := OnEvent(t, d == Read, d == Write);
    var s1 := s.(threads := s.threads[t := Setting([SetBit(d), WakeSlot(d)] + [])]);
    assert Delivery(d == Read, d == Write) == [SetBit(d), WakeSlot(d)] + [];
    assert Apply(s, e) == s1;
    SetAndWake(s1, t, d, []);
    assert s1.threads[t := Setting([])] - {t} == s.threads;
    RunFrom1(s, e);
    hide RunFrom, Content, Apply, Delivery;
    GoesTwo(s, [e], t);
    FromSnoc(s, [e] + Onwards(t, 2), Continue(t));
    assert [e] + Onwards(t, 2) + [Continue(t)] == [e] + Onwards(t, 3);
    Returns(RunFrom(s, [e] + Onwards(t, 2)), t);
  }

  lemma RunFrom1(s: State, e: Event)
    ensures RunFrom(s, [e]) == Apply(s, e)
  {
    FromSnoc(s, [], e);
    assert [] + [e] == [e];
  }

  /** An event for both: read first, then write. */
  lemma DeliversBoth(s: State, t: nat)
    requires t !in s.threads && s.locked == None
    ensures RunFrom(s, [OnEvent(t, true, true)] + Onwards(t, 2) + Onwards(t, 2) + [Continue(t)]) ==
              Served(Served(s, Read), Write)
  {
    var e := OnEvent(t, true, true);
    var later := [SetBit(Write), WakeSlot(Write)] + [];
    var s1 := s.(threads := s.threads[t := Setting([SetBit(Read), WakeSlot(Read)] + later)]);
    assert Delivery(true, true) == [SetBit(Read), WakeSlot(Read)] + later;
    assert Apply(s, e) == s1;
    RunFrom1(s, e);
    hide RunFrom, Content, Onwards, Apply, Delivery;
    SetAndWake(s1, t, Read, later);
    GoesTwo(s, [e], t);
    var s2 := Served(s1, Read).(threads := s1.threads[t := Setting(later)]);
    SetAndWake(s2, t, Write, []);
    GoesTwo(s, [e] + Onwards(t, 2), t);
    FromSnoc(s, [e] + Onwards(t, 2) + Onwards(t, 2), Continue(t));
    var s3 := Served(s2, Write).(threads := s2.threads[t := Setting([])]);
    assert s2.threads[t := Setting([])] - {t} == s.threads;
    assert RunFrom(s, [e] + Onwards(t, 2) + Onwards(t, 2)) == s3;
    Returns(s3, t);
  }

  lemma Returns(s: State, t: nat)
    requires t in s.threads && s.threads[t] == Setting([])
    ensures Apply(s, Continue(t)) == s.(threads := s.threads - {t})
  {
  }

  /** The first close, likewise: both bits set, both waiters fired, nothing stored any more. */
  lemma CloseServesBoth(s: State, t: nat)
    requires t !in s.threads && s.locked == None && !s.closed
    ensures var s' := RunFrom(s, [Close(t)] + Onwards(t, 2) + [Continue(t)]);
            && s'.ready == {Read, Write} && s'.closed && s'.slots == map[] && s'.threads == s.threads
            && s'.fired == s.fired + Content(s.slots, Read) + Content(s.slots, Write)
  {
    var s1 := s.(ready := {Read, Write}, closed := true,
                 threads := s.threads[t := Setting([WakeSlot(Read), WakeSlot(Write)])]);
    assert Apply(s, Close(t)) == s1;
    RunFrom1(s, Close(t));
    hide RunFrom, Content, Onwards, Apply;
    GoesTwo(s, [Close(t)], t);
    FromSnoc(s, [Close(t)] + Onwards(t, 2), Continue(t));
    ClosesBoth(s1, t);
    var s2 := Apply(Apply(s1, Continue(t)), Continue(t));
    assert s1.threads[t := Setting([])] - {t} == s.threads;
    Returns(s2, t);
  }

  lemma ClosesBoth(s: State, t: nat)
    requires t in s.threads && s.threads[t] == Setting([WakeSlot(Read), WakeSlot(Write)]) && s.locked == None
    ensures Apply(Apply(s, Continue(t)), Continue(t)) ==
              s.(slots := map[], threads := s.threads[t := Setting([])],
                 fired := s.fired + Content(s.slots, Read) + Content(s.slots, Write))
  {
    var todo := [WakeSlot(Read), WakeSlot(Write)];
    assert todo[1..] == [WakeSlot(Write)] && todo[1..][1..] == [];
    assert Content(s.slots - {Read}, Write) == Content(s.slots, Write);
    assert s.slots - {Read} - {Write} == map[] by {
      forall d | d in s.slots ensures d in {Read, Write} { TwoDirections(d); }
    }
    assert s.threads[t := Setting([WakeSlot(Write)])][t := Setting([])] == s.threads[t := Setting([])];
    hide Content;
  }

  /** The thread that has the mutex gives it back with its next access, and a poll that has the mutex ends. */
  lemma MutexIsReleased(s: State, t: nat)
    requires Shape(s) && s.locked == Some(t)
    ensures var s' := Apply(s, Continue(t)); s'.locked == None && t !in s'.threads
  {
    hide Content;
  }

  /** No step is one of thread t. */
  predicate NotOf(t: nat, es: seq<Event>) {
    forall k :: 0 <= k < |es| ==> es[k].Clear? || es[k].t != t
  }

  /** What nobody else changes: where thread t is, and the slots while it has the mutex. */
  predicate LeftAlone(s: State, s': State, t: nat) {
    && t in s.threads && t in s'.threads && s'.threads[t] == s.threads[t]
    && (s.threads[t].PollRecheck? ==> s'.locked == s.locked && s'.slots == s.slots)
  }

  lemma OtherLeaves(s: State, e: Event, t: nat)
    requires Shape(s) && t in s.threads && (e.Clear? || e.t != t)
    ensures LeftAlone(s, Apply(s, e), t)
  {
    if e.Continue? && e.t in s.threads {
      OtherGoes(s, e.t, t);
    }
  }

  lemma OtherGoes(s: State, u: nat, t: nat)
    requires Shape(s) && t in s.threads && u in s.threads && u != t
    ensures LeftAlone(s, Apply(s, Continue(u)), t)
  {
    hide Content, Paired, Delivery;
    assert s.threads[t].PollRecheck? ==> !s.threads[u].PollRecheck?;
  }

  /** Others leave a thread inside a call where it is, and the slots alone while it has the mutex. */
  lemma {:induction false} OthersLeave(s: State, es: seq<Event>, t: nat)
    requires Shape(s) && t in s.threads && NotOf(t, es)
    ensures Shape(RunFrom(s, es)) && LeftAlone(s, RunFrom(s, es), t)
  {
    hide Shape, Apply;
    if es != [] {
      var prior, e := es[..|es| - 1], es[|es| - 1];
      OthersLeave(s, prior, t);
      OtherLeaves(RunFrom(s, prior), e, t);
      ShapeStep(RunFrom(s, prior), e);
    }
  }

  /**
   The cell in place.  The first methods are one access, or one section under the mutex, each; PollReady is a
   whole poll with other threads running in between.
   */
  class Cell {
    var ready: set<Dir>
    var closed: bool
    var slots: map<Dir, nat>
    var locked: Option<nat>
    var threads: map<nat, Access>
    ghost var stored: multiset<nat>
    ghost var fired: multiset<nat>
    ghost var replaced: multiset<nat>
    ghost var withdrawn: multiset<nat>

    ghost function View(): State
      reads this
    {
      State(ready, closed, slots, locked, threads, stored, fired, replaced, withdrawn)
    }

    constructor ()
      ensures View() == Init
    {
      ready, closed, slots, locked, threads := {}, false, map[], None, map[];
      stored, fired, replaced, withdrawn := multiset{}, multiset{}, multiset{}, multiset{};
    }

    /** poll_read or poll_write: the look without the lock. */
    method Poll(t: nat, d: Dir, w: nat) returns (r: bool)
      requires t !in threads
      modifies this
      ensures r == (d in ready) && View() == Apply(old(View()), Event.Poll(t, d, w))
    {
      r := d in ready;
      if !r { threads := threads[t := PollLock(d, w)]; }
    }

    /** poll: enter the mutex and store the waker. */
    method PollStore(t: nat)
      requires t in threads && threads[t].PollLock? && locked.None?
      modifies this
      ensures View() == Apply(old(View()), Continue(t)) && locked == Some(t) && ready == old(ready)
      ensures slots == old(slots)[old(threads)[t].d := old(threads)[t].w]
      ensures stored == old(stored) + multiset{old(threads)[t].w}
    {
      var PollLock(d, w) := threads[t];
      locked := Some(t);
      stored, replaced := stored + multiset{w}, replaced + Content(slots, d);
      slots := slots[d := w];
      threads := threads[t := PollRecheck(d, w)];
    }

    /** poll: look again under the mutex; take the waker back if the bit is set. */
    method PollAgain(t: nat) returns (r: bool)
      requires t in threads && threads[t].PollRecheck?
      modifies this
      ensures r == (old(threads[t].d) in ready) && View() == Apply(old(View()), Continue(t))
    {
      hide Content;
      var d := threads[t].d;
      r := d in ready;
      if r {
        withdrawn, slots := withdrawn + Content(slots, d), slots - {d};
      }
      locked, threads := None, threads - {t};
    }

    /** close_fd: set all bits; only the first close goes on to wake. */
    method CloseFd(t: nat)
      requires t !in threads
      modifies this
      ensures View() == Apply(old(View()), Close(t))
      ensures ready == {Read, Write} && closed && slots == old(slots) && (t in threads <==> !old(closed))
    {
      var prev := closed;
      closed, ready := true, {Read, Write};
      if !prev { threads := threads[t := Setting([WakeSlot(Read), WakeSlot(Write)])]; }
    }

    /** on_event: what the mask asks for. */
    method OnEvent(t: nat, read: bool, write: bool)
      requires t !in threads
      modifies this
      ensures View() == Apply(old(View()), Event.OnEvent(t, read, write))
      ensures t in threads && threads[t].Setting? && ready == old(ready) && slots == old(slots)
      ensures forall d :: SetBit(d) in threads[t].todo <==> if d == Read then read else write
    {
      threads := threads[t := Setting(Delivery(read, write))];
      forall d ensures SetBit(d) in Delivery(read, write) <==> if d == Read then read else write { TwoDirections(d); }
    }

    /** on_event: the next fetch_or, which needs no lock. */
    method SetReady(t: nat)
      requires t in threads && threads[t].Setting? && threads[t].todo != [] && threads[t].todo[0].SetBit?
      modifies this
      ensures View() == Apply(old(View()), Continue(t))
      ensures ready == old(ready) + {old(threads)[t].todo[0].d} && slots == old(slots) && fired == old(fired)
    {
      var todo := threads[t].todo;
      ready := ready + {todo[0].d};
      threads := threads[t := Setting(todo[1..])];
    }

    /** wake_read or wake_write: fire the stored waker and clear the slot, under the mutex. */
    method WakeWaiter(t: nat)
      requires t in threads && threads[t].Setting? && threads[t].todo != [] && threads[t].todo[0].WakeSlot?
      requires locked.None?
      modifies this
      ensures View() == Apply(old(View()), Continue(t))
      ensures slots == old(slots) - {old(threads)[t].todo[0].d} && ready == old(ready) && locked == None
      ensures fired == old(fired) + Content(old(slots), old(threads)[t].todo[0].d)
    {
      hide Content;
      var todo := threads[t].todo;
      var d := todo[0].d;
      fired := fired + Content(slots, d);
      slots := slots - {d};
      threads := threads[t := Setting(todo[1..])];
    }

    /** on_event or close_fd returns. */
    method Return(t: nat)
      requires t in threads && threads[t] == Setting([])
      modifies this`threads
      ensures View() == Apply(old(View()), Continue(t)) && threads == old(threads) - {t}
    {
      threads := threads - {t};
    }

    method ClearBit(d: Dir)
      modifies this`ready
      ensures View() == Apply(old(View()), Clear(d)) && ready == old(ready) - {d}
    {
      ready := ready - {d};
    }

    /** One step of any thread. */
    method Access(e: Event)
      modifies this
      ensures View() == Apply(old(View()), e)
    {
      match e {
        case Poll(t, d, w) => if t !in threads { var _ := Poll(t, d, w); }
        case OnEvent(t, read, write) => if t !in threads { OnEvent(t, read, write); }
        case Close(t) => if t !in threads { CloseFd(t); }
        case Clear(d) => ClearBit(d);
        case Continue(t) => if t in threads { Goes(t); }
      }
    }

    method Goes(t: nat)
      requires t in threads
      modifies this
      ensures View() == Apply(old(View()), Continue(t))
    {
      match threads[t] {
        case PollLock(_, _) => if locked.None? { PollStore(t); }
        case PollRecheck(_, _) => var _ := PollAgain(t);
        case Setting(todo) =>
          if todo == [] {
            Return(t);
          } else if todo[0].SetBit? {
            SetReady(t);
          } else if locked.None? {
            WakeWaiter(t);
          }
      }
    }

    /** Other threads run. */
    method Others(es: seq<Event>)
      modifies this
      ensures View() == RunFrom(old(View()), es)
    {
      hide Apply;
      for k := 0 to |es|
        invariant View() == RunFrom(old(View()), es[..k])
      {
        Access(es[k]);
        assert es[..k + 1][..k] == es[..k];
      }
      assert es[..|es|] == es;
    }

    method AllBut(t: nat, es: seq<Event>)
      requires Shape(View()) && t in threads && NotOf(t, es)
      modifies this
      ensures Shape(View()) && LeftAlone(old(View()), View(), t)
    {
      hide Shape, Apply, NotOf, LeftAlone, RunFrom;
      OthersLeave(View(), es, t);
      Others(es);
    }

    /**
     poll_read or poll_write; None when the mutex is still taken after es0.  True says that the bit is set now;
     false that it is clear now and the slot has this poll's waker.
     */
    method PollReady(t: nat, d: Dir, w: nat, es0: seq<Event>, es1: seq<Event>) returns (r: Option<bool>)
      requires Shape(View()) && t !in threads && NotOf(t, es0) && NotOf(t, es1)
      modifies this
      ensures Shape(View())
      ensures r == None <==> t in threads
      ensures r.Some? ==> (r.value <==> d in ready)
      ensures r == Some(false) ==> d in slots && slots[d] == w && locked == None
      ensures r == Some(true) && d !in old(ready) ==> d !in slots && locked == None
    {
      hide NotOf, Content, Shape;
      ShapeStep(View(), Event.Poll(t, d, w));
      var look := Poll(t, d, w);
      if look { return Some(true); }
      AllBut(t, es0);
      if locked.Some? { return None; }
      StoreUnderLock(t, d, w);
      AllBut(t, es1);
      look := AgainUnderLock(t, d, w);
      r := Some(look);
    }

    method StoreUnderLock(t: nat, d: Dir, w: nat)
      requires Shape(View()) && t in threads && threads[t] == PollLock(d, w) && locked == None
      modifies this
      ensures Shape(View()) && t in threads && threads[t] == PollRecheck(d, w) && d in slots && slots[d] == w
      ensures locked == Some(t)
    {
      hide Content, Shape;
      ShapeStep(View(), Continue(t));
      PollStore(t);
    }

    method AgainUnderLock(t: nat, d: Dir, w: nat) returns (r: bool)
      requires Shape(View()) && t in threads && threads[t] == PollRecheck(d, w) && d in slots && slots[d] == w
      modifies this
      ensures Shape(View()) && t !in threads && locked == None && (r <==> d in ready)
      ensures if r then d !in slots else d in slots && slots[d] == w
    {
      hide Content, Shape;
      ShapeStep(View(), Continue(t));
      r := PollAgain(t);
    }
  }
}
