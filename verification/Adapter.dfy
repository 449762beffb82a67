/**
 AdapterPromiseNode of promise_node.h: one polling thread, one resolving thread, and the waker cell
 between them.  Thread 0 polls, thread 1 resolves.
 */
module Adapters {
  import opened Wrappers
  import W = AtomicWakers

  /** What the last finished poll returned; false comes with the waker that was passed. */
  datatype Answer = Never | Ready | Pending(w: nat)

  /** The poller's next access. */
  datatype Poller = Idle(last: Answer) | Register(w: nat) | InRegister(w: nat) | Recheck(w: nat)
    | WakeSelf(w: nat) | InWake(w: nat)

  /** The resolver's next access. */
  datatype Resolver = Unresolved | SetFlag | WakeOther | Waking | Done

  /** What the node stores; take leaves a moved-from value behind. */
  datatype Stored<V> = Empty | Full(v: V) | MovedFrom

  /**
   History of the last poll: the number of wakers fired and the owner of the waker cell when it began, and
   whether its registration has taken the cell.
   */
  datatype Past = Past(began: nat, before: Option<nat>, took: bool)

  datatype State<V> = State(value: Stored<V>, resolved: bool, waker: W.State, poller: Poller, resolver: Resolver,
                            past: Past)

  datatype Event<V> = Poll(w: nat) | PollStep | Resolve(v: V) | ResolveStep | Take

  function Init<V>(): State<V> {
    State(Empty, false, W.Init, Idle(Never), Unresolved, Past(0, None, false))
  }

  function PollApply<V>(s: State<V>): State<V> {
    match s.poller
    case Idle(_) => s
    case Register(w) =>
      var a := W.Apply(s.waker, W.Register(w));
      s.(waker := a, poller := if a.registrar.Resting? then Recheck(w) else InRegister(w),
         past := s.past.(took := a.registrar.Store?))
    case InRegister(w) =>
      var a := W.Apply(s.waker, W.RegistrarStep);
      s.(waker := a, poller := if a.registrar.Resting? then Recheck(w) else InRegister(w))
    case Recheck(w) => s.(poller := if s.resolved then WakeSelf(w) else Idle(Pending(w)))
    case WakeSelf(w) =>
      var a := W.Apply(s.waker, W.Wake(0));
      s.(waker := a, poller := if 0 in a.holders then InWake(w) else Idle(Ready))
    case InWake(w) =>
      var a := W.Apply(s.waker, W.HolderStep(0));
      s.(waker := a, poller := if 0 in a.holders then InWake(w) else Idle(Ready))
  }

  function ResolveApply<V>(s: State<V>): State<V> {
    match s.resolver
    case Unresolved => s
    case SetFlag => s.(resolved := true, resolver := WakeOther)
    case WakeOther =>
      var a := W.Apply(s.waker, W.Wake(1));
      s.(waker := a, resolver := if 1 in a.holders then Waking else Done)
    case Waking =>
      var a := W.Apply(s.waker, W.HolderStep(1));
      s.(waker := a, resolver := if 1 in a.holders then Waking else Done)
    case Done => s
  }

  function Apply<V>(s: State<V>, e: Event<V>): State<V> {
    match e
    case Poll(w) =>
      if !s.poller.Idle? then s
      else s.(poller := if s.resolved then Idle(Ready) else Register(w),
              past := Past(|s.waker.fired|, s.waker.owner, false))
    case PollStep => PollApply(s)
    case Resolve(v) => if s.resolver.Unresolved? then s.(value := Full(v), resolver := SetFlag) else s
    case ResolveStep => ResolveApply(s)
    case Take => if s.resolved then s.(value := MovedFrom) else s
  }

  function Run<V>(s: State<V>, es: seq<Event<V>>): State<V> {
    if es == [] then s else Apply(Run(s, es[..|es| - 1]), es[|es| - 1])
  }

  /** w is the waker the cell belongs to, registered during this poll. */
  ghost predicate Holds<V>(s: State<V>, w: nat) {
    s.waker.owner == Some(w) && s.past.began <= s.waker.since
  }

  ghost predicate Inv<V>(s: State<V>) {
    && W.Inv(s.waker)
    && s.past.began <= |s.waker.fired|
    && (s.resolved <==> s.resolver.WakeOther? || s.resolver.Waking? || s.resolver.Done?)
    && (s.value.Empty? <==> s.resolver.Unresolved?)
    && (s.value.MovedFrom? ==> s.resolved)
    && (s.waker.registrar.Resting? <==> !s.poller.InRegister?)
    && (forall i :: i in s.waker.holders ==> (i == 0 && s.poller.InWake?) || (i == 1 && s.resolver.Waking?))
    && (s.poller.InWake? ==> 0 in s.waker.holders)
    && (s.resolver.Waking? ==> 1 in s.waker.holders)
    && match s.poller
       case Idle(Never) => true
       case Idle(Ready) => s.resolved
       case Idle(Pending(w)) => Holds(s, w) && (s.resolver.Waking? || s.resolver.Done? ==> s.waker.landed)
       case Register(w) => true
       case InRegister(w) =>
         s.resolved || (Holds(s, w) && (s.waker.registrar.Store? ==> s.waker.registrar.w == w))
       case Recheck(w) => s.resolved || Holds(s, w)
       case WakeSelf(w) => s.resolved
       case InWake(w) => s.resolved
  }

  /** The steps of the waker cell keep its invariant and never take a fired waker back. */
  lemma WakerSteps(a: W.State, e: W.Event)
    requires W.Inv(a)
    ensures W.Inv(W.Apply(a, e)) && |a.fired| <= |W.Apply(a, e).fired|
  {
    W.Step(a, e);
  }

  lemma Step<V>(s: State<V>, e: Event<V>)
    requires Inv(s)
    ensures Inv(Apply(s, e))
  {
    hide W.Inv;
    match e
    case Poll(w) =>
    case Resolve(v) =>
    case Take =>
    case PollStep => PollStepInv(s);
    case ResolveStep => ResolveStepInv(s);
  }

  lemma PollStepInv<V>(s: State<V>)
    requires Inv(s)
    ensures Inv(PollApply(s))
  {
    hide W.Obliged, W.FiredSince;
    match s.poller
    case Idle(_) =>
    case Register(w) => WakerSteps(s.waker, W.Register(w));
    case InRegister(w) => WakerSteps(s.waker, W.RegistrarStep);
    case Recheck(w) =>
    case WakeSelf(w) => WakerSteps(s.waker, W.Wake(0));
    case InWake(w) => WakerSteps(s.waker, W.HolderStep(0));
  }

  lemma ResolveStepInv<V>(s: State<V>)
    requires Inv(s)
    ensures Inv(ResolveApply(s))
  {
    hide W.Obliged, W.FiredSince;
    match s.resolver
    case Unresolved =>
    case SetFlag =>
    case WakeOther => WakerSteps(s.waker, W.Wake(1));
    case Waking => WakerSteps(s.waker, W.HolderStep(1));
    case Done =>
  }

  lemma {:induction false} RunInv<V>(es: seq<Event<V>>)
    ensures Inv(Run(Init<V>(), es))
  {
    if es != [] {
      RunInv(es[..|es| - 1]);
      Step(Run(Init(), es[..|es| - 1]), es[|es| - 1]);
    }
  }

  /** What the invariant says about a poll that returned false. */
  lemma PendingIsWoken<V>(s: State<V>, w: nat)
    requires Inv(s) && s.poller == Idle(Pending(w))
    ensures s.waker.cell == Some(w) && s.past.began <= |s.waker.fired|
    ensures s.resolver.Done? ==> w in s.waker.fired[s.past.began..]
  {
    if s.resolver.Done? {
      assert W.FiredSince(s.waker);
      var k :| s.waker.since <= k < |s.waker.fired| && s.waker.fired[k] == w;
      assert s.waker.fired[s.past.began..][k - s.past.began] == w;
    }
  }

  /** After a poll that returned true, take finds the flag set and the value, unless it was taken before. */
  lemma ReadyHasValue<V>(es: seq<Event<V>>)
    requires Run(Init<V>(), es).poller == Idle(Ready)
    ensures var s := Run(Init<V>(), es); s.resolved && (s.value.Full? || Take in es)
  {
    RunInv(es);
    MovedOnlyByTake(es);
  }

  lemma {:induction false} MovedOnlyByTake<V>(es: seq<Event<V>>)
    ensures Run(Init<V>(), es).value.MovedFrom? ==> Take in es
  {
    hide Inv;
    if es != [] { MovedOnlyByTake(es[..|es| - 1]); }
  }

  /** Nothing but the first take, and that only once resolved, changes a stored value; what it leaves stays. */
  lemma ValueIsFinal<V>(s: State<V>, e: Event<V>)
    requires Inv(s)
    ensures var s' := Apply(s, e);
            && (s.resolved ==> s'.resolved)
            && (s.value.Full? ==> s'.value == if e.Take? && s.resolved then MovedFrom else s.value)
            && (s.value.MovedFrom? ==> s'.value.MovedFrom?)
  {
  }

  /** The first resolve decides the value, and what take then gets. */
  lemma {:induction false} TakenIsResolved<V>(es: seq<Event<V>>, v: V)
    requires Run(Init<V>(), es).value == Full(v)
    ensures exists k: nat :: k < |es| && es[k] == Resolve(v) && Run(Init<V>(), es[..k]).value.Empty?
  {
    RunInv(es[..|es| - 1]);
    var prior, e := es[..|es| - 1], es[|es| - 1];
    ValueIsFinal(Run(Init<V>(), prior), e);
    if Run(Init<V>(), prior).value == Full(v) {
      TakenIsResolved(prior, v);
      var k: nat :| k < |prior| && prior[k] == Resolve(v) && Run(Init<V>(), prior[..k]).value.Empty?;
      assert es[..k] == prior[..k] && es[k] == prior[k];
    } else {
      assert e == Resolve(v);
    }
  }

  /** The poll is about to fire the waker its registration was given. */
  predicate FiresInRegister<V>(s: State<V>) {
    s.poller.InRegister? && (s.waker.registrar.FireArgument? || s.waker.registrar.FireCell?)
  }

  /** The poll has taken the cell to wake itself and is about to fire the waker there. */
  predicate FiresAtSecondLook<V>(s: State<V>) {
    s.poller.InWake? && 0 in s.waker.holders && s.waker.holders[0].Fire?
  }

  function AsSeq(w: Option<nat>): seq<nat> {
    if w.Some? then [w.value] else []
  }

  /** Whose waker the cell has during a poll: this poll's own once its registration took the cell. */
  ghost predicate Own<V>(s: State<V>) {
    match s.poller
    case Idle(_) => true
    case Register(_) => !s.past.took && s.waker.owner == s.past.before
    case InRegister(w) =>
      && s.waker.owner == (if s.past.took then Some(w) else s.past.before)
      && (s.past.took <==> s.waker.registrar.Store? || s.waker.registrar.Exchange? || s.waker.registrar.FireCell?)
      && (s.waker.registrar.FireArgument? ==> s.waker.registrar.w == w)
      && (s.waker.registrar.Store? ==> s.waker.registrar.w == w)
    case Recheck(w) => s.waker.owner == if s.past.took then Some(w) else s.past.before
    case WakeSelf(w) => s.waker.owner == if s.past.took then Some(w) else s.past.before
    case InWake(w) => s.waker.owner == if s.past.took then Some(w) else s.past.before
  }

  lemma OwnStep<V>(s: State<V>, e: Event<V>)
    requires Inv(s) && Own(s)
    ensures Own(Apply(s, e))
  {
    hide W.Obliged, W.FiredSince;
  }

  lemma {:induction false} RunOwn<V>(es: seq<Event<V>>)
    ensures Own(Run(Init<V>(), es))
  {
    hide Inv, Own, Apply;
    if es == [] {
      assert Own(Init<V>()) by { InitOwn<V>(); }
    } else {
      RunInv(es[..|es| - 1]);
      RunOwn(es[..|es| - 1]);
      OwnStep(Run(Init<V>(), es[..|es| - 1]), es[|es| - 1]);
    }
  }

  lemma InitOwn<V>()
    ensures Own(Init<V>())
  {
  }

  /**
   Exactly when a step of a poll fires a waker, and which.  In the registration it is this poll's own; at the
   self-wake it is this poll's own exactly if the registration took the cell, and otherwise the one the cell had
   before the poll, if any.  No other step of a poll fires one.
   */
  lemma PollFiresExactly<V>(es: seq<Event<V>>)
    ensures var s := Run(Init<V>(), es); var s' := Apply(s, PollStep);
            s'.waker.fired == s.waker.fired + (
              if FiresInRegister(s) then [s.poller.w]
              else if FiresAtSecondLook(s) then AsSeq(if s.past.took then Some(s.poller.w) else s.past.before)
              else [])
  {
    RunInv(es);
    RunOwn(es);
    var s := Run(Init<V>(), es);
    hide Run;
    assert s.waker.fired + [] == s.waker.fired;
  }

  /**
   The guards that lead there: a registration that finds a wake in flight, or that a wake joins before it is
   over, and a second look that finds the flag set while nobody holds the cell.
   */
  lemma PollWillFire<V>(es: seq<Event<V>>)
    ensures var s := Run(Init<V>(), es); var s' := Apply(s, PollStep);
            && (s.poller.Register? ==> (FiresInRegister(s') <==> s.waker.bits == W.Bits(false, true)))
            && (s.poller.Register? ==> (s'.past.took <==> s.waker.bits == W.WAITING))
            && (s.waker.registrar.Exchange? ==> (FiresInRegister(s') <==> s.waker.bits.waking))
            && (s.poller.Recheck? ==> (s'.poller.WakeSelf? <==> s.resolved))
            && (s.poller.WakeSelf? ==> (FiresAtSecondLook(s') <==> s.waker.bits == W.WAITING))
  {
    RunInv(es);
  }

  /** How many accesses of its own the resolving thread is from the end of resolve. */
  function ResolverLeft<V>(s: State<V>): nat {
    match s.resolver
    case Unresolved => 0
    case SetFlag => 4
    case WakeOther => 3
    case Waking => if W.HolderLeft(s.waker, 1) > 1 then 2 else 1
    case Done => 0
  }

  /** And the polling thread from the end of its poll. */
  function PollerLeft<V>(s: State<V>): nat {
    match s.poller
    case Idle(_) => 0
    case Register(_) => 8
    case InRegister(_) => 4 + W.RegistrarLeft(s.waker)
    case Recheck(_) => 4
    case WakeSelf(_) => 3
    case InWake(_) => if W.HolderLeft(s.waker, 0) > 1 then 2 else 1
  }

  lemma ResolverProgresses<V>(s: State<V>, e: Event<V>)
    requires Inv(s)
    ensures var s' := Apply(s, e);
            && (e.ResolveStep? && ResolverLeft(s) > 0 ==> ResolverLeft(s') < ResolverLeft(s))
            && (ResolverLeft(s) > 0 ==> ResolverLeft(s') <= ResolverLeft(s))
            && (!s.resolver.Unresolved? ==> !s'.resolver.Unresolved?)
            && (s.resolver.Done? ==> s'.resolver.Done?)
  {
    hide W.Obliged, W.FiredSince;
  }

  lemma PollerProgresses<V>(s: State<V>, e: Event<V>)
    requires Inv(s)
    ensures var s' := Apply(s, e);
            && (e.PollStep? && PollerLeft(s) > 0 ==> PollerLeft(s') < PollerLeft(s))
            && (!e.Poll? ==> PollerLeft(s') <= PollerLeft(s))
  {
    hide W.Obliged, W.FiredSince;
  }

  function CountOf<V>(es: seq<Event<V>>, polls: bool): nat {
    if es == [] then 0
    else
      var e := es[|es| - 1];
      CountOf(es[..|es| - 1], polls) + if (if polls then e.PollStep? else e.ResolveStep?) then 1 else 0
  }

  predicate NoPoll<V>(es: seq<Event<V>>) {
    forall k :: 0 <= k < |es| ==> !es[k].Poll?
  }

  /**
   A resolve that has been called ends, whatever the polling thread does meanwhile, by the fourth of its own
   accesses.
   */
  lemma {:induction false} ResolveEnds<V>(es: seq<Event<V>>, more: seq<Event<V>>)
    requires !Run(Init<V>(), es).resolver.Unresolved?
    ensures var s, s' := Run(Init<V>(), es), Run(Init<V>(), es + more);
            && !s'.resolver.Unresolved?
            && (s'.resolver.Done? || CountOf(more, false) + ResolverLeft(s') <= ResolverLeft(s))
            && (CountOf(more, false) >= 4 ==> s'.resolver.Done?)
  {
    hide Apply, Inv;
    if more == [] {
      assert es + more == es;
    } else {
      var less, e := more[..|more| - 1], more[|more| - 1];
      ResolveEnds(es, less);
      assert (es + more)[..|es + more| - 1] == es + less;
      RunInv(es + less);
      ResolverProgresses(Run(Init<V>(), es + less), e);
    }
    LeftIsFour(Run(Init<V>(), es));
    LeftIsFour(Run(Init<V>(), es + more));
  }

  lemma LeftIsFour<V>(s: State<V>)
    ensures ResolverLeft(s) <= 4 && PollerLeft(s) <= 8
    ensures !s.resolver.Unresolved? ==> (ResolverLeft(s) == 0 <==> s.resolver.Done?)
    ensures PollerLeft(s) == 0 <==> s.poller.Idle?
  {
  }

  /** A poll that has begun ends, whatever the resolving thread does meanwhile, by the eighth of its own accesses. */
  lemma {:induction false} PollEnds<V>(es: seq<Event<V>>, more: seq<Event<V>>)
    requires NoPoll(more)
    ensures var s, s' := Run(Init<V>(), es), Run(Init<V>(), es + more);
            && (s'.poller.Idle? || CountOf(more, true) + PollerLeft(s') <= PollerLeft(s))
            && (CountOf(more, true) >= 8 ==> s'.poller.Idle?)
  {
    hide Apply, Inv;
    if more == [] {
      assert es + more == es;
    } else {
      var less, e := more[..|more| - 1], more[|more| - 1];
      PollEnds(es, less);
      assert (es + more)[..|es + more| - 1] == es + less;
      RunInv(es + less);
      PollerProgresses(Run(Init<V>(), es + less), e);
    }
    LeftIsFour(Run(Init<V>(), es));
    LeftIsFour(Run(Init<V>(), es + more));
  }

  /** Between polls nothing changes the answer of the last one. */
  lemma {:induction false} AnswerStays<V>(es: seq<Event<V>>, more: seq<Event<V>>)
    requires NoPoll(more) && Run(Init<V>(), es).poller.Idle?
    ensures var s, s' := Run(Init<V>(), es), Run(Init<V>(), es + more); s'.poller == s.poller && s'.past == s.past
  {
    if more == [] {
      assert es + more == es;
    } else {
      AnswerStays(es, more[..|more| - 1]);
      assert (es + more)[..|es + more| - 1] == es + more[..|more| - 1];
      hide W.Apply;
    }
  }

  /**
   No lost wakeup: until the next poll after one that returned false, the cell holds that poll's waker, and once
   resolve has finished, or has been called and made four accesses since, that waker has been fired since the
   poll began.  This is for every interleaving.
   */
  lemma {:induction false} NoLostWake<V>(es: seq<Event<V>>, w: nat, more: seq<Event<V>>)
    requires Run(Init<V>(), es).poller == Idle(Pending(w)) && NoPoll(more)
    ensures var s := Run(Init<V>(), es + more);
            && s.poller == Idle(Pending(w)) && s.waker.cell == Some(w) && s.past.began <= |s.waker.fired|
            && (s.resolver.Done? || (!Run(Init<V>(), es).resolver.Unresolved? && CountOf(more, false) >= 4) ==>
                  w in s.waker.fired[s.past.began..])
  {
    hide Inv, Apply;
    AnswerStays(es, more);
    RunInv(es + more);
    PendingIsWoken(Run(Init<V>(), es + more), w);
    if !Run(Init<V>(), es).resolver.Unresolved? { ResolveEnds(es, more); }
  }

  predicate OnlyResolveSteps<V>(es: seq<Event<V>>) {
    forall k :: 0 <= k < |es| ==> es[k].ResolveStep?
  }

  /** The resolving thread alone does not touch the poller's side, or take a fired waker back. */
  lemma {:induction false} ResolverLeavesPoller<V>(es: seq<Event<V>>, more: seq<Event<V>>)
    requires OnlyResolveSteps(more)
    ensures NoPoll(more)
    ensures var s, s' := Run(Init<V>(), es), Run(Init<V>(), es + more);
            s'.poller == s.poller && s'.past == s.past && s'.value == s.value && CountOf(more, false) == |more|
  {
    if more == [] {
      assert es + more == es;
    } else {
      ResolverLeavesPoller(es, more[..|more| - 1]);
      assert (es + more)[..|es + more| - 1] == es + more[..|more| - 1];
      assert more[|more| - 1].ResolveStep?;
      hide W.Apply;
    }
  }

  /**
   From the outside: when a poll with waker w has returned false, a first resolve(v), run to its end in at most
   four accesses after storing v, has fired w since that poll began, and the next poll returns true at once with
   v there to take.
   */
  lemma ResolveWakesAndDelivers<V>(es: seq<Event<V>>, w: nat, v: V, steps: seq<Event<V>>, next: nat)
    requires Run(Init<V>(), es).poller == Idle(Pending(w)) && Run(Init<V>(), es).resolver.Unresolved?
    requires OnlyResolveSteps(steps) && |steps| >= 4
    ensures var s := Run(Init<V>(), es + [Resolve(v)] + steps);
            && s.resolver.Done? && s.resolved && s.value == Full(v)
            && s.past.began <= |s.waker.fired| && w in s.waker.fired[s.past.began..]
            && Apply(s, Poll(next)).poller == Idle(Ready)
  {
    var es1 := es + [Resolve(v)];
    RunSnoc(es, Resolve(v));
    ResolveEnds(es1, steps);
    ResolverLeavesPoller(es1, steps);
    NoLostWake(es1, w, steps);
    RunInv(es1 + steps);
    hide Run;
  }

  lemma RunSnoc<V>(es: seq<Event<V>>, e: Event<V>)
    ensures Run(Init<V>(), es + [e]) == Apply(Run(Init<V>(), es), e)
  {
    assert (es + [e])[..|es|] == es;
  }

  /** A poll that stores its waker and then finds the flag set at its second look. */
  lemma LateFlagRun()
    ensures var s := Run(Init<int>(), [Poll(1), PollStep, PollStep, PollStep, Resolve(5), ResolveStep]);
            && s.poller == Recheck(1) && s.resolved && s.resolver.WakeOther?
            && s.waker == W.Init.(cell := Some(1), owner := Some(1)) && s.past.took
  {
    var es: seq<Event<int>> := [];
    RunSnoc(es, Poll(1)); es := es + [Poll(1)];
    RunSnoc(es, PollStep); es := es + [PollStep];
    RunSnoc(es, PollStep); es := es + [PollStep];
    RunSnoc(es, PollStep); es := es + [PollStep];
    RunSnoc(es, Resolve(5)); es := es + [Resolve(5)];
    RunSnoc(es, ResolveStep); es := es + [ResolveStep];
    assert es == [Poll(1), PollStep, PollStep, PollStep, Resolve(5), ResolveStep];
  }

  /** It can fire its own waker from inside and return true, the resolver being still on its way to wake it. */
  lemma PollWakesItself()
    ensures var s := Run(Init<int>(), [Poll(1), PollStep, PollStep, PollStep, Resolve(5), ResolveStep,
                                       PollStep, PollStep, PollStep, PollStep]);
            s.poller == Idle(Ready) && s.waker.fired == [1] && s.resolver.WakeOther?
  {
    LateFlagRun();
    var es: seq<Event<int>> := [Poll(1), PollStep, PollStep, PollStep, Resolve(5), ResolveStep];
    hide Run;
    RunSnoc(es, PollStep); es := es + [PollStep];
    RunSnoc(es, PollStep); es := es + [PollStep];
    RunSnoc(es, PollStep); es := es + [PollStep];
    RunSnoc(es, PollStep); es := es + [PollStep];
    assert es == [Poll(1), PollStep, PollStep, PollStep, Resolve(5), ResolveStep,
                  PollStep, PollStep, PollStep, PollStep];
  }

  /** Or it fires nothing and returns true, the resolver holding the cell already. */
  lemma PollMayNotWakeItself()
    ensures var s := Run(Init<int>(), [Poll(1), PollStep, PollStep, PollStep, Resolve(5), ResolveStep,
                                       ResolveStep, PollStep, PollStep]);
            s.poller == Idle(Ready) && s.waker.fired == [] && s.resolver.Waking?
  {
    LateFlagRun();
    var es: seq<Event<int>> := [Poll(1), PollStep, PollStep, PollStep, Resolve(5), ResolveStep];
    hide Run;
    RunSnoc(es, ResolveStep); es := es + [ResolveStep];
    RunSnoc(es, PollStep); es := es + [PollStep];
    RunSnoc(es, PollStep); es := es + [PollStep];
    assert es == [Poll(1), PollStep, PollStep, PollStep, Resolve(5), ResolveStep, ResolveStep, PollStep, PollStep];
  }

  /** The node in place; each method is one atomic access of poll or resolve with the code up to the next. */
  class AdapterPromiseNode<V> {
    var value: Stored<V>
    var resolved: bool
    const waker: W.AtomicWaker
    var poller: Poller
    var resolver: Resolver
    ghost var past: Past

    ghost function View(): State<V>
      reads this, waker
    {
      State(value, resolved, waker.View(), poller, resolver, past)
    }

    constructor ()
      ensures View() == Init() && fresh(waker)
    {
      value, resolved, poller, resolver, past := Empty, false, Idle(Never), Unresolved, Past(0, None, false);
      waker := new W.AtomicWaker();
    }

    /** poll(w): the first look at the flag. */
    method Poll(w: nat)
      requires poller.Idle?
      modifies this
      ensures View() == Apply(old(View()), Event.Poll(w))
      ensures poller == if resolved then Idle(Ready) else Register(w)
    {
      past := Past(|waker.fired|, waker.owner, false);
      poller := if resolved then Idle(Ready) else Register(w);
    }

    /** poll: whatever comes next. */
    method PollAccess()
      requires Inv(View())
      modifies this, waker
      ensures View() == Apply(old(View()), PollStep)
      ensures old(PollerLeft(View())) > 0 ==> PollerLeft(View()) < old(PollerLeft(View()))
    {
      PollerProgresses(View(), PollStep);
      match poller {
        case Idle(_) =>
        case Register(w) =>
          waker.RegisterCas(w);
          past := past.(took := waker.registrar.Store?);
          poller := if waker.registrar.Resting? then Recheck(w) else InRegister(w);
        case InRegister(w) =>
          waker.RegisterAccess();
          poller := if waker.registrar.Resting? then Recheck(w) else InRegister(w);
        case Recheck(w) =>
          poller := if resolved then WakeSelf(w) else Idle(Pending(w));
        case WakeSelf(w) =>
          waker.WakeFetchOr(0);
          poller := if 0 in waker.holders then InWake(w) else Idle(Ready);
        case InWake(w) =>
          waker.WakeAccess(0);
          poller := if 0 in waker.holders then InWake(w) else Idle(Ready);
      }
    }

    /** resolve(v), by the one resolving thread between its calls: refused once the flag is set. */
    method Resolve(v: V) returns (ok: bool)
      requires Inv(View()) && (resolver.Unresolved? || resolver.Done?)
      modifies this
      ensures ok == !old(resolved)
      ensures ok ==> value == Full(v) && resolver == SetFlag
      ensures View() == Apply(old(View()), Event.Resolve(v))
    {
      ok := !resolved;
      if ok {
        value := Full(v);
        resolver := SetFlag;
      }
    }

    /** resolve: whatever comes next. */
    method ResolveAccess()
      requires Inv(View())
      modifies this, waker
      ensures View() == Apply(old(View()), ResolveStep)
      ensures old(ResolverLeft(View())) > 0 ==> ResolverLeft(View()) < old(ResolverLeft(View()))
    {
      ResolverProgresses(View(), ResolveStep);
      match resolver {
        case Unresolved =>
        case SetFlag =>
          resolved := true;
          resolver := WakeOther;
        case WakeOther =>
          waker.WakeFetchOr(1);
          resolver := if 1 in waker.holders then Waking else Done;
        case Waking =>
          waker.WakeAccess(1);
          resolver := if 1 in waker.holders then Waking else Done;
        case Done =>
      }
    }

    /** take moves the value out: it succeeds exactly on a resolved node, and only once with the value. */
    method Take() returns (r: Stored<V>)
      requires Inv(View())
      modifies this`value
      ensures View() == Apply(old(View()), Event.Take)
      ensures r == if resolved then old(value) else Empty
      ensures !r.Empty? <==> resolved
    {
      if !resolved { return Empty; }
      r := value;
      value := MovedFrom;
    }
  }
}
