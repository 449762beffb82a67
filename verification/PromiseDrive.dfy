/**
 A promise tree driven by one thread while other threads resolve its adapter leaves.

 A poll goes down to the focus of the tree and polls it access by access (module Adapters).  When the
 focus is ready the innermost Step1 Chain node takes its outer promise, runs its continuation and the poll
 goes on with the inner promise; without such a node the whole poll returns true.  Every step of every
 thread is one event, so `Run` covers every interleaving.
 */
module PromiseDrive {
  import opened Wrappers
  import opened Promises
  import A = Adapters

  datatype Walk = Resting | Entering(w: nat) | Visiting(w: nat, i: nat) | Blocked(w: nat) | Finished

  /** `calls` and `steps`, the continuation calls and chain advances so far, are history. */
  datatype State = State(tree: Node, cells: map<nat, A.State<int>>, walk: Walk, calls: seq<Call>, steps: nat)

  datatype Event = Poll(w: nat) | WalkStep | Resolve(i: nat) | ResolveStep(i: nat)

  function Cell(s: State, i: nat): A.State<int> {
    if i in s.cells then s.cells[i] else A.Init()
  }

  function CellStep(s: State, i: nat, e: A.Event<int>): State {
    s.(cells := s.cells[i := A.Apply(Cell(s, i), e)])
  }

  /** What a take of a leaf finds in its cell; a leaf without a value is never taken. */
  function Stored(s: State): nat -> int {
    (i: nat) => if Cell(s, i).value.Full? then Cell(s, i).value.v else 0
  }

  /** The focus is ready: the outer promise is taken, with the values in the cells. */
  function FocusReady(s: State, w: nat): State {
    if Unchained(s.tree) then s.(walk := Finished) else
      var (t, cs) := Advance(s.tree, Stored(s));
      s.(tree := t, walk := Entering(w), calls := s.calls + cs, steps := s.steps + 1)
  }

  /** Adapter i is resolved with rho(i), if at all. */
  function Apply(s: State, e: Event, rho: nat -> int): State {
    match e
    case Poll(w) => if s.walk.Resting? || s.walk.Blocked? then s.(walk := Entering(w)) else s
    case WalkStep => (
      match s.walk
      case Entering(w) =>
        var f := Focus(s.tree);
        if f.Immediate? then FocusReady(s, w)
        else CellStep(s, f.id, A.Poll(w)).(walk := Visiting(w, f.id))
      case Visiting(w, i) =>
        if !Cell(s, i).poller.Idle? then CellStep(s, i, A.PollStep)
        else if Cell(s, i).poller.last.Ready? then FocusReady(s, w)
        else s.(walk := Blocked(w))
      case _ => s)
    case Resolve(i) => CellStep(s, i, A.Resolve(rho(i)))
    case ResolveStep(i) => CellStep(s, i, A.ResolveStep)
  }

  function Init(n: Node): State {
    State(n, map[], Resting, [], 0)
  }

  function Run(n: Node, rho: nat -> int, es: seq<Event>): State {
    if es == [] then Init(n) else Apply(Run(n, rho, es[..|es| - 1]), es[|es| - 1], rho)
  }

  ghost predicate CellInv(s: State, i: nat, rho: nat -> int) {
    var c := Cell(s, i);
    && A.Inv(c)
    && (c.value.Full? ==> c.value.v == rho(i)) && !c.value.MovedFrom?
    && (!c.poller.Idle? ==> s.walk.Visiting? && s.walk.i == i)
  }

  /** The poll of cell c is one with waker w. */
  predicate With(c: A.State<int>, w: nat) {
    match c.poller
    case Idle(last) => last.Ready? || last == A.Pending(w)
    case Register(v) => v == w
    case InRegister(v) => v == w
    case Recheck(v) => v == w
    case _ => true
  }

  ghost predicate WalkInv(s: State) {
    match s.walk
    case Visiting(w, i) => Focus(s.tree) == Adapter(i) && With(Cell(s, i), w)
    case Blocked(w) =>
      && Focus(s.tree).Adapter?
      && Cell(s, Focus(s.tree).id).poller == A.Idle(A.Pending(w))
    case Finished =>
      && Unchained(s.tree)
      && (Focus(s.tree).Adapter? ==> Cell(s, Focus(s.tree).id).resolved)
    case _ => true
  }

  ghost predicate Inv(s: State, rho: nat -> int) {
    WalkInv(s) && forall i :: CellInv(s, i, rho)
  }

  /** From here on direct evaluation does what is left of the first tree's direct evaluation. */
  ghost predicate Continues(n: Node, s: State, rho: nat -> int) {
    forall fuel: nat :: Value(fuel, s.tree, rho).Some? ==>
      var o := Value(fuel, s.tree, rho).value;
      Value(fuel + s.steps, n, rho) == Some(Outcome(o.v, s.calls + o.calls))
  }

  lemma CellStepInv(s: State, i: nat, e: A.Event<int>, rho: nat -> int)
    requires CellInv(s, i, rho)
    requires !e.Take? && (e.Resolve? ==> e.v == rho(i))
    ensures A.Inv(A.Apply(Cell(s, i), e))
    ensures var c := A.Apply(Cell(s, i), e); (c.value.Full? ==> c.value.v == rho(i)) && !c.value.MovedFrom?
    ensures Cell(s, i).resolved ==> A.Apply(Cell(s, i), e).resolved
    ensures e.Resolve? || e.ResolveStep? ==> A.Apply(Cell(s, i), e).poller == Cell(s, i).poller
    ensures e.PollStep? && s.walk.Visiting? && With(Cell(s, i), s.walk.w) ==> With(A.Apply(Cell(s, i), e), s.walk.w)
    ensures e.Poll? && Cell(s, i).poller.Idle? ==> With(A.Apply(Cell(s, i), e), e.w)
  {
    A.Step(Cell(s, i), e);
    A.ValueIsFinal(Cell(s, i), e);
  }

  lemma Step(s: State, e: Event, rho: nat -> int)
    requires Inv(s, rho)
    ensures Inv(Apply(s, e, rho), rho)
  {
    hide A.Inv, A.Apply, Advance, With;
    var s' := Apply(s, e, rho);
    match e {
      case Poll(w) => forall i ensures CellInv(s', i, rho) { assert CellInv(s, i, rho); }
      case WalkStep => WalkStepInv(s, rho);
      case Resolve(j) =>
        CellStepInv(s, j, A.Resolve(rho(j)), rho);
        forall i ensures CellInv(s', i, rho) { assert CellInv(s, i, rho); }
        OtherThreads(s, s', j);
      case ResolveStep(j) =>
        CellStepInv(s, j, A.ResolveStep, rho);
        forall i ensures CellInv(s', i, rho) { assert CellInv(s, i, rho); }
        OtherThreads(s, s', j);
    }
  }

  lemma OtherThreads(s: State, s': State, j: nat)
    requires WalkInv(s)
    requires s'.tree == s.tree && s'.walk == s.walk && forall i :: i != j ==> Cell(s', i) == Cell(s, i)
    requires Cell(s', j).poller == Cell(s, j).poller && (Cell(s, j).resolved ==> Cell(s', j).resolved)
    ensures WalkInv(s')
  {
  }

  lemma WalkStepInv(s: State, rho: nat -> int)
    requires Inv(s, rho)
    ensures Inv(Apply(s, WalkStep, rho), rho)
  {
    hide A.Apply, Advance;
    var s' := Apply(s, WalkStep, rho);
    if s.walk.Visiting? {
      assert CellInv(s, s.walk.i, rho);
      CellStepInv(s, s.walk.i, A.PollStep, rho);
    }
    if s.walk.Entering? && Focus(s.tree).Adapter? {
      assert CellInv(s, Focus(s.tree).id, rho);
      CellStepInv(s, Focus(s.tree).id, A.Poll(s.walk.w), rho);
    }
    forall i ensures CellInv(s', i, rho) { assert CellInv(s, i, rho); }
  }

  /** rho' agrees with rho on every leaf that is resolved. */
  ghost predicate Agrees(s: State, rho: nat -> int, rho': nat -> int) {
    forall i: nat :: Cell(s, i).resolved ==> rho'(i) == rho(i)
  }

  lemma StoredAgrees(s: State, rho: nat -> int)
    requires Inv(s, rho)
    ensures Agrees(s, rho, Stored(s))
  {
    forall i: nat | Cell(s, i).resolved ensures Stored(s)(i) == rho(i) { assert CellInv(s, i, rho); }
  }

  /** The poll of the focus has just returned true. */
  predicate FocusIsReady(s: State) {
    || (s.walk.Entering? && Focus(s.tree).Immediate?)
    || (s.walk.Visiting? && Cell(s, s.walk.i).poller == A.Idle(A.Ready))
  }

  /** Then the leaf there is resolved, so an advance depends on no other. */
  lemma ReadyReads(s: State, rho: nat -> int, rho': nat -> int)
    requires Inv(s, rho) && FocusIsReady(s) && Agrees(s, rho, rho')
    ensures !Unchained(s.tree) ==> Advance(s.tree, rho') == Advance(s.tree, rho)
  {
    if s.walk.Visiting? { assert CellInv(s, s.walk.i, rho); }
    hide Advance;
    if !Unchained(s.tree) { AdvanceReads(s.tree, rho, rho'); }
  }

  /** The steps that change the tree. */
  lemma TreeSteps(s: State, e: Event, rho: nat -> int)
    ensures var s' := Apply(s, e, rho);
            if s'.steps == s.steps then s'.tree == s.tree && s'.calls == s.calls
            else e.WalkStep? && FocusIsReady(s) && !Unchained(s.tree) && s'.steps == s.steps + 1 &&
                 (s'.tree, s'.calls) == (Advance(s.tree, Stored(s)).0, s.calls + Advance(s.tree, Stored(s)).1)
  {
    hide Advance, Stored, A.Apply;
  }

  lemma StepContinues(n: Node, s: State, e: Event, rho: nat -> int)
    requires Inv(s, rho) && Continues(n, s, rho)
    ensures Continues(n, Apply(s, e, rho), rho)
  {
    hide Value, Apply, Inv, Advance, Stored, Agrees;
    var s' := Apply(s, e, rho);
    TreeSteps(s, e, rho);
    if s'.steps != s.steps {
      StoredAgrees(s, rho);
      ReadyReads(s, rho, Stored(s));
      forall fuel: nat | Value(fuel, s'.tree, rho).Some?
        ensures var o := Value(fuel, s'.tree, rho).value;
                Value(fuel + s'.steps, n, rho) == Some(Outcome(o.v, s'.calls + o.calls))
      {
        AdvanceKeeps(s.tree, rho, fuel);
        var cs, o := Advance(s.tree, rho).1, Value(fuel, s'.tree, rho).value;
        assert s.calls + cs + o.calls == s.calls + (cs + o.calls);
        assert fuel + s'.steps == fuel + 1 + s.steps;
      }
    }
  }

  lemma {:induction false} RunInv(n: Node, rho: nat -> int, es: seq<Event>)
    ensures Inv(Run(n, rho, es), rho) && Continues(n, Run(n, rho, es), rho)
  {
    hide Value, Apply, A.Inv;
    if es == [] {
      assert A.Inv(A.Init<int>()) by { A.RunInv<int>([]); }
      assert forall fuel: nat :: Value(fuel, n, rho).Some? ==>
                                   var o := Value(fuel, n, rho).value; [] + o.calls == o.calls;
    } else {
      RunInv(n, rho, es[..|es| - 1]);
      Step(Run(n, rho, es[..|es| - 1]), es[|es| - 1], rho);
      StepContinues(n, Run(n, rho, es[..|es| - 1]), es[|es| - 1], rho);
    }
  }

  /**
   Driving preserves meaning: however the polls and the resolves interleave, once a poll has returned true
   take succeeds on what the cells hold, and its value together with all continuation calls made on the way, in
   order and each once, is the outcome of direct evaluation.
   */
  lemma DrivingIsEvaluation(n: Node, rho: nat -> int, es: seq<Event>)
    requires Run(n, rho, es).walk.Finished?
    ensures var s := Run(n, rho, es); var r := TakeOf(s.tree, Stored(s));
            && r.Some?
            && Means(n, rho, Outcome(r.value.v, s.calls + r.value.calls))
            && r == TakeOf(s.tree, rho)
  {
    RunInv(n, rho, es);
    var s := Run(n, rho, es);
    StoredAgrees(s, rho);
    FinishedReads(s, rho, Stored(s));
    TakeIsDefined(s.tree, rho);
    hide Stored, Agrees;
    assert Value(0, s.tree, rho) == TakeOf(s.tree, rho);
    var o := TakeOf(s.tree, rho).value;
    assert Value(0 + s.steps, n, rho) == Some(Outcome(o.v, s.calls + o.calls));
  }

  lemma FinishedReads(s: State, rho: nat -> int, rho': nat -> int)
    requires Inv(s, rho) && s.walk.Finished? && Agrees(s, rho, rho')
    ensures TakeOf(s.tree, rho') == TakeOf(s.tree, rho)
  {
    TakeReads(s.tree, rho, rho');
  }

  /**
   A poll returns true only on resolved leaves: then take gives the same whatever the leaves not yet resolved
   will be resolved with.
   */
  lemma FinishedNeedsNoMore(n: Node, rho: nat -> int, rho': nat -> int, es: seq<Event>)
    requires Run(n, rho, es).walk.Finished? && Agrees(Run(n, rho, es), rho, rho')
    ensures TakeOf(Run(n, rho, es).tree, rho') == TakeOf(Run(n, rho, es).tree, rho)
  {
    RunInv(n, rho, es);
    hide Inv, Agrees;
    FinishedReads(Run(n, rho, es), rho, rho');
  }

  /** And a chain node goes on, and a continuation is called, only on resolved leaves. */
  lemma AdvanceNeedsNoMore(n: Node, rho: nat -> int, rho': nat -> int, es: seq<Event>, e: Event)
    requires Agrees(Run(n, rho, es), rho, rho')
    ensures var s, s' := Run(n, rho, es), Apply(Run(n, rho, es), e, rho);
            if s'.steps == s.steps then s'.tree == s.tree && s'.calls == s.calls
            else !Unchained(s.tree) &&
                 (s'.tree, s'.calls) == (Advance(s.tree, rho').0, s.calls + Advance(s.tree, rho').1)
  {
    RunInv(n, rho, es);
    var s := Run(n, rho, es);
    hide Inv, Apply, Run, Stored, Advance;
    TreeSteps(s, e, rho);
    if Apply(s, e, rho).steps != s.steps {
      StoredAgrees(s, rho);
      ReadyReads(s, rho, Stored(s));
      ReadyReads(s, rho, rho');
    }
  }

  /** What take reads at the focus is there, and still unmoved, at a chain advance as well as at the end. */
  lemma TakenLeafHasValue(n: Node, rho: nat -> int, es: seq<Event>, i: nat)
    requires var s := Run(n, rho, es);
             || (s.walk.Finished? && Focus(s.tree) == Adapter(i))
             || (s.walk.Visiting? && s.walk.i == i && Cell(s, i).poller == A.Idle(A.Ready))
    ensures var s := Run(n, rho, es);
            Focus(s.tree) == Adapter(i) && Cell(s, i).resolved && Cell(s, i).value == A.Full(rho(i))
  {
    RunInv(n, rho, es);
    assert CellInv(Run(n, rho, es), i, rho);
  }

  function ResolveSteps(es: seq<Event>, i: nat): nat {
    if es == [] then 0 else ResolveSteps(es[..|es| - 1], i) + if es[|es| - 1] == ResolveStep(i) then 1 else 0
  }

  /** What a step does to the resolving side of leaf i. */
  lemma CellProgress(s: State, e: Event, i: nat, rho: nat -> int)
    requires Inv(s, rho) && !Cell(s, i).resolver.Unresolved?
    ensures var c, c' := Cell(s, i), Cell(Apply(s, e, rho), i);
            && !c'.resolver.Unresolved? && (c.resolver.Done? ==> c'.resolver.Done?)
            && A.ResolverLeft(c') <= A.ResolverLeft(c)
            && (e == ResolveStep(i) && !c.resolver.Done? ==> A.ResolverLeft(c') < A.ResolverLeft(c))
  {
    assert CellInv(s, i, rho);
    var c := Cell(s, i);
    A.LeftIsFour(c);
    A.ResolverProgresses(c, A.ResolveStep);
    A.ResolverProgresses(c, A.PollStep);
    A.ResolverProgresses(c, A.Resolve(rho(i)));
    if s.walk.Entering? { A.ResolverProgresses(c, A.Poll(s.walk.w)); }
    hide CellInv, WalkInv, A.Apply, A.Inv, A.ResolverLeft, Advance, Stored;
  }

  /** A resolve of a leaf that has been called ends by the fourth of its own accesses, whatever else goes on. */
  lemma {:induction false} LeafResolveEnds(n: Node, rho: nat -> int, es: seq<Event>, more: seq<Event>, i: nat)
    requires !Cell(Run(n, rho, es), i).resolver.Unresolved?
    ensures var c, c' := Cell(Run(n, rho, es), i), Cell(Run(n, rho, es + more), i);
            && !c'.resolver.Unresolved?
            && (c'.resolver.Done? || ResolveSteps(more, i) + A.ResolverLeft(c') <= A.ResolverLeft(c))
            && (ResolveSteps(more, i) >= 4 ==> c'.resolver.Done?)
  {
    hide Apply, Inv, A.ResolverLeft;
    if more == [] {
      assert es + more == es;
    } else {
      var less, e := more[..|more| - 1], more[|more| - 1];
      LeafResolveEnds(n, rho, es, less, i);
      assert (es + more)[..|es + more| - 1] == es + less;
      RunInv(n, rho, es + less);
      CellProgress(Run(n, rho, es + less), e, i, rho);
    }
    A.LeftIsFour(Cell(Run(n, rho, es), i));
    A.LeftIsFour(Cell(Run(n, rho, es + more), i));
  }

  predicate NoPoll(es: seq<Event>) {
    forall k :: 0 <= k < |es| ==> !es[k].Poll?
  }

  /** Between polls the tree stays blocked where it is. */
  lemma {:induction false} BlockedStays(n: Node, rho: nat -> int, es: seq<Event>, more: seq<Event>)
    requires Run(n, rho, es).walk.Blocked? && NoPoll(more)
    ensures var s, s' := Run(n, rho, es), Run(n, rho, es + more);
            s'.walk == s.walk && s'.tree == s.tree && s'.calls == s.calls
  {
    if more == [] {
      assert es + more == es;
    } else {
      BlockedStays(n, rho, es, more[..|more| - 1]);
      assert (es + more)[..|es + more| - 1] == es + more[..|more| - 1];
      assert !more[|more| - 1].Poll?;
      hide A.Apply;
    }
  }

  /**
   No lost wakeup for the whole tree: until the next poll after one that returned false, exactly the focus leaf
   blocks it, the leaf's cell holds that poll's waker and no other leaf is being polled; and once the leaf's
   resolve has finished, or had been called and has made four accesses since, the waker has been fired since the
   leaf was polled.
   */
  lemma BlockedLeafWakes(n: Node, rho: nat -> int, es: seq<Event>, w: nat, more: seq<Event>)
    requires Run(n, rho, es).walk == Blocked(w) && NoPoll(more)
    ensures var s := Run(n, rho, es + more);
            && s.walk == Blocked(w) && Focus(s.tree).Adapter?
            && var i := Focus(s.tree).id;
            && var c := Cell(s, i);
            && c.poller == A.Idle(A.Pending(w))
            && c.waker.cell == Some(w)
            && c.past.began <= |c.waker.fired|
            && (c.resolver.Done? ||
                (!Cell(Run(n, rho, es), i).resolver.Unresolved? && ResolveSteps(more, i) >= 4) ==>
                  w in c.waker.fired[c.past.began..])
            && (forall j :: Cell(s, j).poller.Idle?)
  {
    BlockedStays(n, rho, es, more);
    RunInv(n, rho, es + more);
    var s := Run(n, rho, es + more);
    var i := Focus(s.tree).id;
    assert CellInv(s, i, rho);
    if !Cell(Run(n, rho, es), i).resolver.Unresolved? { LeafResolveEnds(n, rho, es, more, i); }
    hide Run;
    A.PendingIsWoken(Cell(s, i), w);
    forall j ensures Cell(s, j).poller.Idle? { assert CellInv(s, j, rho); }
  }

  /** The call itself: leaf i is then being resolved with rho(i). */
  lemma LeafResolveBegins(n: Node, rho: nat -> int, es: seq<Event>, i: nat)
    ensures var c := Cell(Run(n, rho, es + [Resolve(i)]), i);
            !c.resolver.Unresolved? && c.value == A.Full(rho(i))
  {
    RunSnoc(n, rho, es, Resolve(i));
    RunInv(n, rho, es);
    assert CellInv(Run(n, rho, es), i, rho);
  }

  /** What has been done and what is left of a tree that has an outcome make up its direct evaluation. */
  ghost predicate Spends(n: Node, s: State, rho: nat -> int, fuel: nat)
    requires Value(fuel, n, rho).Some?
  {
    && Value(fuel, s.tree, rho).Some?
    && (var o := Value(fuel, s.tree, rho).value; Value(fuel, n, rho) == Some(Outcome(o.v, s.calls + o.calls)))
    && Steps(fuel, n, rho) == s.steps + Steps(fuel, s.tree, rho)
    && Leaves(fuel, s.tree, rho) <= Leaves(fuel, n, rho)
  }

  lemma SpendsStep(n: Node, s: State, e: Event, rho: nat -> int, fuel: nat)
    requires Inv(s, rho) && Value(fuel, n, rho).Some? && Spends(n, s, rho, fuel)
    ensures Spends(n, Apply(s, e, rho), rho, fuel)
  {
    hide Value, Steps, Leaves, Apply, Inv, Advance, Stored, Agrees;
    var s' := Apply(s, e, rho);
    TreeSteps(s, e, rho);
    if s'.steps != s.steps {
      StoredAgrees(s, rho);
      ReadyReads(s, rho, Stored(s));
      AdvanceSpends(s.tree, rho, fuel);
      var cs, o := Advance(s.tree, rho).1, Value(fuel, s'.tree, rho).value;
      assert s.calls + cs + o.calls == s.calls + (cs + o.calls);
    }
  }

  /**
   The converse of DrivingIsEvaluation.  If direct evaluation has an outcome, every run makes at most its chain
   steps, and a beginning of its calls; a finished one has made all its steps and, with take, all its calls.
   */
  lemma {:induction false} DriveIsBounded(n: Node, rho: nat -> int, es: seq<Event>, fuel: nat)
    requires Value(fuel, n, rho).Some?
    ensures Spends(n, Run(n, rho, es), rho, fuel)
    ensures Run(n, rho, es).steps <= Steps(fuel, n, rho) && Run(n, rho, es).calls <= Value(fuel, n, rho).value.calls
    ensures Run(n, rho, es).walk.Finished? ==> Run(n, rho, es).steps == Steps(fuel, n, rho)
  {
    hide Value, Steps, Leaves, Apply, A.Inv;
    if es == [] {
      var o := Value(fuel, n, rho).value;
      assert [] + o.calls == o.calls;
    } else {
      DriveIsBounded(n, rho, es[..|es| - 1], fuel);
      RunInv(n, rho, es[..|es| - 1]);
      SpendsStep(n, Run(n, rho, es[..|es| - 1]), es[|es| - 1], rho, fuel);
    }
    var s := Run(n, rho, es);
    if s.walk.Finished? {
      RunInv(n, rho, es);
      UnchainedHasNoSteps(fuel, s.tree, rho);
    }
  }

  lemma RunSnoc(n: Node, rho: nat -> int, es: seq<Event>, e: Event)
    ensures Run(n, rho, es + [e]) == Apply(Run(n, rho, es), e, rho)
  {
    assert (es + [e])[..|es|] == es;
  }

  /** A poll with waker w is about to look at the focus, and every leaf it can still meet is resolved. */
  ghost predicate Clear(s: State, w: nat, rho: nat -> int, fuel: nat) {
    && s.walk == Entering(w)
    && Value(fuel, s.tree, rho).Some?
    && forall i :: i in Leaves(fuel, s.tree, rho) ==> Cell(s, i).resolved
  }

  lemma ClearFocus(s: State, w: nat, rho: nat -> int, fuel: nat)
    requires Inv(s, rho) && Clear(s, w, rho, fuel)
    ensures Focus(s.tree).Adapter? ==>
              var s1 := Apply(s, WalkStep, rho);
              && s1.walk == Visiting(w, Focus(s.tree).id) && s1.tree == s.tree && s1.steps == s.steps
              && Cell(s1, Focus(s.tree).id).poller == A.Idle(A.Ready)
              && forall i :: Cell(s, i).resolved ==> Cell(s1, i).resolved
  {
    hide Value, Steps, Leaves, Advance;
    UnchainedHasNoSteps(fuel, s.tree, rho);
    if Focus(s.tree).Adapter? { assert CellInv(s, Focus(s.tree).id, rho); }
  }

  lemma ReadyAdvances(s: State, w: nat, rho: nat -> int, fuel: nat)
    requires Inv(s, rho) && FocusIsReady(s)
    requires Value(fuel, s.tree, rho).Some? && forall i :: i in Leaves(fuel, s.tree, rho) ==> Cell(s, i).resolved
    ensures var s' := FocusReady(s, w);
            s'.walk.Finished? || (Clear(s', w, rho, fuel) && Steps(fuel, s'.tree, rho) < Steps(fuel, s.tree, rho))
  {
    StoredAgrees(s, rho);
    ReadyReads(s, rho, Stored(s));
    hide Value, Steps, Leaves, Advance, A.Apply, Stored, Inv;
    if !Unchained(s.tree) { AdvanceSpends(s.tree, rho, fuel); }
  }

  /** The undisturbed poll of the focus. */
  lemma FocusFinishes(n: Node, rho: nat -> int, es: seq<Event>, w: nat, fuel: nat) returns (ws: seq<Event>)
    requires Clear(Run(n, rho, es), w, rho, fuel)
    ensures forall k :: 0 <= k < |ws| ==> ws[k] == WalkStep
    ensures var s, s' := Run(n, rho, es), Run(n, rho, es + ws);
            s'.walk.Finished? || (Clear(s', w, rho, fuel) && Steps(fuel, s'.tree, rho) < Steps(fuel, s.tree, rho))
  {
    hide Value, Steps, Leaves, Run, Advance, A.Inv, A.Apply;
    var s := Run(n, rho, es);
    RunInv(n, rho, es);
    ClearFocus(s, w, rho, fuel);
    RunSnoc(n, rho, es, WalkStep);
    ws := [WalkStep];
    if Focus(s.tree).Adapter? {
      RunInv(n, rho, es + ws);
      ReadyAdvances(Run(n, rho, es + ws), w, rho, fuel);
      RunSnoc(n, rho, es + ws, WalkStep);
      assert es + [WalkStep] + [WalkStep] == es + [WalkStep, WalkStep];
      ws := [WalkStep, WalkStep];
    } else {
      ReadyAdvances(s, w, rho, fuel);
    }
  }

  lemma {:induction false} ClearFinishes(n: Node, rho: nat -> int, es: seq<Event>, w: nat, fuel: nat)
    returns (ws: seq<Event>)
    requires Clear(Run(n, rho, es), w, rho, fuel)
    ensures (forall k :: 0 <= k < |ws| ==> ws[k] == WalkStep) && Run(n, rho, es + ws).walk.Finished?
    decreases Steps(fuel, Run(n, rho, es).tree, rho)
  {
    ws := FocusFinishes(n, rho, es, w, fuel);
    hide Value, Steps, Leaves, Apply, Run, Inv;
    if !Run(n, rho, es + ws).walk.Finished? {
      var rest := ClearFinishes(n, rho, es + ws, w, fuel);
      assert es + ws + rest == es + (ws + rest);
      ws := ws + rest;
    }
  }

  /**
   Progress: if direct evaluation has an outcome and every leaf it meets is resolved, a poll that nobody
   disturbs returns true, wherever the polls before it had got.
   */
  lemma ResolvedTreeFinishes(n: Node, rho: nat -> int, es: seq<Event>, w: nat, fuel: nat) returns (ws: seq<Event>)
    requires Value(fuel, n, rho).Some?
    requires Run(n, rho, es).walk.Resting? || Run(n, rho, es).walk.Blocked?
    requires forall i :: i in Leaves(fuel, n, rho) ==> Cell(Run(n, rho, es), i).resolved
    ensures (forall k :: 0 <= k < |ws| ==> ws[k] == WalkStep) && Run(n, rho, es + [Poll(w)] + ws).walk.Finished?
  {
    DriveIsBounded(n, rho, es, fuel);
    RunSnoc(n, rho, es, Poll(w));
    hide Value, Steps, Leaves, Run;
    ws := ClearFinishes(n, rho, es + [Poll(w)], w, fuel);
  }

  /** At most how many steps of the driving thread are left until its poll returns. */
  function PollLeft(s: State, rho: nat -> int, fuel: nat): nat
    requires Value(fuel, s.tree, rho).Some?
  {
    match s.walk
    case Entering(_) => 10 * Steps(fuel, s.tree, rho) + 10
    case Visiting(_, i) => 10 * Steps(fuel, s.tree, rho) + 1 + A.PollerLeft(Cell(s, i))
    case _ => 0
  }

  /** Where a step of the driving thread in a poll leads. */
  lemma WalkLeads(s: State, rho: nat -> int)
    requires Inv(s, rho)
    ensures var s' := Apply(s, WalkStep, rho);
            && (s.walk.Entering? ==>
                  || (Focus(s.tree).Adapter? && s'.walk == Visiting(s.walk.w, Focus(s.tree).id) && s'.tree == s.tree)
                  || (FocusIsReady(s) && s' == FocusReady(s, s.walk.w)))
            && (s.walk.Visiting? ==>
                  || (s'.walk == s.walk && s'.tree == s.tree &&
                      A.PollerLeft(Cell(s', s.walk.i)) < A.PollerLeft(Cell(s, s.walk.i)))
                  || s'.walk.Blocked?
                  || (FocusIsReady(s) && s' == FocusReady(s, s.walk.w)))
  {
    if s.walk.Visiting? {
      assert CellInv(s, s.walk.i, rho);
      A.PollerProgresses(Cell(s, s.walk.i), A.PollStep);
      A.LeftIsFour(Cell(s, s.walk.i));
    }
    hide A.Apply, FocusReady, A.PollerLeft;
  }

  lemma WalkProgresses(s: State, rho: nat -> int, fuel: nat)
    requires Inv(s, rho) && Value(fuel, s.tree, rho).Some?
    ensures var s' := Apply(s, WalkStep, rho);
            && Value(fuel, s'.tree, rho).Some?
            && (PollLeft(s, rho, fuel) > 0 ==> PollLeft(s', rho, fuel) < PollLeft(s, rho, fuel))
            && (PollLeft(s, rho, fuel) == 0 ==> PollLeft(s', rho, fuel) == 0)
  {
    WalkLeads(s, rho);
    if s.walk.Entering? && Focus(s.tree).Adapter? { A.LeftIsFour(Cell(Apply(s, WalkStep, rho), Focus(s.tree).id)); }
    if FocusIsReady(s) && !Unchained(s.tree) {
      StoredAgrees(s, rho);
      ReadyReads(s, rho, Stored(s));
      AdvanceSpends(s.tree, rho, fuel);
    }
    hide Value, Steps, Leaves, A.PollerLeft, Advance, Stored, Inv, A.Apply;
  }

  /** The other threads do not put the end of a poll off. */
  lemma OthersDoNotDelay(s: State, e: Event, rho: nat -> int, fuel: nat)
    requires Inv(s, rho) && Value(fuel, s.tree, rho).Some? && (e.Resolve? || e.ResolveStep?)
    ensures var s' := Apply(s, e, rho); s'.tree == s.tree && PollLeft(s', rho, fuel) <= PollLeft(s, rho, fuel)
  {
    assert CellInv(s, e.i, rho);
    A.PollerProgresses(Cell(s, e.i), A.ResolveStep);
    A.PollerProgresses(Cell(s, e.i), A.Resolve(rho(e.i)));
    hide A.Apply, A.PollerLeft, Value, Steps;
  }

  function WalkSteps(es: seq<Event>): nat {
    if es == [] then 0 else WalkSteps(es[..|es| - 1]) + if es[|es| - 1].WalkStep? then 1 else 0
  }

  /**
   Every poll of a tree with an outcome returns, whatever the resolving threads do meanwhile, and within ten
   steps of its own for each chain step of direct evaluation and ten more.
   */
  lemma {:induction false} PollReturns(n: Node, rho: nat -> int, es: seq<Event>, more: seq<Event>, fuel: nat)
    requires Value(fuel, n, rho).Some? && NoPoll(more)
    ensures var s, s' := Run(n, rho, es), Run(n, rho, es + more);
            && Value(fuel, s.tree, rho).Some? && Value(fuel, s'.tree, rho).Some?
            && (PollLeft(s', rho, fuel) == 0 || PollLeft(s', rho, fuel) + WalkSteps(more) <= PollLeft(s, rho, fuel))
            && (WalkSteps(more) >= 10 * Steps(fuel, n, rho) + 10 ==> !s'.walk.Entering? && !s'.walk.Visiting?)
  {
    hide Apply, Inv, Value, Steps, Leaves;
    DriveIsBounded(n, rho, es, fuel);
    DriveIsBounded(n, rho, es + more, fuel);
    if more == [] {
      assert es + more == es;
    } else {
      var less, e := more[..|more| - 1], more[|more| - 1];
      PollReturns(n, rho, es, less, fuel);
      assert (es + more)[..|es + more| - 1] == es + less;
      RunInv(n, rho, es + less);
      if e.WalkStep? {
        WalkProgresses(Run(n, rho, es + less), rho, fuel);
      } else {
        assert !more[|more| - 1].Poll?;
        OthersDoNotDelay(Run(n, rho, es + less), e, rho, fuel);
      }
    }
    hide Run;
    LeftIsBounded(Run(n, rho, es), rho, fuel, Steps(fuel, n, rho));
    LeftIsBounded(Run(n, rho, es + more), rho, fuel, Steps(fuel, n, rho));
  }

  lemma LeftIsBounded(s: State, rho: nat -> int, fuel: nat, steps: nat)
    requires Value(fuel, s.tree, rho).Some? && Steps(fuel, s.tree, rho) <= steps
    ensures PollLeft(s, rho, fuel) <= 10 * steps + 10
    ensures PollLeft(s, rho, fuel) == 0 <==> !s.walk.Entering? && !s.walk.Visiting?
  {
    if s.walk.Visiting? { A.LeftIsFour(Cell(s, s.walk.i)); }
    hide Value, Steps, A.PollerLeft;
  }
}
