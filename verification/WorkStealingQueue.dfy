/**
 The work-stealing ring of runtime/queue.h.

 One owner pushes and pops at the head, any number of thieves steal at the tail.
 Every atomic access (and the plain slot access between two of them) is one step;
 `Run` takes an arbitrary list of steps of all threads, so a lemma about `Run` is
 a lemma about every interleaving.  Indices are unbounded integers.
 */
module WorkStealing {
  import opened Wrappers

  /** One call on a sequential deque together with its answer. */
  datatype Entry<T> = Pushed(x: T) | Full(x: T) | Popped(x: T) | Empty | Stolen(thief: nat, x: T)

  /** What a sequential deque of capacity n does; None when it would have answered differently. */
  function Perform<T(==)>(n: nat, d: seq<T>, e: Entry<T>): Option<seq<T>> {
    match e
    case Pushed(x) => if |d| < n then Some(d + [x]) else None
    case Full(_) => if |d| == n then Some(d) else None
    case Popped(x) => if |d| > 0 && d[|d| - 1] == x then Some(d[..|d| - 1]) else None
    case Empty => if d == [] then Some(d) else None
    case Stolen(_, x) => if |d| > 0 && d[0] == x then Some(d[1..]) else None
  }

  /** The contents after a whole history, None when the history is not one of a deque. */
  function Replay<T(==)>(n: nat, log: seq<Entry<T>>): Option<seq<T>> {
    if log == [] then Some([]) else
      var before := Replay(n, log[..|log| - 1]);
      if before.None? then None else Perform(n, before.value, log[|log| - 1])
  }

  /** The owner's part of a history. */
  function OwnerPart<T>(log: seq<Entry<T>>): seq<Entry<T>> {
    if log == [] then [] else
      var last := log[|log| - 1];
      OwnerPart(log[..|log| - 1]) + if last.Stolen? then [] else [last]
  }

  /** What thief i got, in order. */
  function ThiefPart<T>(i: nat, log: seq<Entry<T>>): seq<T> {
    if log == [] then [] else
      var last := log[|log| - 1];
      ThiefPart(i, log[..|log| - 1]) + if last.Stolen? && last.thief == i then [last.x] else []
  }

  function In<T>(e: Entry<T>): multiset<T> {
    if e.Pushed? then multiset{e.x} else multiset{}
  }

  function OutOf<T>(e: Entry<T>): multiset<T> {
    if e.Popped? || e.Stolen? then multiset{e.x} else multiset{}
  }

  function Inserted<T>(log: seq<Entry<T>>): multiset<T> {
    if log == [] then multiset{} else Inserted(log[..|log| - 1]) + In(log[|log| - 1])
  }

  function HandedOut<T>(log: seq<Entry<T>>): multiset<T> {
    if log == [] then multiset{} else HandedOut(log[..|log| - 1]) + OutOf(log[|log| - 1])
  }

  /** Each constructor is named after the access the owner makes next; it carries the owner's locals. */
  datatype Owner<T> =
    | Idle
    | PushLoadTail(x: T, h: int) | PushWriteSlot(x: T, h: int) | PushStoreHead(x: T, h: int)
    | PopLoadTail(h: int) | PopStoreHead(h: int) | PopReloadTail(h: int)
    | PopReadSlot(h: int) | PopCas(h: int)
    | PopWonStoreHead(h: int) | PopWonReadSlot(h: int) | PopLostStoreHead(t: int)

  /** Likewise for a thief. */
  datatype Thief<T> = Out | StealLoadHead(t: int) | StealReadSlot(t: int) | StealCas(t: int, item: T)

  /**
   `log` lists the calls in the order they take effect, `answers` what the owner's calls
   returned so far; both are history only, no step reads them.
   */
  datatype State<T> = State(head: int, tail: int, slots: seq<T>, owner: Owner<T>, thieves: map<nat, Thief<T>>,
                            log: seq<Entry<T>>, answers: seq<Entry<T>>)

  /** `spurious` lets compare_exchange_weak fail although the value matches. */
  datatype Event<T> = Push(x: T) | Pop | OwnerStep | Steal(i: nat) | ThiefStep(i: nat, spurious: bool)

  predicate ByThief<T>(e: Event<T>) {
    e.Steal? || e.ThiefStep?
  }

  predicate ByThieves<T>(es: seq<Event<T>>) {
    forall k :: 0 <= k < |es| ==> ByThief(es[k])
  }

  /** The ring slot of index i; `i & (n - 1)` in the source, where n is a power of two. */
  function Slot(i: int, n: nat): (k: nat)
    requires n > 0
    ensures k < n
  {
    i % n
  }

  function At<T>(slots: seq<T>, i: int): T
    requires |slots| > 0
  {
    slots[Slot(i, |slots|)]
  }

  function ThiefAt<T>(s: State<T>, i: nat): Thief<T> {
    if i in s.thieves then s.thieves[i] else Out
  }

  function OwnerApply<T>(s: State<T>): State<T>
    requires |s.slots| > 0
  {
    match s.owner
    case Idle => s
    case PushLoadTail(x, h) =>
      if h - s.tail >= |s.slots|
      then s.(owner := Idle, log := s.log + [Full(x)], answers := s.answers + [Full(x)])
      else s.(owner := PushWriteSlot(x, h))
    case PushWriteSlot(x, h) => s.(slots := s.slots[Slot(h, |s.slots|) := x], owner := PushStoreHead(x, h))
    case PushStoreHead(x, h) =>
      s.(head := h + 1, owner := Idle, log := s.log + [Pushed(x)], answers := s.answers + [Pushed(x)])
    case PopLoadTail(h) =>
      if h == s.tail
      then s.(owner := Idle, log := s.log + [Empty], answers := s.answers + [Empty])
      else s.(owner := PopStoreHead(h - 1))
    case PopStoreHead(h) => s.(head := h, owner := PopReloadTail(h))
    case PopReloadTail(h) =>
      if s.tail < h then s.(owner := PopReadSlot(h), log := s.log + [Popped(At(s.slots, h))])
      else if s.tail == h then s.(owner := PopCas(h))
      else s.(owner := PopLostStoreHead(s.tail), log := s.log + [Empty])
    case PopCas(h) =>
      if s.tail == h
      then s.(tail := h + 1, owner := PopWonStoreHead(h), log := s.log + [Popped(At(s.slots, h))])
      else s.(owner := PopLostStoreHead(s.tail), log := s.log + [Empty])
    case PopWonStoreHead(h) => s.(head := h + 1, owner := PopWonReadSlot(h))
    case PopLostStoreHead(t) => s.(head := t, owner := Idle, answers := s.answers + [Empty])
    case PopReadSlot(h) => s.(owner := Idle, answers := s.answers + [Popped(At(s.slots, h))])
    case PopWonReadSlot(h) => s.(owner := Idle, answers := s.answers + [Popped(At(s.slots, h))])
  }

  function ThiefApply<T>(s: State<T>, i: nat, spurious: bool): State<T>
    requires |s.slots| > 0
  {
    match ThiefAt(s, i)
    case Out => s
    case StealLoadHead(t) => s.(thieves := s.thieves[i := if t >= s.head then Out else StealReadSlot(t)])
    case StealReadSlot(t) => s.(thieves := s.thieves[i := StealCas(t, At(s.slots, t))])
    case StealCas(t, item) =>
      if s.tail == t && !spurious
      then s.(tail := t + 1, thieves := s.thieves[i := Out], log := s.log + [Stolen(i, item)])
      else s.(thieves := s.thieves[i := Out])
  }

  /** One step; a call by a thread that is still inside another call does not happen. */
  function Apply<T>(s: State<T>, e: Event<T>): (r: State<T>)
    requires |s.slots| > 0
    ensures |r.slots| == |s.slots|
  {
    match e
    case Push(x) => if s.owner.Idle? then s.(owner := PushLoadTail(x, s.head)) else s
    case Pop => if s.owner.Idle? then s.(owner := PopLoadTail(s.head)) else s
    case OwnerStep => OwnerApply(s)
    case Steal(i) => if ThiefAt(s, i).Out? then s.(thieves := s.thieves[i := StealLoadHead(s.tail)]) else s
    case ThiefStep(i, spurious) => ThiefApply(s, i, spurious)
  }

  function Run<T>(s: State<T>, es: seq<Event<T>>): (r: State<T>)
    requires |s.slots| > 0
    ensures |r.slots| == |s.slots|
  {
    if es == [] then s else Apply(Run(s, es[..|es| - 1]), es[|es| - 1])
  }

  /** The queue as constructed: no item, slot contents arbitrary. */
  function Init<T>(slots: seq<T>): State<T> {
    State(0, 0, slots, Idle, map[], [], [])
  }

  /** The head as a sequential observer sees it: an element being popped still counts until it is decided. */
  function Top<T>(s: State<T>): int {
    match s.owner
    case PopReloadTail(_) => s.head + 1
    case PopCas(_) => s.head + 1
    case PopWonStoreHead(_) => s.head + 1
    case PopLostStoreHead(_) => s.head + 1
    case _ => s.head
  }

  /** The items present, oldest first. */
  function Items<T>(s: State<T>): seq<T>
    requires |s.slots| > 0 && s.tail <= Top(s)
  {
    seq(Top(s) - s.tail, k requires 0 <= k => At(s.slots, s.tail + k))
  }

  /** The answer the owner is committed to but has not returned yet. */
  function Pending<T>(s: State<T>): seq<Entry<T>>
    requires |s.slots| > 0
  {
    match s.owner
    case PopReadSlot(h) => [Popped(At(s.slots, h))]
    case PopWonStoreHead(h) => [Popped(At(s.slots, h))]
    case PopWonReadSlot(h) => [Popped(At(s.slots, h))]
    case PopLostStoreHead(_) => [Empty]
    case _ => []
  }

  ghost predicate OwnerInv<T>(s: State<T>)
    requires |s.slots| > 0
  {
    match s.owner
    case Idle => true
    case PushLoadTail(_, h) => h == s.head
    case PushWriteSlot(_, h) => h == s.head && s.head - s.tail < |s.slots|
    case PushStoreHead(x, h) => h == s.head && s.head - s.tail < |s.slots| && At(s.slots, h) == x
    case PopLoadTail(h) => h == s.head
    case PopStoreHead(h) => h == s.head - 1
    case PopReloadTail(h) => h == s.head
    case PopReadSlot(h) => h == s.head
    case PopCas(h) => h == s.head && s.tail >= h
    case PopWonStoreHead(h) => h == s.head && s.tail == h + 1
    case PopWonReadSlot(h) => h + 1 == s.head && s.tail == s.head
    case PopLostStoreHead(t) => t == s.head + 1 && s.tail == t
  }

  /** A thief whose loaded tail is still current is looking at a present item, and holds that very item. */
  ghost predicate ThiefInv<T>(s: State<T>, p: Thief<T>)
    requires |s.slots| > 0
  {
    match p
    case Out => true
    case StealLoadHead(t) => t <= s.tail
    case StealReadSlot(t) => t <= s.tail && (t == s.tail ==> s.tail < Top(s))
    case StealCas(t, item) => t <= s.tail && (t == s.tail ==> s.tail < Top(s) && item == At(s.slots, t))
  }

  ghost predicate Shape<T>(s: State<T>) {
    && |s.slots| > 0
    && s.tail <= Top(s) <= s.tail + |s.slots|
    && OwnerInv(s)
    && (forall i :: i in s.thieves ==> ThiefInv(s, s.thieves[i]))
  }

  ghost predicate Inv<T>(s: State<T>) {
    && Shape(s)
    && Replay(|s.slots|, s.log) == Some(Items(s))
    && OwnerPart(s.log) == s.answers + Pending(s)
  }

  lemma SlotsDiffer(a: int, b: int, n: int)
    requires n > 0 && a < b < a + n
    ensures a % n != b % n
  {
    var q := b / n - a / n;
    assert b - a == n * q + (b % n - a % n);
    assert q >= 1 ==> n * q >= n;
    assert q <= 0 ==> n * q <= 0;
  }

  /** Writing the slot of the next head leaves every present item alone. */
  lemma WriteKeeps<T>(slots: seq<T>, tail: int, h: int, x: T)
    requires |slots| > 0 && tail <= h < tail + |slots|
    ensures forall k :: tail <= k < h ==> At(slots[Slot(h, |slots|) := x], k) == At(slots, k)
  {
    forall k | tail <= k < h ensures At(slots[Slot(h, |slots|) := x], k) == At(slots, k) {
      SlotsDiffer(k, h, |slots|);
    }
  }

  lemma LogGrows<T>(n: nat, log: seq<Entry<T>>, e: Entry<T>)
    ensures Replay(n, log + [e]) == if Replay(n, log).None? then None else Perform(n, Replay(n, log).value, e)
    ensures OwnerPart(log + [e]) == OwnerPart(log) + if e.Stolen? then [] else [e]
  {
    assert (log + [e])[..|log|] == log;
  }

  lemma OwnerShape<T>(s: State<T>)
    requires Shape(s)
    ensures var s' := OwnerApply(s);
            && s'.tail <= Top(s') <= s'.tail + |s'.slots|
            && OwnerInv(s')
            && s'.thieves == s.thieves
            && (s'.tail > s.tail || (s.tail == s'.tail && (s.tail < Top(s) ==> s.tail < Top(s'))))
            && (forall k :: s.tail <= k < Top(s) ==> At(s'.slots, k) == At(s.slots, k))
  {
    hide Slot;
    if s.owner.PushWriteSlot? { WriteKeeps(s.slots, s.tail, s.owner.h, s.owner.x); }
  }

  lemma ShapeStep<T>(s: State<T>, e: Event<T>)
    requires Shape(s)
    ensures Shape(Apply(s, e))
  {
    match e
    case OwnerStep => OwnerKeepsShape(s);
    case ThiefStep(i, spurious) => ThiefKeepsShape(s, i, spurious);
    case _ => CallKeepsShape(s, e);
  }

  lemma OwnerKeepsShape<T>(s: State<T>)
    requires Shape(s)
    ensures Shape(OwnerApply(s))
  {
    hide Slot;
    var s' := OwnerApply(s);
    OwnerShape(s);
    forall i | i in s'.thieves ensures ThiefInv(s', s'.thieves[i]) {
      assert ThiefInv(s, s.thieves[i]);
    }
  }

  lemma ThiefKeepsShape<T>(s: State<T>, i: nat, spurious: bool)
    requires Shape(s)
    ensures Shape(ThiefApply(s, i, spurious))
  {
    hide Slot;
    var s' := ThiefApply(s, i, spurious);
    forall j | j in s'.thieves ensures ThiefInv(s', s'.thieves[j]) {
      if j in s.thieves { assert ThiefInv(s, s.thieves[j]); }
    }
  }

  /** Entering a call. */
  lemma CallKeepsShape<T>(s: State<T>, e: Event<T>)
    requires Shape(s) && (e.Push? || e.Pop? || e.Steal?)
    ensures Shape(Apply(s, e))
  {
    hide Slot;
    var s' := Apply(s, e);
    forall j | j in s'.thieves ensures ThiefInv(s', s'.thieves[j]) {
      if j in s.thieves { assert ThiefInv(s, s.thieves[j]); }
    }
  }

  lemma LogGlue<T>(n: nat, log: seq<Entry<T>>, eff: seq<Entry<T>>, d: seq<T>, d': seq<T>, a: seq<Entry<T>>,
                   a': seq<Entry<T>>)
    requires Replay(n, log) == Some(d) && OwnerPart(log) == a
    requires |eff| <= 1 && if eff == [] then d' == d else Perform(n, d, eff[0]) == Some(d')
    requires a' == a + if eff != [] && !eff[0].Stolen? then eff else []
    ensures Replay(n, log + eff) == Some(d') && OwnerPart(log + eff) == a'
  {
    if eff == [] {
      assert log + eff == log;
    } else {
      assert eff == [eff[0]];
      LogGrows(n, log, eff[0]);
    }
  }

  /** The call that takes effect in this step, if any. */
  function Effect<T>(s: State<T>, e: Event<T>): seq<Entry<T>>
    requires |s.slots| > 0
  {
    var s' := Apply(s, e);
    if |s'.log| == |s.log| + 1 then [s'.log[|s.log|]] else []
  }

  /** The deque after a step is the deque before it with that one call performed. */
  lemma ItemsStep<T>(s: State<T>, e: Event<T>)
    requires Shape(s) && Shape(Apply(s, e))
    ensures Apply(s, e).log == s.log + Effect(s, e)
    ensures Effect(s, e) == [] ==> Items(Apply(s, e)) == Items(s)
    ensures Effect(s, e) != [] ==> Perform(|s.slots|, Items(s), Effect(s, e)[0]) == Some(Items(Apply(s, e)))
  {
    hide Slot, Replay, OwnerPart;
    var s' := Apply(s, e);
    if e.OwnerStep? {
      OwnerItems(s);
    } else if e.ThiefStep? && s'.tail > s.tail {
      assert ThiefInv(s, s.thieves[e.i]);
      assert Items(s) == [s.thieves[e.i].item] + Items(s');
    }
  }

  /** The items before and after the owner's next access. */
  lemma OwnerItems<T>(s: State<T>)
    requires Shape(s) && Shape(Apply(s, OwnerStep))
    ensures var s' := Apply(s, OwnerStep);
            && s'.log == s.log + Effect(s, OwnerStep)
            && (Effect(s, OwnerStep) == [] ==> Items(s') == Items(s))
            && (Effect(s, OwnerStep) != [] ==> Perform(|s.slots|, Items(s), Effect(s, OwnerStep)[0]) == Some(Items(s')))
  {
    hide Slot, Replay, OwnerPart;
    var s' := Apply(s, OwnerStep);
    if s.owner.PushWriteSlot? { WriteKeeps(s.slots, s.tail, s.owner.h, s.owner.x); }
    match s.owner
    case PushStoreHead(x, h) => assert Items(s') == Items(s) + [x];
    case PopReloadTail(h) => if s.tail < h { assert Items(s) == Items(s') + [At(s.slots, h)]; }
    case PopCas(h) => if s.tail == h { assert Items(s) == [At(s.slots, h)] && Items(s') == []; }
    case _ => assert Items(s') == Items(s);
  }

  /** The owner's part of a step's effect goes to the committed or returned answers, and nothing else does. */
  ghost predicate Answered<T>(s: State<T>, s': State<T>, eff: seq<Entry<T>>)
    requires |s.slots| > 0 && |s'.slots| > 0
  {
    s'.answers + Pending(s') == s.answers + Pending(s) + if eff != [] && !eff[0].Stolen? then eff else []
  }

  lemma OwnerAnswers<T>(s: State<T>)
    requires Shape(s)
    ensures Answered(s, OwnerApply(s), Effect(s, OwnerStep))
  {
    hide Slot;
    var s' := OwnerApply(s);
    if s'.log == s.log { assert Effect(s, OwnerStep) == []; }
  }

  lemma ThiefAnswers<T>(s: State<T>, i: nat, spurious: bool)
    requires Shape(s)
    ensures Answered(s, ThiefApply(s, i, spurious), Effect(s, ThiefStep(i, spurious)))
  {
    hide Slot;
  }

  /** A committed answer stays what it is until the owner returns it. */
  lemma AnswerStep<T>(s: State<T>, e: Event<T>)
    requires Shape(s)
    ensures Answered(s, Apply(s, e), Effect(s, e))
  {
    match e
    case OwnerStep => OwnerAnswers(s);
    case ThiefStep(i, spurious) => ThiefAnswers(s, i, spurious);
    case _ => hide Slot, At;
  }

  lemma LogStep<T>(s: State<T>, e: Event<T>)
    requires Inv(s) && Shape(Apply(s, e))
    ensures Inv(Apply(s, e))
  {
    hide Apply, Items, Perform, Replay, OwnerPart;
    var s' := Apply(s, e);
    ItemsStep(s, e);
    AnswerStep(s, e);
    LogGlue(|s.slots|, s.log, Effect(s, e), Items(s), Items(s'), s.answers + Pending(s), s'.answers + Pending(s'));
    assert Replay(|s'.slots|, s'.log) == Some(Items(s'));
    assert OwnerPart(s'.log) == s'.answers + Pending(s');
  }

  lemma {:induction false} RunInv<T>(slots: seq<T>, es: seq<Event<T>>)
    requires |slots| > 0
    ensures Inv(Run(Init(slots), es))
  {
    hide Apply, Slot;
    if es == [] {
      assert Items(Init(slots)) == [];
    } else {
      RunInv(slots, es[..|es| - 1]);
      var s := Run(Init(slots), es[..|es| - 1]);
      ShapeStep(s, es[|es| - 1]);
      LogStep(s, es[|es| - 1]);
    }
  }

  /**
   Linearizability: after any interleaving, the calls in the order they took effect are a history of
   one sequential deque that ends in the present contents, and the owner's calls returned just what
   that history says.  A steal's entry carries the item the thief itself returns.
   */
  lemma {:induction false} Linearizable<T>(slots: seq<T>, es: seq<Event<T>>)
    requires |slots| > 0
    ensures var s := Run(Init(slots), es);
            && s.tail <= Top(s)
            && Replay(|slots|, s.log) == Some(Items(s))
            && OwnerPart(s.log) == s.answers + Pending(s)
  {
    RunInv(slots, es);
  }

  lemma PerformConserves<T>(n: nat, d: seq<T>, e: Entry<T>)
    requires Perform(n, d, e).Some?
    ensures multiset(d) + In(e) == multiset(Perform(n, d, e).value) + OutOf(e)
  {
    if e.Popped? { assert d == d[..|d| - 1] + [e.x]; }
    if e.Stolen? { assert d == [e.x] + d[1..]; }
  }

  lemma Balance<T>(i: multiset<T>, h: multiset<T>, d: multiset<T>, d': multiset<T>, added: multiset<T>,
                   gone: multiset<T>)
    requires i == h + d && d + added == d' + gone
    ensures i + added == h + gone + d'
  {
    assert i + added == h + (d + added);
  }

  lemma {:induction false} ReplayConserves<T>(n: nat, log: seq<Entry<T>>)
    requires Replay(n, log).Some?
    ensures Inserted(log) == HandedOut(log) + multiset(Replay(n, log).value)
  {
    if log != [] {
      var init, last := log[..|log| - 1], log[|log| - 1];
      ReplayConserves(n, init);
      var d, d' := Replay(n, init).value, Replay(n, log).value;
      PerformConserves(n, d, last);
      Balance(Inserted(init), HandedOut(init), multiset(d), multiset(d'), In(last), OutOf(last));
    }
  }

  /** Conservation: what was pushed is what was handed out, once each, plus what is still there. */
  lemma {:induction false} HandedOutOnce<T>(slots: seq<T>, es: seq<Event<T>>)
    requires |slots| > 0
    ensures var s := Run(Init(slots), es);
            s.tail <= Top(s) && Inserted(s.log) == HandedOut(s.log) + multiset(Items(s))
  {
    RunInv(slots, es);
    ReplayConserves(|slots|, Run(Init(slots), es).log);
  }

  /**
   If a thief's CAS is about to succeed, the item it read before, perhaps long ago, is the oldest item
   present now, although the owner may have popped, pushed and gone round the ring meanwhile.
   */
  lemma StolenItemIsOldest<T>(slots: seq<T>, es: seq<Event<T>>, i: nat)
    requires |slots| > 0
    requires var s := Run(Init(slots), es);
             var p := ThiefAt(s, i); p.StealCas? && p.t == s.tail
    ensures var s := Run(Init(slots), es);
            && s.tail < Top(s)
            && Items(s)[0] == ThiefAt(s, i).item
            && Items(Apply(s, ThiefStep(i, false))) == Items(s)[1..]
  {
    hide Slot, Run, Replay, OwnerPart;
    RunInv(slots, es);
    var s := Run(Init(slots), es);
    assert ThiefInv(s, s.thieves[i]);
    ShapeStep(s, ThiefStep(i, false));
    assert Items(Apply(s, ThiefStep(i, false))) == Items(s)[1..];
  }

  /** Between owner calls the indices are in order; `empty` (tail >= head) is then exact. */
  lemma BetweenOwnerCalls<T>(slots: seq<T>, es: seq<Event<T>>)
    requires |slots| > 0
    requires Run(Init(slots), es).owner.Idle?
    ensures var s := Run(Init(slots), es);
            && s.tail <= s.head <= s.tail + |slots|
            && (s.tail >= s.head <==> Items(s) == [])
            && OwnerPart(s.log) == s.answers
  {
    RunInv(slots, es);
  }

  /**
   A refused push takes effect at an instant when N items are present, a null pop at one when none is,
   and the lost race for the last item puts head back on tail.
   */
  lemma RefusalsAreExact<T>(slots: seq<T>, es: seq<Event<T>>)
    requires |slots| > 0
    ensures var s := Run(Init(slots), es); var s' := Apply(s, OwnerStep);
            && s.tail <= Top(s)
            && (forall x :: s'.log == s.log + [Full(x)] ==> |Items(s)| == |slots|)
            && (s'.log == s.log + [Empty] ==> Items(s) == [])
            && (s.owner.PopLostStoreHead? ==> s'.head == s'.tail && s'.owner.Idle?)
  {
    hide Slot, Run, Replay, OwnerPart;
    RunInv(slots, es);
    var s := Run(Init(slots), es);
    if Effect(s, OwnerStep) != [] {
      ShapeStep(s, OwnerStep);
      ItemsStep(s, OwnerStep);
    }
  }

  /** The steal thief i is in returns null with its next access. */
  ghost predicate ReturnsNull<T>(s: State<T>, i: nat, spurious: bool)
    requires |s.slots| > 0
  {
    var s' := ThiefApply(s, i, spurious);
    !ThiefAt(s, i).Out? && ThiefAt(s', i).Out? && s'.log == s.log
  }

  /**
   Exactly when an access ends a steal with null: the look at head finds it not above the loaded tail; the CAS
   finds that tail has moved on, or fails spuriously.  And when an item is present then: at the look, exactly if
   the loaded tail is current and the owner is popping the one item there is; at the CAS, exactly if it failed
   spuriously or the others who moved tail left something.
   */
  lemma {:induction false} NullStealExact<T>(slots: seq<T>, es: seq<Event<T>>, i: nat, spurious: bool)
    requires |slots| > 0
    ensures var s := Run(Init(slots), es); var p := ThiefAt(s, i);
            && s.tail <= Top(s)
            && (ReturnsNull(s, i, spurious) <==>
                  (p.StealLoadHead? && s.head <= p.t) || (p.StealCas? && (s.tail > p.t || spurious)))
            && (p.StealLoadHead? ==>
                  (ReturnsNull(s, i, spurious) && Items(s) != [] <==>
                     p.t == s.tail && |Items(s)| == 1 && (s.owner.PopReloadTail? || s.owner.PopCas?)))
            && (p.StealCas? ==>
                  (ReturnsNull(s, i, spurious) && Items(s) != [] <==>
                     (spurious && s.tail == p.t) || (s.tail > p.t && s.tail < Top(s))))
  {
    hide Slot, Replay, OwnerPart, Run;
    RunInv(slots, es);
    var s := Run(Init(slots), es);
    if i in s.thieves {
      assert ThiefInv(s, s.thieves[i]);
      if s.thieves[i].StealCas? && s.tail == s.thieves[i].t && !spurious {
        assert |ThiefApply(s, i, spurious).log| == |s.log| + 1;
      }
    }
  }

  /** The states at the look and at the CAS of one steal by thief i, the others running between its accesses. */
  function AtLook<T>(s: State<T>, i: nat, w0: seq<Event<T>>): (r: State<T>)
    requires |s.slots| > 0
    ensures |r.slots| == |s.slots|
  {
    Run(Apply(s, Steal(i)), w0)
  }

  function AtCas<T>(s: State<T>, i: nat, w0: seq<Event<T>>, w1: seq<Event<T>>, w2: seq<Event<T>>): (r: State<T>)
    requires |s.slots| > 0
    ensures |r.slots| == |s.slots|
  {
    Run(Apply(Run(Apply(AtLook(s, i, w0), ThiefStep(i, false)), w1), ThiefStep(i, false)), w2)
  }

  /**
   The whole call: it returns null exactly if head is not above the tail it loaded when it looks, or tail has
   moved past that by the time of its CAS, or the CAS fails spuriously; otherwise it takes the item at that tail.
   */
  lemma {:induction false} StealCallExact<T>(slots: seq<T>, es: seq<Event<T>>, i: nat, w0: seq<Event<T>>,
                                             w1: seq<Event<T>>, w2: seq<Event<T>>, spurious: bool)
    requires |slots| > 0 && ThiefAt(Run(Init(slots), es), i).Out? && NotOf(i, w0) && NotOf(i, w1) && NotOf(i, w2)
    ensures var s := Run(Init(slots), es);
            var look, cas := AtLook(s, i, w0), AtCas(s, i, w0, w1, w2);
            && ThiefAt(look, i) == StealLoadHead(s.tail)
            && (ReturnsNull(look, i, false) <==> look.head <= s.tail)
            && (look.head > s.tail ==>
                  && ThiefAt(cas, i).StealCas? && ThiefAt(cas, i).t == s.tail <= cas.tail
                  && (ReturnsNull(cas, i, spurious) <==> cas.tail > s.tail || spurious)
                  && (!ReturnsNull(cas, i, spurious) ==>
                        && cas.tail < Top(cas)
                        && ThiefApply(cas, i, spurious).log == cas.log + [Stolen(i, Items(cas)[0])]))
  {
    hide Run, Slot, At, Inv, NotOf;
    var s := Run(Init(slots), es);
    RunInv(slots, es);
    StepInv(s, Steal(i));
    var s0 := Apply(s, Steal(i));
    OthersLeaveThief(s0, w0, i);
    RunFromInv(s0, w0);
    var look := Run(s0, w0);
    if look.head > s.tail {
      var s1 := Apply(look, ThiefStep(i, false));
      StepInv(look, ThiefStep(i, false));
      OthersLeaveThief(s1, w1, i);
      RunFromInv(s1, w1);
      var read := Run(s1, w1);
      var s2 := Apply(read, ThiefStep(i, false));
      StepInv(read, ThiefStep(i, false));
      OthersLeaveThief(s2, w2, i);
      RunFromInv(s2, w2);
      var cas := Run(s2, w2);
      TailNotBehind(cas, i);
    }
  }

  lemma TailNotBehind<T>(s: State<T>, i: nat)
    requires Inv(s) && ThiefAt(s, i).StealCas?
    ensures ThiefAt(s, i).t <= s.tail
    ensures ThiefAt(s, i).t == s.tail ==> s.tail < Top(s) && ThiefAt(s, i).item == Items(s)[0]
  {
    assert ThiefInv(s, s.thieves[i]);
  }

  lemma StepInv<T>(s: State<T>, e: Event<T>)
    requires Inv(s)
    ensures |s.slots| > 0 && Inv(Apply(s, e))
  {
    hide Apply, Replay, OwnerPart, Items;
    ShapeStep(s, e);
    LogStep(s, e);
  }

  lemma {:induction false} RunFromInv<T>(s: State<T>, es: seq<Event<T>>)
    requires Inv(s)
    ensures |s.slots| > 0 && Inv(Run(s, es))
  {
    hide Apply, Replay, OwnerPart, Items, Shape;
    assert |s.slots| > 0 by { StepInv(s, Pop); }
    if es != [] {
      RunFromInv(s, es[..|es| - 1]);
      StepInv(Run(s, es[..|es| - 1]), es[|es| - 1]);
    }
  }

  /** A null look at a present item happens: the owner is popping it. */
  lemma NullStealOfPresentItem()
    ensures var es := [Push(7), OwnerStep, OwnerStep, OwnerStep, Pop, OwnerStep, OwnerStep, Steal(0)];
            var s := Run(Init([0, 0]), es);
            && s.tail <= Top(s) && Items(s) == [7]
            && ThiefAt(s, 0).StealLoadHead? && ReturnsNull(s, 0, false)
  {
    var s0, es := Init([0, 0]), [];
    RunSnoc(s0, es, Push(7)); es := es + [Push(7)];
    RunSnoc(s0, es, OwnerStep); es := es + [OwnerStep];
    RunSnoc(s0, es, OwnerStep); es := es + [OwnerStep];
    RunSnoc(s0, es, OwnerStep); es := es + [OwnerStep];
    RunSnoc(s0, es, Pop); es := es + [Pop];
    RunSnoc(s0, es, OwnerStep); es := es + [OwnerStep];
    RunSnoc(s0, es, OwnerStep); es := es + [OwnerStep];
    RunSnoc(s0, es, Steal(0)); es := es + [Steal(0)];
    assert es == [Push(7), OwnerStep, OwnerStep, OwnerStep, Pop, OwnerStep, OwnerStep, Steal(0)];
  }

  /** The two pushes all further runs begin with. */
  function TwoPushes(): seq<Event<int>> {
    [Push(7), OwnerStep, OwnerStep, OwnerStep, Push(8), OwnerStep, OwnerStep, OwnerStep]
  }

  lemma TwoPushed()
    ensures var s := Run(Init([0, 0]), TwoPushes());
            && s.head == 2 && s.tail == 0 && s.slots == [7, 8] && s.owner.Idle? && s.thieves == map[]
            && s.log == [Pushed(7), Pushed(8)]
  {
    var s0, es := Init([0, 0]), [];
    RunSnoc(s0, es, Push(7)); es := es + [Push(7)];
    RunSnoc(s0, es, OwnerStep); es := es + [OwnerStep];
    RunSnoc(s0, es, OwnerStep); es := es + [OwnerStep];
    RunSnoc(s0, es, OwnerStep); es := es + [OwnerStep];
    RunSnoc(s0, es, Push(8)); es := es + [Push(8)];
    RunSnoc(s0, es, OwnerStep); es := es + [OwnerStep];
    RunSnoc(s0, es, OwnerStep); es := es + [OwnerStep];
    RunSnoc(s0, es, OwnerStep); es := es + [OwnerStep];
    assert es == TwoPushes();
  }

  /** Then a thief goes as far as its CAS. */
  function FirstThief(): seq<Event<int>> {
    [Steal(0), ThiefStep(0, false), ThiefStep(0, false)]
  }

  lemma ThiefAtCas()
    ensures var s := Run(Init([0, 0]), TwoPushes() + FirstThief());
            && s.head == 2 && s.tail == 0 && s.slots == [7, 8] && s.owner.Idle?
            && s.thieves == map[0 := StealCas(0, 7)]
  {
    var s0, es := Init([0, 0]), TwoPushes();
    TwoPushed();
    hide Run, TwoPushes;
    RunSnoc(s0, es, Steal(0)); es := es + [Steal(0)];
    RunSnoc(s0, es, ThiefStep(0, false)); es := es + [ThiefStep(0, false)];
    RunSnoc(s0, es, ThiefStep(0, false)); es := es + [ThiefStep(0, false)];
    assert es == TwoPushes() + FirstThief();
    assert At([7, 8], 0) == 7;
  }

  /** A null CAS with items present happens without anybody else about: compare_exchange_weak may just fail. */
  lemma NullStealAlone()
    ensures var s := Run(Init([0, 0]), TwoPushes() + FirstThief());
            && s.tail <= Top(s) && Items(s) == [7, 8] && s.owner.Idle? && s.thieves.Keys == {0}
            && ThiefAt(s, 0).StealCas? && ThiefAt(s, 0).t == s.tail && ReturnsNull(s, 0, true)
  {
    ThiefAtCas();
    hide Run;
    assert At([7, 8], 0) == 7 && At([7, 8], 1) == 8;
  }

  /** So does one after a lost race: another thief took the older of two items. */
  lemma NullStealAfterLostRace()
    ensures var es := [Steal(1), ThiefStep(1, false), ThiefStep(1, false), ThiefStep(1, false)];
            var s := Run(Init([0, 0]), TwoPushes() + FirstThief() + es);
            && s.tail <= Top(s) && Items(s) == [8] && s.owner.Idle?
            && ThiefAt(s, 0).StealCas? && s.tail > ThiefAt(s, 0).t && ReturnsNull(s, 0, false)
  {
    var s0, es := Init([0, 0]), TwoPushes() + FirstThief();
    ThiefAtCas();
    hide Run, TwoPushes, FirstThief;
    RunSnoc(s0, es, Steal(1)); es := es + [Steal(1)];
    RunSnoc(s0, es, ThiefStep(1, false)); es := es + [ThiefStep(1, false)];
    RunSnoc(s0, es, ThiefStep(1, false)); es := es + [ThiefStep(1, false)];
    RunSnoc(s0, es, ThiefStep(1, false)); es := es + [ThiefStep(1, false)];
    assert es == TwoPushes() + FirstThief() + [Steal(1), ThiefStep(1, false), ThiefStep(1, false), ThiefStep(1, false)];
    assert At([7, 8], 1) == 8;
    assert Items(Run(s0, es)) == [8];
  }

  lemma RunSnoc<T>(s: State<T>, es: seq<Event<T>>, e: Event<T>)
    requires |s.slots| > 0
    ensures Run(s, es + [e]) == Apply(Run(s, es), e)
  {
    assert (es + [e])[..|es|] == es;
  }

  /** Thieves never touch the owner's side. */
  lemma {:induction false} ThievesLeaveOwner<T>(s: State<T>, es: seq<Event<T>>)
    requires |s.slots| > 0 && ByThieves(es)
    ensures var r := Run(s, es);
            r.head == s.head && r.slots == s.slots && r.owner == s.owner && r.answers == s.answers && r.tail >= s.tail
  {
    hide Slot, At;
    if es != [] {
      ThievesLeaveOwner(s, es[..|es| - 1]);
      assert ByThief(es[|es| - 1]);
    }
  }

  predicate NotOf<T>(i: nat, es: seq<Event<T>>) {
    forall k :: 0 <= k < |es| ==> es[k] != Steal(i) && !(es[k].ThiefStep? && es[k].i == i)
  }

  lemma OthersLeaveThief<T>(s: State<T>, es: seq<Event<T>>, i: nat)
    requires |s.slots| > 0 && NotOf(i, es)
    ensures ThiefAt(Run(s, es), i) == ThiefAt(s, i) && ThiefPart(i, Run(s, es).log) == ThiefPart(i, s.log)
  {
    hide Apply;
    if es != [] {
      OthersLeaveThief(s, es[..|es| - 1], i);
      OtherLeavesThief(Run(s, es[..|es| - 1]), es[|es| - 1], i);
    }
  }

  lemma OtherLeavesThief<T>(s: State<T>, e: Event<T>, i: nat)
    requires |s.slots| > 0 && NotOf(i, [e])
    ensures ThiefAt(Apply(s, e), i) == ThiefAt(s, i) && ThiefPart(i, Apply(s, e).log) == ThiefPart(i, s.log)
  {
    hide Slot, At;
    assert [e][0] == e;
    var s' := Apply(s, e);
    if |s'.log| == |s.log| + 1 { assert s'.log[..|s'.log| - 1] == s.log; }
  }

  /**
   The queue in place.  `owner` and `thieves` hold the locals of the threads inside a call.  Push, Pop and
   Steal are written access by access and let the other threads run between two accesses, as their schedule
   arguments say.  `Valid` is the invariant above, so between any two accesses `log` is the history of a
   sequential deque ending in the present items, and between calls its owner part is `answers`.
   */
  class WorkStealingQueue<T(0)> {
    var head: int
    var tail: int
    const slots: array<T>
    var owner: Owner<T>
    var thieves: map<nat, Thief<T>>
    ghost var log: seq<Entry<T>>
    ghost var answers: seq<Entry<T>>

    ghost function View(): State<T>
      reads this, slots
    {
      State(head, tail, slots[..], owner, thieves, log, answers)
    }

    ghost predicate Valid()
      reads this, slots
    {
      slots.Length > 0 && Inv(View())
    }

    constructor (n: nat)
      requires n > 0
      ensures Valid() && slots.Length == n && fresh(slots) && View() == Init(slots[..])
    {
      head, tail, slots := 0, 0, new T[n];
      owner, thieves, log, answers := Idle, map[], [], [];
      new;
      assert Items(View()) == [];
    }

    /** The access just made, from state s, is step e of its thread. */
    lemma Made(s: State<T>, e: Event<T>)
      requires 0 < slots.Length && Inv(s) && View() == Apply(s, e)
      ensures Valid() && s.log <= log
    {
      hide Replay, OwnerPart, Items, Slot, Apply, Effect;
      ShapeStep(s, e);
      LogStep(s, e);
      ItemsStep(s, e);
    }

    /** How far the owner's own code has got. */
    ghost predicate OwnerMoved(s: State<T>, s': State<T>)
      requires |s.slots| > 0
    {
      match s.owner
      case PushLoadTail(x, h) =>
        (s'.owner.Idle? && s'.answers == s.answers + [Full(x)]) ||
        (s'.owner == PushWriteSlot(x, h) && s'.answers == s.answers)
      case PushWriteSlot(x, h) => s'.owner == PushStoreHead(x, h) && s'.answers == s.answers
      case PushStoreHead(x, h) => s'.owner.Idle? && s'.answers == s.answers + [Pushed(x)]
      case PopLoadTail(h) =>
        (s'.owner.Idle? && s'.answers == s.answers + [Empty]) ||
        (s'.owner == PopStoreHead(h - 1) && s'.answers == s.answers)
      case PopStoreHead(h) => s'.owner == PopReloadTail(h) && s'.answers == s.answers
      case PopReloadTail(h) =>
        s'.owner in {PopReadSlot(h), PopCas(h), PopLostStoreHead(s.tail)} && s'.answers == s.answers
      case PopCas(h) => s'.owner in {PopWonStoreHead(h), PopLostStoreHead(s.tail)} && s'.answers == s.answers
      case PopWonStoreHead(h) =>
        s'.owner == PopWonReadSlot(h) && s'.answers == s.answers && s'.slots == s.slots
      case PopLostStoreHead(_) => s'.owner.Idle? && s'.answers == s.answers + [Empty]
      case PopReadSlot(h) => s'.owner.Idle? && s'.answers == s.answers + [Popped(At(s.slots, h))]
      case PopWonReadSlot(h) => s'.owner.Idle? && s'.answers == s.answers + [Popped(At(s.slots, h))]
      case Idle => true
    }

    /** The owner enters a call: it loads head, which only it writes. */
    method Call(e: Event<T>)
      requires Valid() && owner.Idle? && (e.Push? || e.Pop?)
      modifies this`owner
      ensures Valid() && owner == if e.Push? then PushLoadTail(e.x, head) else PopLoadTail(head)
    {
      ghost var s := View();
      owner := if e.Push? then PushLoadTail(e.x, head) else PopLoadTail(head);
      Made(s, e);
    }

    /** The owner's next access. */
    method OwnerAccess()
      requires Valid()
      modifies this, slots
      ensures Valid() && old(log) <= log && OwnerMoved(old(View()), View())
    {
      hide Slot, Inv;
      ghost var s := View();
      OwnerBody();
      Made(s, OwnerStep);
    }

    method OwnerBody()
      requires slots.Length > 0
      modifies this, slots
      ensures View() == OwnerApply(old(View()))
    {
      hide Slot;
      match owner {
        case Idle =>
        case PushLoadTail(x, h) =>
          if h - tail >= slots.Length {
            owner, log, answers := Idle, log + [Full(x)], answers + [Full(x)];
          } else {
            owner := PushWriteSlot(x, h);
          }
        case PushWriteSlot(x, h) =>
          slots[Slot(h, slots.Length)] := x;
          owner := PushStoreHead(x, h);
        case PushStoreHead(x, h) =>
          head := h + 1;
          owner, log, answers := Idle, log + [Pushed(x)], answers + [Pushed(x)];
        case PopLoadTail(h) =>
          if h == tail {
            owner, log, answers := Idle, log + [Empty], answers + [Empty];
          } else {
            owner := PopStoreHead(h - 1);
          }
        case PopStoreHead(h) =>
          head := h;
          owner := PopReloadTail(h);
        case PopReloadTail(h) =>
          if tail < h {
            owner, log := PopReadSlot(h), log + [Popped(slots[Slot(h, slots.Length)])];
          } else if tail == h {
            owner := PopCas(h);
          } else {
            owner, log := PopLostStoreHead(tail), log + [Empty];
          }
        case PopCas(h) =>
          if tail == h {
            tail := h + 1;
            owner, log := PopWonStoreHead(h), log + [Popped(slots[Slot(h, slots.Length)])];
          } else {
            owner, log := PopLostStoreHead(tail), log + [Empty];
          }
        case PopWonStoreHead(h) =>
          head := h + 1;
          owner := PopWonReadSlot(h);
        case PopLostStoreHead(t) =>
          head := t;
          owner, answers := Idle, answers + [Empty];
        case PopReadSlot(h) =>
          owner, answers := Idle, answers + [Popped(slots[Slot(h, slots.Length)])];
        case PopWonReadSlot(h) =>
          owner, answers := Idle, answers + [Popped(slots[Slot(h, slots.Length)])];
      }
    }

    method ThiefAccess(i: nat, spurious: bool)
      requires slots.Length > 0
      modifies this`tail, this`thieves, this`log
      ensures View() == ThiefApply(old(View()), i, spurious)
    {
      hide Slot;
      match if i in thieves then thieves[i] else Out {
        case Out =>
        case StealLoadHead(t) => thieves := thieves[i := if t >= head then Out else StealReadSlot(t)];
        case StealReadSlot(t) => thieves := thieves[i := StealCas(t, slots[Slot(t, slots.Length)])];
        case StealCas(t, item) =>
          thieves := thieves[i := Out];
          if tail == t && !spurious {
            tail := t + 1;
            log := log + [Stolen(i, item)];
          }
      }
    }

    /** One access of any thread. */
    method Access(e: Event<T>)
      requires slots.Length > 0
      modifies this, slots
      ensures View() == Apply(old(View()), e)
    {
      match e {
        case Push(x) => if owner.Idle? { owner := PushLoadTail(x, head); }
        case Pop => if owner.Idle? { owner := PopLoadTail(head); }
        case OwnerStep => OwnerBody();
        case Steal(i) => if i !in thieves || thieves[i].Out? { thieves := thieves[i := StealLoadHead(tail)]; }
        case ThiefStep(i, spurious) => ThiefAccess(i, spurious);
      }
    }

    /** The other threads run. */
    method Others(es: seq<Event<T>>)
      requires Valid()
      modifies this, slots
      ensures Valid() && old(log) <= log && View() == Run(old(View()), es)
    {
      hide Inv, Slot, Replay, OwnerPart, Items, Apply;
      for k := 0 to |es|
        invariant Valid() && old(log) <= log && View() == Run(old(View()), es[..k])
      {
        ghost var s := View();
        Access(es[k]);
        Made(s, es[k]);
        assert es[..k + 1][..k] == es[..k];
      }
      assert es[..|es|] == es;
    }

    /** Only thieves run: the owner's side stays as it is. */
    method Thieves(es: seq<Event<T>>)
      requires Valid() && ByThieves(es)
      modifies this, slots
      ensures Valid() && old(log) <= log
      ensures owner == old(owner) && head == old(head) && answers == old(answers) && slots[..] == old(slots[..])
    {
      ghost var s := View();
      Others(es);
      ThievesLeaveOwner(s, es);
    }

    method Push(item: T, w0: seq<Event<T>>, w1: seq<Event<T>>, w2: seq<Event<T>>) returns (ok: bool)
      requires Valid() && owner.Idle? && ByThieves(w0) && ByThieves(w1) && ByThieves(w2)
      modifies this, slots
      ensures Valid() && owner.Idle? && old(log) <= log
      ensures answers == old(answers) + [if ok then Pushed(item) else Full(item)]
    {
      hide Inv, ByThieves, Slot;
      Call(Event.Push(item));
      Thieves(w0);
      OwnerAccess();  // load tail
      if owner.Idle? {
        return false;
      }
      Thieves(w1);
      OwnerAccess();  // write the slot
      Thieves(w2);
      OwnerAccess();  // store head
      return true;
    }

    method Pop(w0: seq<Event<T>>, w1: seq<Event<T>>, w2: seq<Event<T>>, w3: seq<Event<T>>, w4: seq<Event<T>>,
               w5: seq<Event<T>>) returns (r: Option<T>)
      requires Valid() && owner.Idle? && ByThieves(w0) && ByThieves(w1)
      requires ByThieves(w2) && ByThieves(w3) && ByThieves(w4) && ByThieves(w5)
      modifies this, slots
      ensures Valid() && owner.Idle? && old(log) <= log
      ensures answers == old(answers) + [if r.Some? then Popped(r.value) else Empty]
    {
      hide Inv, ByThieves, Slot;
      Call(Event.Pop);
      Thieves(w0);
      OwnerAccess();  // load tail
      if owner.Idle? {
        return None;
      }
      Thieves(w1);
      OwnerAccess();  // store the lowered head
      r := DecidePop(w2, w3, w4, w5);
    }

    /** The second half of pop: who gets the item at the lowered head. */
    method DecidePop(w2: seq<Event<T>>, w3: seq<Event<T>>, w4: seq<Event<T>>, w5: seq<Event<T>>)
      returns (r: Option<T>)
      requires Valid() && owner.PopReloadTail?
      requires ByThieves(w2) && ByThieves(w3) && ByThieves(w4) && ByThieves(w5)
      modifies this, slots
      ensures Valid() && owner.Idle? && old(log) <= log
      ensures answers == old(answers) + [if r.Some? then Popped(r.value) else Empty]
    {
      hide Inv, ByThieves, Slot;
      Thieves(w2);
      OwnerAccess();  // reload tail
      if owner.PopCas? {
        Thieves(w3);
        OwnerAccess();  // race the thieves for the last item
      }
      if owner.PopWonStoreHead? {
        Thieves(w4);
        OwnerAccess();  // put head back
      }
      r := FinishPop(w5);
    }

    /** The last access: read the slot, or put head back after a lost race. */
    method FinishPop(w5: seq<Event<T>>) returns (r: Option<T>)
      requires Valid() && ByThieves(w5) && (owner.PopReadSlot? || owner.PopWonReadSlot? || owner.PopLostStoreHead?)
      modifies this, slots
      ensures Valid() && owner.Idle? && old(log) <= log
      ensures answers == old(answers) + [if r.Some? then Popped(r.value) else Empty]
    {
      hide Inv, ByThieves, Slot;
      r := if owner.PopLostStoreHead? then None else Some(slots[Slot(owner.h, slots.Length)]);
      Thieves(w5);
      OwnerAccess();
    }

    /** Anyone but thief i runs. */
    method AllBut(i: nat, es: seq<Event<T>>)
      requires Valid() && NotOf(i, es)
      modifies this, slots
      ensures Valid() && old(log) <= log && View() == Run(old(View()), es)
      ensures ThiefAt(View(), i) == old(ThiefAt(View(), i)) && ThiefPart(i, log) == old(ThiefPart(i, log))
    {
      ghost var s := View();
      Others(es);
      OthersLeaveThief(s, es, i);
    }

    /** Thief i's next access; `won` when it was a CAS that succeeded. */
    method ThiefTurn(i: nat, spurious: bool) returns (won: bool)
      requires Valid() && i in thieves && !thieves[i].Out?
      modifies this`tail, this`thieves, this`log
      ensures Valid() && old(log) <= log && i in thieves && View() == Apply(old(View()), ThiefStep(i, spurious))
      ensures match old(thieves[i])
              case StealLoadHead(t) => thieves[i] == if head <= t then Out else StealReadSlot(t)
              case StealReadSlot(t) => thieves[i] == StealCas(t, At(slots[..], t))
              case StealCas(_, _) => thieves[i].Out?
      ensures won <==> old(thieves[i]).StealCas? && old(thieves[i]).t == old(tail) && !spurious
      ensures ThiefPart(i, log) == old(ThiefPart(i, log)) + if won then [old(thieves[i]).item] else []
    {
      hide Inv, Slot;
      ghost var s := View();
      won := thieves[i].StealCas? && thieves[i].t == tail && !spurious;
      ThiefAccess(i, spurious);
      Made(s, ThiefStep(i, spurious));
      if won { assert log[..|log| - 1] == s.log; }
    }

    /** Thief i enters steal: it loads tail. */
    method EnterSteal(i: nat)
      requires Valid() && ThiefAt(View(), i).Out?
      modifies this`thieves
      ensures Valid() && thieves == old(thieves)[i := StealLoadHead(tail)]
      ensures View() == Apply(old(View()), Event.Steal(i))
    {
      ghost var s := View();
      thieves := thieves[i := StealLoadHead(tail)];
      Made(s, Event.Steal(i));
    }

    /** The first half of steal: load tail, then look at head. */
    method StealLook(i: nat, w0: seq<Event<T>>)
      requires Valid() && ThiefAt(View(), i).Out? && NotOf(i, w0)
      modifies this, slots
      ensures Valid() && old(log) <= log && i in thieves && ThiefPart(i, log) == old(ThiefPart(i, log))
      ensures thieves[i] == if AtLook(old(View()), i, w0).head <= old(tail) then Out else StealReadSlot(old(tail))
      ensures View() == Apply(AtLook(old(View()), i, w0), ThiefStep(i, false))
    {
      hide Inv, NotOf, ThiefPart, Slot, Run, Apply;
      EnterSteal(i);
      AllBut(i, w0);
      var _ := ThiefTurn(i, false);
    }

    /** Read the slot, up to the CAS. */
    method StealRead(i: nat, w1: seq<Event<T>>, w2: seq<Event<T>>)
      requires Valid() && i in thieves && thieves[i].StealReadSlot? && NotOf(i, w1) && NotOf(i, w2)
      modifies this, slots
      ensures Valid() && old(log) <= log && i in thieves && ThiefPart(i, log) == old(ThiefPart(i, log))
      ensures thieves[i].StealCas? && thieves[i].t == old(thieves[i]).t
      ensures View() == Run(Apply(Run(old(View()), w1), ThiefStep(i, false)), w2)
    {
      hide Inv, NotOf, ThiefPart, Slot, Run, Apply;
      AllBut(i, w1);
      var _ := ThiefTurn(i, false);
      AllBut(i, w2);
    }

    /** steal, exact also in its null answers. */
    method Steal(i: nat, spurious: bool, w0: seq<Event<T>>, w1: seq<Event<T>>, w2: seq<Event<T>>)
      returns (r: Option<T>)
      requires Valid() && ThiefAt(View(), i).Out? && NotOf(i, w0) && NotOf(i, w1) && NotOf(i, w2)
      modifies this, slots
      ensures Valid() && ThiefAt(View(), i).Out? && old(log) <= log
      ensures ThiefPart(i, log) == old(ThiefPart(i, log)) + if r.Some? then [r.value] else []
      ensures r.None? <==> AtLook(old(View()), i, w0).head <= old(tail) || spurious ||
                           AtCas(old(View()), i, w0, w1, w2).tail != old(tail)
    {
      hide Inv, NotOf, ThiefPart, Slot, Run, Apply;
      StealLook(i, w0);
      if thieves[i].Out? {
        return None;
      }
      StealRead(i, w1, w2);
      assert View() == AtCas(old(View()), i, w0, w1, w2);
      var item := thieves[i].item;
      var won := ThiefTurn(i, spurious);  // CAS on tail
      r := if won then Some(item) else None;
    }
  }
}
