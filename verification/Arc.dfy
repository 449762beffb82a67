/**
 The two-counter lifetime protocol of arc.h: strong and weak handles to one heap block, shared by any number
 of threads.  Handles are identities; a moved-from or null handle is simply not in the set.
 */
module Arcs {
  /** The next access of a thread inside a drop or an upgrade; a thread elsewhere has none. */
  datatype Access = DestroyValue | GiveBackWeak | FreeBlock | UpgradeCas(h: nat, seen: nat)

  /**
   `arcs` and `weaks` are the live handles.  `destroyed` and `freed` count destructions of the value and
   frees of the block; `stray` records a count access after a free (history).
   */
  datatype State = State(strong: int, weak: int, arcs: set<nat>, weaks: set<nat>, threads: map<nat, Access>,
                         destroyed: nat, freed: nat, stray: bool)

  datatype Event =
    | Clone(h: nat, n: nat) | Move(h: nat, n: nat) | Drop(t: nat, h: nat)
    | Downgrade(h: nat, n: nat) | WeakClone(h: nat, n: nat) | WeakMove(h: nat, n: nat) | WeakDrop(t: nat, h: nat)
    | Upgrade(t: nat, h: nat) | Continue(t: nat, n: nat, spurious: bool)

  /** Arc::make: one strong handle. */
  const Init := State(1, 1, {0}, {}, map[], 0, 0, false)

  function AddStrong(s: State, d: int): State {
    s.(strong := s.strong + d, stray := s.stray || s.freed > 0)
  }

  function AddWeak(s: State, d: int): State {
    s.(weak := s.weak + d, stray := s.stray || s.freed > 0)
  }

  function Goto(s: State, t: nat, a: Access): State {
    s.(threads := s.threads[t := a])
  }

  function Leave(s: State, t: nat): State {
    s.(threads := s.threads - {t})
  }

  /** A handle may only be dropped or moved when no upgrade is using it. */
  predicate Borrowed(s: State, h: nat) {
    exists t :: t in s.threads && s.threads[t].UpgradeCas? && s.threads[t].h == h
  }

  /** One step of the CAS loop of upgrade; n names the new handle. */
  function CasApply(s: State, t: nat, h: nat, seen: nat, n: nat, spurious: bool): State {
    if s.strong == seen && !spurious then
      if n in s.arcs then s else AddStrong(Leave(s, t), 1).(arcs := s.arcs + {n})
    else if s.strong <= 0 then AddStrong(Leave(s, t), 0)
    else AddStrong(Goto(s, t, UpgradeCas(h, s.strong)), 0)
  }

  function Apply(s: State, e: Event): State {
    match e
    case Clone(h, n) => if h in s.arcs && n !in s.arcs then AddStrong(s, 1).(arcs := s.arcs + {n}) else s
    case Move(h, n) => if h in s.arcs && n !in s.arcs then s.(arcs := s.arcs - {h} + {n}) else s
    case Drop(t, h) =>
      if h !in s.arcs || t in s.threads then s else
        var s' := AddStrong(s, -1).(arcs := s.arcs - {h});
        if s.strong == 1 then Goto(s', t, DestroyValue) else s'
    case Downgrade(h, n) => if h in s.arcs && n !in s.weaks then AddWeak(s, 1).(weaks := s.weaks + {n}) else s
    case WeakClone(h, n) => if h in s.weaks && n !in s.weaks then AddWeak(s, 1).(weaks := s.weaks + {n}) else s
    case WeakMove(h, n) =>
      if h in s.weaks && n !in s.weaks && !Borrowed(s, h) then s.(weaks := s.weaks - {h} + {n}) else s
    case WeakDrop(t, h) =>
      if h !in s.weaks || t in s.threads || Borrowed(s, h) then s else
        var s' := AddWeak(s, -1).(weaks := s.weaks - {h});
        if s.weak == 1 then Goto(s', t, FreeBlock) else s'
    case Upgrade(t, h) =>
      if h !in s.weaks || t in s.threads then s
      else if s.strong <= 0 then AddStrong(s, 0)
      else AddStrong(Goto(s, t, UpgradeCas(h, s.strong)), 0)
    case Continue(t, n, spurious) =>
      if t !in s.threads then s else
      match s.threads[t]
      case DestroyValue => Goto(s, t, GiveBackWeak).(destroyed := s.destroyed + 1)
      case GiveBackWeak =>
        var s' := AddWeak(s, -1);
        if s.weak == 1 then Goto(s', t, FreeBlock) else Leave(s', t)
      case FreeBlock => Leave(s, t).(freed := s.freed + 1)
      case UpgradeCas(h, seen) => CasApply(s, t, h, seen, n, spurious)
  }

  function Run(es: seq<Event>): State {
    if es == [] then Init else Apply(Run(es[..|es| - 1]), es[|es| - 1])
  }

  /** The threads whose next access is a. */
  function At(threads: map<nat, Access>, a: Access): set<nat> {
    set t | t in threads && threads[t] == a
  }

  function Count(s: State, a: Access): nat {
    |At(s.threads, a)|
  }

  function One(b: bool): nat {
    if b then 1 else 0
  }

  /**
   Both obligations are conserved: the value is alive, being destroyed or destroyed, and the block is in use,
   being freed or freed, in each case exactly one of the three.
   */
  ghost predicate Inv(s: State) {
    && s.strong == |s.arcs|
    && s.weak == |s.weaks| + One(s.strong > 0) + Count(s, DestroyValue) + Count(s, GiveBackWeak)
    && One(s.strong > 0) + Count(s, DestroyValue) + s.destroyed == 1
    && Count(s, GiveBackWeak) <= s.destroyed
    && One(s.weak > 0) + Count(s, FreeBlock) + s.freed == 1
    && (forall t :: t in s.threads && s.threads[t].UpgradeCas? ==> s.threads[t].h in s.weaks && s.threads[t].seen > 0)
    && !s.stray
  }

  /** How many threads are at a when thread t joins, goes on or leaves. */
  lemma Joined(threads: map<nat, Access>, t: nat, to: Access, a: Access)
    requires t !in threads
    ensures |At(threads[t := to], a)| == |At(threads, a)| + One(to == a)
  {
    assert At(threads[t := to], a) == if to == a then At(threads, a) + {t} else At(threads, a);
  }

  lemma Left(threads: map<nat, Access>, t: nat, a: Access)
    requires t in threads
    ensures |At(threads - {t}, a)| + One(threads[t] == a) == |At(threads, a)|
  {
    Joined(threads - {t}, t, threads[t], a);
    assert (threads - {t})[t := threads[t]] == threads;
  }

  lemma WentOn(threads: map<nat, Access>, t: nat, to: Access, a: Access)
    requires t in threads
    ensures |At(threads[t := to], a)| + One(threads[t] == a) == |At(threads, a)| + One(to == a)
  {
    Left(threads, t, a);
    Joined(threads - {t}, t, to, a);
    assert (threads - {t})[t := to] == threads[t := to];
  }

  predicate IsAt(s: State, t: nat, a: Access) {
    t in s.threads && s.threads[t] == a
  }

  /** The same for all three counts the invariant speaks of, for a step of thread t. */
  lemma Tally(s: State, s': State, t: nat)
    requires || s'.threads == s.threads
             || s'.threads == s.threads - {t}
             || (t in s'.threads && s'.threads == s.threads[t := s'.threads[t]])
    ensures forall a :: a in {DestroyValue, GiveBackWeak, FreeBlock} ==>
              Count(s', a) + One(IsAt(s, t, a)) == Count(s, a) + One(IsAt(s', t, a))
  {
    forall a | a in {DestroyValue, GiveBackWeak, FreeBlock}
      ensures Count(s', a) + One(IsAt(s, t, a)) == Count(s, a) + One(IsAt(s', t, a))
    {
      if s'.threads == s.threads {
      } else if t !in s.threads {
        if t in s'.threads { Joined(s.threads, t, s'.threads[t], a); }
      } else if t in s'.threads {
        WentOn(s.threads, t, s'.threads[t], a);
      } else {
        Left(s.threads, t, a);
      }
    }
  }

  lemma Nonempty(xs: set<nat>, x: nat)
    requires x in xs
    ensures |xs| > 0 && |xs - {x}| == |xs| - 1
  {
  }

  lemma Step(s: State, e: Event)
    requires Inv(s)
    ensures Inv(Apply(s, e))
  {
    hide Inv, Apply;
    match e
    case Clone(_, _) => StrongStep(s, e);
    case Move(_, _) => StrongStep(s, e);
    case Drop(t, h) => DropStep(s, t, h);
    case Downgrade(_, _) => DowngradeStep(s, e);
    case WeakClone(_, _) => WeakCloneStep(s, e);
    case WeakMove(_, _) => WeakMoveStep(s, e);
    case WeakDrop(t, h) => WeakDropStep(s, t, h);
    case Upgrade(t, h) => UpgradeStep(s, t, h);
    case Continue(t, n, spurious) => ContinueStep(s, t, n, spurious);
  }

  lemma StrongStep(s: State, e: Event)
    requires Inv(s) && (e.Clone? || e.Move?)
    ensures Inv(Apply(s, e))
  {
    hide At;
    if e.h in s.arcs { Nonempty(s.arcs, e.h); }
  }

  lemma DowngradeStep(s: State, e: Event)
    requires Inv(s) && e.Downgrade?
    ensures Inv(Apply(s, e))
  {
    hide At;
    if e.h in s.arcs { Nonempty(s.arcs, e.h); }
  }

  lemma WeakCloneStep(s: State, e: Event)
    requires Inv(s) && e.WeakClone?
    ensures Inv(Apply(s, e))
  {
    hide At;
    if e.h in s.weaks { Nonempty(s.weaks, e.h); }
  }

  lemma WeakMoveStep(s: State, e: Event)
    requires Inv(s) && e.WeakMove?
    ensures Inv(Apply(s, e))
  {
    hide At;
    if e.h in s.weaks { Nonempty(s.weaks, e.h); }
  }

  lemma DropStep(s: State, t: nat, h: nat)
    requires Inv(s)
    ensures Inv(Apply(s, Drop(t, h)))
  {
    hide At;
    if h in s.arcs { Nonempty(s.arcs, h); }
    Tally(s, Apply(s, Drop(t, h)), t);
  }

  lemma WeakDropStep(s: State, t: nat, h: nat)
    requires Inv(s)
    ensures Inv(Apply(s, WeakDrop(t, h)))
  {
    hide At;
    if h in s.weaks { Nonempty(s.weaks, h); }
    Tally(s, Apply(s, WeakDrop(t, h)), t);
  }

  lemma UpgradeStep(s: State, t: nat, h: nat)
    requires Inv(s)
    ensures Inv(Apply(s, Upgrade(t, h)))
  {
    hide At;
    if h in s.weaks { Nonempty(s.weaks, h); }
    Tally(s, Apply(s, Upgrade(t, h)), t);
  }

  lemma ContinueStep(s: State, t: nat, n: nat, spurious: bool)
    requires Inv(s)
    ensures Inv(Apply(s, Continue(t, n, spurious)))
  {
    if t in s.threads {
      match s.threads[t]
      case DestroyValue => CloseStep(s, t, n, spurious);
      case GiveBackWeak => CloseStep(s, t, n, spurious);
      case FreeBlock => CloseStep(s, t, n, spurious);
      case UpgradeCas(h, _) => CasStep(s, t, n, spurious);
    }
  }

  lemma CloseStep(s: State, t: nat, n: nat, spurious: bool)
    requires Inv(s) && t in s.threads && s.threads[t] in {DestroyValue, GiveBackWeak, FreeBlock}
    ensures Inv(Apply(s, Continue(t, n, spurious)))
  {
    var a := s.threads[t];
    assert Count(s, a) > 0 by { Nonempty(At(s.threads, a), t); }
    hide At;
    Tally(s, Apply(s, Continue(t, n, spurious)), t);
  }

  lemma CasStep(s: State, t: nat, n: nat, spurious: bool)
    requires Inv(s) && t in s.threads && s.threads[t].UpgradeCas?
    ensures Inv(Apply(s, Continue(t, n, spurious)))
  {
    hide At;
    Nonempty(s.weaks, s.threads[t].h);
    Tally(s, Apply(s, Continue(t, n, spurious)), t);
  }

  lemma {:induction false} RunInv(es: seq<Event>)
    ensures Inv(Run(es))
  {
    if es == [] {
      assert forall a :: At(map[], a) == {};
    } else {
      RunInv(es[..|es| - 1]);
      Step(Run(es[..|es| - 1]), es[|es| - 1]);
    }
  }

  /** The counts: strong handles; weak handles, plus one until the last strong drop has given it back. */
  lemma {:induction false} CountsAreHandles(es: seq<Event>)
    ensures var s := Run(es);
            var share := s.strong > 0 || Count(s, DestroyValue) + Count(s, GiveBackWeak) > 0;
            s.strong == |s.arcs| && s.weak == |s.weaks| + One(share)
  {
    RunInv(es);
  }

  /** Nothing happens twice or too early, and no count is touched after the free. */
  lemma NoDoubleNoStray(es: seq<Event>)
    ensures var s := Run(es);
            && s.destroyed <= 1 && s.freed <= 1
            && (s.arcs != {} ==> s.destroyed == 0 && s.freed == 0)
            && (s.weaks != {} ==> s.freed == 0)
            && (s.freed == 1 ==> s.destroyed == 1)
            && !s.stray
  {
    RunInv(es);
    var s := Run(es);
    if h :| h in s.arcs { Nonempty(s.arcs, h); }
    if h :| h in s.weaks { Nonempty(s.weaks, h); }
  }

  /** Nothing is forgotten: with no handle left and no thread inside a call, both have happened. */
  lemma NothingLeaks(es: seq<Event>)
    requires var s := Run(es); s.arcs == {} && s.weaks == {} && s.threads == map[]
    ensures Run(es).destroyed == 1 && Run(es).freed == 1
  {
    RunInv(es);
    assert forall a :: At(Run(es).threads, a) == {};
  }

  /**
   upgrade never revives a dead value: a step that adds a strong handle finds the value alive, neither
   destroyed nor being destroyed, and once the strong count is zero it stays zero.
   */
  lemma UpgradeIsSafe(es: seq<Event>, e: Event)
    ensures var s := Run(es); var s' := Apply(s, e);
            && (!(s'.arcs <= s.arcs) ==> s.strong > 0 && s.destroyed == 0 && Count(s, DestroyValue) == 0)
            && (s.strong == 0 ==> s'.strong == 0)
            && (s.destroyed == 1 ==> s'.destroyed == 1 && s'.arcs == {})
  {
    RunInv(es);
    var s := Run(es);
    Step(s, e);
    if e.Clone? || e.Move? || e.Drop? {
      if e.h in s.arcs { Nonempty(s.arcs, e.h); }
    }
  }

  /** What upgrades rest on. */
  lemma StrongIsArcs(es: seq<Event>, t: nat)
    ensures var s := Run(es);
            && s.strong == |s.arcs|
            && (t in s.threads && s.threads[t].UpgradeCas? ==> s.threads[t].seen > 0 && s.threads[t].h in s.weaks)
  {
    RunInv(es);
  }

  /** An upgrade ends at its load, with nothing, exactly when no strong handle is there. */
  lemma UpgradeLoadAnswers(es: seq<Event>, t: nat, h: nat)
    requires var s := Run(es); h in s.weaks && t !in s.threads
    ensures var s := Run(es); var s' := Apply(s, Upgrade(t, h));
            && s'.arcs == s.arcs && s'.strong == s.strong
            && (t !in s'.threads <==> s.arcs == {})
  {
    hide Run;
    StrongIsArcs(es, t);
    var s := Run(es);
    if n :| n in s.arcs { Nonempty(s.arcs, n); }
  }

  /**
   An access of its CAS loop ends an upgrade exactly when the compare-exchange succeeds or no strong handle is
   left; it ends with the new handle in the first case and with nothing in the second.
   */
  lemma UpgradeAnswers(es: seq<Event>, t: nat, n: nat, spurious: bool)
    requires var s := Run(es); t in s.threads && s.threads[t].UpgradeCas? && n !in s.arcs
    ensures var s := Run(es); var s' := Apply(s, Continue(t, n, spurious));
            && (t !in s'.threads <==> (s.strong == s.threads[t].seen && !spurious) || s.arcs == {})
            && s'.arcs == (if t !in s'.threads && s.arcs != {} then s.arcs + {n} else s.arcs)
  {
    hide Run, Borrowed;
    StrongIsArcs(es, t);
    var s := Run(es);
    if x :| x in s.arcs { Nonempty(s.arcs, x); }
  }

  lemma RunSnoc(es: seq<Event>, e: Event)
    ensures Run(es + [e]) == Apply(Run(es), e)
  {
    assert (es + [e])[..|es|] == es;
  }

  lemma RunTwo(es: seq<Event>, e: Event, f: Event)
    ensures Run(es + [e, f]) == Apply(Apply(Run(es), e), f)
  {
    hide Run, Apply;
    RunSnoc(es, e);
    RunSnoc(es + [e], f);
    assert es + [e] + [f] == es + [e, f];
  }

  /** A copy is a handle of its own: it counts, and dropping the original leaves it and the value alone. */
  lemma CopyOutlivesOriginal(es: seq<Event>, h: nat, n: nat, t: nat)
    requires var s := Run(es); h in s.arcs && n !in s.arcs && t !in s.threads
    ensures var s, s1, s2 := Run(es), Run(es + [Clone(h, n)]), Run(es + [Clone(h, n), Drop(t, h)]);
            && s1.arcs == s.arcs + {n} && s1.strong == s.strong + 1 && s1.weak == s.weak
            && s2.arcs == s.arcs - {h} + {n} && s2.strong == s.strong && s2.threads == s.threads
            && s2.destroyed == 0 && s2.freed == 0
  {
    hide Run, Apply;
    RunSnoc(es, Clone(h, n));
    RunTwo(es, Clone(h, n), Drop(t, h));
    assert Run(es).strong > 0 by { StrongIsArcs(es, t); Nonempty(Run(es).arcs, h); }
    NoDoubleNoStray(es);
    CopyThenDrop(Run(es), h, n, t);
  }

  lemma CopyThenDrop(s: State, h: nat, n: nat, t: nat)
    requires h in s.arcs && n !in s.arcs && t !in s.threads && s.strong > 0
    ensures var s1, s2 := Apply(s, Clone(h, n)), Apply(Apply(s, Clone(h, n)), Drop(t, h));
            && s1.arcs == s.arcs + {n} && s1.strong == s.strong + 1 && s1.weak == s.weak
            && s2.arcs == s.arcs - {h} + {n} && s2.strong == s.strong && s2.threads == s.threads
            && s2.destroyed == s.destroyed && s2.freed == s.freed
  {
  }

  /** A weak handle keeps the block, not the value. */
  lemma WeakKeepsBlock(es: seq<Event>, h: nat, n: nat, t: nat)
    requires var s := Run(es); h in s.arcs && n !in s.weaks && t !in s.threads
    ensures var s, s1, s2 := Run(es), Run(es + [Downgrade(h, n)]), Run(es + [Downgrade(h, n), Drop(t, h)]);
            && s1.weaks == s.weaks + {n} && s1.weak == s.weak + 1 && s1.arcs == s.arcs && s1.strong == s.strong
            && s2.weaks == s.weaks + {n} && s2.arcs == s.arcs - {h} && s2.freed == 0
            && (t in s2.threads <==> s.arcs == {h}) && (t in s2.threads ==> s2.threads[t] == DestroyValue)
  {
    hide Run, Apply;
    RunSnoc(es, Downgrade(h, n));
    RunTwo(es, Downgrade(h, n), Drop(t, h));
    assert Run(es).strong == |Run(es).arcs| by { StrongIsArcs(es, t); }
    LastOne(Run(es).arcs, h);
    NoDoubleNoStray(es);
    DowngradeThenDrop(Run(es), h, n, t);
  }

  lemma DowngradeThenDrop(s: State, h: nat, n: nat, t: nat)
    requires h in s.arcs && n !in s.weaks && t !in s.threads
    ensures var s1, s2 := Apply(s, Downgrade(h, n)), Apply(Apply(s, Downgrade(h, n)), Drop(t, h));
            && s1.weaks == s.weaks + {n} && s1.weak == s.weak + 1 && s1.arcs == s.arcs && s1.strong == s.strong
            && s2.weaks == s.weaks + {n} && s2.arcs == s.arcs - {h} && s2.freed == s.freed
            && (t in s2.threads <==> s.strong == 1) && (t in s2.threads ==> s2.threads[t] == DestroyValue)
  {
  }

  lemma LastOne(xs: set<nat>, x: nat)
    requires x in xs
    ensures |xs| == 1 <==> xs == {x}
  {
    if |xs| == 1 { assert |xs - {x}| == 0; }
  }

  lemma WeakCopyOutlivesOriginal(es: seq<Event>, h: nat, n: nat, t: nat)
    requires var s := Run(es); h in s.weaks && n !in s.weaks && t !in s.threads && !Borrowed(s, h)
    ensures var s, s1, s2 := Run(es), Run(es + [WeakClone(h, n)]), Run(es + [WeakClone(h, n), WeakDrop(t, h)]);
            && s1.weaks == s.weaks + {n} && s1.weak == s.weak + 1 && s1.arcs == s.arcs && s1.strong == s.strong
            && s2.weaks == s.weaks - {h} + {n} && s2.weak == s.weak && s2.threads == s.threads && s2.freed == 0
  {
    RunInv(es);
    RunSnoc(es, WeakClone(h, n));
    RunTwo(es, WeakClone(h, n), WeakDrop(t, h));
    Nonempty(Run(es).weaks, h);
    hide Run, At, Inv;
    WeakCloned(Run(es), h, n);
    assert Run(es).weak > 0 by { WeaksCount(es, h); }
    WeakDropped(Run(es + [WeakClone(h, n)]), t, h);
  }

  lemma WeaksCount(es: seq<Event>, h: nat)
    requires h in Run(es).weaks
    ensures Run(es).weak > 0 && Run(es).freed == 0
  {
    RunInv(es);
    Nonempty(Run(es).weaks, h);
    hide At;
  }

  lemma WeakCloned(s: State, h: nat, n: nat)
    requires h in s.weaks && n !in s.weaks
    ensures var s' := Apply(s, WeakClone(h, n));
            && s' == s.(weak := s.weak + 1, weaks := s.weaks + {n}, stray := s.stray || s.freed > 0)
            && Borrowed(s', h) == Borrowed(s, h)
  {
  }

  lemma WeakDropped(s: State, t: nat, h: nat)
    requires h in s.weaks && t !in s.threads && !Borrowed(s, h) && s.weak > 1
    ensures var s' := Apply(s, WeakDrop(t, h));
            s' == s.(weak := s.weak - 1, weaks := s.weaks - {h}, stray := s.stray || s.freed > 0)
  {
    hide Borrowed;
  }

  /** A move hands a handle over and leaves the counts alone. */
  lemma MoveHandsOver(es: seq<Event>, h: nat, n: nat)
    ensures var s, s1, s2 := Run(es), Run(es + [Move(h, n)]), Run(es + [WeakMove(h, n)]);
            && (h in s.arcs && n !in s.arcs ==> s1 == s.(arcs := s.arcs - {h} + {n}))
            && (h in s.weaks && n !in s.weaks && !Borrowed(s, h) ==> s2 == s.(weaks := s.weaks - {h} + {n}))
  {
    RunSnoc(es, Move(h, n));
    RunSnoc(es, WeakMove(h, n));
    hide Run, Borrowed;
  }

  /** An undisturbed upgrade of a weak handle whose value lives gives a new strong handle. */
  lemma UpgradeGives(es: seq<Event>, t: nat, h: nat, n: nat)
    requires var s := Run(es); h in s.weaks && t !in s.threads && s.arcs != {} && n !in s.arcs
    ensures var s, s' := Run(es), Run(es + [Upgrade(t, h), Continue(t, n, false)]);
            && s'.arcs == s.arcs + {n} && s'.strong == s.strong + 1 && s'.threads == s.threads
            && s'.destroyed == 0 && s'.freed == 0 && s'.weaks == s.weaks
  {
    hide Run, Apply;
    RunTwo(es, Upgrade(t, h), Continue(t, n, false));
    var s := Run(es);
    var a :| a in s.arcs;
    assert s.strong > 0 by { StrongIsArcs(es, t); Nonempty(s.arcs, a); }
    assert s.destroyed == 0 && s.freed == 0 by { NoDoubleNoStray(es); }
    UpgradeGoes(s, t, h, n);
  }

  lemma UpgradeGoes(s: State, t: nat, h: nat, n: nat)
    requires h in s.weaks && t !in s.threads && s.strong > 0 && n !in s.arcs
    ensures var s' := Apply(Apply(s, Upgrade(t, h)), Continue(t, n, false));
            && s'.arcs == s.arcs + {n} && s'.strong == s.strong + 1 && s'.threads == s.threads
            && s'.destroyed == s.destroyed && s'.freed == s.freed && s'.weaks == s.weaks
  {
    hide Borrowed;
    assert s.threads[t := UpgradeCas(h, s.strong)] - {t} == s.threads;
  }

  lemma Bound(xs: set<nat>) returns (n: nat)
    ensures forall x :: x in xs ==> x < n
  {
    if xs == {} {
      n := 0;
    } else {
      var x :| x in xs;
      n := Bound(xs - {x});
      assert forall y :: y in xs ==> y == x || y in xs - {x};
      if n <= x { n := x + 1; }
    }
  }

  lemma Went(es: seq<Event>, t: nat, n: nat)
    requires t in Run(es).threads
    ensures var s, s' := Run(es), Run(es + [Continue(t, n, false)]);
            && s'.weaks == s.weaks
            && (s.threads[t] == FreeBlock ==> s'.threads == s.threads - {t} && s'.arcs == s.arcs)
            && (s.threads[t] == GiveBackWeak ==>
                  s'.arcs == s.arcs && (s'.threads == s.threads - {t} || s'.threads == s.threads[t := FreeBlock]))
            && (s.threads[t] == DestroyValue ==> s'.arcs == s.arcs && s'.threads == s.threads[t := GiveBackWeak])
  {
    RunSnoc(es, Continue(t, n, false));
    hide Run;
  }

  /** A drop that has begun ends by the third of its remaining accesses. */
  lemma DropEnds(es: seq<Event>, t: nat) returns (fs: seq<Event>)
    requires t in Run(es).threads && !Run(es).threads[t].UpgradeCas?
    ensures var s, s' := Run(es), Run(es + fs);
            s'.threads == s.threads - {t} && s'.arcs == s.arcs && s'.weaks == s.weaks && |fs| <= 3
  {
    var c := [Continue(t, 0, false)];
    var threads := Run(es).threads;
    Went(es, t, 0);
    fs := c;
    hide Run;
    if threads[t] == DestroyValue {
      Went(es + fs, t, 0);
      fs := fs + c;
      assert es + c + c == es + fs;
      assert threads[t := GiveBackWeak][t := FreeBlock] == threads[t := FreeBlock];
      assert threads[t := GiveBackWeak] - {t} == threads - {t};
    }
    if t in Run(es + fs).threads {
      assert threads[t := FreeBlock] - {t} == threads - {t};
      Went(es + fs, t, 0);
      assert es + fs + c == es + (fs + c);
      fs := fs + c;
    }
  }

  /** So does an upgrade that nobody disturbs, by the second. */
  lemma UpgradeEnds(es: seq<Event>, t: nat) returns (fs: seq<Event>)
    requires t in Run(es).threads && Run(es).threads[t].UpgradeCas?
    ensures var s, s' := Run(es), Run(es + fs); s'.threads == s.threads - {t} && s'.weaks == s.weaks && |fs| <= 2
  {
    var s := Run(es);
    RunInv(es);
    var n := Bound(s.arcs);
    var c := Continue(t, n, false);
    fs := [c];
    RunSnoc(es, c);
    if t in Run(es + fs).threads {
      RunTwo(es, c, c);
      fs := [c, c];
      assert s.threads[t := UpgradeCas(s.threads[t].h, s.strong)] - {t} == s.threads - {t};
    }
    hide Run, At;
  }

  lemma FewerKeys(threads: map<nat, Access>, t: nat)
    requires t in threads
    ensures |threads - {t}| < |threads|
  {
    assert (threads - {t}).Keys == threads.Keys - {t} && |threads.Keys - {t}| < |threads.Keys|;
    assert |(threads - {t}).Keys| == |threads - {t}| && |threads.Keys| == |threads|;
  }

  lemma {:induction false} CallsEnd(es: seq<Event>) returns (fs: seq<Event>)
    ensures Run(es + fs).threads == map[] && Run(es + fs).weaks == Run(es).weaks
    decreases |Run(es).threads|
  {
    hide Run, Apply;
    var threads := Run(es).threads;
    if threads == map[] {
      fs := [];
      assert es + fs == es;
    } else {
      var t :| t in threads;
      FewerKeys(threads, t);
      if threads[t].UpgradeCas? { fs := UpgradeEnds(es, t); } else { fs := DropEnds(es, t); }
      var rest := CallsEnd(es + fs);
      assert es + fs + rest == es + (fs + rest);
      fs := fs + rest;
    }
  }

  lemma DropOne(es: seq<Event>, h: nat) returns (fs: seq<Event>)
    requires Run(es).threads == map[] && h in Run(es).arcs
    ensures var s, s' := Run(es), Run(es + fs);
            s'.arcs == s.arcs - {h} && s'.threads == map[] && s'.weaks == s.weaks
  {
    fs := [Drop(0, h)];
    RunSnoc(es, Drop(0, h));
    hide Run;
    if 0 in Run(es + fs).threads {
      var more := DropEnds(es + fs, 0);
      assert Run(es + fs).threads - {0} == map[];
      assert es + fs + more == es + (fs + more);
      fs := fs + more;
    }
  }

  lemma WeakDropOne(es: seq<Event>, h: nat) returns (fs: seq<Event>)
    requires Run(es).threads == map[] && h in Run(es).weaks
    ensures var s, s' := Run(es), Run(es + fs);
            s'.arcs == s.arcs && s'.threads == map[] && s'.weaks == s.weaks - {h}
  {
    fs := [WeakDrop(0, h)];
    RunSnoc(es, WeakDrop(0, h));
    hide Run;
    if 0 in Run(es + fs).threads {
      var more := DropEnds(es + fs, 0);
      assert Run(es + fs).threads - {0} == map[];
      assert es + fs + more == es + (fs + more);
      fs := fs + more;
    }
  }

  lemma {:induction false} ArcsDrop(es: seq<Event>) returns (fs: seq<Event>)
    requires Run(es).threads == map[]
    ensures var s := Run(es + fs); s.arcs == {} && s.threads == map[] && s.weaks == Run(es).weaks
    decreases |Run(es).arcs|
  {
    hide Run;
    var arcs := Run(es).arcs;
    if arcs == {} {
      fs := [];
      assert es + fs == es;
    } else {
      var h :| h in arcs;
      Nonempty(arcs, h);
      var one := DropOne(es, h);
      var rest := ArcsDrop(es + one);
      assert es + one + rest == es + (one + rest);
      fs := one + rest;
    }
  }

  lemma {:induction false} WeaksDrop(es: seq<Event>) returns (fs: seq<Event>)
    requires Run(es).threads == map[] && Run(es).arcs == {}
    ensures var s := Run(es + fs); s.arcs == {} && s.threads == map[] && s.weaks == {}
    decreases |Run(es).weaks|
  {
    hide Run;
    var weaks := Run(es).weaks;
    if weaks == {} {
      fs := [];
      assert es + fs == es;
    } else {
      var h :| h in weaks;
      Nonempty(weaks, h);
      var one := WeakDropOne(es, h);
      var rest := WeaksDrop(es + one);
      assert es + one + rest == es + (one + rest);
      fs := one + rest;
    }
  }

  /**
   Whatever has happened, once the calls that have begun go on to their ends and every handle is dropped, the
   value has been destroyed once and the block freed once.
   */
  lemma EverythingEnds(es: seq<Event>) returns (fs: seq<Event>)
    ensures var s := Run(es + fs);
            s.arcs == {} && s.weaks == {} && s.threads == map[] && s.destroyed == 1 && s.freed == 1
  {
    hide Run;
    var calls := CallsEnd(es);
    var arcs := ArcsDrop(es + calls);
    var weaks := WeaksDrop(es + calls + arcs);
    fs := calls + arcs + weaks;
    assert es + calls + arcs + weaks == es + fs;
    NothingLeaks(es + fs);
  }

  /** The heap block in place; each method is one atomic access, or the action between two, of arc.h. */
  class ArcInner {
    var strong: int
    var weak: int
    var threads: map<nat, Access>
    ghost var arcs: set<nat>
    ghost var weaks: set<nat>
    ghost var destroyed: nat
    ghost var freed: nat
    ghost var stray: bool

    ghost function View(): State
      reads this
    {
      State(strong, weak, arcs, weaks, threads, destroyed, freed, stray)
    }

    /** make: the block with its first handle. */
    constructor ()
      ensures View() == Init
    {
      strong, weak, threads := 1, 1, map[];
      arcs, weaks, destroyed, freed, stray := {0}, {}, 0, 0, false;
    }

    /** The copy constructor: n is a new handle made from h. */
    method Clone(ghost h: nat, ghost n: nat)
      requires h in arcs && n !in arcs
      modifies this
      ensures View() == Apply(old(View()), Event.Clone(h, n))
      ensures strong == old(strong) + 1 && weak == old(weak) && arcs == old(arcs) + {n} && weaks == old(weaks)
    {
      strong := strong + 1;
      arcs, stray := arcs + {n}, stray || freed > 0;
    }

    /** The move constructor: the source becomes null, no count is touched. */
    method Move(ghost h: nat, ghost n: nat)
      requires h in arcs && n !in arcs
      modifies this`arcs
      ensures View() == Apply(old(View()), Event.Move(h, n)) && arcs == old(arcs) - {h} + {n}
    {
      arcs := arcs - {h} + {n};
    }

    /** arc_dec_strong: the fetch_sub. */
    method DecStrong(t: nat, ghost h: nat)
      requires h in arcs && t !in threads
      modifies this
      ensures View() == Apply(old(View()), Drop(t, h))
      ensures strong == old(strong) - 1 && weak == old(weak) && arcs == old(arcs) - {h} && weaks == old(weaks)
      ensures threads == if old(strong) == 1 then old(threads)[t := DestroyValue] else old(threads)
    {
      var prev := strong;
      strong := strong - 1;
      arcs, stray := arcs - {h}, stray || freed > 0;
      if prev == 1 {
        threads := threads[t := DestroyValue];
      }
    }

    /** Downgrading h, or copying the weak handle h. */
    method CloneWeak(ghost h: nat, ghost n: nat, ghost fromArc: bool)
      requires (if fromArc then h in arcs else h in weaks) && n !in weaks
      modifies this
      ensures View() == Apply(old(View()), if fromArc then Downgrade(h, n) else WeakClone(h, n))
      ensures weak == old(weak) + 1 && strong == old(strong) && weaks == old(weaks) + {n} && arcs == old(arcs)
    {
      weak := weak + 1;
      weaks, stray := weaks + {n}, stray || freed > 0;
    }

    /** Dropping a weak handle: the fetch_sub of arc_dec_weak_and_maybe_dealloc. */
    method DecWeak(t: nat, ghost h: nat)
      requires h in weaks && t !in threads && !Borrowed(View(), h)
      modifies this
      ensures View() == Apply(old(View()), WeakDrop(t, h))
      ensures weak == old(weak) - 1 && strong == old(strong) && weaks == old(weaks) - {h} && arcs == old(arcs)
      ensures threads == if old(weak) == 1 then old(threads)[t := FreeBlock] else old(threads)
    {
      var prev := weak;
      weak := weak - 1;
      weaks, stray := weaks - {h}, stray || freed > 0;
      if prev == 1 {
        threads := threads[t := FreeBlock];
      }
    }

    /** upgrade: the load. */
    method UpgradeLoad(t: nat, h: nat)
      requires h in weaks && t !in threads
      modifies this
      ensures View() == Apply(old(View()), Upgrade(t, h)) && strong == old(strong)
      ensures threads == if strong > 0 then old(threads)[t := UpgradeCas(h, strong)] else old(threads)
    {
      var s := strong;
      stray := stray || freed > 0;
      if s > 0 {
        threads := threads[t := UpgradeCas(h, s)];
      }
    }

    /** What comes next inside a drop or an upgrade; `got` when an upgrade has made the handle n. */
    method Access(t: nat, ghost n: nat, spurious: bool) returns (got: bool)
      requires t in threads && n !in arcs
      modifies this
      ensures View() == Apply(old(View()), Continue(t, n, spurious))
      ensures got <==> arcs != old(arcs)
    {
      got := false;
      match threads[t] {
        case DestroyValue =>
          destroyed := destroyed + 1;
          threads := threads[t := GiveBackWeak];
        case GiveBackWeak =>
          var prev := weak;
          weak := weak - 1;
          stray := stray || freed > 0;
          threads := if prev == 1 then threads[t := FreeBlock] else threads - {t};
        case FreeBlock =>
          freed := freed + 1;
          threads := threads - {t};
        case UpgradeCas(h, seen) =>
          stray := stray || freed > 0;
          if strong == seen && !spurious {
            strong := strong + 1;
            arcs := arcs + {n};
            threads := threads - {t};
            got := true;
          } else if strong <= 0 {
            threads := threads - {t};
          } else {
            threads := threads[t := UpgradeCas(h, strong)];
          }
      }
    }
  }
}
