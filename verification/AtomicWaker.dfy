/**
 The waker cell of promise_node.h: a two-bit lock that one registering thread and any number of wakers
 share.  A waker is represented by its identity, the null waker by None.
 */
module AtomicWakers {
  import opened Wrappers

  /** The atomic state; WAITING is neither bit. */
  datatype Bits = Bits(registering: bool, waking: bool)

  const WAITING := Bits(false, false)

  /** The access the registering thread makes next. */
  datatype Registrar = Resting | Store(w: nat) | Exchange | FireCell | FireArgument(w: nat)

  /** The access a waker that holds the cell makes next. */
  datatype Holder = Fire | Release

  /**
   History, read by no step: `fired` lists the wakers fired; `owner` is the waker of the last
   registration that took the cell, `since` the length of `fired` when it did, `landed` whether the
   fetch_or of some wake has come since; `lost` whether a registration ever dropped its waker silently.
   */
  datatype State = State(bits: Bits, cell: Option<nat>, registrar: Registrar, holders: map<nat, Holder>,
                         fired: seq<nat>, owner: Option<nat>, since: nat, landed: bool, lost: bool)

  datatype Event = Register(w: nat) | RegistrarStep | Wake(i: nat) | HolderStep(i: nat)

  const Init := State(WAITING, None, Resting, map[], [], None, 0, false, false)

  function Fired(s: State, w: Option<nat>): seq<nat> {
    s.fired + if w.Some? then [w.value] else []
  }

  function Apply(s: State, e: Event): State {
    match e
    case Register(w) =>
      if !s.registrar.Resting? then s
      else if s.bits == WAITING then
        s.(bits := Bits(true, false), registrar := Store(w), owner := Some(w), since := |s.fired|, landed := false)
      else if s.bits == Bits(false, true) then s.(registrar := FireArgument(w))
      else s.(lost := true)
    case RegistrarStep => (
      match s.registrar
      case Resting => s
      case Store(w) => s.(cell := Some(w), registrar := Exchange)
      case Exchange => s.(bits := WAITING, registrar := if s.bits == Bits(true, true) then FireCell else Resting)
      case FireCell => s.(fired := Fired(s, s.cell), registrar := Resting)
      case FireArgument(w) => s.(fired := s.fired + [w], registrar := Resting))
    case Wake(i) =>
      if i in s.holders then s
      else if s.bits == WAITING
      then s.(bits := s.bits.(waking := true), landed := true, holders := s.holders[i := Fire])
      else s.(bits := s.bits.(waking := true), landed := true)
    case HolderStep(i) =>
      if i !in s.holders then s
      else if s.holders[i].Fire? then s.(fired := Fired(s, s.cell), holders := s.holders[i := Release])
      else s.(bits := WAITING, holders := s.holders - {i})
  }

  function Run(s: State, es: seq<Event>): State {
    if es == [] then s else Apply(Run(s, es[..|es| - 1]), es[|es| - 1])
  }

  /** Somebody is bound to fire the cell's waker. */
  ghost predicate Obliged(s: State) {
    || s.bits == Bits(true, true)
    || s.registrar.FireCell?
    || exists i :: i in s.holders && s.holders[i].Fire?
  }

  ghost predicate FiredSince(s: State) {
    s.since <= |s.fired| && s.owner.Some? && s.owner.value in s.fired[s.since..]
  }

  ghost predicate Inv(s: State) {
    && (s.bits.registering <==> s.registrar.Store? || s.registrar.Exchange?)
    && (forall i, j :: i in s.holders && j in s.holders ==> i == j)
    && (s.holders != map[] <==> s.bits == Bits(false, true))
    && (s.registrar.Store? ==> s.owner == Some(s.registrar.w))
    && (!s.registrar.Store? ==> s.cell == s.owner)
    && s.since <= |s.fired|
    && (s.landed && s.owner.Some? ==> FiredSince(s) || Obliged(s))
    && (s.holders != map[] ==> s.landed)
    && !s.lost
  }

  lemma StillFired(s: State, s': State)
    requires FiredSince(s) && s'.owner == s.owner && s'.since == s.since && s.fired <= s'.fired
    ensures FiredSince(s')
  {
    var k :| s.since <= k < |s.fired| && s.fired[k] == s.owner.value;
    assert s'.fired[s'.since..][k - s.since] == s.owner.value;
  }

  lemma FiresOwner(s: State, s': State)
    requires s.since <= |s.fired| && s.cell == s.owner && s.owner.Some?
    requires s'.owner == s.owner && s'.since == s.since && s'.fired == s.fired + [s.cell.value]
    ensures FiredSince(s')
  {
    assert s'.fired[s'.since..][|s.fired| - s.since] == s.owner.value;
  }

  lemma Step(s: State, e: Event)
    requires Inv(s)
    ensures Inv(Apply(s, e))
  {
    hide FiredSince;
    var s' := Apply(s, e);
    if s'.owner == s.owner && s'.since == s.since {
      if FiredSince(s) { StillFired(s, s'); }
      if s.owner.Some? && s.cell == s.owner && s'.fired == s.fired + [s.cell.value] { FiresOwner(s, s'); }
    }
    if e.Wake? && s.bits == WAITING && e.i !in s.holders { assert s'.holders[e.i].Fire?; }
    if e.HolderStep? && e.i in s.holders && s.holders[e.i].Release? { assert s'.holders == map[]; }
    if Obliged(s) && !s.bits.registering && !s.registrar.FireCell? {
      var i :| i in s.holders && s.holders[i].Fire?;
      assert i in s'.holders;
    }
  }

  lemma {:induction false} RunInv(es: seq<Event>)
    ensures Inv(Run(Init, es))
  {
    if es != [] {
      RunInv(es[..|es| - 1]);
      Step(Run(Init, es[..|es| - 1]), es[|es| - 1]);
    }
  }

  /**
   Mutual exclusion on the cell: while the registering thread writes it nobody else reads it, and no two
   wakers hold it.
   */
  lemma CellIsExclusive(es: seq<Event>)
    ensures var s := Run(Init, es);
            && (s.registrar.Store? ==> s.holders == map[])
            && (forall i, j :: i in s.holders && j in s.holders ==> i == j)
  {
    RunInv(es);
  }

  /** With one registering thread the branch that drops a waker silently is never taken. */
  lemma NothingDroppedSilently(es: seq<Event>)
    ensures !Run(Init, es).lost
  {
    RunInv(es);
  }

  /**
   No lost wakeup: once any wake has landed after a registration took the cell, the registered waker has
   been fired since, or the registering thread or a waker is still inside a call that fires it.
   */
  lemma NoLostWake(es: seq<Event>)
    requires var s := Run(Init, es); s.landed && s.owner.Some?
    ensures var s := Run(Init, es);
            && s.since <= |s.fired|
            && (Obliged(s) || s.owner.value in s.fired[s.since..])
            && (s.registrar.Resting? && s.holders == map[] ==> s.owner.value in s.fired[s.since..])
  {
    RunInv(es);
  }

  /** The fetch_or of a wake lands, whatever state it finds; finding the cell free it gets the cell. */
  lemma WakeLands(es: seq<Event>, i: nat)
    requires i !in Run(Init, es).holders
    ensures var s, s' := Run(Init, es), Apply(Run(Init, es), Wake(i));
            s'.landed && (i in s'.holders <==> s.bits == WAITING)
  {
    RunInv(es);
  }

  /** How many accesses of its own the registering thread, or waker i, is from the end of its call. */
  function RegistrarLeft(s: State): nat {
    match s.registrar
    case Resting => 0
    case Store(_) => 3
    case Exchange => 2
    case FireCell => 1
    case FireArgument(_) => 1
  }

  function HolderLeft(s: State, i: nat): nat {
    if i !in s.holders then 0 else if s.holders[i].Fire? then 2 else 1
  }

  /** Every call ends: an access of its own brings its end nearer, and nobody puts it off. */
  lemma CallsProgress(s: State, e: Event, i: nat)
    requires Inv(s)
    ensures var s' := Apply(s, e);
            && (e.RegistrarStep? && RegistrarLeft(s) > 0 ==> RegistrarLeft(s') < RegistrarLeft(s))
            && (!e.Register? ==> RegistrarLeft(s') <= RegistrarLeft(s))
            && (e == HolderStep(i) && HolderLeft(s, i) > 0 ==> HolderLeft(s', i) < HolderLeft(s, i))
            && (e != Wake(i) ==> HolderLeft(s', i) <= HolderLeft(s, i))
  {
    hide Obliged, FiredSince;
  }

  /** A registration that finds a wake in flight fires its own waker instead of storing it. */
  lemma RefusedRegistrationFires(es: seq<Event>, w: nat)
    requires Run(Init, es).registrar.Resting?
    ensures var s := Run(Init, es);
            var s1 := Apply(s, Register(w));
            var s2 := Apply(s1, RegistrarStep);
            if s.bits == WAITING then s1.owner == Some(w) && s2.cell == Some(w)
            else s2.fired == s.fired + [w] && s2.registrar.Resting?
  {
    RunInv(es);
  }

  /** Steps of wakers only; of anybody but waker i. */
  predicate ByWakers(es: seq<Event>) {
    forall k :: 0 <= k < |es| ==> es[k].Wake? || es[k].HolderStep?
  }

  predicate NotOf(i: nat, es: seq<Event>) {
    forall k :: 0 <= k < |es| ==> es[k] != Wake(i) && es[k] != HolderStep(i)
  }

  /** Wakers never touch the registering thread's side and only add to the wakers fired. */
  lemma {:induction false} WakersLeaveRegistrar(s: State, es: seq<Event>)
    requires ByWakers(es)
    ensures var r := Run(s, es);
            r.registrar == s.registrar && r.cell == s.cell && r.owner == s.owner && s.fired <= r.fired
  {
    if es != [] {
      WakersLeaveRegistrar(s, es[..|es| - 1]);
      assert ByWakers([es[|es| - 1]]) by { assert [es[|es| - 1]][0] == es[|es| - 1]; }
    }
  }

  /** While waker i holds the cell nobody else changes it or ends the hold. */
  lemma {:induction false} HolderKeepsCell(s: State, es: seq<Event>, i: nat)
    requires Inv(s) && i in s.holders && NotOf(i, es)
    ensures var r := Run(s, es);
            Inv(r) && i in r.holders && r.holders[i] == s.holders[i] && r.cell == s.cell && s.fired <= r.fired
  {
    if es != [] {
      var prior, e := es[..|es| - 1], es[|es| - 1];
      HolderKeepsCell(s, prior, i);
      Step(Run(s, prior), e);
      HolderKeepsOnce(Run(s, prior), e, i);
    }
  }

  lemma HolderKeepsOnce(s: State, e: Event, i: nat)
    requires Inv(s) && i in s.holders && e != Wake(i) && e != HolderStep(i)
    ensures var r := Apply(s, e);
            i in r.holders && r.holders[i] == s.holders[i] && r.cell == s.cell && s.fired <= r.fired
  {
    hide Obliged, FiredSince;
  }

  /**
   The cell in place.  The first methods are one atomic access each, with the code up to the next; RegisterWaker
   and WakeCall are whole calls, access by access, with other threads running in between.
   */
  class AtomicWaker {
    var bits: Bits
    var cell: Option<nat>
    var registrar: Registrar
    var holders: map<nat, Holder>
    ghost var fired: seq<nat>
    ghost var owner: Option<nat>
    ghost var since: nat
    ghost var landed: bool
    ghost var lost: bool

    ghost function View(): State
      reads this
    {
      State(bits, cell, registrar, holders, fired, owner, since, landed, lost)
    }

    constructor ()
      ensures View() == Init
    {
      bits, cell, registrar, holders := WAITING, None, Resting, map[];
      fired, owner, since, landed, lost := [], None, 0, false, false;
    }

    ghost method Note(w: Option<nat>)
      modifies this`fired
      ensures fired == Fired(old(View()), w)
    {
      if w.Some? { fired := fired + [w.value]; }
    }

    /** register_waker: the opening compare_exchange. */
    method RegisterCas(w: nat)
      requires registrar.Resting?
      modifies this
      ensures View() == Apply(old(View()), Register(w))
    {
      var expected := bits;
      if expected == WAITING {
        bits := Bits(true, false);
        registrar := Store(w);
        owner, since, landed := Some(w), |fired|, false;
      } else if expected == Bits(false, true) {
        registrar := FireArgument(w);
      } else {
        lost := true;
      }
    }

    /** register_waker: whatever comes next. */
    method RegisterAccess()
      modifies this
      ensures View() == Apply(old(View()), RegistrarStep)
    {
      match registrar {
        case Resting =>
        case Store(w) =>
          cell := Some(w);
          registrar := Exchange;
        case Exchange =>
          var prev := bits;
          bits := WAITING;
          registrar := if prev == Bits(true, true) then FireCell else Resting;
        case FireCell =>
          Note(cell);
          registrar := Resting;
        case FireArgument(w) =>
          Note(Some(w));
          registrar := Resting;
      }
    }

    /** wake by thread i: the fetch_or. */
    method WakeFetchOr(i: nat)
      requires i !in holders
      modifies this
      ensures View() == Apply(old(View()), Wake(i))
    {
      var prev := bits;
      bits := bits.(waking := true);
      landed := true;
      if prev == WAITING {
        holders := holders[i := Fire];
      }
    }

    /** wake by thread i, holding the cell: fire the waker, then release. */
    method WakeAccess(i: nat)
      requires i in holders
      modifies this
      ensures View() == Apply(old(View()), HolderStep(i))
    {
      if holders[i].Fire? {
        Note(cell);
        holders := holders[i := Release];
      } else {
        bits := WAITING;
        holders := holders - {i};
      }
    }

    /** One access of any thread. */
    method Access(e: Event)
      modifies this
      ensures View() == Apply(old(View()), e)
    {
      match e {
        case Register(w) => if registrar.Resting? { RegisterCas(w); }
        case RegistrarStep => RegisterAccess();
        case Wake(i) => if i !in holders { WakeFetchOr(i); }
        case HolderStep(i) => if i in holders { WakeAccess(i); }
      }
    }

    /** Other threads run. */
    method Others(es: seq<Event>)
      requires Inv(View())
      modifies this
      ensures Inv(View()) && View() == Run(old(View()), es)
    {
      hide Inv, Apply;
      for k := 0 to |es|
        invariant Inv(View()) && View() == Run(old(View()), es[..k])
      {
        Step(View(), es[k]);
        Access(es[k]);
        assert es[..k + 1][..k] == es[..k];
      }
      assert es[..|es|] == es;
    }

    method Wakers(es: seq<Event>)
      requires Inv(View()) && ByWakers(es)
      modifies this
      ensures Inv(View()) && registrar == old(registrar) && cell == old(cell) && owner == old(owner)
      ensures old(fired) <= fired
    {
      WakersLeaveRegistrar(View(), es);
      Others(es);
    }

    /** The registering thread's next access. */
    method Registers(e: Event)
      requires Inv(View()) && (e.RegistrarStep? || (e.Register? && registrar.Resting?))
      modifies this
      ensures Inv(View()) && View() == Apply(old(View()), e)
    {
      Step(View(), e);
      Access(e);
    }

    /** register_waker(w): on return the cell has w, or w has been fired during the call. */
    method RegisterWaker(w: nat, es0: seq<Event>, es1: seq<Event>, es2: seq<Event>) returns (stored: bool)
      requires Inv(View()) && registrar.Resting?
      requires ByWakers(es0) && ByWakers(es1) && ByWakers(es2)
      modifies this
      ensures Inv(View()) && registrar.Resting? && old(fired) <= fired
      ensures stored <==> old(bits) == WAITING
      ensures stored ==> cell == Some(w) && owner == Some(w)
      ensures !stored ==> cell == old(cell) && w in fired[|old(fired)|..]
    {
      hide Inv, ByWakers;
      stored := bits == WAITING;
      ghost var before := fired;
      assert !stored ==> bits == Bits(false, true) by { FreeOrWaking(View()); }
      Registers(Register(w));
      Wakers(es0);
      Registers(RegistrarStep);  // store the waker, or fire it
      if !stored {
        assert fired[|before|..][|fired| - 1 - |before|] == w;
        return;
      }
      Wakers(es1);
      Registers(RegistrarStep);  // exchange
      if registrar.FireCell? {
        Wakers(es2);
        Registers(RegistrarStep);  // fire on behalf of the waker that came meanwhile
      }
      assert cell == Some(w) && owner == Some(w);
    }

    lemma FreeOrWaking(s: State)
      requires Inv(s) && s.registrar.Resting?
      ensures s.bits == WAITING || s.bits == Bits(false, true)
    {
    }

    /** wake() by thread i: having found the cell free, it has fired the waker that was in it. */
    method WakeCall(i: nat, es0: seq<Event>, es1: seq<Event>) returns (took: bool)
      requires Inv(View()) && i !in holders && NotOf(i, es0) && NotOf(i, es1)
      modifies this
      ensures Inv(View()) && i !in holders && old(fired) <= fired
      ensures took <==> old(bits) == WAITING
      ensures took && old(cell).Some? ==> old(cell).value in fired[|old(fired)|..]
      ensures !took ==> View() == Apply(old(View()), Wake(i))
    {
      hide Inv, NotOf;
      took := bits == WAITING;
      ghost var before := fired;
      Step(View(), Wake(i));
      WakeFetchOr(i);
      if took {
        HolderKeepsCell(View(), es0, i);
        Others(es0);
        Step(View(), HolderStep(i));
        WakeAccess(i);  // fire
        ghost var at := |fired| - 1;
        HolderKeepsCell(View(), es1, i);
        Others(es1);
        Step(View(), HolderStep(i));
        WakeAccess(i);  // release
        if old(cell).Some? { assert fired[|before|..][at - |before|] == old(cell).value; }
      }
    }
  }
}
