/**
 Promise trees: what `then` builds (promise.h), how a poll walks them, and what driving them to the end
 means.  Values are integers; a continuation is a total function with a tag that tells calls apart.
 */
module Promises {
  import opened Wrappers

  /**
   `then` with a value-returning continuation makes a Transform node; with a promise-returning one it makes
   a Chain node over a Transform node, written ChainStep1 here, which becomes ChainStep2 once its outer
   promise has been taken.  A yield node is an Immediate one.
   */
  datatype Node =
    | Immediate(v: int)
    | Adapter(id: nat)
    | Transform(dep: Node, tag: nat, f: int -> int)
    | ChainStep1(dep: Node, tag: nat, k: int -> Node)
    | ChainStep2(inner: Node)

  datatype Call = Call(tag: nat, arg: int)

  /** A value and the continuation calls made to get it, in order. */
  datatype Outcome = Outcome(v: int, calls: seq<Call>)

  /**
   Direct evaluation when adapter i is resolved with rho(i).  Continuations may return promises without
   end, so evaluation is partial; fuel bounds the nesting of promises they return.
   */
  function Value(fuel: nat, n: Node, rho: nat -> int): Option<Outcome>
    decreases fuel, n
  {
    match n
    case Immediate(v) => Some(Outcome(v, []))
    case Adapter(i) => Some(Outcome(rho(i), []))
    case Transform(dep, tag, f) =>
      var d := Value(fuel, dep, rho);
      if d.None? then None else Some(Outcome(f(d.value.v), d.value.calls + [Call(tag, d.value.v)]))
    case ChainStep1(dep, tag, k) =>
      var d := Value(fuel, dep, rho);
      if d.None? || fuel == 0 then None else
        var r := Value(fuel - 1, k(d.value.v), rho);
        if r.None? then None
        else Some(Outcome(r.value.v, d.value.calls + [Call(tag, d.value.v)] + r.value.calls))
    case ChainStep2(inner) => Value(fuel, inner, rho)
  }

  /** n evaluates to o. */
  ghost predicate Means(n: Node, rho: nat -> int, o: Outcome) {
    exists fuel :: Value(fuel, n, rho) == Some(o)
  }

  /** take() down the tree; the Chain node asserts that it is past Step1. */
  function TakeOf(n: Node, rho: nat -> int): Option<Outcome> {
    match n
    case Immediate(v) => Some(Outcome(v, []))
    case Adapter(i) => Some(Outcome(rho(i), []))
    case Transform(dep, tag, f) =>
      var d := TakeOf(dep, rho);
      if d.None? then None else Some(Outcome(f(d.value.v), d.value.calls + [Call(tag, d.value.v)]))
    case ChainStep1(_, _, _) => None
    case ChainStep2(inner) => TakeOf(inner, rho)
  }

  /** The one node at the bottom of the path a poll goes down. */
  function Focus(n: Node): (r: Node)
    ensures r.Immediate? || r.Adapter?
  {
    match n
    case Immediate(_) => n
    case Adapter(_) => n
    case Transform(dep, _, _) => Focus(dep)
    case ChainStep1(dep, _, _) => Focus(dep)
    case ChainStep2(inner) => Focus(inner)
  }

  /** Whether some Chain node on that path is still in Step1. */
  predicate Unchained(n: Node) {
    match n
    case Immediate(_) => true
    case Adapter(_) => true
    case Transform(dep, _, _) => Unchained(dep)
    case ChainStep1(_, _, _) => false
    case ChainStep2(inner) => Unchained(inner)
  }

  lemma {:induction false} TakeIsDefined(n: Node, rho: nat -> int)
    ensures TakeOf(n, rho).Some? <==> Unchained(n)
    ensures Unchained(n) ==> forall fuel :: Value(fuel, n, rho) == TakeOf(n, rho)
  {
    match n
    case Transform(dep, _, _) => TakeIsDefined(dep, rho);
    case ChainStep2(inner) => TakeIsDefined(inner, rho);
    case _ =>
  }

  /** The node after the innermost Step1 Chain node has seen its outer poll return true, and the calls this makes. */
  function Advance(n: Node, rho: nat -> int): (r: (Node, seq<Call>))
    requires !Unchained(n)
  {
    match n
    case Transform(dep, tag, f) =>
      var (d, cs) := Advance(dep, rho);
      (Transform(d, tag, f), cs)
    case ChainStep1(dep, tag, k) =>
      if Unchained(dep) then
        TakeIsDefined(dep, rho);
        var o := TakeOf(dep, rho).value;
        (ChainStep2(k(o.v)), o.calls + [Call(tag, o.v)])
      else
        var (d, cs) := Advance(dep, rho);
        (ChainStep1(d, tag, k), cs)
    case ChainStep2(inner) =>
      var (d, cs) := Advance(inner, rho);
      (ChainStep2(d), cs)
  }

  /** More fuel never changes an answer, so a promise means at most one outcome. */
  lemma {:induction false} FuelIsEnough(a: nat, b: nat, n: Node, rho: nat -> int)
    requires a <= b && Value(a, n, rho).Some?
    ensures Value(b, n, rho) == Value(a, n, rho)
    decreases a, n
  {
    match n
    case Immediate(_) =>
    case Adapter(_) =>
    case Transform(dep, _, _) => FuelIsEnough(a, b, dep, rho);
    case ChainStep1(dep, _, k) =>
      FuelIsEnough(a, b, dep, rho);
      FuelIsEnough(a - 1, b - 1, k(Value(a, dep, rho).value.v), rho);
    case ChainStep2(inner) => FuelIsEnough(a, b, inner, rho);
  }

  lemma MeaningIsUnique(n: Node, rho: nat -> int, o: Outcome, o': Outcome)
    requires Means(n, rho, o) && Means(n, rho, o')
    ensures o == o'
  {
    var a: nat :| Value(a, n, rho) == Some(o);
    var b: nat :| Value(b, n, rho) == Some(o');
    if a <= b { FuelIsEnough(a, b, n, rho); } else { FuelIsEnough(b, a, n, rho); }
  }

  /** An advance makes exactly the first calls of direct evaluation and leaves the rest. */
  lemma {:induction false} AdvanceKeeps(n: Node, rho: nat -> int, fuel: nat)
    requires !Unchained(n) && Value(fuel, Advance(n, rho).0, rho).Some?
    ensures var (n', cs) := Advance(n, rho);
            var o := Value(fuel, n', rho).value;
            Value(fuel + 1, n, rho) == Some(Outcome(o.v, cs + o.calls))
    decreases n
  {
    match n
    case Transform(dep, tag, f) =>
      AdvanceKeeps(dep, rho, fuel);
      var (d, cs) := Advance(dep, rho);
      var o := Value(fuel, d, rho).value;
      assert cs + o.calls + [Call(tag, o.v)] == cs + (o.calls + [Call(tag, o.v)]);
    case ChainStep1(dep, tag, k) =>
      if Unchained(dep) {
        TakeIsDefined(dep, rho);
      } else {
        AdvanceKeeps(dep, rho, fuel);
        var (d, cs) := Advance(dep, rho);
        var o := Value(fuel, d, rho).value;
        FuelIsEnough(fuel - 1, fuel, k(o.v), rho);
        var r := Value(fuel - 1, k(o.v), rho).value.calls;
        assert cs + o.calls + [Call(tag, o.v)] + r == cs + (o.calls + [Call(tag, o.v)] + r);
      }
    case ChainStep2(inner) => AdvanceKeeps(inner, rho, fuel);
  }

  /** How many Chain nodes direct evaluation takes from Step1 to Step2. */
  function Steps(fuel: nat, n: Node, rho: nat -> int): nat
    requires Value(fuel, n, rho).Some?
    decreases fuel, n
  {
    match n
    case Immediate(_) => 0
    case Adapter(_) => 0
    case Transform(dep, _, _) => Steps(fuel, dep, rho)
    case ChainStep1(dep, _, k) =>
      Steps(fuel, dep, rho) + 1 + Steps(fuel - 1, k(Value(fuel, dep, rho).value.v), rho)
    case ChainStep2(inner) => Steps(fuel, inner, rho)
  }

  /** The adapter leaves it meets. */
  function Leaves(fuel: nat, n: Node, rho: nat -> int): set<nat>
    requires Value(fuel, n, rho).Some?
    decreases fuel, n
  {
    match n
    case Immediate(_) => {}
    case Adapter(i) => {i}
    case Transform(dep, _, _) => Leaves(fuel, dep, rho)
    case ChainStep1(dep, _, k) =>
      Leaves(fuel, dep, rho) + Leaves(fuel - 1, k(Value(fuel, dep, rho).value.v), rho)
    case ChainStep2(inner) => Leaves(fuel, inner, rho)
  }

  /** Neither depends on the fuel. */
  lemma {:induction false} FuelChangesNothing(a: nat, b: nat, n: Node, rho: nat -> int)
    requires a <= b && Value(a, n, rho).Some?
    ensures Value(b, n, rho) == Value(a, n, rho)
    ensures Steps(b, n, rho) == Steps(a, n, rho) && Leaves(b, n, rho) == Leaves(a, n, rho)
    decreases a, n
  {
    FuelIsEnough(a, b, n, rho);
    match n
    case Immediate(_) =>
    case Adapter(_) =>
    case Transform(dep, _, _) => FuelChangesNothing(a, b, dep, rho);
    case ChainStep1(dep, _, k) =>
      FuelChangesNothing(a, b, dep, rho);
      FuelChangesNothing(a - 1, b - 1, k(Value(a, dep, rho).value.v), rho);
    case ChainStep2(inner) => FuelChangesNothing(a, b, inner, rho);
  }

  lemma {:induction false} UnchainedHasNoSteps(fuel: nat, n: Node, rho: nat -> int)
    requires Value(fuel, n, rho).Some?
    ensures Unchained(n) ==> Steps(fuel, n, rho) == 0
    ensures Focus(n).Adapter? ==> Focus(n).id in Leaves(fuel, n, rho)
    decreases n
  {
    match n
    case Transform(dep, _, _) => UnchainedHasNoSteps(fuel, dep, rho);
    case ChainStep1(dep, _, _) => UnchainedHasNoSteps(fuel, dep, rho);
    case ChainStep2(inner) => UnchainedHasNoSteps(fuel, inner, rho);
    case _ =>
  }

  /** An advance is one of those steps: what is left has an outcome, one step fewer and no new leaves. */
  ghost predicate Spent(fuel: nat, n: Node, n': Node, cs: seq<Call>, rho: nat -> int)
    requires Value(fuel, n, rho).Some?
  {
    && Value(fuel, n', rho).Some?
    && (var o := Value(fuel, n', rho).value; Value(fuel, n, rho) == Some(Outcome(o.v, cs + o.calls)))
    && Steps(fuel, n, rho) == Steps(fuel, n', rho) + 1
    && Leaves(fuel, n', rho) <= Leaves(fuel, n, rho)
  }

  lemma {:induction false} AdvanceSpends(n: Node, rho: nat -> int, fuel: nat)
    requires !Unchained(n) && Value(fuel, n, rho).Some?
    ensures Spent(fuel, n, Advance(n, rho).0, Advance(n, rho).1, rho)
    decreases n
  {
    match n
    case Transform(dep, tag, f) =>
      AdvanceSpends(dep, rho, fuel);
      var (d, cs) := Advance(dep, rho);
      var o := Value(fuel, d, rho).value;
      assert cs + o.calls + [Call(tag, o.v)] == cs + (o.calls + [Call(tag, o.v)]);
    case ChainStep1(dep, tag, k) =>
      if Unchained(dep) {
        TakeIsDefined(dep, rho);
        UnchainedHasNoSteps(fuel, dep, rho);
        FuelChangesNothing(fuel - 1, fuel, k(Value(fuel, dep, rho).value.v), rho);
      } else {
        AdvanceSpends(dep, rho, fuel);
        var (d, cs) := Advance(dep, rho);
        var o := Value(fuel, d, rho).value;
        var r := Value(fuel - 1, k(o.v), rho).value.calls;
        assert cs + o.calls + [Call(tag, o.v)] + r == cs + (o.calls + [Call(tag, o.v)] + r);
      }
    case ChainStep2(inner) => AdvanceSpends(inner, rho, fuel);
  }

  /** take reads no leaf but the focus. */
  lemma {:induction false} TakeReads(n: Node, rho: nat -> int, rho': nat -> int)
    requires Unchained(n) && (Focus(n).Adapter? ==> rho'(Focus(n).id) == rho(Focus(n).id))
    ensures TakeOf(n, rho') == TakeOf(n, rho)
  {
    match n
    case Transform(dep, _, _) => TakeReads(dep, rho, rho');
    case ChainStep2(inner) => TakeReads(inner, rho, rho');
    case _ =>
  }

  /** Nor does an advance. */
  lemma {:induction false} AdvanceReads(n: Node, rho: nat -> int, rho': nat -> int)
    requires !Unchained(n) && (Focus(n).Adapter? ==> rho'(Focus(n).id) == rho(Focus(n).id))
    ensures Advance(n, rho') == Advance(n, rho)
  {
    match n
    case Transform(dep, _, _) => AdvanceReads(dep, rho, rho');
    case ChainStep1(dep, _, _) =>
      if Unchained(dep) {
        TakeIsDefined(dep, rho);
        TakeIsDefined(dep, rho');
        TakeReads(dep, rho, rho');
      } else {
        AdvanceReads(dep, rho, rho');
      }
    case ChainStep2(inner) => AdvanceReads(inner, rho, rho');
  }

  lemma RegroupRight(a: nat, p: Node, f: nat, k: int -> Node, g: nat, l: int -> Node, rho: nat -> int)
    requires Value(a, ChainStep1(ChainStep1(p, f, k), g, l), rho).Some?
    ensures Value(a + 1, ChainStep1(p, f, x => ChainStep1(k(x), g, l)), rho) ==
            Value(a, ChainStep1(ChainStep1(p, f, k), g, l), rho)
  {
    var right := ChainStep1(p, f, x => ChainStep1(k(x), g, l));
    assert Value(a, ChainStep1(p, f, k), rho).Some?;
    var u := Value(a, p, rho).value;
    var v := Value(a - 1, k(u.v), rho).value;
    var w := Value(a - 1, l(v.v), rho).value;
    FuelIsEnough(a, a + 1, p, rho);
    FuelIsEnough(a - 1, a, k(u.v), rho);
    var inner := ChainStep1(k(u.v), g, l);
    assert right.k(u.v) == inner;
    assert Value(a, inner, rho) == Some(Outcome(w.v, v.calls + [Call(g, v.v)] + w.calls));
    assert u.calls + [Call(f, u.v)] + v.calls + [Call(g, v.v)] + w.calls ==
           u.calls + [Call(f, u.v)] + (v.calls + [Call(g, v.v)] + w.calls);
  }

  lemma RegroupLeft(a: nat, p: Node, f: nat, k: int -> Node, g: nat, l: int -> Node, rho: nat -> int)
    requires Value(a, ChainStep1(p, f, x => ChainStep1(k(x), g, l)), rho).Some?
    ensures Value(a, ChainStep1(ChainStep1(p, f, k), g, l), rho) ==
            Value(a, ChainStep1(p, f, x => ChainStep1(k(x), g, l)), rho)
  {
    var right := ChainStep1(p, f, x => ChainStep1(k(x), g, l));
    assert Value(a, p, rho).Some?;
    var u := Value(a, p, rho).value;
    var inner := ChainStep1(k(u.v), g, l);
    assert right.k(u.v) == inner;
    assert Value(a - 1, inner, rho).Some? && Value(a - 1, k(u.v), rho).Some?;
    var v := Value(a - 1, k(u.v), rho).value;
    var w := Value(a - 2, l(v.v), rho).value;
    FuelIsEnough(a - 2, a - 1, l(v.v), rho);
    assert Value(a, ChainStep1(p, f, k), rho) == Some(Outcome(v.v, u.calls + [Call(f, u.v)] + v.calls));
    assert u.calls + [Call(f, u.v)] + v.calls + [Call(g, v.v)] + w.calls ==
           u.calls + [Call(f, u.v)] + (v.calls + [Call(g, v.v)] + w.calls);
  }

  /** `then` is associative: same value, same continuation calls in the same order. */
  lemma ThenIsAssociative(p: Node, f: nat, k: int -> Node, g: nat, l: int -> Node, rho: nat -> int, o: Outcome)
    ensures Means(ChainStep1(ChainStep1(p, f, k), g, l), rho, o) <==>
            Means(ChainStep1(p, f, x => ChainStep1(k(x), g, l)), rho, o)
  {
    hide Value;
    var left, right := ChainStep1(ChainStep1(p, f, k), g, l), ChainStep1(p, f, x => ChainStep1(k(x), g, l));
    if Means(left, rho, o) {
      var a: nat :| Value(a, left, rho) == Some(o);
      RegroupRight(a, p, f, k, g, l, rho);
      assert Value(a + 1, right, rho) == Some(o);
    }
    if Means(right, rho, o) {
      var a: nat :| Value(a, right, rho) == Some(o);
      RegroupLeft(a, p, f, k, g, l, rho);
      assert Value(a, left, rho) == Some(o);
    }
  }

  /** The unit law: `then` on a resolved promise is the call. */
  lemma ThenOnResolved(v: int, tag: nat, k: int -> Node, rho: nat -> int, o: Outcome)
    ensures Means(ChainStep1(Immediate(v), tag, k), rho, o) <==>
            |o.calls| > 0 && o.calls[0] == Call(tag, v) && Means(k(v), rho, Outcome(o.v, o.calls[1..]))
  {
    var n := ChainStep1(Immediate(v), tag, k);
    if Means(n, rho, o) {
      var a: nat :| Value(a, n, rho) == Some(o);
      assert Value(a, n.dep, rho) == Some(Outcome(v, []));
      var r := Value(a - 1, k(v), rho).value;
      assert o.calls == [Call(tag, v)] + r.calls;
      assert Value(a - 1, k(v), rho) == Some(Outcome(o.v, o.calls[1..]));
    }
    if |o.calls| > 0 && o.calls[0] == Call(tag, v) && Means(k(v), rho, Outcome(o.v, o.calls[1..])) {
      var a: nat :| Value(a, k(v), rho) == Some(Outcome(o.v, o.calls[1..]));
      assert Value(a + 1, n.dep, rho) == Some(Outcome(v, []));
      assert o.calls == [] + [Call(tag, v)] + o.calls[1..];
      assert Value(a + 1, n, rho) == Some(o);
    }
  }

  /** A value-returning `then` is the promise-returning one that returns a resolved promise. */
  lemma TransformIsThenResolved(p: Node, tag: nat, f: int -> int, rho: nat -> int, o: Outcome)
    ensures Means(Transform(p, tag, f), rho, o) <==> Means(ChainStep1(p, tag, x => Immediate(f(x))), rho, o)
  {
    var left, right := Transform(p, tag, f), ChainStep1(p, tag, x => Immediate(f(x)));
    if Means(left, rho, o) {
      var a: nat :| Value(a, left, rho) == Some(o);
      FuelIsEnough(a, a + 1, p, rho);
      var u := Value(a, p, rho).value;
      assert Value(a, right.k(u.v), rho) == Some(Outcome(f(u.v), []));
      assert u.calls + [Call(tag, u.v)] + [] == u.calls + [Call(tag, u.v)];
      assert Value(a + 1, right, rho) == Some(o);
    }
    if Means(right, rho, o) {
      var a: nat :| Value(a, right, rho) == Some(o);
      assert Value(a, right.dep, rho).Some?;
      var u := Value(a, p, rho).value;
      assert Value(a - 1, right.k(u.v), rho) == Some(Outcome(f(u.v), []));
      assert u.calls + [Call(tag, u.v)] + [] == u.calls + [Call(tag, u.v)];
      assert Value(a, left, rho) == Some(o);
    }
  }

  datatype Step = Step1 | Step2

  /** The Transform node under a Chain node in Step1: what `then` was given. */
  datatype Outer = Outer(dep: Node, tag: nat, k: int -> Node)

  /** The Chain node in place; the nodes below it are values. */
  class ChainPromiseNode {
    var step: Step
    var outer: Option<Outer>
    var inner: Option<Node>

    ghost predicate Valid()
      reads this
    {
      if step.Step1? then outer.Some? && inner.None? else outer.None? && inner.Some?
    }

    ghost function View(): Node
      reads this
      requires Valid()
    {
      if step.Step1? then ChainStep1(outer.value.dep, outer.value.tag, outer.value.k) else ChainStep2(inner.value)
    }

    constructor (dep: Node, tag: nat, k: int -> Node)
      ensures Valid() && View() == ChainStep1(dep, tag, k)
    {
      step, outer, inner := Step1, Some(Outer(dep, tag, k)), None;
    }

    /**
     poll up to the poll of the inner promise; `ready` is what the poll of the outer promise returned, when
     there is one.  onward says that the inner promise is polled next, with that poll's result.
     */
    method Poll(ready: bool, rho: nat -> int) returns (onward: bool, calls: seq<Call>)
      requires Valid() && (step.Step1? && ready ==> Unchained(outer.value.dep))
      modifies this
      ensures Valid() && (onward <==> step.Step2?)
      ensures old(step).Step1? && ready ==> (View(), calls) == Advance(old(View()), rho)
      ensures old(step).Step2? || !ready ==> View() == old(View()) && calls == []
      ensures forall fuel: nat, o: Outcome :: Value(fuel, View(), rho) == Some(o) ==>
                Means(old(View()), rho, Outcome(o.v, calls + o.calls))
    {
      onward, calls := true, [];
      ghost var before := View();
      if step.Step1? {
        if ready {
          TakeIsDefined(outer.value.dep, rho);
          var o := TakeOf(outer.value.dep, rho).value;
          calls := o.calls + [Call(outer.value.tag, o.v)];
          inner := Some(outer.value.k(o.v));
          outer, step := None, Step2;
        } else {
          onward := false;
        }
      }
      PollKeeps(before, View(), calls, rho);
    }

    /** take: refused in Step1. */
    method Take(rho: nat -> int) returns (r: Option<Outcome>)
      requires Valid()
      ensures r == TakeOf(View(), rho)
      ensures r.Some? ==> step.Step2? && Means(View(), rho, r.value)
    {
      r := if step.Step1? then None else TakeOf(inner.value, rho);
      TakeIsDefined(View(), rho);
      assert r.Some? ==> Value(0, View(), rho) == r;
    }
  }

  /** What is left after a poll, and the calls it made, are the meaning there was before it. */
  lemma PollKeeps(n: Node, n': Node, calls: seq<Call>, rho: nat -> int)
    requires (n' == n && calls == []) || (!Unchained(n) && (n', calls) == Advance(n, rho))
    ensures forall fuel: nat, o: Outcome :: Value(fuel, n', rho) == Some(o) ==>
              Means(n, rho, Outcome(o.v, calls + o.calls))
  {
    hide Value;
    forall fuel: nat, o: Outcome | Value(fuel, n', rho) == Some(o)
      ensures Means(n, rho, Outcome(o.v, calls + o.calls))
    {
      if n' == n && calls == [] {
        assert Outcome(o.v, calls + o.calls) == o;
      } else {
        AdvanceKeeps(n, rho, fuel);
        assert Value(fuel + 1, n, rho) == Some(Outcome(o.v, calls + o.calls));
      }
    }
  }
}
