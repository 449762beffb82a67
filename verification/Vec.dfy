/**
 vec.h.  First the sequence each operation must behave as, with the history of the elements handed out and
 destroyed and the growth of the buffer; then the buffer itself, slot by slot, as placement-new, move and destroy.
 */
module Vecs {
  import opened Wrappers

  /**
   The abstract vector.  `dropped` are the elements destroyed while they still held their value, in order; `out`
   those moved out to a caller; `relocated` counts the elements moved to another allocation.
   */
  datatype VecState<T> = VecState(contents: seq<T>, cap: nat, relocated: nat, dropped: seq<T>, out: seq<T>)

  /** For the shrink, `granted` says whether the allocation succeeded. */
  datatype Op<!T> = Push(x: T) | Pop | Extend(xs: seq<T>) | Clear | Truncate(newLen: nat) | Reserve(additional: nat)
    | ShrinkToFit(granted: bool) | Insert(index: nat, x: T) | Remove(index: nat) | SwapRemove(index: nat)
    | Resize(newLen: nat, x: T) | Retain(p: T -> bool) | Drain

  function Empty<T>(): VecState<T> {
    VecState([], 0, 0, [], [])
  }

  /** The growth loop of ensure_capacity. */
  function Doubled(cap: nat, required: nat): (r: nat)
    requires cap > 0
    ensures r >= required && r >= cap && (r > cap ==> r < 2 * required)
    decreases required - cap
  {
    if cap < required then Doubled(2 * cap, required) else cap
  }

  /** The capacity ensure_capacity leaves. */
  function Grown(cap: nat, required: nat): (r: nat)
    ensures r >= required && r >= cap
  {
    if required <= cap then cap else Doubled(if cap == 0 then 4 else cap, required)
  }

  function Ensured<T>(s: VecState<T>, required: nat): VecState<T> {
    s.(cap := Grown(s.cap, required),
       relocated := if required <= s.cap then s.relocated else s.relocated + |s.contents|)
  }

  function Repeat<T>(x: T, n: nat): (r: seq<T>)
    ensures |r| == n
  {
    seq(n, _ => x)
  }

  function Reversed<T>(s: seq<T>): seq<T> {
    if s == [] then [] else [s[|s| - 1]] + Reversed(s[..|s| - 1])
  }

  function Filter<T>(p: T -> bool, s: seq<T>): (r: seq<T>)
    ensures |r| <= |s|
  {
    if s == [] then []
    else
      var rest, last := Filter(p, s[..|s| - 1]), s[|s| - 1];
      if p(last) then rest + [last] else rest
  }

  function Not<T>(p: T -> bool): T -> bool {
    x => !p(x)
  }

  /** The indices an operation may be called with. */
  predicate AllowedIn<T>(len: nat, op: Op<T>) {
    match op
    case Truncate(k) => k <= len
    case Insert(i, _) => i <= len
    case Remove(i) => i < len
    case SwapRemove(i) => i < len
    case _ => true
  }

  /** The capacity an operation asks for. */
  function Need<T>(n: nat, op: Op<T>): nat {
    match op
    case Push(_) => n + 1
    case Insert(_, _) => n + 1
    case Extend(xs) => if xs == [] then 0 else n + |xs|
    case Reserve(k) => n + k
    case Resize(k, _) => if k <= n then 0 else k
    case _ => 0
  }

  /** What an operation does to the elements: those left, those destroyed in order, those handed out. */
  function Effect<T>(c: seq<T>, op: Op<T>): (seq<T>, seq<T>, seq<T>)
    requires AllowedIn(|c|, op)
  {
    var n := |c|;
    match op
    case Push(x) => (c + [x], [], [])
    case Pop => if n == 0 then (c, [], []) else (c[..n - 1], [], [c[n - 1]])
    case Extend(xs) => (c + xs, [], [])
    case Clear => ([], Reversed(c), [])
    case Truncate(k) => (c[..k], c[k..], [])
    case Reserve(_) => (c, [], [])
    case ShrinkToFit(_) => (c, [], [])
    case Insert(i, x) => (c[..i] + [x] + c[i..], [], [])
    case Remove(i) => (c[..i] + c[i + 1..], [], [c[i]])
    case SwapRemove(i) => (if i < n - 1 then c[..n - 1][i := c[n - 1]] else c[..n - 1], [], [c[i]])
    case Resize(k, x) => if k <= n then (c[..k], c[k..], []) else (c + Repeat(x, k - n), [], [])
    case Retain(p) => (Filter(p, c), Filter(Not(p), c), [])
    case Drain => ([], [], c)
  }

  function Applied<T>(s: VecState<T>, e: (seq<T>, seq<T>, seq<T>)): VecState<T> {
    s.(contents := e.0, dropped := s.dropped + e.1, out := s.out + e.2)
  }

  function Shrunk<T>(s: VecState<T>, granted: bool): VecState<T> {
    if s.cap == |s.contents| then s
    else if s.contents == [] then s.(cap := 0)
    else if granted then s.(cap := |s.contents|, relocated := s.relocated + |s.contents|)
    else s
  }

  /** One operation; one called outside its indices changes nothing here. */
  function Apply<T>(s: VecState<T>, op: Op<T>): VecState<T> {
    if !AllowedIn(|s.contents|, op) then s
    else if op.ShrinkToFit? then Shrunk(s, op.granted)
    else Applied(Ensured(s, Need(|s.contents|, op)), Effect(s.contents, op))
  }

  function Run<T>(ops: seq<Op<T>>): VecState<T> {
    if ops == [] then Empty() else Apply(Run(ops[..|ops| - 1]), ops[|ops| - 1])
  }

  /** The elements an operation constructs in the vector. */
  function Put<T>(n: nat, op: Op<T>): seq<T> {
    match op
    case Push(x) => [x]
    case Insert(i, x) => if i <= n then [x] else []
    case Extend(xs) => xs
    case Resize(k, x) => if k <= n then [] else Repeat(x, k - n)
    case _ => []
  }

  function AllPut<T>(ops: seq<Op<T>>): seq<T> {
    if ops == [] then []
    else AllPut(ops[..|ops| - 1]) + Put(|Run(ops[..|ops| - 1]).contents|, ops[|ops| - 1])
  }

  lemma {:induction false} ReversedBag<T>(s: seq<T>)
    ensures multiset(Reversed(s)) == multiset(s)
  {
    if s != [] {
      ReversedBag(s[..|s| - 1]);
      assert s == s[..|s| - 1] + [s[|s| - 1]];
    }
  }

  lemma {:induction false} FilterBag<T>(p: T -> bool, s: seq<T>)
    ensures multiset(Filter(p, s)) + multiset(Filter(Not(p), s)) == multiset(s)
  {
    if s != [] {
      FilterBag(p, s[..|s| - 1]);
      assert s == s[..|s| - 1] + [s[|s| - 1]];
    }
  }

  lemma SplitBag<T>(s: seq<T>, i: nat)
    requires i <= |s|
    ensures multiset(s) == multiset(s[..i]) + multiset(s[i..])
    ensures i < |s| ==> multiset(s) == multiset(s[..i]) + multiset{s[i]} + multiset(s[i + 1..])
  {
    assert s == s[..i] + s[i..];
    if i < |s| { assert s == s[..i] + [s[i]] + s[i + 1..]; }
  }

  lemma SwapBag<T>(c: seq<T>, i: nat)
    requires i < |c| - 1
    ensures multiset(c[..|c| - 1][i := c[|c| - 1]]) + multiset{c[i]} == multiset(c)
  {
    assert c == c[..|c| - 1] + [c[|c| - 1]];
  }

  lemma InsertBag<T>(c: seq<T>, i: nat, x: T)
    requires i <= |c|
    ensures multiset(c[..i] + [x] + c[i..]) == multiset(c) + multiset{x}
  {
    SplitBag(c, i);
  }

  /** Elements left, destroyed and handed out are those there before and those put in. */
  ghost predicate Accounted<T>(c: seq<T>, op: Op<T>)
    requires AllowedIn(|c|, op)
  {
    var e := Effect(c, op);
    multiset(e.0) + multiset(e.1) + multiset(e.2) == multiset(c) + multiset(Put(|c|, op))
  }

  lemma AddingKeeps<T>(c: seq<T>, op: Op<T>)
    requires AllowedIn(|c|, op) && (op.Push? || op.Extend? || op.Insert?)
    ensures Accounted(c, op)
  {
    if op.Insert? { InsertBag(c, op.index, op.x); }
  }

  lemma ResizeKeeps<T>(c: seq<T>, op: Op<T>)
    requires op.Resize?
    ensures Accounted(c, op)
  {
    if op.newLen <= |c| { SplitBag(c, op.newLen); }
  }

  lemma RemoveKeeps<T>(c: seq<T>, i: nat)
    requires i < |c|
    ensures Accounted(c, Op.Remove(i))
  {
    RemoveBag(c, i);
  }

  lemma SwapRemoveKeeps<T>(c: seq<T>, i: nat)
    requires i < |c|
    ensures Accounted(c, Op.SwapRemove(i))
  {
    if i < |c| - 1 { SwapBag(c, i); } else { RemoveBag(c, i); }
  }

  lemma PopKeeps<T>(c: seq<T>)
    ensures Accounted(c, Op.Pop)
  {
    if c != [] { RemoveBag(c, |c| - 1); }
  }

  lemma RemoveBag<T>(c: seq<T>, i: nat)
    requires i < |c|
    ensures multiset(c[..i] + c[i + 1..]) + multiset([c[i]]) == multiset(c)
    ensures i == |c| - 1 ==> c[..i] + c[i + 1..] == c[..i]
  {
    SplitBag(c, i);
  }

  lemma DroppingKeeps<T>(c: seq<T>, op: Op<T>)
    requires AllowedIn(|c|, op) && (op.Clear? || op.Truncate? || op.Retain?)
    ensures Accounted(c, op)
  {
    match op
    case Clear => ReversedBag(c);
    case Truncate(k) => SplitBag(c, k);
    case Retain(p) => FilterBag(p, c);
  }

  lemma EffectKeeps<T>(c: seq<T>, op: Op<T>)
    requires AllowedIn(|c|, op)
    ensures Accounted(c, op)
  {
    if op.Push? || op.Extend? || op.Insert? { AddingKeeps(c, op); }
    else if op.Resize? { ResizeKeeps(c, op); }
    else if op.Remove? { RemoveKeeps(c, op.index); }
    else if op.SwapRemove? { SwapRemoveKeeps(c, op.index); }
    else if op.Pop? { PopKeeps(c); }
    else if op.Clear? || op.Truncate? || op.Retain? { DroppingKeeps(c, op); }
  }

  lemma AppliedKeeps<T>(s: VecState<T>, e: (seq<T>, seq<T>, seq<T>), put: seq<T>)
    requires multiset(e.0) + multiset(e.1) + multiset(e.2) == multiset(s.contents) + multiset(put)
    ensures Total(Applied(s, e)) == Total(s) + multiset(put)
  {
    var a, d, o := multiset(e.0), multiset(s.dropped), multiset(s.out);
    assert a + (d + multiset(e.1)) + (o + multiset(e.2)) == (a + multiset(e.1) + multiset(e.2)) + d + o;
  }

  /** Everything inside, destroyed or handed out. */
  ghost function Total<T>(s: VecState<T>): multiset<T> {
    multiset(s.contents) + multiset(s.dropped) + multiset(s.out)
  }

  /** retain leaves exactly the accepted elements and destroys exactly the others. */
  lemma RetainSorts<T>(s: VecState<T>, p: T -> bool, x: T)
    ensures var s' := Apply(s, Op.Retain(p));
            && (x in s'.contents <==> x in s.contents && p(x))
            && |s.dropped| <= |s'.dropped| && s'.dropped[..|s.dropped|] == s.dropped
            && (x in s'.dropped[|s.dropped|..] <==> x in s.contents && !p(x))
            && |s'.contents| + |s'.dropped| == |s.contents| + |s.dropped| && s'.out == s.out
  {
    var lost := Filter(Not(p), s.contents);
    FilterKeeps(p, s.contents);
    FilterKeeps(Not(p), s.contents);
    FilterSizes(p, s.contents);
    assert (s.dropped + lost)[|s.dropped|..] == lost && (s.dropped + lost)[..|s.dropped|] == s.dropped;
    hide Filter;
  }

  lemma {:induction false} FilterSizes<T>(p: T -> bool, s: seq<T>)
    ensures |Filter(p, s)| + |Filter(Not(p), s)| == |s|
  {
    if s != [] { FilterSizes(p, s[..|s| - 1]); }
  }

  /** reserve makes the room asked for, shrink_to_fit leaves none too much, and neither touches the elements. */
  lemma RoomAt<T>(s: VecState<T>, n: nat)
    requires |s.contents| <= s.cap
    ensures var r, f, g := Apply(s, Op.Reserve(n)), Apply(s, Op.ShrinkToFit(true)), Apply(s, Op.ShrinkToFit(false));
            && r.contents == f.contents == g.contents == s.contents
            && r.cap >= |s.contents| + n && (s.cap >= |s.contents| + n ==> r == s)
            && f.cap == |s.contents|
            && g.cap == (if s.contents == [] then 0 else s.cap)
            && r.dropped == f.dropped == g.dropped == s.dropped && r.out == f.out == g.out == s.out
  {
    assert s.out + [] == s.out && s.dropped + [] == s.dropped;
  }

  /** Draining hands out everything in order and keeps the buffer. */
  lemma DrainAt<T>(s: VecState<T>)
    ensures Apply(s, Op.Drain) == s.(contents := [], out := s.out + s.contents)
  {
    assert s.dropped + [] == s.dropped;
  }

  /**
   Over every run each element ever constructed is in the vector, has been handed out, or has been destroyed:
   exactly one of the three, exactly once.
   */
  lemma {:induction false} ElementsConserved<T>(ops: seq<Op<T>>)
    ensures multiset(AllPut(ops)) ==
              multiset(Run(ops).contents) + multiset(Run(ops).dropped) + multiset(Run(ops).out)
  {
    if ops != [] {
      var prior, op := ops[..|ops| - 1], ops[|ops| - 1];
      var s := Run(prior);
      ElementsConserved(prior);
      if AllowedIn(|s.contents|, op) {
        EffectKeeps(s.contents, op);
        AppliedKeeps(Ensured(s, Need(|s.contents|, op)), Effect(s.contents, op), Put(|s.contents|, op));
      }
    }
  }

  /** The largest capacity a run has asked for. */
  function MaxNeed<T>(ops: seq<Op<T>>): nat {
    if ops == [] then 0
    else
      var before, s, op := MaxNeed(ops[..|ops| - 1]), Run(ops[..|ops| - 1]), ops[|ops| - 1];
      if AllowedIn(|s.contents|, op) && Need(|s.contents|, op) > before then Need(|s.contents|, op) else before
  }

  /** The room is enough, what was moved is paid for by what was allocated, and at most half of it is unasked for. */
  ghost predicate GrowthInv<T>(s: VecState<T>, need: nat) {
    && |s.contents| <= s.cap
    && (s.cap == 0 ==> s.relocated == 0)
    && (s.cap > 0 ==> s.relocated + 4 <= s.cap)
    && (s.cap > 4 ==> s.cap < 2 * need)
  }

  lemma EffectFits<T>(c: seq<T>, op: Op<T>, cap: nat)
    requires AllowedIn(|c|, op) && |c| <= cap && Need(|c|, op) <= cap
    ensures |Effect(c, op).0| <= cap
  {
  }

  lemma {:induction false} DoubledAtLeast(cap: nat, required: nat)
    requires 0 < cap < required
    ensures Doubled(cap, required) >= 2 * cap
  {
  }

  /**
   The growth loop ends with room enough; over every run that never shrinks the buffer, the elements moved are at
   least four fewer than the capacity, which beyond the first block is less than twice the largest demand.
   */
  lemma {:induction false} GrowthIsPaidFor<T>(ops: seq<Op<T>>)
    requires forall k :: 0 <= k < |ops| ==> !ops[k].ShrinkToFit?
    ensures GrowthInv(Run(ops), MaxNeed(ops))
  {
    if ops != [] {
      var prior, op := ops[..|ops| - 1], ops[|ops| - 1];
      var s := Run(prior);
      GrowthIsPaidFor(prior);
      if AllowedIn(|s.contents|, op) {
        var need := Need(|s.contents|, op);
        if need > s.cap > 0 { DoubledAtLeast(s.cap, need); }
        EffectFits(s.contents, op, Grown(s.cap, need));
        hide Effect, Need, AllowedIn, Doubled;
      }
    }
  }

  /** The elements added one at a time. */
  function Added<T>(ops: seq<Op<T>>): nat {
    if ops == [] then 0 else Added(ops[..|ops| - 1]) + if ops[|ops| - 1].Push? || ops[|ops| - 1].Insert? then 1 else 0
  }

  /** Adding one at a time and removing in any way; no bulk growth. */
  predicate OneAtATime<T>(op: Op<T>) {
    !op.ShrinkToFit? && !op.Extend? && !op.Reserve? && !op.Resize?
  }

  /** What remove undoes: the vector is as before the insert, the element is handed out, nothing is destroyed. */
  lemma InsertThenRemove<T>(s: VecState<T>, i: nat, x: T)
    requires i <= |s.contents|
    ensures var s' := Apply(Apply(s, Op.Insert(i, x)), Op.Remove(i));
            s'.contents == s.contents && s'.dropped == s.dropped && s'.out == s.out + [x]
  {
    var c := s.contents;
    var d := c[..i] + [x] + c[i..];
    assert d[..i] + d[i + 1..] == c && d[i] == x;
  }

  lemma {:induction false} ReversedAt<T>(s: seq<T>, k: nat)
    requires k < |s|
    ensures |Reversed(s)| == |s| && Reversed(s)[k] == s[|s| - 1 - k]
  {
    if |s| == 1 {
      assert Reversed(s[..0]) == [];
    } else if k > 0 {
      ReversedAt(s[..|s| - 1], k - 1);
    } else {
      ReversedAt(s[..|s| - 1], 0);
    }
  }

  /** Slot by slot: insert and remove move the later elements by one and no others. */
  lemma InsertRemoveAt<T>(s: VecState<T>, i: nat, x: T, j: nat)
    ensures i <= |s.contents| ==>
              var c, d := s.contents, Apply(s, Op.Insert(i, x)).contents;
              |d| == |c| + 1 && (j < |d| ==> d[j] == if j < i then c[j] else if j == i then x else c[j - 1])
    ensures i < |s.contents| ==>
              var c, s' := s.contents, Apply(s, Op.Remove(i));
              var d := s'.contents;
              && |d| == |c| - 1 && (j < |d| ==> d[j] == if j < i then c[j] else c[j + 1])
              && s'.out == s.out + [c[i]] && s'.dropped == s.dropped
  {
  }

  /** swap_remove puts the last element into the slot of the one it hands out and touches no other. */
  lemma SwapRemoveAt<T>(s: VecState<T>, i: nat, j: nat)
    requires i < |s.contents|
    ensures var c, s' := s.contents, Apply(s, Op.SwapRemove(i));
            var d := s'.contents;
            && |d| == |c| - 1 && (j < |d| ==> d[j] == if j == i then c[|c| - 1] else c[j])
            && s'.out == s.out + [c[i]] && s'.dropped == s.dropped
  {
  }

  /** push, extend and resize leave what is there and add behind it; pop hands out the last. */
  lemma EndsAt<T>(s: VecState<T>, x: T, xs: seq<T>, n: nat, j: nat)
    ensures var c := s.contents;
            var p, e, r, q := Apply(s, Op.Push(x)).contents, Apply(s, Op.Extend(xs)).contents,
                              Apply(s, Op.Resize(n, x)).contents, Apply(s, Op.Pop);
            && |p| == |c| + 1 && |e| == |c| + |xs| && |r| == n
            && (j < |p| ==> p[j] == if j < |c| then c[j] else x)
            && (j < |e| ==> e[j] == if j < |c| then c[j] else xs[j - |c|])
            && (j < |r| ==> r[j] == if j < |c| then c[j] else x)
            && (c != [] ==> q.contents + [c[|c| - 1]] == c && q.out == s.out + [c[|c| - 1]])
            && (c == [] ==> q == s)
  {
    assert s.out + [] == s.out && s.dropped + [] == s.dropped;
  }

  /** clear destroys all, last first; truncate the elements past the new length, first to last. */
  lemma DroppedAt<T>(s: VecState<T>, n: nat, j: nat)
    requires n <= |s.contents|
    ensures var c := s.contents; var a, b := Apply(s, Op.Clear), Apply(s, Op.Truncate(n));
            && a.contents == [] && |a.dropped| == |s.dropped| + |c| && s.dropped <= a.dropped
            && (j < |c| ==> a.dropped[|s.dropped| + j] == c[|c| - 1 - j])
            && b.contents == c[..n] && |b.dropped| == |s.dropped| + |c| - n && s.dropped <= b.dropped
            && (j < |c| - n ==> b.dropped[|s.dropped| + j] == c[n + j])
  {
    if s.contents != [] { ReversedAt(s.contents, 0); }
    if j < |s.contents| { ReversedAt(s.contents, j); }
  }

  /** retain treats a vector part by part, so the kept elements stay in order. */
  lemma {:induction false} FilterOfConcat<T>(p: T -> bool, a: seq<T>, b: seq<T>)
    ensures Filter(p, a + b) == Filter(p, a) + Filter(p, b)
  {
    if b == [] {
      assert a + b == a;
    } else {
      FilterOfConcat(p, a, b[..|b| - 1]);
      assert (a + b)[..|a + b| - 1] == a + b[..|b| - 1];
    }
  }

  /** retain keeps the elements p accepts and no others. */
  lemma {:induction false} FilterKeeps<T>(p: T -> bool, s: seq<T>)
    ensures forall x :: x in Filter(p, s) <==> x in s && p(x)
  {
    if s != [] {
      FilterKeeps(p, s[..|s| - 1]);
      assert s == s[..|s| - 1] + [s[|s| - 1]];
    }
  }

  lemma AddsAtMostOne<T>(c: seq<T>, op: Op<T>)
    requires OneAtATime(op) && AllowedIn(|c|, op)
    ensures var one := if op.Push? || op.Insert? then 1 else 0;
            |Effect(c, op).0| <= |c| + one && Need(|c|, op) == one * (|c| + 1)
  {
  }

  /** A full buffer doubles; the first block holds four. */
  lemma NextBlock(cap: nat)
    ensures Grown(cap, cap + 1) == if cap == 0 then 4 else 2 * cap
  {
    if cap > 0 { assert Doubled(cap, cap + 1) == Doubled(2 * cap, cap + 1); }
  }

  lemma {:induction false} NeedIsAdded<T>(ops: seq<Op<T>>)
    requires forall k :: 0 <= k < |ops| ==> OneAtATime(ops[k])
    ensures |Run(ops).contents| <= Added(ops) && MaxNeed(ops) <= Added(ops)
  {
    if ops != [] {
      var prior, op := ops[..|ops| - 1], ops[|ops| - 1];
      NeedIsAdded(prior);
      var c := Run(prior).contents;
      assert OneAtATime(op);
      if AllowedIn(|c|, op) { AddsAtMostOne(c, op); }
      hide Effect, Need, AllowedIn, Grown, OneAtATime;
    }
  }

  /**
   Constant work per element: any run of pushes and inserts, mixed with any removals, moves fewer elements between
   allocations than twice the number it adds.
   */
  lemma {:induction false} AmortizedGrowth<T>(ops: seq<Op<T>>)
    requires forall k :: 0 <= k < |ops| ==> OneAtATime(ops[k])
    ensures Added(ops) > 0 ==> Run(ops).relocated < 2 * Added(ops)
    ensures Run(ops).cap > 0 ==> Run(ops).relocated + 4 == Run(ops).cap
  {
    GrowthIsPaidFor(ops);
    NeedIsAdded(ops);
    ExactGrowth(ops);
  }

  lemma ExactStep<T>(s: VecState<T>, need: nat)
    requires need <= |s.contents| + 1 && |s.contents| <= s.cap
    requires if s.cap == 0 then s.relocated == 0 else s.relocated + 4 == s.cap
    ensures Ensured(s, need).cap > 0 ==> Ensured(s, need).relocated + 4 == Ensured(s, need).cap
  {
    NextBlock(s.cap);
  }

  lemma {:induction false} ExactGrowth<T>(ops: seq<Op<T>>)
    requires forall k :: 0 <= k < |ops| ==> OneAtATime(ops[k])
    ensures Run(ops).cap > 0 ==> Run(ops).relocated + 4 == Run(ops).cap
  {
    if ops != [] {
      var prior, op := ops[..|ops| - 1], ops[|ops| - 1];
      var s := Run(prior);
      ExactGrowth(prior);
      GrowthIsPaidFor(prior);
      assert OneAtATime(op);
      assert Need(|s.contents|, op) <= |s.contents| + 1;
      ExactStep(s, Need(|s.contents|, op));
      hide Effect, Need, Ensured, AllowedIn, Grown;
    }
  }
}
