/**
 The buffer of vec.h for element types with a real move and destructor.  A slot is raw memory, holds a value, or
 holds an object whose value was moved away; the requires of the three primitives are the rules of the language:
 construct only into raw memory, move only from a value, destroy only an object.
 */
module VecBuffers {
  import opened Wrappers
  import opened Vecs

  datatype Slot<T> = Uninit | Live(value: T) | MovedFrom

  method Construct<T>(a: array<Slot<T>>, i: nat, v: T)
    requires i < a.Length && a[i].Uninit?
    modifies a
    ensures a[..] == old(a[..])[i := Live(v)]
  {
    a[i] := Live(v);
  }

  method MoveOut<T>(a: array<Slot<T>>, i: nat) returns (v: T)
    requires i < a.Length && a[i].Live?
    modifies a
    ensures Live(v) == old(a[i]) && a[..] == old(a[..])[i := MovedFrom]
  {
    v := a[i].value;
    a[i] := MovedFrom;
  }

  method Destroy<T>(a: array<Slot<T>>, i: nat)
    requires i < a.Length && !a[i].Uninit?
    modifies a
    ensures a[..] == old(a[..])[i := Uninit]
  {
    a[i] := Uninit;
  }

  /** Move-construct slot j from slot i and destroy what is left. */
  method Shift<T>(a: array<Slot<T>>, i: nat, j: nat)
    requires i < a.Length && j < a.Length && a[i].Live? && a[j].Uninit?
    modifies a
    ensures a[..] == old(a[..])[j := old(a[i])][i := Uninit]
  {
    var v := MoveOut(a, i);
    Construct(a, j, v);
    Destroy(a, i);
  }

  /** Move count elements from src to dst, where they start at slot start. */
  method Relocate<T>(dst: array<Slot<T>>, start: nat, src: array<Slot<T>>, count: nat)
    requires dst != src && start + count <= dst.Length && count <= src.Length
    requires forall i :: 0 <= i < count ==> src[i].Live? && dst[start + i].Uninit?
    modifies dst, src
    ensures forall i :: start <= i < start + count ==> dst[i] == old(src[i - start])
    ensures forall i :: 0 <= i < count ==> src[i].Uninit?
    ensures forall i :: 0 <= i < start || start + count <= i < dst.Length ==> dst[i] == old(dst[i])
    ensures forall i :: count <= i < src.Length ==> src[i] == old(src[i])
  {
    for i := 0 to count
      invariant forall k :: start <= k < start + i ==> dst[k] == old(src[k - start])
      invariant forall k :: 0 <= k < i ==> src[k].Uninit?
      invariant forall k :: 0 <= k < start || start + i <= k < dst.Length ==> dst[k] == old(dst[k])
      invariant forall k :: i <= k < src.Length ==> src[k] == old(src[k])
    {
      var v := MoveOut(src, i);
      Construct(dst, start + i, v);
      Destroy(src, i);
    }
  }

  /** Copy-construct the elements of src into the slots from start on. */
  method Fill<T>(a: array<Slot<T>>, start: nat, src: seq<T>)
    requires start + |src| <= a.Length
    requires forall i :: start <= i < start + |src| ==> a[i].Uninit?
    modifies a
    ensures forall i :: start <= i < start + |src| ==> a[i] == Live(src[i - start])
    ensures forall i :: 0 <= i < start || start + |src| <= i < a.Length ==> a[i] == old(a[i])
  {
    for i := 0 to |src|
      invariant forall k :: start <= k < start + i ==> a[k] == Live(src[k - start])
      invariant forall k :: 0 <= k < start || start + i <= k < a.Length ==> a[k] == old(a[k])
    {
      Construct(a, start + i, src[i]);
    }
  }

  /** Destroy c, which the first slots hold, from the last to the first. */
  method DestroyBack<T>(a: array<Slot<T>>, len: nat, ghost c: seq<T>) returns (ghost order: seq<T>)
    requires len == |c| && Holds(a[..], c)
    modifies a
    ensures forall i :: 0 <= i < a.Length ==> a[i].Uninit?
    ensures order == Reversed(c)
  {
    var i := len;
    order := [];
    assert c[..i] == c;
    while i > 0
      invariant i <= |c|
      invariant forall k :: 0 <= k < i ==> a[k] == Live(c[k])
      invariant forall k :: i <= k < a.Length ==> a[k].Uninit?
      invariant order + Reversed(c[..i]) == Reversed(c)
    {
      i := i - 1;
      assert c[..i + 1][..i] == c[..i];
      order := order + [a[i].value];
      Destroy(a, i);
    }
  }

  /** From back to front, so that no value is overwritten. */
  method ShiftRight<T>(a: array<Slot<T>>, index: nat, count: nat, len: nat)
    requires 0 < count && index <= len && len + count <= a.Length
    requires forall k :: index <= k < len ==> a[k].Live?
    requires forall k :: len <= k < len + count ==> a[k].Uninit?
    modifies a
    ensures forall k :: index <= k < len ==> a[k + count] == old(a[k])
    ensures forall k :: index <= k < index + count ==> a[k].Uninit?
    ensures forall k :: 0 <= k < index || len + count <= k < a.Length ==> a[k] == old(a[k])
  {
    var i := len;
    while i > index
      invariant index <= i <= len
      invariant forall k :: i + count <= k < len + count ==> a[k] == old(a[k - count])
      invariant forall k :: i <= k < i + count ==> a[k].Uninit?
      invariant forall k :: 0 <= k < i || len + count <= k < a.Length ==> a[k] == old(a[k])
    {
      Shift(a, i - 1, i - 1 + count);
      i := i - 1;
    }
  }

  method ShiftLeft<T>(a: array<Slot<T>>, index: nat, count: nat, len: nat)
    requires 0 < count && index + count <= len <= a.Length
    requires forall k :: index <= k < index + count ==> a[k].Uninit?
    requires forall k :: index + count <= k < len ==> a[k].Live?
    modifies a
    ensures forall k :: index <= k < len - count ==> a[k] == old(a[k + count])
    ensures forall k :: len - count <= k < len ==> a[k].Uninit?
    ensures forall k :: 0 <= k < index || len <= k < a.Length ==> a[k] == old(a[k])
  {
    var remaining := len - index - count;
    for i := 0 to remaining
      invariant forall k :: index <= k < index + i ==> a[k] == old(a[k + count])
      invariant forall k :: index + i <= k < index + i + count ==> a[k].Uninit?
      invariant forall k :: index + i + count <= k < len ==> a[k] == old(a[k])
      invariant forall k :: 0 <= k < index || len <= k < a.Length ==> a[k] == old(a[k])
    {
      Shift(a, index + count + i, index + i);
    }
  }

  /** The first slots hold c in order and the others are raw memory. */
  ghost predicate Holds<T>(slots: seq<Slot<T>>, c: seq<T>) {
    && |c| <= |slots|
    && (forall i :: 0 <= i < |c| ==> slots[i] == Live(c[i]))
    && (forall i :: |c| <= i < |slots| ==> slots[i] == Uninit)
  }

  lemma JoinHolds<T>(slots: seq<Slot<T>>, c: seq<T>, d: seq<T>)
    requires |c| + |d| <= |slots|
    requires forall i :: 0 <= i < |c| ==> slots[i] == Live(c[i])
    requires forall i :: |c| <= i < |c| + |d| ==> slots[i] == Live(d[i - |c|])
    requires forall i :: |c| + |d| <= i < |slots| ==> slots[i] == Uninit
    ensures Holds(slots, c + d)
  {
  }

  lemma InsertHolds<T>(slots: seq<Slot<T>>, c: seq<T>, index: nat, x: T)
    requires index <= |c| < |slots| && slots[index] == Live(x)
    requires forall i :: 0 <= i < index ==> slots[i] == Live(c[i])
    requires forall i :: index <= i < |c| ==> slots[i + 1] == Live(c[i])
    requires forall i :: |c| < i < |slots| ==> slots[i] == Uninit
    ensures Holds(slots, c[..index] + [x] + c[index..])
  {
    var d := c[..index] + [x] + c[index..];
    forall i | index < i < |d| ensures slots[i] == Live(d[i]) { assert slots[(i - 1) + 1] == Live(c[i - 1]); }
  }

  lemma RemoveHolds<T>(slots: seq<Slot<T>>, c: seq<T>, index: nat)
    requires index < |c| <= |slots|
    requires forall i :: 0 <= i < index ==> slots[i] == Live(c[i])
    requires forall i :: index <= i < |c| - 1 ==> slots[i] == Live(c[i + 1])
    requires forall i :: |c| - 1 <= i < |slots| ==> slots[i] == Uninit
    ensures Holds(slots, c[..index] + c[index + 1..])
  {
  }

  lemma AddApplied<T>(s: VecState<T>, op: Op<T>)
    requires op.Extend? || (op.Insert? && op.index <= |s.contents|) || op.Drain? || op.Resize?
    ensures op.Extend? && op.xs != [] ==>
              Apply(s, op) == Ensured(s, |s.contents| + |op.xs|).(contents := s.contents + op.xs)
    ensures op == Op.Extend([]) ==> Apply(s, op) == s
    ensures op.Insert? ==>
              Apply(s, op) == Ensured(s, |s.contents| + 1).(
                                contents := s.contents[..op.index] + [op.x] + s.contents[op.index..])
    ensures op.Drain? ==> Apply(s, op) == s.(contents := [], out := s.out + s.contents)
    ensures op.Resize? && op.newLen > |s.contents| ==>
              Apply(s, op) == Ensured(s, op.newLen).(contents := s.contents + Repeat(op.x, op.newLen - |s.contents|))
    ensures op.Resize? && op.newLen <= |s.contents| ==> Apply(s, op) == Apply(s, Op.Truncate(op.newLen))
  {
    assert s.dropped + [] == s.dropped && s.out + [] == s.out && s.contents + [] == s.contents;
  }

  /** The operations that take elements out. */
  lemma TakeApplied<T>(s: VecState<T>, op: Op<T>)
    requires op.Retain? || (op.Truncate? && op.newLen <= |s.contents|) || (op.Remove? && op.index < |s.contents|)
    ensures op.Retain? ==>
              Apply(s, op) == s.(contents := Filter(op.p, s.contents),
                                 dropped := s.dropped + Filter(Not(op.p), s.contents))
    ensures op.Truncate? ==>
              Apply(s, op) == s.(contents := s.contents[..op.newLen], dropped := s.dropped + s.contents[op.newLen..])
    ensures op.Remove? ==>
              Apply(s, op) == s.(contents := s.contents[..op.index] + s.contents[op.index + 1..],
                                 out := s.out + [s.contents[op.index]])
  {
    assert s.dropped + [] == s.dropped && s.out + [] == s.out;
  }

  /** Open a gap at index and construct x in it. */
  method InsertAt<T>(a: array<Slot<T>>, len: nat, index: nat, x: T, ghost c: seq<T>)
    requires len == |c| < a.Length && index <= len && Holds(a[..], c)
    modifies a
    ensures Holds(a[..], c[..index] + [x] + c[index..])
  {
    if index < len { ShiftRight(a, index, 1, len); }
    Construct(a, index, x);
    InsertHolds(a[..], c, index, x);
  }

  /** Take the value at index and close the gap. */
  method RemoveAt<T>(a: array<Slot<T>>, len: nat, index: nat, ghost c: seq<T>) returns (v: T)
    requires len == |c| && index < len && Holds(a[..], c)
    modifies a
    ensures v == c[index] && Holds(a[..], c[..index] + c[index + 1..])
  {
    v := TakeAt(a, len, index, c);
    CloseGap(a, len, index, c);
  }

  /** The value is moved out and its slot is raw. */
  method TakeAt<T>(a: array<Slot<T>>, len: nat, index: nat, ghost c: seq<T>) returns (v: T)
    requires len == |c| && index < len && Holds(a[..], c)
    modifies a
    ensures v == c[index] && HoldsBut(a[..], c, index)
  {
    v := MoveOut(a, index);
    Destroy(a, index);
  }

  method CloseGap<T>(a: array<Slot<T>>, len: nat, index: nat, ghost c: seq<T>)
    requires len == |c| && index < len && HoldsBut(a[..], c, index)
    modifies a
    ensures Holds(a[..], c[..index] + c[index + 1..])
  {
    assert forall k :: index + 1 <= k < len ==> a[k] == a[..][k];
    if index + 1 < len { ShiftLeft(a, index, 1, len); }
    RemoveHolds(a[..], c, index);
  }

  /** As Holds, but slot gap is raw. */
  ghost predicate HoldsBut<T>(slots: seq<Slot<T>>, c: seq<T>, gap: nat) {
    && gap < |c| <= |slots|
    && (forall i :: 0 <= i < |c| && i != gap ==> slots[i] == Live(c[i]))
    && (forall i :: |c| <= i < |slots| || i == gap ==> slots[i] == Uninit)
  }

  /** Copy-construct src behind the elements c. */
  method FillBehind<T>(a: array<Slot<T>>, len: nat, src: seq<T>, ghost c: seq<T>)
    requires len == |c| && |c| + |src| <= a.Length && Holds(a[..], c)
    modifies a
    ensures Holds(a[..], c + src)
  {
    Fill(a, len, src);
    JoinHolds(a[..], c, src);
  }

  /** Copy the elements c of src into an empty dst. */
  method CopyInto<T>(dst: array<Slot<T>>, src: array<Slot<T>>, len: nat, ghost c: seq<T>)
    requires dst != src && len == |c| <= dst.Length && Holds(src[..], c) && Holds(dst[..], [])
    modifies dst
    ensures Holds(dst[..], c)
  {
    for i := 0 to len
      invariant forall k :: 0 <= k < i ==> dst[k] == Live(c[k])
      invariant forall k :: i <= k < dst.Length ==> dst[k].Uninit?
    {
      Construct(dst, i, src[i].value);
    }
  }

  /** Move the elements d of src behind the elements c of dst. */
  method MoveBehind<T>(dst: array<Slot<T>>, src: array<Slot<T>>, dstLen: nat, srcLen: nat, ghost c: seq<T>,
                       ghost d: seq<T>)
    requires dst != src && dstLen == |c| && srcLen == |d| && |c| + |d| <= dst.Length
    requires Holds(dst[..], c) && Holds(src[..], d)
    modifies dst, src
    ensures Holds(dst[..], c + d) && Holds(src[..], [])
  {
    Relocate(dst, dstLen, src, srcLen);
    JoinHolds(dst[..], c, d);
  }

  lemma FilterSnoc<T>(p: T -> bool, c: seq<T>, n: nat)
    requires n < |c|
    ensures Filter(p, c[..n + 1]) == if p(c[n]) then Filter(p, c[..n]) + [c[n]] else Filter(p, c[..n])
    ensures Filter(Not(p), c[..n + 1]) == if p(c[n]) then Filter(Not(p), c[..n]) else Filter(Not(p), c[..n]) + [c[n]]
  {
    assert c[..n + 1][..n] == c[..n];
  }

  /** Halfway through retain: the kept elements, the gap, the elements not yet read. */
  ghost predicate Gap<T>(slots: seq<Slot<T>>, kept: seq<T>, read: nat, c: seq<T>) {
    && |kept| <= read <= |c| <= |slots|
    && (forall k :: 0 <= k < |kept| ==> slots[k] == Live(kept[k]))
    && (forall k :: |kept| <= k < read || |c| <= k < |slots| ==> slots[k] == Uninit)
    && (forall k :: read <= k < |c| ==> slots[k] == Live(c[k]))
  }

  lemma GapSteps<T>(slots: seq<Slot<T>>, kept: seq<T>, read: nat, c: seq<T>)
    requires Gap(slots, kept, read, c) && read < |c|
    ensures |kept| == read ==> Gap(slots, kept + [c[read]], read + 1, c)
    ensures |kept| < read ==> Gap(slots[|kept| := slots[read]][read := Uninit], kept + [c[read]], read + 1, c)
    ensures Gap(slots[read := Uninit], kept, read + 1, c)
    ensures slots[read] == Live(c[read]) && (|kept| < read ==> slots[|kept|].Uninit?)
  {
  }

  /** The loop of retain: kept values move down in order, refused ones are destroyed in order. */
  method Compact<T>(a: array<Slot<T>>, len: nat, p: T -> bool, ghost c: seq<T>)
    returns (write: nat, ghost order: seq<T>)
    requires len == |c| && Holds(a[..], c)
    modifies a
    ensures Holds(a[..], Filter(p, c)) && write == |Filter(p, c)| && order == Filter(Not(p), c)
  {
    write, order := 0, [];
    for read := 0 to len
      invariant write == |Filter(p, c[..read])|
      invariant Gap(a[..], Filter(p, c[..read]), read, c)
      invariant order == Filter(Not(p), c[..read])
    {
      FilterSnoc(p, c, read);
      GapSteps(a[..], Filter(p, c[..read]), read, c);
      hide Filter, Gap;
      if p(a[read].value) {
        if write != read { Shift(a, read, write); }
        write := write + 1;
      } else {
        order := order + [a[read].value];
        Destroy(a, read);
      }
    }
    assert c[..|c|] == c;
  }

  class Vec<T> {
    var data: array<Slot<T>>
    var len: nat
    ghost var contents: seq<T>
    ghost var relocated: nat
    ghost var dropped: seq<T>
    ghost var out: seq<T>

    ghost predicate Valid()
      reads this, data
    {
      len == |contents| && Holds(data[..], contents)
    }

    ghost function View(): VecState<T>
      reads this
    {
      VecState(contents, data.Length, relocated, dropped, out)
    }

    constructor ()
      ensures Valid() && fresh(data) && View() == Empty()
    {
      data, len := new Slot<T>[0], 0;
      contents, relocated, dropped, out := [], 0, [], [];
    }

    /** A new buffer of n slots takes over the elements. */
    method Reallocate(n: nat)
      requires Valid() && len <= n
      modifies this, data
      ensures Valid() && fresh(data)
      ensures View() == old(View()).(cap := n, relocated := old(relocated) + len)
    {
      var newBuf := new Slot<T>[n](_ => Uninit);
      assert Holds(newBuf[..], []) && [] + contents == contents;
      hide Holds;
      if len > 0 {
        MoveBehind(newBuf, data, 0, len, [], contents);
      } else {
        assert contents == [];
      }
      relocated := relocated + len;
      data := newBuf;
    }

    method EnsureCapacity(required: nat)
      requires Valid()
      modifies this, data
      ensures Valid() && (data == old(data) || fresh(data))
      ensures View() == Ensured(old(View()), required) && data.Length >= required
    {
      if required <= data.Length { return; }
      var newCap := if data.Length == 0 then 4 else data.Length;
      while newCap < required
        invariant newCap > 0 && Doubled(newCap, required) == Grown(data.Length, required)
        decreases required - newCap
      {
        newCap := newCap * 2;
      }
      Reallocate(newCap);
    }

    method Push(x: T)
      requires Valid()
      modifies this, data
      ensures Valid() && (data == old(data) || fresh(data))
      ensures View() == Apply(old(View()), Op.Push(x))
    {
      EnsureCapacity(len + 1);
      Construct(data, len, x);
      len := len + 1;
      contents := contents + [x];
      assert dropped == dropped + [] && out == out + [];
    }

    method Pop() returns (r: Option<T>)
      requires Valid()
      modifies this, data
      ensures Valid() && data == old(data)
      ensures View() == Apply(old(View()), Op.Pop)
      ensures r == if old(contents) == [] then None else Some(old(contents)[|old(contents)| - 1])
    {
      assert dropped == dropped + [] && out == out + [];
      if len == 0 { return None; }
      len := len - 1;
      var v := MoveOut(data, len);
      Destroy(data, len);
      contents, out := contents[..len], out + [v];
      r := Some(v);
    }

    method Extend(src: seq<T>)
      requires Valid()
      modifies this, data
      ensures Valid() && (data == old(data) || fresh(data))
      ensures View() == Apply(old(View()), Op.Extend(src))
    {
      AddApplied(View(), Op.Extend(src));
      hide Apply, Ensured, Holds;
      if src == [] { return; }
      EnsureCapacity(len + |src|);
      FillBehind(data, len, src, contents);
      len := len + |src|;
      contents := contents + src;
    }

    /** In reverse order. */
    method DestroyAll()
      requires Valid()
      modifies this`dropped, data
      ensures forall i :: 0 <= i < data.Length ==> data[i].Uninit?
      ensures dropped == old(dropped) + Reversed(contents)
    {
      ghost var order := DestroyBack(data, len, contents);
      dropped := dropped + order;
    }

    method Clear()
      requires Valid()
      modifies this, data
      ensures Valid() && data == old(data)
      ensures View() == Apply(old(View()), Op.Clear)
    {
      assert out == out + [];
      DestroyAll();
      len, contents := 0, [];
    }

    /** The destructor: afterwards no slot holds an object. */
    method Drop()
      requires Valid()
      modifies this, data
      ensures forall i :: 0 <= i < data.Length ==> data[i].Uninit?
      ensures data == old(data) && dropped == old(dropped) + Reversed(old(contents)) && out == old(out)
    {
      DestroyAll();
    }

    method Truncate(newLen: nat)
      requires Valid() && newLen <= len
      modifies this, data
      ensures Valid() && data == old(data)
      ensures View() == Apply(old(View()), Op.Truncate(newLen))
    {
      ghost var c := contents;
      TakeApplied(View(), Op.Truncate(newLen));
      hide Apply;
      for i := newLen to len
        invariant data == old(data) && len == |c| && out == old(out) && relocated == old(relocated)
        invariant forall k :: 0 <= k < newLen || i <= k < len ==> data[k] == Live(c[k])
        invariant forall k :: newLen <= k < i || len <= k < data.Length ==> data[k].Uninit?
        invariant dropped == old(dropped) + c[newLen..i]
      {
        dropped := dropped + [data[i].value];
        Destroy(data, i);
        assert c[newLen..i + 1] == c[newLen..i] + [c[i]];
      }
      len, contents := newLen, c[..newLen];
      assert c[newLen..|c|] == c[newLen..] && out == out + [];
    }

    method Reserve(additional: nat)
      requires Valid()
      modifies this, data
      ensures Valid() && (data == old(data) || fresh(data))
      ensures View() == Apply(old(View()), Op.Reserve(additional)) && data.Length >= len + additional
    {
      assert dropped == dropped + [] && out == out + [];
      EnsureCapacity(len + additional);
    }

    /** granted says whether malloc returned a buffer. */
    method ShrinkToFit(granted: bool)
      requires Valid()
      modifies this, data
      ensures Valid() && (data == old(data) || fresh(data))
      ensures View() == Apply(old(View()), Op.ShrinkToFit(granted))
    {
      if data.Length == len { return; }
      if len == 0 {
        data := new Slot<T>[0];
        return;
      }
      if !granted { return; }
      Reallocate(len);
    }

    method Insert(index: nat, x: T)
      requires Valid() && index <= len
      modifies this, data
      ensures Valid() && (data == old(data) || fresh(data))
      ensures View() == Apply(old(View()), Op.Insert(index, x))
    {
      ghost var c := contents;
      AddApplied(View(), Op.Insert(index, x));
      hide Apply;
      EnsureCapacity(len + 1);
      InsertAt(data, len, index, x, c);
      len := len + 1;
      contents := c[..index] + [x] + c[index..];
    }

    method Remove(index: nat) returns (v: T)
      requires Valid() && index < len
      modifies this, data
      ensures Valid() && data == old(data)
      ensures v == old(contents)[index] && View() == Apply(old(View()), Op.Remove(index))
    {
      ghost var c := contents;
      TakeApplied(View(), Op.Remove(index));
      hide Apply, Holds;
      v := RemoveAt(data, len, index, c);
      len := len - 1;
      contents, out := c[..index] + c[index + 1..], out + [v];
    }

    method SwapRemove(index: nat) returns (v: T)
      requires Valid() && index < len
      modifies this, data
      ensures Valid() && data == old(data)
      ensures v == old(contents)[index] && View() == Apply(old(View()), Op.SwapRemove(index))
    {
      ghost var c := contents;
      v := MoveOut(data, index);
      Destroy(data, index);
      len := len - 1;
      if index < len { Shift(data, len, index); }
      contents, out := if index < len then c[..len][index := c[len]] else c[..len], out + [v];
      assert dropped == dropped + [];
    }

    /** Move all of other's elements to the end, in order, leaving other empty but with its buffer. */
    method Append(other: Vec<T>)
      requires Valid() && other.Valid() && other != this && other.data != data
      modifies this, data, other, other.data
      ensures Valid() && other.Valid() && (data == old(data) || fresh(data)) && other.data == old(other.data)
      ensures View() == Apply(old(View()), Op.Extend(old(other.contents)))
      ensures other.View() == Apply(old(other.View()), Op.Drain)
    {
      ghost var c, src := contents, other.contents;
      AddApplied(View(), Op.Extend(src));
      AddApplied(other.View(), Op.Drain);
      hide Apply, Holds, Ensured;
      if other.len == 0 { return; }
      EnsureCapacity(len + other.len);
      MoveBehind(data, other.data, len, other.len, c, src);
      len, other.len := len + other.len, 0;
      contents, other.contents, other.out := c + src, [], other.out + src;
    }

    method Resize(newLen: nat, x: T)
      requires Valid()
      modifies this, data
      ensures Valid() && (data == old(data) || fresh(data))
      ensures View() == Apply(old(View()), Op.Resize(newLen, x))
    {
      AddApplied(View(), Op.Resize(newLen, x));
      hide Apply, Ensured, Holds;
      if newLen <= len {
        Truncate(newLen);
        return;
      }
      ghost var c := contents;
      EnsureCapacity(newLen);
      FillBehind(data, len, Repeat(x, newLen - len), c);
      contents := c + Repeat(x, newLen - len);
      len := newLen;
    }

    /** Keep, in order, the elements p accepts; destroy the others in order. */
    method Retain(p: T -> bool)
      requires Valid()
      modifies this, data
      ensures Valid() && data == old(data)
      ensures View() == Apply(old(View()), Op.Retain(p))
    {
      TakeApplied(View(), Op.Retain(p));
      hide Apply, Filter, Holds;
      ghost var order;
      len, order := Compact(data, len, p, contents);
      contents, dropped := Filter(p, contents), dropped + order;
    }

    method Clone() returns (r: Vec<T>)
      requires Valid()
      ensures r.Valid() && fresh(r) && fresh(r.data)
      ensures r.View() == VecState(contents, Grown(0, |contents|), 0, [], [])
    {
      r := new Vec();
      r.Reserve(len);
      CopyInto(r.data, data, len, contents);
      r.len := len;
      r.contents := contents;
    }
  }
}
