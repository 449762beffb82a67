/** string.cpp: a growable byte buffer whose text is well-formed UTF-8 and is followed by a NUL. */
module XStrings {
  import opened Wrappers
  import opened Utf8
  import Vecs

  /** The result of a checked operation, with the position of the first bad byte. */
  datatype Checked = Ok | Invalid(validUpTo: nat)

  /** The text after a checked append. */
  function TryAppended(text: seq<Byte>, bytes: seq<Byte>): (seq<Byte>, Checked) {
    if ValidPrefix(bytes) == |bytes| then (text + bytes, Ok) else (text, Invalid(ValidPrefix(bytes)))
  }

  /** The text keeps its form, and a failure leaves it alone and names the longest good beginning. */
  lemma TryAppendedIsWellFormed(text: seq<Byte>, bytes: seq<Byte>)
    requires WellFormed(text)
    ensures var (t, r) := TryAppended(text, bytes);
            && WellFormed(t)
            && t == (if WellFormed(bytes) then text + bytes else text)
            && (r.Ok? <==> WellFormed(bytes))
            && (r.Ok? <==> WellFormed(text + bytes))
            && (r.Invalid? ==> t == text && r.validUpTo < |bytes| && WellFormed(bytes[..r.validUpTo]))
            && (r.Invalid? ==> forall k :: r.validUpTo < k <= |bytes| ==> !WellFormed(bytes[..k]))
  {
    Concat(text, bytes);
    ValidPrefixIsLongest(bytes, |bytes|);
    forall k | 0 <= k <= |bytes| ensures WellFormed(bytes[..k]) ==> k <= ValidPrefix(bytes) {
      ValidPrefixIsLongest(bytes, k);
    }
  }

  /** The capacity left by writing len bytes and then the NUL. */
  function WithNul(cap: nat, len: nat): nat {
    if len == 0 then cap else Vecs.Grown(cap, len + 1)
  }

  /** The capacity shrink_to_fit leaves, when its allocation succeeds. */
  function ShrunkCap(len: nat): nat {
    WithNul(len, len)
  }

  /** For a text that is not empty, shrinking ends with twice its length: the exact fit has no room for the NUL. */
  lemma ShrinkDoubles(cap: nat, len: nat)
    requires len < cap
    ensures ShrunkCap(len) == 2 * len
    ensures ShrunkCap(len) > cap <==> 0 < len && cap < 2 * len
  {
    if len > 0 { Vecs.NextBlock(len); }
  }

  /** The first place a needle occurs. */
  ghost predicate FirstAt(s: seq<Byte>, needle: seq<Byte>, i: nat) {
    OccursAt(s, needle, i) && forall j: nat :: j < i ==> !OccursAt(s, needle, j)
  }

  /** The scan of find_impl for short needles; the library search it uses for long ones finds the same place. */
  method FindImpl(haystack: seq<Byte>, needle: seq<Byte>) returns (r: Option<nat>)
    ensures r.None? <==> forall i: nat :: !OccursAt(haystack, needle, i)
    ensures r.Some? ==> FirstAt(haystack, needle, r.value)
  {
    if |needle| > |haystack| { return None; }
    var last, i := |haystack| - |needle|, 0;
    while i <= last
      invariant i <= last + 1
      invariant forall j: nat :: j < i ==> !OccursAt(haystack, needle, j)
    {
      if haystack[i..i + |needle|] == needle {
        assert OccursAt(haystack, needle, i);
        return Some(i);
      }
      i := i + 1;
    }
    r := None;
  }

  /** Copy src into a from start on. */
  method CopyBytes(a: array<Byte>, start: nat, src: seq<Byte>)
    requires start + |src| <= a.Length
    modifies a
    ensures a[..start + |src|] == old(a[..start]) + src
  {
    for i := 0 to |src|
      invariant forall k :: 0 <= k < start ==> a[k] == old(a[k])
      invariant forall k :: start <= k < start + i ==> a[k] == src[k - start]
    {
      a[start + i] := src[i];
    }
  }

  class String {
    var data: array<Byte>
    var len: nat

    ghost predicate Valid()
      reads this, data
    {
      && len <= data.Length
      && WellFormed(data[..len])
      && (len > 0 ==> len < data.Length && data[len] == 0)
    }

    ghost function Text(): seq<Byte>
      reads this, data
      requires len <= data.Length
    {
      data[..len]
    }

    constructor ()
      ensures Valid() && Text() == [] && fresh(data) && data.Length == 0
    {
      data, len := new Byte[0], 0;
    }

    /** ensure_capacity of the underlying Vec<char>, which copies bytes. */
    method EnsureCapacity(required: nat)
      requires len <= data.Length
      modifies this`data
      ensures data == old(data) || fresh(data)
      ensures data.Length == Vecs.Grown(old(data.Length), required)
      ensures len <= data.Length && data[..len] == old(data[..len])
    {
      if required <= data.Length { return; }
      var newCap := if data.Length == 0 then 4 else data.Length;
      while newCap < required
        invariant newCap > 0 && Vecs.Doubled(newCap, required) == Vecs.Grown(data.Length, required)
        decreases required - newCap
      {
        newCap := newCap * 2;
      }
      Reallocate(newCap);
    }

    method Reallocate(n: nat)
      requires len <= data.Length && len <= n
      modifies this`data
      ensures fresh(data) && data.Length == n && data[..len] == old(data[..len])
    {
      var newBuf := new Byte[n];
      CopyBytes(newBuf, 0, data[..len]);
      assert newBuf[..len] == data[..len];
      data := newBuf;
    }

    /** extend of the underlying Vec<char>. */
    method Extend(src: seq<Byte>)
      requires len <= data.Length
      modifies this, data
      ensures data == old(data) || fresh(data)
      ensures len <= data.Length && data[..len] == old(data[..len]) + src
      ensures data.Length == if src == [] then old(data.Length) else Vecs.Grown(old(data.Length), old(len) + |src|)
    {
      if src == [] { return; }
      EnsureCapacity(len + |src|);
      CopyBytes(data, len, src);
      len := len + |src|;
    }

    /** The byte after the text becomes NUL, in a larger buffer when this one is full. */
    method EnsureNul()
      requires len <= data.Length
      modifies this`data, data
      ensures data == old(data) || fresh(data)
      ensures data.Length == WithNul(old(data.Length), len) && (data.Length == old(data.Length) ==> data == old(data))
      ensures len <= data.Length && data[..len] == old(data[..len])
      ensures len > 0 ==> len < data.Length && data[len] == 0
    {
      if len == 0 { return; }
      if data.Length <= len { EnsureCapacity(len + 1); }
      ghost var text := data[..len];
      data[len] := 0;
      assert data[..len] == text;
    }

    /** The checked constructor: nothing is made from bytes that are not UTF-8. */
    static method From(bytes: seq<Byte>) returns (s: Option<String>, r: Checked)
      ensures r == TryAppended([], bytes).1 && (s.Some? <==> r.Ok?)
      ensures s.Some? ==> fresh(s.value) && s.value.Valid() && s.value.Text() == bytes
    {
      var valid := ValidPrefix(bytes);
      if valid != |bytes| { return None, Invalid(valid); }
      var made := new String();
      made.EnsureCapacity(|bytes| + 1);
      made.Extend(bytes);
      made.EnsureNul();
      ValidPrefixIsLongest(bytes, |bytes|);
      assert [] + bytes == bytes;
      s, r := Some(made), Ok;
    }

    /** The appends that panic on bytes that are not UTF-8. */
    method Append(bytes: seq<Byte>)
      requires Valid() && WellFormed(bytes)
      modifies this, data
      ensures Valid() && (data == old(data) || fresh(data))
      ensures Text() == old(Text()) + bytes
    {
      if bytes == [] {
        assert Text() + bytes == Text();
        return;
      }
      Concat(Text(), bytes);
      Extend(bytes);
      EnsureNul();
    }

    method TryAppend(bytes: seq<Byte>) returns (r: Checked)
      requires Valid()
      modifies this, data
      ensures Valid() && (data == old(data) || fresh(data))
      ensures (Text(), r) == TryAppended(old(Text()), bytes)
      ensures r.Invalid? ==> data == old(data) && data[..] == old(data[..]) && len == old(len)
    {
      TryAppendedIsWellFormed(Text(), bytes);
      if bytes == [] {
        assert Text() + bytes == Text();
        return Ok;
      }
      var valid := ValidPrefix(bytes);
      if valid != |bytes| { return Invalid(valid); }
      Extend(bytes);
      EnsureNul();
      r := Ok;
    }

    method Clear()
      requires Valid()
      modifies this`len
      ensures Valid() && Text() == []
    {
      len := 0;
      assert data[..len] == [];
    }

    /** The debug assertions of truncate are its requires. */
    method Truncate(byteLen: nat)
      requires Valid() && Boundary(Text(), byteLen)
      modifies this, data
      ensures Valid() && data == old(data) && Text() == old(Text())[..byteLen]
    {
      ghost var text := Text();
      assert text[..|text|] == text;
      if byteLen == len { return; }
      CutIsWellFormed(text, byteLen);
      len := byteLen;
      assert data[..len] == text[..len];
      EnsureNul();
    }

    method Reserve(additional: nat)
      requires Valid()
      modifies this, data
      ensures Valid() && Text() == old(Text()) && data.Length >= len + additional + 1
    {
      EnsureCapacity(len + additional + 1);
      EnsureNul();
    }

    /** granted says whether the allocation of the exact fit succeeded. */
    method ShrinkToFit(granted: bool)
      requires Valid()
      modifies this, data
      ensures Valid() && Text() == old(Text())
      ensures data.Length == if granted || len == 0 then ShrunkCap(len) else old(data.Length)
    {
      if data.Length == len { return; }
      if len == 0 {
        data := new Byte[0];
        return;
      }
      if granted { Reallocate(len); }
      EnsureNul();
    }

    method Find(needle: seq<Byte>) returns (r: Option<nat>)
      requires Valid()
      ensures r.None? <==> len == 0 || needle == [] || forall i: nat :: !OccursAt(Text(), needle, i)
      ensures r.Some? ==> FirstAt(Text(), needle, r.value)
      ensures r.Some? && WellFormed(needle) ==> Boundary(Text(), r.value) && Boundary(Text(), r.value + |needle|)
    {
      if len == 0 || needle == [] { return None; }
      r := FindImpl(data[..len], needle);
      assert r.Some? ==> FirstAt(Text(), needle, r.value) && OccursAt(Text(), needle, r.value);
      if r.Some? && WellFormed(needle) { OccurrenceIsOnBoundaries(Text(), needle, r.value); }
    }
  }
}
