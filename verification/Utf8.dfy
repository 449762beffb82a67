/** Well-formed UTF-8: the grammar of section 4 of RFC 3629. */
module Utf8 {
  type Byte = b: nat | b < 0x100

  predicate Tail(b: Byte) {
    0x80 <= b <= 0xBF
  }

  /** The bytes that may follow the given first byte of a character of two or more bytes. */
  predicate Second(first: Byte, b: Byte) {
    match first
    case 0xE0 => 0xA0 <= b <= 0xBF
    case 0xED => 0x80 <= b <= 0x9F
    case 0xF0 => 0x90 <= b <= 0xBF
    case 0xF4 => 0x80 <= b <= 0x8F
    case _ => Tail(b)
  }

  /** How many bytes the character with this first byte has; none starts with the others. */
  function Width(first: Byte): (n: nat)
    ensures n <= 4
  {
    if first <= 0x7F then 1
    else if 0xC2 <= first <= 0xDF then 2
    else if 0xE0 <= first <= 0xEF then 3
    else if 0xF0 <= first <= 0xF4 then 4
    else 0
  }

  /** The width of the well-formed character s begins with, or 0. */
  function CharAt(s: seq<Byte>): (n: nat)
    ensures n <= |s|
  {
    if s == [] then 0
    else
      var n := Width(s[0]);
      if n <= |s| && (n >= 2 ==> Second(s[0], s[1])) && (n >= 3 ==> Tail(s[2])) && (n >= 4 ==> Tail(s[3])) then n else 0
  }

  predicate WellFormed(s: seq<Byte>) {
    s == [] || (CharAt(s) > 0 && WellFormed(s[CharAt(s)..]))
  }

  /** Where a text may be cut: at its ends or before a byte that does not continue a character. */
  predicate Boundary(s: seq<Byte>, k: nat) {
    k <= |s| && (k == 0 || k == |s| || !Tail(s[k]))
  }

  lemma CharPrefix(s: seq<Byte>, t: seq<Byte>)
    requires CharAt(s) > 0
    ensures CharAt(s + t) == CharAt(s)
  {
    assert forall i :: 0 <= i < |s| ==> (s + t)[i] == s[i];
  }

  /** A character begins with a byte that is no continuation, and consists of such bytes from there on. */
  lemma CharShape(s: seq<Byte>, i: nat)
    requires i < CharAt(s)
    ensures Tail(s[i]) <==> i > 0
  {
  }

  /** A well-formed beginning can be added or taken away. */
  lemma {:induction false} Concat(a: seq<Byte>, b: seq<Byte>)
    requires WellFormed(a)
    ensures WellFormed(a + b) <==> WellFormed(b)
  {
    if a == [] {
      assert a + b == b;
    } else {
      CharPrefix(a, b);
      var n := CharAt(a);
      Concat(a[n..], b);
      assert (a + b)[n..] == a[n..] + b;
    }
  }

  lemma {:induction false} CutIsWellFormed(s: seq<Byte>, k: nat)
    requires WellFormed(s) && Boundary(s, k)
    ensures WellFormed(s[..k]) && WellFormed(s[k..])
  {
    if k == 0 || k == |s| {
      assert s[..|s|] == s && s[|s|..] == [] && s[..0] == [] && s[0..] == s;
    } else {
      var n := CharAt(s);
      if k < n { CharShape(s, k); }
      CutIsWellFormed(s[n..], k - n);
      assert s[n..][k - n..] == s[k..] && s[..k][n..] == s[n..][..k - n];
      CharWithin(s, k);
    }
  }

  lemma CharWithin(s: seq<Byte>, k: nat)
    requires 0 < CharAt(s) <= k <= |s|
    ensures CharAt(s[..k]) == CharAt(s)
  {
  }

  lemma StartsCharacter(s: seq<Byte>)
    ensures WellFormed(s) && s != [] ==> !Tail(s[0])
  {
  }

  /** Cutting a well-formed text leaves a well-formed beginning exactly at a boundary. */
  lemma CutExactly(s: seq<Byte>, k: nat)
    requires WellFormed(s) && k <= |s|
    ensures WellFormed(s[..k]) <==> Boundary(s, k)
  {
    if Boundary(s, k) {
      CutIsWellFormed(s, k);
    } else if WellFormed(s[..k]) {
      assert s == s[..k] + s[k..];
      StartsCharacter(s[k..]);
      Concat(s[..k], s[k..]);
    }
  }

  /** The length of the longest well-formed beginning. */
  function ValidPrefix(s: seq<Byte>): (n: nat)
    ensures n <= |s|
  {
    if CharAt(s) == 0 then 0 else CharAt(s) + ValidPrefix(s[CharAt(s)..])
  }

  /** Beginning after the first character, of a beginning or of the whole. */
  lemma SliceAfter(s: seq<Byte>, n: nat, k: nat)
    requires n <= k <= |s|
    ensures s[..k][n..] == s[n..][..k - n]
  {
  }

  /** A beginning of s is well-formed exactly if its part after the first character of s is. */
  lemma BeginningAfter(s: seq<Byte>, k: nat)
    requires 0 < CharAt(s) <= k <= |s|
    ensures WellFormed(s[..k]) <==> WellFormed(s[CharAt(s)..][..k - CharAt(s)])
  {
    CharWithin(s, k);
    SliceAfter(s, CharAt(s), k);
  }

  lemma {:induction false} ValidPrefixIsWellFormed(s: seq<Byte>)
    ensures WellFormed(s[..ValidPrefix(s)])
  {
    if CharAt(s) > 0 {
      ValidPrefixIsWellFormed(s[CharAt(s)..]);
      BeginningAfter(s, ValidPrefix(s));
    }
  }

  lemma {:induction false} NoLongerPrefix(s: seq<Byte>, k: nat)
    requires k <= |s| && WellFormed(s[..k])
    ensures k <= ValidPrefix(s)
  {
    var n := CharAt(s);
    if k > 0 {
      NeedsCharacter(s, k);
      BeginningAfter(s, k);
      NoLongerPrefix(s[n..], k - n);
    }
  }

  /** A well-formed beginning has the whole first character. */
  lemma NeedsCharacter(s: seq<Byte>, k: nat)
    requires 0 < k <= |s| && WellFormed(s[..k])
    ensures 0 < CharAt(s) <= k
  {
    assert s == s[..k] + s[k..];
    CharPrefix(s[..k], s[k..]);
  }

  /** The validated prefix is well-formed, none longer is, and it is everything exactly for well-formed bytes. */
  lemma ValidPrefixIsLongest(s: seq<Byte>, k: nat)
    requires k <= |s|
    ensures WellFormed(s[..ValidPrefix(s)]) && (WellFormed(s[..k]) ==> k <= ValidPrefix(s))
    ensures WellFormed(s) <==> ValidPrefix(s) == |s|
  {
    ValidPrefixIsWellFormed(s);
    assert s[..|s|] == s;
    if WellFormed(s) { NoLongerPrefix(s, |s|); }
    if WellFormed(s[..k]) { NoLongerPrefix(s, k); }
  }

  /** The characters: section 3 of RFC 3629 excludes the surrogates. */
  predicate Scalar(c: nat) {
    c < 0x110000 && !(0xD800 <= c < 0xE000)
  }

  /** The last six bits of c, which a continuation byte carries, and the bits before them. */
  function Low(c: nat): (l: nat)
    ensures l < 0x40
  {
    c % 0x40
  }

  function High(c: nat): (h: nat)
    ensures c == 0x40 * h + Low(c)
  {
    c / 0x40
  }

  lemma SixBits(h: nat, l: nat)
    requires l < 0x40
    ensures High(0x40 * h + l) == h && Low(0x40 * h + l) == l
  {
    hide High, Low;
    assert 0x40 * h + l == 0x40 * High(0x40 * h + l) + Low(0x40 * h + l);
  }

  /** The bytes of a character, by the table of section 3. */
  function Encode(c: nat): (s: seq<Byte>)
    requires Scalar(c)
    ensures 1 <= |s| <= 4
  {
    if c < 0x80 then [c]
    else if c < 0x800 then [0xC0 + High(c), 0x80 + Low(c)]
    else if c < 0x10000 then [0xE0 + High(High(c)), 0x80 + Low(High(c)), 0x80 + Low(c)]
    else [0xF0 + High(High(High(c))), 0x80 + Low(High(High(c))), 0x80 + Low(High(c)), 0x80 + Low(c)]
  }

  /** What a byte adds to its mark. */
  function Bits(b: Byte, mark: Byte): nat
    requires mark <= b
  {
    b - mark
  }

  /** The character the bytes begin with. */
  function Decode(s: seq<Byte>): nat
    requires CharAt(s) > 0
  {
    match CharAt(s)
    case 1 => s[0]
    case 2 => 0x40 * Bits(s[0], 0xC0) + Bits(s[1], 0x80)
    case 3 => 0x40 * (0x40 * Bits(s[0], 0xE0) + Bits(s[1], 0x80)) + Bits(s[2], 0x80)
    case _ => 0x40 * (0x40 * (0x40 * Bits(s[0], 0xF0) + Bits(s[1], 0x80)) + Bits(s[2], 0x80)) + Bits(s[3], 0x80)
  }

  lemma EncodedIsCharacter(c: nat)
    requires Scalar(c)
    ensures CharAt(Encode(c)) == |Encode(c)| && Decode(Encode(c)) == c
  {
    hide High, Low;
  }

  lemma CharacterIsEncoded(s: seq<Byte>)
    requires CharAt(s) > 0
    ensures Scalar(Decode(s)) && Encode(Decode(s)) == s[..CharAt(s)]
  {
    match CharAt(s)
    case 1 =>
    case 2 => TwoAreEncoded(s);
    case 3 => ThreeAreEncoded(s);
    case _ => FourAreEncoded(s);
  }

  lemma TwoAreEncoded(s: seq<Byte>)
    requires CharAt(s) == 2
    ensures Scalar(Decode(s)) && Encode(Decode(s)) == s[..2]
  {
    SixBits(Bits(s[0], 0xC0), Bits(s[1], 0x80));
    hide High, Low;
  }

  lemma ThreeAreEncoded(s: seq<Byte>)
    requires CharAt(s) == 3
    ensures Scalar(Decode(s)) && Encode(Decode(s)) == s[..3]
  {
    var h := 0x40 * Bits(s[0], 0xE0) + Bits(s[1], 0x80);
    SixBits(Bits(s[0], 0xE0), Bits(s[1], 0x80));
    SixBits(h, Bits(s[2], 0x80));
    hide High, Low;
  }

  lemma FourAreEncoded(s: seq<Byte>)
    requires CharAt(s) == 4
    ensures Scalar(Decode(s)) && Encode(Decode(s)) == s[..4]
  {
    var g := 0x40 * Bits(s[0], 0xF0) + Bits(s[1], 0x80);
    var h := 0x40 * g + Bits(s[2], 0x80);
    SixBits(Bits(s[0], 0xF0), Bits(s[1], 0x80));
    SixBits(g, Bits(s[2], 0x80));
    SixBits(h, Bits(s[3], 0x80));
    hide High, Low;
  }

  function EncodeAll(cs: seq<nat>): seq<Byte>
    requires forall k :: 0 <= k < |cs| ==> Scalar(cs[k])
  {
    if cs == [] then [] else Encode(cs[0]) + EncodeAll(cs[1..])
  }

  function DecodeAll(s: seq<Byte>): seq<nat>
    requires WellFormed(s)
  {
    if s == [] then [] else [Decode(s)] + DecodeAll(s[CharAt(s)..])
  }

  lemma DecodePrefix(s: seq<Byte>, t: seq<Byte>)
    requires CharAt(s) > 0
    ensures CharAt(s + t) == CharAt(s) && Decode(s + t) == Decode(s)
  {
    CharPrefix(s, t);
  }

  /** Whatever characters are encoded, the bytes are well-formed and decode to them. */
  lemma {:induction false} EncodedIsWellFormed(cs: seq<nat>)
    requires forall k :: 0 <= k < |cs| ==> Scalar(cs[k])
    ensures WellFormed(EncodeAll(cs)) && DecodeAll(EncodeAll(cs)) == cs
  {
    if cs != [] {
      EncodedIsWellFormed(cs[1..]);
      EncodedIsCharacter(cs[0]);
      hide Encode, Decode, CharAt;
      DecodePrefix(Encode(cs[0]), EncodeAll(cs[1..]));
      var s := Encode(cs[0]) + EncodeAll(cs[1..]);
      assert s[CharAt(s)..] == EncodeAll(cs[1..]);
      assert s != [];
    }
  }

  /** And bytes are well-formed only as the encoding of some characters, which are those they decode to. */
  lemma {:induction false} WellFormedIsEncoded(s: seq<Byte>)
    requires WellFormed(s)
    ensures forall k :: 0 <= k < |DecodeAll(s)| ==> Scalar(DecodeAll(s)[k])
    ensures EncodeAll(DecodeAll(s)) == s
  {
    hide Encode, Decode, CharAt, Scalar;
    if s != [] {
      var n := CharAt(s);
      var rest := DecodeAll(s[n..]);
      WellFormedIsEncoded(s[n..]);
      CharacterIsEncoded(s);
      assert DecodeAll(s) == [Decode(s)] + rest;
      hide DecodeAll, WellFormed;
      assert ([Decode(s)] + rest)[1..] == rest && ([Decode(s)] + rest)[0] == Decode(s);
      assert s == s[..n] + s[n..];
    }
  }

  predicate OccursAt(s: seq<Byte>, needle: seq<Byte>, i: nat) {
    i + |needle| <= |s| && s[i..i + |needle|] == needle
  }

  /** A well-formed needle can only be found on whole characters: both its ends are places to cut. */
  lemma OccurrenceIsOnBoundaries(s: seq<Byte>, needle: seq<Byte>, i: nat)
    requires WellFormed(s) && WellFormed(needle) && needle != [] && OccursAt(s, needle, i)
    ensures Boundary(s, i) && Boundary(s, i + |needle|)
    ensures WellFormed(s[..i]) && WellFormed(s[i + |needle|..])
  {
    CharShape(needle, 0);
    assert s[i] == needle[0];
    CutIsWellFormed(s, i);
    var after := s[i + |needle|..];
    assert s[i..] == needle + after;
    Concat(needle, after);
    if after != [] { CharShape(after, 0); }
  }
}
