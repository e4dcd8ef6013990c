/** Byte strings, little-endian integers and the fixed-offset writes that the wire encoders use. */
module Bytes {
  type Byte = b: int | 0 <= b < 256

  function Zeros(count: nat): (s: seq<Byte>)
    ensures |s| == count && forall i :: 0 <= i < count ==> s[i] == 0
  {
    seq(count, _ => 0)
  }

  /** The number of values a `width`-byte integer can take. */
  function Range(width: nat): (r: nat)
    ensures r > 0
  {
    if width == 0 then 1 else 256 * Range(width - 1)
  }

  function LittleEndian(value: nat, width: nat): (s: seq<Byte>)
    requires value < Range(width)
    ensures |s| == width
  {
    if width == 0 then [] else [value % 256] + LittleEndian(value / 256, width - 1)
  }

  function FromLittleEndian(s: seq<Byte>): (value: nat)
    ensures value < Range(|s|)
  {
    if s == [] then 0 else s[0] + 256 * FromLittleEndian(s[1..])
  }

  lemma {:induction false} ReadsWhatWasWritten(value: nat, width: nat)
    requires value < Range(width)
    ensures FromLittleEndian(LittleEndian(value, width)) == value
  {
    if width > 0 {
      ReadsWhatWasWritten(value / 256, width - 1);
      assert LittleEndian(value, width)[1..] == LittleEndian(value / 256, width - 1);
    }
  }

  lemma {:induction false} WritesWhatWasRead(s: seq<Byte>)
    ensures LittleEndian(FromLittleEndian(s), |s|) == s
  {
    if s != [] {
      WritesWhatWasRead(s[1..]);
    }
  }

  lemma Ranges()
    ensures Range(1) == 0x100
    ensures Range(2) == 0x1_0000
    ensures Range(4) == 0x1_0000_0000
    ensures Range(8) == 0x1_0000_0000_0000_0000
  {
    assert Range(2) == 256 * Range(1);
    assert Range(3) == 256 * Range(2);
    assert Range(4) == 256 * Range(3);
    assert Range(5) == 256 * Range(4);
    assert Range(6) == 256 * Range(5);
    assert Range(7) == 256 * Range(6);
    assert Range(8) == 256 * Range(7);
  }

  type UInt64 = n: int | 0 <= n < 0x1_0000_0000_0000_0000

  type Int32 = n: int | -0x8000_0000 <= n <= 0x7FFF_FFFF

  const INT32_MIN: int := -0x8000_0000
  const INT32_MAX: int := 0x7FFF_FFFF
  const UINT16_LIMIT: nat := 0x1_0000
  const UINT32_LIMIT: nat := 0x1_0000_0000
  const UINT64_LIMIT: nat := 0x1_0000_0000_0000_0000

  /** Two's complement image of a 32-bit signed integer. */
  function Unsigned32(value: int): (u: nat)
    requires INT32_MIN <= value <= INT32_MAX
    ensures u < UINT32_LIMIT
    ensures Signed32(u) == value
  {
    if value < 0 then value + UINT32_LIMIT else value
  }

  function Signed32(u: nat): (value: int)
    requires u < UINT32_LIMIT
    ensures INT32_MIN <= value <= INT32_MAX
  {
    if u <= INT32_MAX then u else u - UINT32_LIMIT
  }

  function U16(value: nat): (s: seq<Byte>)
    requires value < UINT16_LIMIT
    ensures |s| == 2
  {
    Ranges();
    LittleEndian(value, 2)
  }

  function U32(value: nat): (s: seq<Byte>)
    requires value < UINT32_LIMIT
    ensures |s| == 4
  {
    Ranges();
    LittleEndian(value, 4)
  }

  function U64(value: nat): (s: seq<Byte>)
    requires value < UINT64_LIMIT
    ensures |s| == 8
  {
    Ranges();
    LittleEndian(value, 8)
  }

  function I32(value: int): (s: seq<Byte>)
    requires INT32_MIN <= value <= INT32_MAX
    ensures |s| == 4
  {
    U32(Unsigned32(value))
  }

  function ReadU16(s: seq<Byte>): (value: nat)
    requires |s| == 2
    ensures value < UINT16_LIMIT && U16(value) == s
  {
    Ranges();
    WritesWhatWasRead(s);
    FromLittleEndian(s)
  }

  function ReadU32(s: seq<Byte>): (value: nat)
    requires |s| == 4
    ensures value < UINT32_LIMIT && U32(value) == s
  {
    Ranges();
    WritesWhatWasRead(s);
    FromLittleEndian(s)
  }

  function ReadU64(s: seq<Byte>): (value: nat)
    requires |s| == 8
    ensures value < UINT64_LIMIT && U64(value) == s
  {
    Ranges();
    WritesWhatWasRead(s);
    FromLittleEndian(s)
  }

  function ReadI32(s: seq<Byte>): (value: int)
    requires |s| == 4
    ensures INT32_MIN <= value <= INT32_MAX && I32(value) == s
  {
    Signed32(ReadU32(s))
  }

  lemma U16RoundTrip(value: nat)
    requires value < UINT16_LIMIT
    ensures ReadU16(U16(value)) == value
  {
    Ranges();
    ReadsWhatWasWritten(value, 2);
  }

  lemma U32RoundTrip(value: nat)
    requires value < UINT32_LIMIT
    ensures ReadU32(U32(value)) == value
  {
    Ranges();
    ReadsWhatWasWritten(value, 4);
  }

  lemma U64RoundTrip(value: nat)
    requires value < UINT64_LIMIT
    ensures ReadU64(U64(value)) == value
  {
    Ranges();
    ReadsWhatWasWritten(value, 8);
  }

  lemma I32RoundTrip(value: int)
    requires INT32_MIN <= value <= INT32_MAX
    ensures ReadI32(I32(value)) == value
  {
    U32RoundTrip(Unsigned32(value));
  }

  /** The array holds `built` followed by bytes nobody has written yet. */
  ghost predicate Written(a: array<Byte>, built: seq<Byte>)
    reads a
  {
    |built| <= a.Length && a[..] == built + Zeros(a.Length - |built|)
  }

  /** Text in a field of fixed capacity: the rest of the field is zero. */
  function Field(text: seq<Byte>, capacity: nat): (s: seq<Byte>)
    requires |text| <= capacity
    ensures |s| == capacity
  {
    text + Zeros(capacity - |text|)
  }

  /** Copies `text` to `offset`, where a field of `capacity` bytes begins. */
  method Put(a: array<Byte>, offset: nat, text: seq<Byte>, ghost capacity: nat, ghost built: seq<Byte>)
    requires Written(a, built) && |built| == offset
    requires |text| <= capacity && offset + capacity <= a.Length
    modifies a
    ensures Written(a, built + Field(text, capacity))
  {
    forall i | 0 <= i < |text| {
      a[offset + i] := text[i];
    }
    assert a[..] == (built + Field(text, capacity)) + Zeros(a.Length - offset - capacity);
  }

  method PutTwo(a: array<Byte>, offset: nat, f1: seq<Byte>, f2: seq<Byte>, ghost built: seq<Byte>)
    requires Written(a, built) && |built| == offset
    requires offset + |f1| + |f2| <= a.Length
    modifies a
    ensures Written(a, built + (f1 + f2))
  {
    Put(a, offset, f1, |f1|, built);
    assert Field(f1, |f1|) == f1;
    Put(a, offset + |f1|, f2, |f2|, built + f1);
    assert Field(f2, |f2|) == f2;
    assert built + f1 + f2 == built + (f1 + f2);
  }

  method PutFour(a: array<Byte>, offset: nat, f1: seq<Byte>, f2: seq<Byte>, f3: seq<Byte>, f4: seq<Byte>,
                 ghost built: seq<Byte>)
    requires Written(a, built) && |built| == offset
    requires offset + |f1| + |f2| + |f3| + |f4| <= a.Length
    modifies a
    ensures Written(a, built + (f1 + f2 + f3 + f4))
  {
    PutTwo(a, offset, f1, f2, built);
    PutTwo(a, offset + |f1| + |f2|, f3, f4, built + (f1 + f2));
    PairsRegroup(built, f1, f2, f3, f4);
  }

  method PutTexts(a: array<Byte>, offset: nat, t1: seq<Byte>, c1: nat, t2: seq<Byte>, c2: nat, ghost built: seq<Byte>)
    requires Written(a, built) && |built| == offset
    requires |t1| <= c1 && |t2| <= c2 && offset + c1 + c2 <= a.Length
    modifies a
    ensures Written(a, built + (Field(t1, c1) + Field(t2, c2)))
  {
    Put(a, offset, t1, c1, built);
    Put(a, offset + c1, t2, c2, built + Field(t1, c1));
    assert built + Field(t1, c1) + Field(t2, c2) == built + (Field(t1, c1) + Field(t2, c2));
  }

  lemma PairsRegroup(s: seq<Byte>, f1: seq<Byte>, f2: seq<Byte>, f3: seq<Byte>, f4: seq<Byte>)
    ensures s + (f1 + f2) + (f3 + f4) == s + (f1 + f2 + f3 + f4)
  {
  }

  lemma Regroup(s: seq<Byte>, f1: seq<Byte>, f2: seq<Byte>, f3: seq<Byte>, f4: seq<Byte>)
    ensures s + f1 + (f2 + f3) + f4 == s + (f1 + f2 + f3 + f4)
  {
  }

  /** The fields of a run of four can be cut back out of it. */
  lemma FourFields(s: seq<Byte>, f1: seq<Byte>, f2: seq<Byte>, f3: seq<Byte>, f4: seq<Byte>)
    requires f1 + f2 + f3 + f4 <= s
    ensures |f1| + |f2| + |f3| + |f4| <= |s|
    ensures s[0..|f1|] == f1
    ensures s[|f1|..|f1| + |f2|] == f2
    ensures s[|f1| + |f2|..|f1| + |f2| + |f3|] == f3
    ensures s[|f1| + |f2| + |f3|..|f1| + |f2| + |f3| + |f4|] == f4
  {
    FieldAt(s, f1 + f2 + f3, f4);
    FieldAt(s, f1 + f2, f3);
    FieldAt(s, f1, f2);
  }

  lemma TwoInside(s: seq<Byte>, at: nat, f1: seq<Byte>, f2: seq<Byte>)
    requires at + |f1| + |f2| <= |s| && s[at..at + |f1 + f2|] == f1 + f2
    ensures s[at..at + |f1|] == f1 && s[at + |f1|..at + |f1| + |f2|] == f2
  {
    var run := s[at..at + |f1 + f2|];
    assert run[..|f1|] == f1 && run[|f1|..] == f2;
  }

  lemma FourInside(s: seq<Byte>, at: nat, f1: seq<Byte>, f2: seq<Byte>, f3: seq<Byte>, f4: seq<Byte>)
    requires at + |f1| + |f2| + |f3| + |f4| <= |s|
    requires s[at..at + |f1| + |f2| + |f3| + |f4|] == f1 + f2 + f3 + f4
    ensures s[at..at + |f1|] == f1
    ensures s[at + |f1|..at + |f1| + |f2|] == f2
    ensures s[at + |f1| + |f2|..at + |f1| + |f2| + |f3|] == f3
    ensures s[at + |f1| + |f2| + |f3|..at + |f1| + |f2| + |f3| + |f4|] == f4
  {
    assert f1 + f2 + f3 + f4 == (f1 + f2) + (f3 + f4);
    TwoInside(s, at, f1 + f2, f3 + f4);
    TwoInside(s, at, f1, f2);
    TwoInside(s, at + |f1| + |f2|, f3, f4);
  }

  lemma FourJoin(s: seq<Byte>, i: nat, j: nat, k: nat, l: nat, m: nat)
    requires i <= j <= k <= l <= m <= |s|
    ensures s[i..m] == s[i..j] + s[j..k] + s[k..l] + s[l..m]
  {
    assert s[i..k] == s[i..j] + s[j..k];
    assert s[i..l] == s[i..k] + s[k..l];
    assert s[i..m] == s[i..l] + s[l..m];
  }

  /** Four successive cuts make up the prefix they cover. */
  lemma FourCuts(s: seq<Byte>, i: nat, j: nat, k: nat, l: nat)
    requires i <= j <= k <= l <= |s|
    ensures s[..l] == s[0..i] + s[i..j] + s[j..k] + s[k..l]
  {
    TakeStep(s, i, j);
    TakeStep(s, j, k);
    TakeStep(s, k, l);
  }

  /** Every byte of s[used..capacity] is zero. */
  predicate IsZero(s: seq<Byte>, used: nat, capacity: nat)
    requires used <= capacity <= |s|
  {
    forall i :: used <= i < capacity ==> s[i] == 0
  }

  method CheckZero(s: seq<Byte>, used: nat, capacity: nat) returns (zero: bool)
    requires used <= capacity <= |s|
    ensures zero == IsZero(s, used, capacity)
  {
    for index := used to capacity
      invariant IsZero(s, used, index)
    {
      if s[index] != 0 {
        return false;
      }
    }
    return true;
  }

  lemma PaddingIsZeros(s: seq<Byte>, used: nat, capacity: nat)
    requires used <= capacity <= |s|
    ensures IsZero(s, used, capacity) <==> s[used..capacity] == Zeros(capacity - used)
  {
    if s[used..capacity] == Zeros(capacity - used) {
      forall i | used <= i < capacity ensures s[i] == 0 {
        assert s[i] == s[used..capacity][i - used];
      }
    }
  }

  /** The text and the padding of a field that sits inside a payload. */
  lemma FieldParts(s: seq<Byte>, start: nat, text: seq<Byte>, end: nat)
    requires start + |text| <= end <= |s| && s[start..end] == Field(text, end - start)
    ensures s[start..start + |text|] == text
    ensures IsZero(s, start + |text|, end)
  {
    var field := s[start..end];
    assert field[..|text|] == text;
    assert field[..|text|] == s[start..start + |text|];
    forall i | start + |text| <= i < end ensures s[i] == 0 {
      assert s[i] == field[i - start] == Zeros(end - start - |text|)[i - start - |text|];
    }
  }

  lemma TakeStep(s: seq<Byte>, i: nat, j: nat)
    requires i <= j <= |s|
    ensures s[..j] == s[..i] + s[i..j]
  {
  }

  /** A field that lies inside a concatenation can be cut back out of it. */
  lemma FieldAt(s: seq<Byte>, before: seq<Byte>, field: seq<Byte>)
    requires before + field <= s
    ensures before <= s
    ensures |before| + |field| <= |s|
    ensures s[|before|..|before| + |field|] == field
  {
    assert (before + field)[..|before|] == before;
    assert s[..|before| + |field|] == before + field;
  }
}
