/** UTF-8 text as byte strings, and the byte-bounded truncation used by the route details. */
module Utf8 {
  import opened Bytes

  predicate IsContinuation(b: Byte) { 0x80 <= b < 0xC0 }

  predicate InRange(b: Byte, low: Byte, high: Byte) { low <= b <= high }

  /**
   * Length in bytes of the UTF-8 character at the head of `s`, or 0 when no character starts
   * there (the grammar of section 4 of RFC 3629).
   */
  function HeadLength(s: seq<Byte>): (n: nat)
    ensures n <= 4 && n <= |s|
  {
    if |s| >= 1 && s[0] <= 0x7F then 1
    else if |s| >= 2 && InRange(s[0], 0xC2, 0xDF) && IsContinuation(s[1]) then 2
    else if |s| >= 3 && InRange(s[0], 0xE0, 0xEF) && ThreeByteSecond(s[0], s[1]) && IsContinuation(s[2]) then 3
    else if |s| >= 4 && InRange(s[0], 0xF0, 0xF4) && FourByteSecond(s[0], s[1])
            && IsContinuation(s[2]) && IsContinuation(s[3]) then 4
    else 0
  }

  predicate ThreeByteSecond(lead: Byte, second: Byte) {
    if lead == 0xE0 then InRange(second, 0xA0, 0xBF)
    else if lead == 0xED then InRange(second, 0x80, 0x9F)
    else IsContinuation(second)
  }

  predicate FourByteSecond(lead: Byte, second: Byte) {
    if lead == 0xF0 then InRange(second, 0x90, 0xBF)
    else if lead == 0xF4 then InRange(second, 0x80, 0x8F)
    else IsContinuation(second)
  }

  predicate WellFormed(s: seq<Byte>)
    decreases |s|
  {
    s == [] || (HeadLength(s) > 0 && WellFormed(s[HeadLength(s)..]))
  }

  /** C0 controls, DEL and the C1 controls U+0080..U+009F. */
  predicate HeadIsControl(s: seq<Byte>)
    requires HeadLength(s) > 0
  {
    s[0] < 0x20 || s[0] == 0x7F || (s[0] == 0xC2 && s[1] < 0xA0)
  }

  /** Strictly well-formed UTF-8 without control characters. */
  predicate Printable(s: seq<Byte>)
    decreases |s|
  {
    s == [] || (HeadLength(s) > 0 && !HeadIsControl(s) && Printable(s[HeadLength(s)..]))
  }

  lemma {:induction false} PrintableIsWellFormed(s: seq<Byte>)
    requires Printable(s)
    ensures WellFormed(s)
    decreases |s|
  {
    if s != [] {
      PrintableIsWellFormed(s[HeadLength(s)..]);
    }
  }

  lemma OneByte(b: Byte)
    requires b < 0x80
    ensures WellFormed([b])
    ensures Printable([b]) <==> 0x20 <= b < 0x7F
  {
    assert [b][1..] == [];
  }

  /** A fixed-capacity text field: printable text in its first `used` bytes, zeros up to `end`. */
  predicate TextField(s: seq<Byte>, start: nat, used: nat, end: nat)
    requires start + used <= end <= |s|
  {
    IsZero(s, start + used, end) && Printable(s[start..start + used])
  }

  /** A checked field is its text padded to the field's capacity. */
  lemma FieldOfText(s: seq<Byte>, start: nat, used: nat, end: nat)
    requires start + used <= end <= |s| && TextField(s, start, used, end)
    ensures s[start..end] == Field(s[start..start + used], end - start)
  {
  }

  lemma TextOfField(s: seq<Byte>, start: nat, text: seq<Byte>, end: nat)
    requires start + |text| <= end <= |s| && s[start..end] == Field(text, end - start)
    ensures s[start..start + |text|] == text
    ensures TextField(s, start, |text|, end) <==> Printable(text)
  {
    FieldParts(s, start, text, end);
  }

  method CheckTextField(s: seq<Byte>, start: nat, used: nat, end: nat) returns (ok: bool)
    requires start + used <= end <= |s|
    ensures ok == TextField(s, start, used, end)
  {
    var padded := CheckZero(s, start + used, end);
    return padded && Printable(s[start..start + used]);
  }

  /** Length of the white-space character at the head of printable text, or 0. */
  function WhiteSpaceLength(s: seq<Byte>): (n: nat)
    ensures n <= |s|
  {
    if |s| >= 1 && s[0] == 0x20 then 1
    else if |s| >= 2 && s[0] == 0xC2 && s[1] == 0xA0 then 2
    else if |s| >= 3 && s[..3] == [0xE1, 0x9A, 0x80] then 3
    else if |s| >= 3 && s[0] == 0xE2 && s[1] == 0x80
            && (s[2] <= 0x8A || s[2] == 0xA8 || s[2] == 0xA9 || s[2] == 0xAF) then 3
    else if |s| >= 3 && (s[..3] == [0xE2, 0x81, 0x9F] || s[..3] == [0xE3, 0x80, 0x80]) then 3
    else 0
  }

  /** Empty, or nothing but white space. */
  predicate Blank(s: seq<Byte>)
    decreases |s|
  {
    s == [] || (WhiteSpaceLength(s) > 0 && Blank(s[WhiteSpaceLength(s)..]))
  }

  predicate IdCharacter(b: Byte, first: bool) {
    var lowerOrDigit := 0x61 <= b <= 0x7A || 0x30 <= b <= 0x39;
    lowerOrDigit || (!first && (b == 0x2E || b == 0x5F || b == 0x2D))
  }

  /** Ids of presets and scenes: lower-case letters, digits and separators, not starting with a separator. */
  predicate ValidId(id: seq<Byte>) {
    forall i :: 0 <= i < |id| ==> IdCharacter(id[i], i == 0)
  }

  /** The length a lead byte announces, as the truncation loop reads it. */
  function AnnouncedLength(lead: Byte): nat {
    if 0xC0 <= lead < 0xE0 then 2
    else if 0xE0 <= lead < 0xF0 then 3
    else if 0xF0 <= lead < 0xF8 then 4
    else 1
  }

  /** A non-empty well-formed prefix starts with the same character. */
  lemma HeadOfPrefix(s: seq<Byte>, cut: nat)
    requires 0 < cut <= |s| && WellFormed(s) && HeadLength(s[..cut]) > 0
    ensures HeadLength(s[..cut]) == HeadLength(s) <= cut
  {
  }

  lemma SameHead(s: seq<Byte>, cut: nat)
    requires 0 < HeadLength(s) <= cut <= |s|
    ensures HeadLength(s[..cut]) == HeadLength(s)
  {
  }

  lemma HeadOfConcatenation(a: seq<Byte>, b: seq<Byte>)
    requires HeadLength(a) > 0
    ensures HeadLength(a + b) == HeadLength(a)
  {
    assert forall i :: 0 <= i < |a| ==> (a + b)[i] == a[i];
  }

  lemma {:induction false} Join(a: seq<Byte>, b: seq<Byte>)
    requires WellFormed(a) && WellFormed(b)
    ensures WellFormed(a + b)
    decreases |a|
  {
    if a == [] {
      assert a + b == b;
    } else {
      var n := HeadLength(a);
      HeadOfConcatenation(a, b);
      assert (a + b)[n..] == a[n..] + b;
      Join(a[n..], b);
    }
  }

  /** Every byte of a well-formed string lies in exactly one character: `start` is its first byte. */
  lemma {:induction false} CharacterAt(s: seq<Byte>, last: nat) returns (start: nat)
    requires WellFormed(s) && last < |s|
    ensures start <= last && WellFormed(s[..start])
    ensures HeadLength(s[start..]) > last - start
    ensures WellFormed(s[start..])
    decreases |s|
  {
    var n := HeadLength(s);
    if last < n {
      start := 0;
      assert s[0..] == s;
    } else {
      var rest := CharacterAt(s[n..], last - n);
      start := n + rest;
      assert s[..start][n..] == s[n..][..rest];
      assert HeadLength(s[..start]) == n;
      assert s[n..][rest..] == s[start..];
    }
  }

  lemma CharacterShape(s: seq<Byte>)
    requires HeadLength(s) > 0
    ensures !IsContinuation(s[0])
    ensures forall i :: 0 < i < HeadLength(s) ==> IsContinuation(s[i])
    ensures HeadLength(s) > 1 ==> AnnouncedLength(s[0]) == HeadLength(s)
    ensures HeadLength(s) == 1 <==> s[0] < 0x80
  {
  }

  /** No well-formed prefix of a well-formed string ends inside a character. */
  lemma {:induction false} NoCutInside(s: seq<Byte>, start: nat, cut: nat)
    requires start < cut <= |s| && WellFormed(s) && WellFormed(s[..start])
    requires cut < start + HeadLength(s[start..])
    ensures !WellFormed(s[..cut])
    decreases |s|
  {
    if start == 0 {
      assert s[0..] == s;
      assert HeadLength(s[..cut]) == 0;
    } else {
      var n := HeadLength(s);
      HeadOfPrefix(s, start);
      SameHead(s, cut);
      assert s[..start][n..] == s[n..][..start - n];
      assert s[..cut][n..] == s[n..][..cut - n];
      assert s[n..][start - n..] == s[start..];
      NoCutInside(s[n..], start - n, cut - n);
    }
  }

  /** `cut` is the last place at or below `bound` where a well-formed string can be cut. */
  ghost predicate LongestCut(s: seq<Byte>, bound: nat, cut: nat) {
    && cut <= bound
    && cut <= |s|
    && WellFormed(s[..cut])
    && forall k :: cut < k <= bound && k <= |s| ==> !WellFormed(s[..k])
  }

  /** The byte position before which the loop cuts: the nearest non-continuation byte, or 0. */
  method LeadPosition(prefix: seq<Byte>) returns (lead: nat)
    requires prefix != []
    ensures lead < |prefix|
    ensures forall i :: lead < i < |prefix| ==> IsContinuation(prefix[i])
    ensures lead > 0 ==> !IsContinuation(prefix[lead])
  {
    lead := |prefix| - 1;
    while lead > 0 && IsContinuation(prefix[lead])
      invariant lead < |prefix|
      invariant forall i :: lead < i < |prefix| ==> IsContinuation(prefix[i])
    {
      lead := lead - 1;
    }
  }

  /**
   * Byte-bounded truncation. On any bytes it ends with a prefix within the bound; on well-formed
   * text that prefix is the longest well-formed one.
   */
  method TruncatePrefix(text: seq<Byte>, maxBytes: nat) returns (prefix: seq<Byte>)
    ensures prefix <= text
    ensures |prefix| <= maxBytes
    ensures |text| <= maxBytes ==> prefix == text
    ensures WellFormed(text) ==> LongestCut(text, maxBytes, |prefix|)
  {
    if |text| <= maxBytes {
      assert text[..|text|] == text;
      return text;
    }
    prefix := text[..maxBytes];
    while prefix != []
      invariant prefix <= text && |prefix| <= maxBytes
      invariant WellFormed(text) ==> forall k :: |prefix| < k <= maxBytes ==> !WellFormed(text[..k])
      decreases |prefix|
    {
      var size := |prefix|;
      assert prefix == text[..size];
      if prefix[size - 1] < 0x80 {
        AsciiEndsACharacter(text, size);
        break;
      }
      var lead := LeadPosition(prefix);
      var expected := AnnouncedLength(prefix[lead]);
      if WellFormed(text) {
        LeadStartsTheLastCharacter(text, size, lead);
      }
      if expected > 1 && size - lead >= expected {
        break;
      }
      prefix := prefix[..lead];
      assert prefix == text[..lead];
    }
    assert prefix == text[..|prefix|];
  }

  lemma AsciiEndsACharacter(text: seq<Byte>, size: nat)
    requires 0 < size <= |text| && text[size - 1] < 0x80
    ensures WellFormed(text) ==> WellFormed(text[..size])
  {
    if WellFormed(text) {
      var start := CharacterAt(text, size - 1);
      CharacterShape(text[start..]);
      assert text[size - 1] == text[start..][size - 1 - start];
      WholeCharacter(text, start);
    }
  }

  /** In well-formed text the backward scan stops at the character that covers the last kept byte. */
  lemma LeadStartsTheLastCharacter(text: seq<Byte>, size: nat, lead: nat)
    requires WellFormed(text) && lead < size <= |text|
    requires text[size - 1] >= 0x80
    requires forall i :: lead < i < size ==> IsContinuation(text[i])
    requires lead > 0 ==> !IsContinuation(text[lead])
    ensures WellFormed(text[..lead])
    ensures AnnouncedLength(text[lead]) > 1
    ensures size - lead <= AnnouncedLength(text[lead])
    ensures size - lead == AnnouncedLength(text[lead]) ==> WellFormed(text[..size])
    ensures size - lead < AnnouncedLength(text[lead]) ==> forall k :: lead < k <= size ==> !WellFormed(text[..k])
  {
    var start := CharacterAt(text, size - 1);
    ScanFindsStart(text, size, lead, start);
    CutsOfOneCharacter(text, size, lead);
  }

  lemma CutsOfOneCharacter(text: seq<Byte>, size: nat, lead: nat)
    requires lead < size <= |text| && WellFormed(text) && WellFormed(text[..lead])
    requires size - lead <= HeadLength(text[lead..])
    ensures size - lead == HeadLength(text[lead..]) ==> WellFormed(text[..size])
    ensures size - lead < HeadLength(text[lead..]) ==> forall k :: lead < k <= size ==> !WellFormed(text[..k])
  {
    if size - lead == HeadLength(text[lead..]) {
      WholeCharacter(text, lead);
    } else {
      forall k | lead < k <= size ensures !WellFormed(text[..k]) {
        NoCutInside(text, lead, k);
      }
    }
  }

  lemma ScanFindsStart(text: seq<Byte>, size: nat, lead: nat, start: nat)
    requires lead < size <= |text| && start < size
    requires HeadLength(text[start..]) >= size - start
    requires text[size - 1] >= 0x80
    requires forall i :: lead < i < size ==> IsContinuation(text[i])
    requires lead > 0 ==> !IsContinuation(text[lead])
    ensures start == lead
    ensures AnnouncedLength(text[lead]) == HeadLength(text[lead..]) > 1
  {
    var character := text[start..];
    CharacterShape(character);
    assert text[start] == character[0];
    assert text[size - 1] == character[size - 1 - start];
    assert forall i :: start < i < size ==> text[i] == character[i - start];
  }

  lemma WholeCharacter(text: seq<Byte>, start: nat)
    requires start <= |text| && WellFormed(text[..start]) && HeadLength(text[start..]) > 0
    ensures WellFormed(text[..start + HeadLength(text[start..])])
  {
    var n := HeadLength(text[start..]);
    var head := text[start..][..n];
    assert WellFormed(head) by {
      SameHead(text[start..], n);
      assert head[n..] == [];
    }
    assert text[..start] + head == text[..start + n];
    Join(text[..start], head);
  }
}
