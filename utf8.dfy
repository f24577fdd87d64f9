// The two string steps a submesh name goes through: String::from_utf8, which
// accepts exactly the well-formed UTF-8 byte sequences, and
// trim_end_matches('\0'). A NUL character is the single byte 0 in UTF-8, and
// the byte 0 never occurs inside a longer sequence, so trimming NUL characters
// from the end of the string is trimming 0 bytes from the end of its bytes.

module Utf8 {
  import opened Bytes

  predicate IsContinuation(x: Byte)
  {
    0x80 <= x <= 0xBF
  }

  /**
   * The length of the well-formed sequence that starts s, or 0 when none does
   * (table 3-7 of the Unicode Standard: no overlong forms, no surrogates,
   * nothing above U+10FFFF).
   */
  function SequenceLength(s: seq<Byte>): (n: nat)
    requires |s| > 0
    ensures n <= 4 && n <= |s|
    ensures s[0] == 0 ==> n == 1
    ensures forall i :: 0 < i < n ==> IsContinuation(s[i])
  {
    var b0 := s[0];
    if b0 <= 0x7F then 1
    else if 0xC2 <= b0 <= 0xDF then
      (if |s| >= 2 && IsContinuation(s[1]) then 2 else 0)
    else if b0 == 0xE0 then
      (if |s| >= 3 && 0xA0 <= s[1] <= 0xBF && IsContinuation(s[2]) then 3 else 0)
    else if 0xE1 <= b0 <= 0xEC || 0xEE <= b0 <= 0xEF then
      (if |s| >= 3 && IsContinuation(s[1]) && IsContinuation(s[2]) then 3 else 0)
    else if b0 == 0xED then
      (if |s| >= 3 && 0x80 <= s[1] <= 0x9F && IsContinuation(s[2]) then 3 else 0)
    else if b0 == 0xF0 then
      (if |s| >= 4 && 0x90 <= s[1] <= 0xBF && IsContinuation(s[2]) && IsContinuation(s[3]) then 4 else 0)
    else if 0xF1 <= b0 <= 0xF3 then
      (if |s| >= 4 && IsContinuation(s[1]) && IsContinuation(s[2]) && IsContinuation(s[3]) then 4 else 0)
    else if b0 == 0xF4 then
      (if |s| >= 4 && 0x80 <= s[1] <= 0x8F && IsContinuation(s[2]) && IsContinuation(s[3]) then 4 else 0)
    else 0
  }

  /** What String::from_utf8 accepts: a concatenation of well-formed sequences. */
  predicate IsWellFormed(s: seq<Byte>)
    decreases |s|, 1
  {
    s == [] || IsWellFormedAfterFirst(s)
  }

  /** A well-formed sequence starts s and the rest is well-formed. */
  predicate IsWellFormedAfterFirst(s: seq<Byte>)
    requires |s| > 0
    decreases |s|, 0
  {
    SequenceLength(s) > 0 && IsWellFormed(s[SequenceLength(s)..])
  }

  /** The bytes of a string after trim_end_matches('\0'). */
  function TrimNuls(s: seq<Byte>): seq<Byte>
  {
    if s == [] || s[|s| - 1] != 0 then s else TrimNuls(s[..|s| - 1])
  }

  /** r is s without its trailing 0 bytes: a prefix of s that does not end in 0, followed in s only by 0 bytes. */
  predicate StripsNuls(s: seq<Byte>, r: seq<Byte>)
  {
    && |r| <= |s| && r == s[..|r|]
    && (r == [] || r[|r| - 1] != 0)
    && (forall i | |r| <= i < |s| :: s[i] == 0)
  }

  lemma {:induction false} TrimNulsRemovesTrailingNuls(s: seq<Byte>)
    ensures StripsNuls(s, TrimNuls(s))
  {
    if s != [] && s[|s| - 1] == 0 {
      TrimNulsRemovesTrailingNuls(s[..|s| - 1]);
    }
  }

  /** Only one sequence strips the NULs of s, so StripsNuls describes TrimNuls completely. */
  lemma {:induction false} StripsNulsUnique(s: seq<Byte>, r: seq<Byte>)
    requires StripsNuls(s, r)
    ensures r == TrimNuls(s)
  {
    TrimNulsRemovesTrailingNuls(s);
  }

  /** A sequence's length is decided by its own bytes. */
  lemma SequenceLengthPrefix(s: seq<Byte>, t: seq<Byte>)
    requires |s| > 0 && SequenceLength(s + t) <= |s|
    ensures SequenceLength(s) == SequenceLength(s + t)
  {
    var st := s + t;
    assert st[0] == s[0];
    if |s| >= 2 { assert st[1] == s[1]; }
    if |s| >= 3 { assert st[2] == s[2]; }
    if |s| >= 4 { assert st[3] == s[3]; }
  }

  /** Dropping NULs from the end of a well-formed string leaves it well-formed. */
  lemma {:induction false} TrimNulsKeepsWellFormed(s: seq<Byte>)
    requires IsWellFormed(s)
    ensures IsWellFormed(TrimNuls(s))
  {
    TrimNulsRemovesTrailingNuls(s);
    var p := TrimNuls(s);
    var z := s[|p|..];
    assert s == p + z;
    WellFormedBeforeNuls(p, z);
  }

  lemma {:induction false} WellFormedBeforeNuls(p: seq<Byte>, z: seq<Byte>)
    requires p == [] || p[|p| - 1] != 0
    requires forall i :: 0 <= i < |z| ==> z[i] == 0
    requires IsWellFormed(p + z)
    ensures IsWellFormed(p)
    decreases |p|
  {
    if p != [] {
      var s := p + z;
      var n := SequenceLength(s);
      if n > |p| {
        assert false;
      }
      SequenceLengthPrefix(p, z);
      assert s[n..] == p[n..] + z;
      WellFormedBeforeNuls(p[n..], z);
    }
  }
}
