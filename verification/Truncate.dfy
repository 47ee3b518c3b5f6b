/** UTF-8-safe truncation of error logs: cut at `max` bytes, then drop bytes from the end
    until the rest is valid UTF-8 (section 4 of RFC 3629). */
module Truncate {

  type byte = x: int | 0 <= x < 256

  predicate Tail(b: byte) { 0x80 <= b <= 0xBF }

  /** Length of the well-formed character that starts s, or 0 if there is none:
      UTF8-1, UTF8-2, UTF8-3 and UTF8-4 of the RFC. */
  function CharLen(s: seq<byte>): (n: nat)
    ensures n <= 4 && n <= |s|
    ensures n > 0 ==> !Tail(s[0]) && forall i :: 0 < i < n ==> Tail(s[i])
  {
    if s == [] then 0
    else if s[0] <= 0x7F then 1
    else if 0xC2 <= s[0] <= 0xDF then (if |s| >= 2 && Tail(s[1]) then 2 else 0)
    else if 0xE0 <= s[0] <= 0xEF then
      if |s| >= 3 && Tail(s[1]) && Tail(s[2]) && (s[0] == 0xE0 ==> s[1] >= 0xA0) && (s[0] == 0xED ==> s[1] <= 0x9F)
      then 3 else 0
    else if 0xF0 <= s[0] <= 0xF4 then
      if |s| >= 4 && Tail(s[1]) && Tail(s[2]) && Tail(s[3]) && (s[0] == 0xF0 ==> s[1] >= 0x90)
          && (s[0] == 0xF4 ==> s[1] <= 0x8F)
      then 4 else 0
    else 0
  }

  /** `utf8.ValidString`: the bytes split into well-formed characters. */
  predicate Valid(s: seq<byte>) {
    s == [] || (CharLen(s) > 0 && Valid(s[CharLen(s)..]))
  }

  /** A character is recognised by its own bytes, whatever follows. */
  lemma CharLenLocal(s: seq<byte>, n: nat)
    requires CharLen(s) > 0 && CharLen(s) <= n <= |s|
    ensures CharLen(s[..n]) == CharLen(s)
  {
  }

  // ---------- Valid means encoded ----------

  /** A Unicode scalar value: a code point that is no surrogate. */
  type Scalar = x: int | 0 <= x <= 0x10FFFF && !(0xD800 <= x <= 0xDFFF)

  /** The encoding of section 3 of the RFC: one byte, or a lead byte and tails of six bits. */
  function Encode(c: Scalar): seq<byte> {
    if c < 0x80 then [c]
    else if c < 0x800 then [0xC0 + c / 0x40, 0x80 + c % 0x40]
    else if c < 0x1_0000 then [0xE0 + c / 0x1000, 0x80 + c / 0x40 % 0x40, 0x80 + c % 0x40]
    else [0xF0 + c / 0x4_0000, 0x80 + c / 0x1000 % 0x40, 0x80 + c / 0x40 % 0x40, 0x80 + c % 0x40]
  }

  function EncodeAll(cs: seq<Scalar>): seq<byte> {
    if cs == [] then [] else Encode(cs[0]) + EncodeAll(cs[1..])
  }

  lemma EncodedIsChar(c: Scalar, rest: seq<byte>)
    ensures CharLen(Encode(c) + rest) == |Encode(c)| && Encode(c) != []
  {
  }

  /** A number and its last six bits are read back from their sum. */
  lemma SixBits(x: nat, y: nat)
    requires y < 0x40
    ensures (x * 0x40 + y) / 0x40 == x && (x * 0x40 + y) % 0x40 == y
  {
  }

  lemma Shifts(c: nat)
    ensures c / 0x1000 == c / 0x40 / 0x40 && c / 0x4_0000 == c / 0x40 / 0x40 / 0x40
  {
  }

  lemma Decode3(a: nat, b: nat, d: nat) returns (c: Scalar)
    requires a < 0x10 && b < 0x40 && d < 0x40 && (a == 0 ==> b >= 0x20) && (a == 0xD ==> b <= 0x1F)
    ensures Encode(c) == [0xE0 + a, 0x80 + b, 0x80 + d]
  {
    var x := a * 0x40 + b;
    var y := x * 0x40 + d;
    SixBits(a, b);
    SixBits(x, d);
    Shifts(y);
    c := y;
  }

  lemma Decode4(a: nat, b: nat, d: nat, e: nat) returns (c: Scalar)
    requires a <= 4 && b < 0x40 && d < 0x40 && e < 0x40 && (a == 0 ==> b >= 0x10) && (a == 4 ==> b <= 0xF)
    ensures Encode(c) == [0xF0 + a, 0x80 + b, 0x80 + d, 0x80 + e]
  {
    var x := a * 0x40 + b;
    var y := x * 0x40 + d;
    var z := y * 0x40 + e;
    SixBits(a, b);
    SixBits(x, d);
    SixBits(y, e);
    Shifts(z);
    c := z;
  }

  lemma CharIsEncoded(s: seq<byte>) returns (c: Scalar)
    requires CharLen(s) > 0
    ensures Encode(c) == s[..CharLen(s)]
  {
    var n, a: int := CharLen(s), s[0];
    if n == 1 {
      c := a;
    } else {
      var b: int := s[1];
      if n == 2 {
        SixBits(a - 0xC0, b - 0x80);
        c := (a - 0xC0) * 0x40 + (b - 0x80);
      } else {
        var d: int := s[2];
        if n == 3 {
          c := Decode3(a - 0xE0, b - 0x80, d - 0x80);
        } else {
          var e: int := s[3];
          c := Decode4(a - 0xF0, b - 0x80, d - 0x80, e - 0x80);
        }
      }
    }
  }

  lemma {:induction false} EncodingsValid(cs: seq<Scalar>)
    ensures Valid(EncodeAll(cs))
  {
    if cs != [] {
      EncodingsValid(cs[1..]);
      EncodedIsChar(cs[0], EncodeAll(cs[1..]));
      hide Encode, CharLen;
      var s := EncodeAll(cs);
      assert s[|Encode(cs[0])|..] == EncodeAll(cs[1..]);
    }
  }

  lemma {:induction false} ValidDecodes(s: seq<byte>) returns (cs: seq<Scalar>)
    requires Valid(s)
    ensures EncodeAll(cs) == s
  {
    hide Encode, CharLen;
    if s == [] {
      cs := [];
    } else {
      var c := CharIsEncoded(s);
      var more := ValidDecodes(s[CharLen(s)..]);
      cs := [c] + more;
      assert cs[1..] == more;
    }
  }

  /** A byte string is valid exactly when it encodes some sequence of scalar values. */
  lemma ValidIsEncoded(s: seq<byte>)
    ensures Valid(s) <==> exists cs: seq<Scalar> :: EncodeAll(cs) == s
  {
    if Valid(s) {
      var cs := ValidDecodes(s);
    }
    if cs: seq<Scalar> :| EncodeAll(cs) == s {
      EncodingsValid(cs);
    }
  }

  // ---------- Cutting ----------

  /** Every cut of a valid string is at most three bytes past a character boundary. */
  lemma {:induction false} BoundaryNear(s: seq<byte>, n: nat) returns (k: nat)
    requires Valid(s) && n <= |s|
    ensures k <= n <= k + 3 && Valid(s[..k])
    decreases |s|
  {
    var c := CharLen(s);
    if s == [] || n < c {
      k := 0;
    } else {
      var j := BoundaryNear(s[c..], n - c);
      k := j + c;
      CharLenLocal(s, k);
      assert s[..k][c..] == s[c..][..j];
    }
  }

  /** The boundaries of a valid string are exactly the lengths whose prefix is valid. */
  lemma {:induction false} BoundarySplits(s: seq<byte>, n: nat)
    requires Valid(s) && n <= |s|
    ensures Valid(s[..n]) <==> Valid(s[n..])
    decreases |s|
  {
    var c := CharLen(s);
    if n == 0 || s == [] {
      assert s[..n] == [] && s[n..] == s;
    } else if n < c {
      assert s[n..] != [] && Tail(s[n..][0]);
      PartialChar(s, n);
    } else {
      BoundarySplits(s[c..], n - c);
      CharLenLocal(s, n);
      assert s[..n][c..] == s[c..][..n - c];
      assert s[c..][n - c..] == s[n..];
    }
  }

  /** A proper part of a character is no character. */
  lemma PartialChar(s: seq<byte>, n: nat)
    requires 0 < n < CharLen(s)
    ensures CharLen(s[..n]) == 0
  {
  }

  /** `truncate`: the input when it fits; otherwise the longest valid UTF-8 prefix of its
      first max bytes. For valid input at most three of them are lost, and what is cut off
      is valid UTF-8 too: the cut falls between two characters. */
  method TruncateBytes(s: seq<byte>, max: nat) returns (r: seq<byte>)
    ensures |s| <= max ==> r == s
    ensures |s| > max ==>
              && r <= s[..max] && Valid(r)
              && (forall n :: |r| < n <= max ==> !Valid(s[..n]))
              && (Valid(s) ==> |r| >= max - 3 && Valid(s[|r|..]))
  {
    if |s| <= max {
      return s;
    }
    r := s[..max];
    while |r| > 0 && !Valid(r)
      invariant |r| <= max && r == s[..|r|]
      invariant forall n :: |r| < n <= max ==> !Valid(s[..n])
    {
      r := r[..|r| - 1];
    }
    if Valid(s) {
      ghost var k := BoundaryNear(s, max);
      BoundarySplits(s, |r|);
    }
  }

  /** Three bytes can be needed: a four-byte character cut after its third byte. */
  lemma ThreeBytesLost()
    ensures var s := [0xF0, 0x9F, 0x98, 0x80];
            Valid(s) && !Valid(s[..3]) && !Valid(s[..2]) && !Valid(s[..1]) && Valid(s[..0])
  {
  }
}
