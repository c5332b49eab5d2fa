/** What `String::from_utf8` accepts: exactly the encodings of Unicode scalar values. */
module Utf8 {
  import opened Text

  /** A code point that is not a surrogate. */
  predicate Scalar(c: nat) {
    c < 0x11_0000 && !(0xD800 <= c < 0xE000)
  }

  function Byte(n: nat): char
    requires n < 0x100
  {
    n as char
  }

  /** The low six bits of `n`, behind `10`. */
  function Trail(n: nat): char {
    Byte(0x80 + n % 64)
  }

  /** UTF-8 as RFC 3629 defines it (section 3). */
  function Encode(c: nat): (s: string)
    requires Scalar(c)
    ensures 0 < |s|
  {
    if c < 0x80 then [Byte(c)]
    else if c < 0x800 then [Byte(0xC0 + c / 64), Trail(c)]
    else if c < 0x1_0000 then [Byte(0xE0 + c / 4096), Trail(c / 64), Trail(c)]
    else [Byte(0xF0 + c / 262144), Trail(c / 4096), Trail(c / 64), Trail(c)]
  }

  predicate Scalars(codes: seq<nat>) {
    forall i :: 0 <= i < |codes| ==> Scalar(codes[i])
  }

  function EncodeAll(codes: seq<nat>): string
    requires Scalars(codes)
  {
    if codes == [] then "" else Encode(codes[0]) + EncodeAll(codes[1..])
  }

  /** The front of an encoding is recognised, whatever follows. */
  lemma HeadOfEncoding(c: nat, rest: string)
    requires Scalar(c)
    ensures Utf8Head(Encode(c) + rest) == |Encode(c)|
  {
    var s := Encode(c) + rest;
    assert forall i :: 0 <= i < |Encode(c)| ==> s[i] == Encode(c)[i];
  }

  /** What is recognised at the front is an encoding. */
  lemma HeadIsEncoding(s: string) returns (c: nat)
    requires s != "" && Utf8Head(s) > 0
    ensures Scalar(c) && Encode(c) == s[..Utf8Head(s)]
  {
    var n := Utf8Head(s);
    var a := s[0] as int;
    if n == 1 {
      c := a;
    } else if n == 2 {
      c := TwoBytes(a - 0xC0, s[1]);
    } else if n == 3 {
      c := ThreeBytes(a - 0xE0, s[1], s[2]);
    } else {
      c := FourBytes(a - 0xF0, s[1], s[2], s[3]);
    }
    assert s[..n] == Encode(c);
  }

  predicate IsTrail(b: char) {
    0x80 <= b as int < 0xC0
  }

  function Payload(b: char): nat
    requires IsTrail(b)
  {
    b as int - 0x80
  }

  lemma TwoBytes(a: nat, b: char) returns (c: nat)
    requires 2 <= a <= 0x1F && IsTrail(b)
    ensures Scalar(c) && Encode(c) == [Byte(0xC0 + a), b]
  {
    c := a * 64 + Payload(b);
  }

  lemma ThreeBytes(a: nat, b: char, d: char) returns (c: nat)
    requires a <= 0xF && IsTrail(b) && IsTrail(d)
    requires (a == 0 ==> b as int >= 0xA0) && (a == 0xD ==> (b as int) < 0xA0)
    ensures Scalar(c) && Encode(c) == [Byte(0xE0 + a), b, d]
  {
    c := (a * 64 + Payload(b)) * 64 + Payload(d);
    assert c / 64 == a * 64 + Payload(b);
  }

  lemma FourBytes(a: nat, b: char, d: char, e: char) returns (c: nat)
    requires a <= 4 && IsTrail(b) && IsTrail(d) && IsTrail(e)
    requires (a == 0 ==> b as int >= 0x90) && (a == 4 ==> (b as int) < 0x90)
    ensures Scalar(c) && Encode(c) == [Byte(0xF0 + a), b, d, e]
  {
    c := ((a * 64 + Payload(b)) * 64 + Payload(d)) * 64 + Payload(e);
    assert c / 64 == (a * 64 + Payload(b)) * 64 + Payload(d);
    assert c / 4096 == a * 64 + Payload(b);
  }

  lemma {:induction false} EncodingsAreValid(codes: seq<nat>)
    requires Scalars(codes)
    ensures ValidUtf8(EncodeAll(codes))
  {
    if codes != [] {
      var first, rest := Encode(codes[0]), EncodeAll(codes[1..]);
      EncodingsAreValid(codes[1..]);
      HeadOfEncoding(codes[0], rest);
      assert (first + rest)[|first|..] == rest;
    }
  }

  lemma {:induction false} ValidIsEncoded(s: string) returns (codes: seq<nat>)
    requires ValidUtf8(s)
    ensures Scalars(codes) && EncodeAll(codes) == s
    decreases |s|
  {
    if s == "" {
      codes := [];
    } else {
      var n := Utf8Head(s);
      var c := HeadIsEncoding(s);
      var more := ValidIsEncoded(s[n..]);
      codes := [c] + more;
      assert codes[1..] == more;
      Rejoin(s, n);
    }
  }

  lemma ValidUtf8Iff(s: string)
    ensures ValidUtf8(s) <==> exists codes :: Scalars(codes) && EncodeAll(codes) == s
  {
    if ValidUtf8(s) {
      var codes := ValidIsEncoded(s);
    }
    if codes :| Scalars(codes) && EncodeAll(codes) == s {
      EncodingsAreValid(codes);
    }
  }
}
