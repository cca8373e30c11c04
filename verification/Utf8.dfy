/** Well-formed UTF-8, as section 3 of RFC 3629 defines it. */
module Utf8 {
  import opened Bytes

  predicate Tail(b: byte) { 0x80 <= b <= 0xBF }

  /** The length of the scalar value a byte string starts with, or 0 when it starts with none. */
  function First(s: seq<byte>): nat
    ensures First(s) <= |s|
  {
    if s == [] then 0
    else if s[0] < 0x80 then 1
    else if 0xC2 <= s[0] <= 0xDF then if |s| >= 2 && Tail(s[1]) then 2 else 0
    else if 0xE0 <= s[0] <= 0xEF then
      if |s| >= 3 && Tail(s[1]) && Tail(s[2]) && (s[0] == 0xE0 ==> s[1] >= 0xA0) && (s[0] == 0xED ==> s[1] <= 0x9F) then 3 else 0
    else if 0xF0 <= s[0] <= 0xF4 then
      if |s| >= 4 && Tail(s[1]) && Tail(s[2]) && Tail(s[3]) && (s[0] == 0xF0 ==> s[1] >= 0x90) && (s[0] == 0xF4 ==> s[1] <= 0x8F)
      then 4 else 0
    else 0
  }

  predicate Valid(s: seq<byte>) {
    s == [] || (First(s) > 0 && Valid(s[First(s)..]))
  }

  lemma FirstOfConcat(a: seq<byte>, b: seq<byte>)
    requires First(a) > 0
    ensures First(a + b) == First(a)
  {
    assert forall i :: 0 <= i < |a| ==> (a + b)[i] == a[i];
  }

  /** Text after text is text. */
  lemma {:induction false} ValidConcat(a: seq<byte>, b: seq<byte>)
    requires Valid(a) && Valid(b)
    ensures Valid(a + b)
  {
    hide First;
    if a == [] {
      assert a + b == b;
    } else {
      var n := First(a);
      ValidConcat(a[n..], b);
      assert (a + b)[n..] == a[n..] + b;
      FirstOfConcat(a, b);
    }
  }

  predicate Ascii(s: seq<byte>) { forall i :: 0 <= i < |s| ==> s[i] < 0x80 }

  lemma {:induction false} AsciiIsValid(s: seq<byte>)
    requires Ascii(s)
    ensures Valid(s)
  {
    if s != [] {
      AsciiIsValid(s[1..]);
    }
  }

  /** What follows an ASCII prefix of a text is text. */
  lemma {:induction false} AfterAscii(a: seq<byte>, b: seq<byte>)
    requires Ascii(a) && Valid(a + b)
    ensures Valid(b)
  {
    if a == [] {
      assert a + b == b;
    } else {
      assert (a + b)[1..] == a[1..] + b;
      AfterAscii(a[1..], b);
    }
  }

  // ---- Text is encoded scalar values ----

  predicate Scalar(u: nat) { u < 0xD800 || 0xE000 <= u <= 0x10FFFF }

  function Encode(u: nat): seq<byte>
    requires Scalar(u)
  {
    var v := u / 0x40;
    var w := v / 0x40;
    if u < 0x80 then [u]
    else if u < 0x800 then [0xC0 + v, 0x80 + u % 0x40]
    else if u < 0x1_0000 then [0xE0 + w, 0x80 + v % 0x40, 0x80 + u % 0x40]
    else [0xF0 + w / 0x40, 0x80 + w % 0x40, 0x80 + v % 0x40, 0x80 + u % 0x40]
  }

  function EncodeAll(text: seq<nat>): seq<byte>
    requires forall i :: 0 <= i < |text| ==> Scalar(text[i])
  {
    if text == [] then [] else Encode(text[0]) + EncodeAll(text[1..])
  }

  /** An encoded scalar value is read as one, whatever follows. */
  lemma EncodedIsFirst(u: nat, rest: seq<byte>)
    requires Scalar(u)
    ensures First(Encode(u) + rest) == |Encode(u)| > 0
  {
    var s := Encode(u) + rest;
    assert forall i :: 0 <= i < |Encode(u)| ==> s[i] == Encode(u)[i];
  }

  /** Whatever is read as one is the encoding of one. */
  lemma FirstIsEncoded(s: seq<byte>) returns (u: nat)
    requires First(s) > 0
    ensures Scalar(u) && Encode(u) == s[..First(s)]
  {
    match First(s) {
      case 1 =>
        u := s[0];
      case 2 =>
        u := TwoBytes(s[0], s[1]);
      case 3 =>
        u := ThreeBytes(s[0], s[1], s[2]);
      case _ =>
        u := FourBytes(s[0], s[1], s[2], s[3]);
    }
    hide Encode;
  }

  lemma TwoBytes(a: byte, b: byte) returns (u: nat)
    requires 0xC2 <= a <= 0xDF && Tail(b)
    ensures Scalar(u) && Encode(u) == [a, b]
  {
    u := Shifted(a - 0xC0, b);
  }

  lemma ThreeBytes(a: byte, b: byte, d: byte) returns (u: nat)
    requires 0xE0 <= a <= 0xEF && Tail(b) && Tail(d) && (a == 0xE0 ==> b >= 0xA0) && (a == 0xED ==> b <= 0x9F)
    ensures Scalar(u) && Encode(u) == [a, b, d]
  {
    u := Shifted(Shifted(a - 0xE0, b), d);
  }

  lemma FourBytes(a: byte, b: byte, d: byte, e: byte) returns (u: nat)
    requires 0xF0 <= a <= 0xF4 && Tail(b) && Tail(d) && Tail(e) && (a == 0xF0 ==> b >= 0x90) && (a == 0xF4 ==> b <= 0x8F)
    ensures Scalar(u) && Encode(u) == [a, b, d, e]
  {
    u := Shifted(Shifted(Shifted(a - 0xF0, b), d), e);
  }

  /** Six more bits. */
  function Shifted(high: nat, b: byte): (u: nat)
    requires Tail(b)
    ensures u / 0x40 == high && 0x80 + u % 0x40 == b && high * 0x40 <= u < high * 0x40 + 0x40
  {
    high * 0x40 + (b - 0x80)
  }

  /** Bytes are text exactly when they encode scalar values. */
  lemma {:induction false} EncodedIsValid(text: seq<nat>)
    requires forall i :: 0 <= i < |text| ==> Scalar(text[i])
    ensures Valid(EncodeAll(text))
  {
    hide First, Encode;
    if text != [] {
      var rest := EncodeAll(text[1..]);
      EncodedIsValid(text[1..]);
      EncodedIsFirst(text[0], rest);
      assert (Encode(text[0]) + rest)[|Encode(text[0])|..] == rest;
    }
  }

  lemma {:induction false} ValidIsEncoded(s: seq<byte>) returns (text: seq<nat>)
    requires Valid(s)
    ensures (forall i :: 0 <= i < |text| ==> Scalar(text[i])) && EncodeAll(text) == s
    decreases |s|
  {
    hide First, Encode;
    if s == [] {
      text := [];
    } else {
      var n := First(s);
      var u := FirstIsEncoded(s);
      var rest := ValidIsEncoded(s[n..]);
      text := [u] + rest;
      assert text[1..] == rest && s == s[..n] + s[n..];
    }
  }
}
