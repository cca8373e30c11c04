/** Storage keys: length-prefixed components, their decoder, and the end of a prefix range. */
module Codec {
  import opened Prelude
  import opened Bytes
  import opened Utf8

  datatype Error = TooLong | Truncated | NotUtf8 | Trailing

  const LENGTH_BYTES: nat := 4

  predicate Encodable(value: seq<byte>) { |value| <= U32_MAX && Valid(value) }

  function Component(value: seq<byte>): seq<byte> { BigEndian(|value|, LENGTH_BYTES) + value }

  function Encoded(values: seq<seq<byte>>): seq<byte> {
    if values == [] then [] else Component(values[0]) + Encoded(values[1..])
  }

  predicate AllEncodable(values: seq<seq<byte>>) { forall i :: 0 <= i < |values| ==> Encodable(values[i]) }

  // ---- One component at a time ----

  /** How a byte string starts: the first component and what follows it, if there is one. */
  function Head(s: seq<byte>): Option<(seq<byte>, seq<byte>)> {
    if |s| < LENGTH_BYTES then None
    else
      var length := Num(s[..LENGTH_BYTES]);
      if |s| < LENGTH_BYTES + length then None
      else Some((s[LENGTH_BYTES..LENGTH_BYTES + length], s[LENGTH_BYTES + length..]))
  }

  lemma FourBytes()
    ensures Pow256(4) == U32_MAX + 1
  {
    assert Pow256(2) == 65_536;
    assert Pow256(4) == 256 * (256 * Pow256(2));
  }

  /** A component in front of anything is read back exactly. */
  lemma HeadOfComponent(value: seq<byte>, rest: seq<byte>)
    requires |value| <= U32_MAX
    ensures Head(Component(value) + rest) == Some((value, rest))
  {
    FourBytes();
    NumOfBigEndian(|value|, LENGTH_BYTES);
    var s := Component(value) + rest;
    assert s[..LENGTH_BYTES] == BigEndian(|value|, LENGTH_BYTES);
    assert s[LENGTH_BYTES..LENGTH_BYTES + |value|] == value;
    assert s[LENGTH_BYTES + |value|..] == rest;
  }

  /** And what is read is what was written. */
  lemma ComponentOfHead(s: seq<byte>)
    requires Head(s).Some?
    ensures |Head(s).value.0| <= U32_MAX && s == Component(Head(s).value.0) + Head(s).value.1
  {
    FourBytes();
    NumBelow(s[..LENGTH_BYTES]);
    BigEndianOfNum(s[..LENGTH_BYTES]);
    var length := Num(s[..LENGTH_BYTES]);
    assert s == s[..LENGTH_BYTES] + s[LENGTH_BYTES..LENGTH_BYTES + length] + s[LENGTH_BYTES + length..];
  }

  /** Different component lists have different keys, whatever their lengths. */
  lemma {:induction false} EncodedInjective(values: seq<seq<byte>>, others: seq<seq<byte>>)
    requires AllEncodable(values) && AllEncodable(others) && Encoded(values) == Encoded(others)
    ensures values == others
  {
    assert (values == [] <==> Encoded(values) == []) && (others == [] <==> Encoded(others) == []);
    if values != [] {
      HeadOfComponent(values[0], Encoded(values[1..]));
      HeadOfComponent(others[0], Encoded(others[1..]));
      EncodedInjective(values[1..], others[1..]);
      assert values == [values[0]] + values[1..] && others == [others[0]] + others[1..];
    }
  }

  /** Only keys whose first component is `first` start with its encoding. */
  lemma PrefixSelects(first: seq<byte>, values: seq<seq<byte>>)
    requires Encodable(first) && AllEncodable(values)
    ensures Component(first) <= Encoded(values) <==> values != [] && values[0] == first
  {
    if values != [] {
      HeadOfComponent(values[0], Encoded(values[1..]));
      if Component(first) <= Encoded(values) {
        var rest := Encoded(values)[|Component(first)|..];
        assert Encoded(values) == Component(first) + rest;
        HeadOfComponent(first, rest);
      }
    }
  }

  // ---- The codec ----

  method PushComponent(encoded: seq<byte>, value: seq<byte>) returns (result: Result<seq<byte>, Error>)
    ensures result == if |value| <= U32_MAX then Ok(encoded + Component(value)) else Err(TooLong)
  {
    if |value| > U32_MAX { return Err(TooLong); }
    var grown := encoded + BigEndian(|value|, LENGTH_BYTES);
    grown := grown + value;
    assert grown == encoded + Component(value);
    return Ok(grown);
  }

  lemma {:induction false} EncodedAppend(values: seq<seq<byte>>, value: seq<byte>)
    ensures Encoded(values + [value]) == Encoded(values) + Component(value)
  {
    if values == [] {
      assert values + [value] == [value];
      assert Encoded([value]) == Component(value) + Encoded([]);
    } else {
      EncodedAppend(values[1..], value);
      assert (values + [value])[1..] == values[1..] + [value];
      assert (values + [value])[0] == values[0];
      assert Component(values[0]) + (Encoded(values[1..]) + Component(value)) == Encoded(values) + Component(value);
    }
  }

  /** Encodes a compound key. */
  method Components(values: seq<seq<byte>>) returns (result: Result<seq<byte>, Error>)
    requires forall i :: 0 <= i < |values| ==> Valid(values[i])
    ensures result.Ok? <==> AllEncodable(values)
    ensures result.Ok? ==> result.value == Encoded(values)
  {
    var encoded: seq<byte> := [];
    for i := 0 to |values|
      invariant AllEncodable(values[..i]) && encoded == Encoded(values[..i])
    {
      var pushed := PushComponent(encoded, values[i]);
      if pushed.Err? { return pushed; }
      encoded := pushed.value;
      EncodedAppend(values[..i], values[i]);
      assert values[..i + 1] == values[..i] + [values[i]];
    }
    assert values[..|values|] == values;
    return Ok(encoded);
  }

  /** Decodes exactly `count` components; it succeeds on exactly the keys the encoder writes for
      `count` texts, and returns those texts. */
  method DecodeComponents(encoded: seq<byte>, count: nat) returns (result: Result<seq<seq<byte>>, Error>)
    ensures result.Ok? ==> |result.value| == count && AllEncodable(result.value) && Encoded(result.value) == encoded
    ensures forall values :: |values| == count && AllEncodable(values) && Encoded(values) == encoded ==> result == Ok(values)
  {
    var offset: nat := 0;
    var decoded: seq<seq<byte>> := [];
    assert encoded[..0] == [];
    while |decoded| < count
      invariant |decoded| <= count && offset <= |encoded|
      invariant AllEncodable(decoded) && Encoded(decoded) == encoded[..offset]
    {
      var head := Head(encoded[offset..]);
      if head.None? {
        NotEncoded(encoded, decoded, offset, count);
        return Err(Truncated);
      }
      var value := head.value.0;
      ComponentOfHead(encoded[offset..]);
      if !Valid(value) {
        NotEncoded(encoded, decoded, offset, count);
        return Err(NotUtf8);
      }
      var end := offset + LENGTH_BYTES + |value|;
      assert encoded[..end] == encoded[..offset] + Component(value) by {
        assert encoded == encoded[..offset] + encoded[offset..];
      }
      EncodedAppend(decoded, value);
      decoded := decoded + [value];
      offset := end;
    }
    if offset != |encoded| {
      NotEncoded(encoded, decoded, offset, count);
      return Err(Trailing);
    }
    assert encoded[..offset] == encoded;
    forall values | |values| == count && AllEncodable(values) && Encoded(values) == encoded
      ensures values == decoded
    {
      EncodedInjective(values, decoded);
    }
    return Ok(decoded);
  }

  /** Two lists whose keys share a beginning agree component by component on it. */
  lemma {:induction false} SharedBeginning(values: seq<seq<byte>>, decoded: seq<seq<byte>>, rest: seq<byte>)
    requires AllEncodable(values) && AllEncodable(decoded) && |decoded| <= |values|
    requires Encoded(values) == Encoded(decoded) + rest
    ensures decoded <= values && rest == Encoded(values[|decoded|..])
  {
    if decoded == [] {
      assert Encoded(decoded) + rest == rest && values[0..] == values;
    } else {
      hide Head, Component;
      FirstAgrees(values, decoded, rest);
      SharedBeginning(values[1..], decoded[1..], rest);
      Onward(values, decoded);
    }
  }

  lemma Onward(values: seq<seq<byte>>, decoded: seq<seq<byte>>)
    requires decoded != [] && values != [] && values[0] == decoded[0] && decoded[1..] <= values[1..]
    ensures decoded <= values && values[1..][|decoded[1..]|..] == values[|decoded|..]
  {
    assert decoded == [decoded[0]] + decoded[1..] && values == [values[0]] + values[1..];
  }

  lemma FirstAgrees(values: seq<seq<byte>>, decoded: seq<seq<byte>>, rest: seq<byte>)
    requires values != [] && decoded != [] && |values[0]| <= U32_MAX && |decoded[0]| <= U32_MAX
    requires Encoded(values) == Encoded(decoded) + rest
    ensures values[0] == decoded[0] && Encoded(values[1..]) == Encoded(decoded[1..]) + rest
  {
    hide Head, Component;
    HeadOfComponent(values[0], Encoded(values[1..]));
    HeadOfComponent(decoded[0], Encoded(decoded[1..]) + rest);
    assert Encoded(decoded) + rest == Component(decoded[0]) + (Encoded(decoded[1..]) + rest);
  }

  /** Where decoding stops early, no list of `count` texts has this key. */
  lemma NotEncoded(encoded: seq<byte>, decoded: seq<seq<byte>>, offset: nat, count: nat)
    requires |decoded| <= count && offset <= |encoded|
    requires AllEncodable(decoded) && Encoded(decoded) == encoded[..offset]
    requires if |decoded| < count then Head(encoded[offset..]).None? || !Valid(Head(encoded[offset..]).value.0)
             else offset != |encoded|
    ensures forall values :: |values| == count && AllEncodable(values) ==> Encoded(values) != encoded
  {
    forall values | |values| == count && AllEncodable(values)
      ensures Encoded(values) != encoded
    {
      if Encoded(values) == encoded {
        assert encoded == Encoded(decoded) + encoded[offset..];
        SharedBeginning(values, decoded, encoded[offset..]);
        if |decoded| < count {
          HeadOfComponent(values[|decoded|], Encoded(values[|decoded|..][1..]));
        }
      }
    }
  }

  // ---- Prefix ranges ----

  /** The range from a prefix up to `end` holds every key with that prefix, and no other key at least as
      long as the prefix. */
  ghost predicate Covers(prefix: seq<byte>, end: seq<byte>) {
    forall key ::
      && (prefix <= key ==> !Below(key, prefix) && Below(key, end))
      && (|prefix| <= |key| && !Below(key, prefix) && Below(key, end) ==> prefix <= key)
  }

  /** The next string of the same length ends the range. */
  lemma NextCovers(prefix: seq<byte>, end: seq<byte>)
    requires |prefix| == |end| && Num(end) == Num(prefix) + 1
    ensures Covers(prefix, end)
  {
    forall key: seq<byte> | |prefix| <= |key|
      ensures prefix <= key <==> !Below(key, prefix) && Below(key, end)
    {
      var n := |prefix|;
      BelowByPrefix(key, prefix, n);
      BelowByPrefix(key, end, n);
      assert prefix[..n] == prefix && end[..n] == end && prefix[n..] == [] && end[n..] == [];
      BelowIsNumeric(key[..n], prefix);
      BelowIsNumeric(key[..n], end);
    }
  }

  predicate AllOnes(s: seq<byte>) { forall i :: 0 <= i < |s| ==> s[i] == 255 }

  /** Raising one byte above a run of 0xFF, and clearing the run, adds one. */
  lemma {:induction false} CarryAddsOne(s: seq<byte>, t: seq<byte>, i: nat)
    requires |s| == |t| && i < |s| && s[i] < 255 && t[i] == s[i] + 1
    requires t[..i] == s[..i]
    requires forall j :: i < j < |s| ==> s[j] == 255 && t[j] == 0
    ensures Num(t) == Num(s) + 1
    decreases |s|
  {
    var n := |s| - 1;
    if i < n {
      assert t[..n][..i] == s[..n][..i];
      CarryAddsOne(s[..n], t[..n], i);
    } else {
      assert t[..n] == s[..n];
    }
  }

  /** Turns a prefix into the end of its range, in place. There is none exactly when the prefix is
      empty or all 0xFF. */
  method PrefixEnd(prefix: array<byte>) returns (found: bool)
    modifies prefix
    ensures found <==> !AllOnes(old(prefix[..]))
    ensures found ==> Covers(old(prefix[..]), prefix[..])
  {
    ghost var before := prefix[..];
    var i := prefix.Length;
    while i > 0
      invariant 0 <= i <= prefix.Length
      invariant prefix[..i] == before[..i]
      invariant forall j :: i <= j < prefix.Length ==> before[j] == 255 && prefix[j] == 0
    {
      i := i - 1;
      if prefix[i] != 255 {
        prefix[i] := prefix[i] + 1;
        assert prefix[..][..i] == before[..i];
        CarryAddsOne(before, prefix[..], i);
        NextCovers(before, prefix[..]);
        return true;
      }
      prefix[i] := 0;
      assert prefix[..i] == before[..i];
    }
    return false;
  }
}
