/** Byte strings: big-endian numbers and the lexicographic order of storage keys. */
module Bytes {
  type byte = n: int | 0 <= n < 256

  /** The number a byte string spells, most significant byte first. */
  function Num(s: seq<byte>): nat {
    if s == [] then 0 else 256 * Num(s[..|s| - 1]) + s[|s| - 1]
  }

  function Pow256(n: nat): nat { if n == 0 then 1 else 256 * Pow256(n - 1) }

  lemma {:induction false} NumBelow(s: seq<byte>)
    ensures Num(s) < Pow256(|s|)
  {
    if s != [] {
      NumBelow(s[..|s| - 1]);
    }
  }

  /** A number as `width` bytes. */
  function BigEndian(n: nat, width: nat): (s: seq<byte>)
    ensures |s| == width
  {
    if width == 0 then [] else BigEndian(n / 256, width - 1) + [n % 256]
  }

  lemma {:induction false} NumOfBigEndian(n: nat, width: nat)
    requires n < Pow256(width)
    ensures Num(BigEndian(n, width)) == n
  {
    if width > 0 {
      NumOfBigEndian(n / 256, width - 1);
      assert BigEndian(n, width)[..width - 1] == BigEndian(n / 256, width - 1);
    }
  }

  lemma {:induction false} BigEndianOfNum(s: seq<byte>)
    ensures BigEndian(Num(s), |s|) == s
  {
    if s != [] {
      BigEndianOfNum(s[..|s| - 1]);
      assert s == s[..|s| - 1] + [s[|s| - 1]];
    }
  }

  // ---- Key order ----

  predicate Below(a: seq<byte>, b: seq<byte>) {
    if b == [] then false
    else if a == [] then true
    else a[0] < b[0] || (a[0] == b[0] && Below(a[1..], b[1..]))
  }

  lemma {:induction false} NumFromFront(s: seq<byte>)
    requires s != []
    ensures Num(s) == s[0] * Pow256(|s| - 1) + Num(s[1..])
  {
    if |s| == 1 {
      assert s[..0] == [] && s[1..] == [];
    } else {
      NumFromFront(s[..|s| - 1]);
      assert s[..|s| - 1][1..] == s[1..][..|s| - 2];
    }
  }

  /** Strings of one length are ordered as the numbers they spell. */
  lemma {:induction false} BelowIsNumeric(a: seq<byte>, b: seq<byte>)
    requires |a| == |b|
    ensures Below(a, b) <==> Num(a) < Num(b)
    ensures a == b <==> Num(a) == Num(b)
  {
    if a != [] {
      BelowIsNumeric(a[1..], b[1..]);
      NumFromFront(a);
      NumFromFront(b);
      NumBelow(a[1..]);
      NumBelow(b[1..]);
      assert a == [a[0]] + a[1..] && b == [b[0]] + b[1..];
      var p := Pow256(|a| - 1);
      if a[0] < b[0] {
        MoreSignificant(a[0], b[0], p, Num(a[1..]), Num(b[1..]));
      } else if b[0] < a[0] {
        MoreSignificant(b[0], a[0], p, Num(b[1..]), Num(a[1..]));
      }
    }
  }

  lemma MoreSignificant(x: nat, y: nat, p: nat, low: nat, high: nat)
    requires x < y && low < p
    ensures x * p + low < y * p + high
  {
    assert (x + 1) * p <= y * p;
  }

  /** The order of longer strings is decided by their first bytes unless those agree. */
  lemma {:induction false} BelowByPrefix(a: seq<byte>, b: seq<byte>, n: nat)
    requires n <= |a| && n <= |b|
    ensures Below(a, b) <==> Below(a[..n], b[..n]) || (a[..n] == b[..n] && Below(a[n..], b[n..]))
  {
    if n > 0 {
      BelowByPrefix(a[1..], b[1..], n - 1);
      assert a[..n][1..] == a[1..][..n - 1] && b[..n][1..] == b[1..][..n - 1];
      assert a[1..][n - 1..] == a[n..] && b[1..][n - 1..] == b[n..];
      assert a[..n] == [a[0]] + a[1..][..n - 1] && b[..n] == [b[0]] + b[1..][..n - 1];
    } else {
      assert a[0..] == a && b[0..] == b;
    }
  }

  /** Keys that begin with a number of fixed width are ordered by that number first. */
  lemma OrderedByNumber(m: nat, n: nat, width: nat, x: seq<byte>, y: seq<byte>)
    requires m < Pow256(width) && n < Pow256(width)
    ensures Below(BigEndian(m, width) + x, BigEndian(n, width) + y) <==> m < n || (m == n && Below(x, y))
    ensures BigEndian(m, width) + x == BigEndian(n, width) + y <==> m == n && x == y
  {
    var a, b := BigEndian(m, width) + x, BigEndian(n, width) + y;
    BelowByPrefix(a, b, width);
    assert a[..width] == BigEndian(m, width) && a[width..] == x;
    assert b[..width] == BigEndian(n, width) && b[width..] == y;
    BelowIsNumeric(BigEndian(m, width), BigEndian(n, width));
    NumOfBigEndian(m, width);
    NumOfBigEndian(n, width);
  }
}
