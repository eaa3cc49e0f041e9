/** Octets, the text that is sent as octets, and repeated messages. */
module Bytes {

  type byte = b: int | 0 <= b < 256

  const NEWLINE: byte := 10
  const CARRIAGE_RETURN: byte := 13

  predicate IsAscii(s: string) {
    forall i :: 0 <= i < |s| ==> s[i] as int < 128
  }

  /** The octets of an ASCII text. */
  function Ascii(s: string): (r: seq<byte>)
    requires IsAscii(s)
    ensures |r| == |s|
    ensures forall i :: 0 <= i < |r| ==> r[i] == s[i] as int < 128
  {
    seq(|s|, i requires 0 <= i < |s| => s[i] as int)
  }

  /** n copies of a message, back to back. */
  function Repeat(m: seq<byte>, n: nat): (r: seq<byte>)
    ensures |r| == n * |m|
  {
    if n == 0 then [] else
      assert n * |m| == (n - 1) * |m| + |m|;
      Repeat(m, n - 1) + m
  }

  /** Copies of a five byte message: a shorter run is a prefix of a longer one, and the message
      that follows the shorter run is a whole copy. */
  lemma {:induction false} RepeatPrefix(m: seq<byte>, n: nat, k: nat)
    requires |m| == 5 && k <= n
    ensures Repeat(m, n)[..5 * k] == Repeat(m, k)
    ensures k < n ==> Repeat(m, n)[5 * k..5 * k + 5] == m
  {
    if k < n {
      RepeatPrefix(m, n - 1, k);
      assert Repeat(m, n) == Repeat(m, n - 1) + m;
      if k == n - 1 {
        assert Repeat(m, n)[5 * k..5 * k + 5] == m;
      } else {
        assert Repeat(m, n)[5 * k..5 * k + 5] == Repeat(m, n - 1)[5 * k..5 * k + 5];
      }
      assert Repeat(m, n)[..5 * k] == Repeat(m, n - 1)[..5 * k];
    } else {
      assert Repeat(m, n)[..5 * k] == Repeat(m, n);
    }
  }

  /** Index of the first occurrence of an octet, or the length when there is none. */
  function IndexOf(s: seq<byte>, b: byte): (i: nat)
    ensures i <= |s|
    ensures forall j :: 0 <= j < i ==> s[j] != b
    ensures i < |s| ==> s[i] == b
  {
    if s == [] then 0
    else if s[0] == b then 0
    else 1 + IndexOf(s[1..], b)
  }

  /** An octet that is not in a is found in a + b where it is found in b. */
  lemma {:induction false} IndexOfConcat(a: seq<byte>, b: seq<byte>, x: byte)
    requires x !in a
    ensures IndexOf(a + b, x) == |a| + IndexOf(b, x)
  {
    if a == [] {
      assert a + b == b;
    } else {
      assert (a + b)[0] == a[0] && a[0] in a;
      assert (a + b)[1..] == a[1..] + b;
      IndexOfConcat(a[1..], b, x);
    }
  }

  lemma Regroup(a: seq<byte>, b: seq<byte>, c: seq<byte>)
    ensures (a + b) + c == a + (b + c)
  {
  }

  lemma SliceSuffix(s: seq<byte>, from: nat, n: nat)
    requires from + n <= |s|
    ensures s[from..][..n] == s[from..from + n] && s[from..][n..] == s[from + n..]
  {
  }

  function Min(a: int, b: int): int {
    if a < b then a else b
  }

  predicate StartsWith(s: seq<byte>, prefix: seq<byte>) {
    |prefix| <= |s| && s[..|prefix|] == prefix
  }
}
