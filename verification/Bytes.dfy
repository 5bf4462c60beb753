/** Bytes and the fixed-width integer encodings of the wire formats. */
module Bytes {

  type byte = b: int | 0 <= b < 256

  /** 256^k. */
  function Pow256(k: nat): (p: nat)
    ensures p > 0
  {
    if k == 0 then 1 else 256 * Pow256(k - 1)
  }

  /** The low `k` bytes of `n`, least significant first. */
  function Le(n: nat, k: nat): (s: seq<byte>)
    ensures |s| == k
  {
    if k == 0 then [] else [n % 256] + Le(n / 256, k - 1)
  }

  function FromLe(s: seq<byte>): nat {
    if s == [] then 0 else s[0] + 256 * FromLe(s[1..])
  }

  lemma {:induction false} LeRoundTrip(n: nat, k: nat)
    requires n < Pow256(k)
    ensures FromLe(Le(n, k)) == n
  {
    if k > 0 {
      LeRoundTrip(n / 256, k - 1);
      assert Le(n, k)[1..] == Le(n / 256, k - 1);
    }
  }

  lemma {:induction false} FromLeRoundTrip(s: seq<byte>)
    ensures FromLe(s) < Pow256(|s|) && Le(FromLe(s), |s|) == s
  {
    if s != [] {
      FromLeRoundTrip(s[1..]);
      assert s == [s[0]] + s[1..];
      var n := FromLe(s);
      assert n == s[0] + 256 * FromLe(s[1..]);
      assert n % 256 == s[0] && n / 256 == FromLe(s[1..]);
    }
  }

  /** The low `k` bytes of `n`, most significant first. */
  function Be(n: nat, k: nat): (s: seq<byte>)
    ensures |s| == k
  {
    if k == 0 then [] else Be(n / 256, k - 1) + [n % 256]
  }

  function FromBe(s: seq<byte>): nat {
    if s == [] then 0 else 256 * FromBe(s[..|s| - 1]) + s[|s| - 1]
  }

  lemma {:induction false} BeRoundTrip(n: nat, k: nat)
    requires n < Pow256(k)
    ensures FromBe(Be(n, k)) == n
  {
    if k > 0 {
      BeRoundTrip(n / 256, k - 1);
      assert Be(n, k)[..k - 1] == Be(n / 256, k - 1);
    }
  }

  lemma {:induction false} FromBeRoundTrip(s: seq<byte>)
    ensures FromBe(s) < Pow256(|s|) && Be(FromBe(s), |s|) == s
  {
    if s != [] {
      var front := s[..|s| - 1];
      FromBeRoundTrip(front);
      assert s == front + [s[|s| - 1]];
      var n := FromBe(s);
      assert n % 256 == s[|s| - 1] && n / 256 == FromBe(front);
    }
  }

  /** A leading zero byte bounds the value. */
  lemma {:induction false} LeadingZero(s: seq<byte>)
    requires s != [] && s[0] == 0
    ensures FromBe(s) < Pow256(|s| - 1)
  {
    if |s| > 1 {
      LeadingZero(s[..|s| - 1]);
    } else {
      assert s[..0] == [];
    }
  }
}
