/** Bytes, host (little-endian) and wire (big-endian) integers, and the byte swap between them. */
module Bytes {
  type byte = b: nat | b < 256

  function Pow256(w: nat): (p: nat)
    ensures p >= 1
  {
    if w == 0 then 1 else 256 * Pow256(w - 1)
  }

  type u16 = n: nat | n < Pow256(2)
  type u32 = n: nat | n < Pow256(4)
  type u64 = n: nat | n < Pow256(8)

  /** An integer of w bytes as the host keeps it in memory. */
  function ToHost(n: nat, w: nat): (s: seq<byte>)
    ensures |s| == w
  {
    if w == 0 then [] else [n % 256] + ToHost(n / 256, w - 1)
  }

  function FromHost(s: seq<byte>): (n: nat)
    ensures n < Pow256(|s|)
  {
    if s == [] then 0 else s[0] + 256 * FromHost(s[1..])
  }

  /** The same integer as the wire carries it, most significant byte first. */
  function ToWire(n: nat, w: nat): (s: seq<byte>)
    ensures |s| == w
  {
    if w == 0 then [] else ToWire(n / 256, w - 1) + [n % 256]
  }

  function FromWire(s: seq<byte>): (n: nat) {
    if s == [] then 0 else 256 * FromWire(s[..|s| - 1]) + s[|s| - 1]
  }

  function Reverse(s: seq<byte>): (r: seq<byte>)
    ensures |r| == |s|
    ensures forall i :: 0 <= i < |s| ==> r[i] == s[|s| - 1 - i]
  {
    if s == [] then [] else Reverse(s[1..]) + [s[0]]
  }

  /** `__builtin_bswap` on w bytes: ntoh and hton on a little-endian host */
  function Swap(n: nat, w: nat): (r: nat)
    ensures r < Pow256(w)
  {
    FromHost(Reverse(ToHost(n, w)))
  }

  lemma {:induction false} FromToHost(n: nat, w: nat)
    requires n < Pow256(w)
    ensures FromHost(ToHost(n, w)) == n
  {
    if w > 0 {
      FromToHost(n / 256, w - 1);
      assert ToHost(n, w)[1..] == ToHost(n / 256, w - 1);
    }
  }

  lemma LowByte(b: byte, n: nat)
    ensures (b + 256 * n) % 256 == b && (b + 256 * n) / 256 == n
  {
  }

  lemma {:induction false} ToFromHost(s: seq<byte>)
    ensures ToHost(FromHost(s), |s|) == s
  {
    if s != [] {
      ToFromHost(s[1..]);
      LowByte(s[0], FromHost(s[1..]));
    }
  }

  lemma ReverseTwice(s: seq<byte>)
    ensures Reverse(Reverse(s)) == s
  {
  }

  /** Swapping twice gives the integer back. */
  lemma SwapTwice(n: nat, w: nat)
    requires n < Pow256(w)
    ensures Swap(Swap(n, w), w) == n
  {
    ToFromHost(Reverse(ToHost(n, w)));
    ReverseTwice(ToHost(n, w));
    FromToHost(n, w);
  }

  lemma {:induction false} ReverseHostIsWire(n: nat, w: nat)
    ensures Reverse(ToHost(n, w)) == ToWire(n, w)
  {
    if w > 0 {
      ReverseHostIsWire(n / 256, w - 1);
      assert ToHost(n, w)[1..] == ToHost(n / 256, w - 1);
    }
  }

  /** A swapped integer in host memory is the integer on the wire. */
  lemma SwapIsWire(n: nat, w: nat)
    requires n < Pow256(w)
    ensures ToHost(Swap(n, w), w) == ToWire(n, w)
  {
    ToFromHost(Reverse(ToHost(n, w)));
    ReverseHostIsWire(n, w);
  }

  lemma {:induction false} FromToWire(n: nat, w: nat)
    requires n < Pow256(w)
    ensures FromWire(ToWire(n, w)) == n
  {
    if w > 0 {
      FromToWire(n / 256, w - 1);
      assert ToWire(n, w)[..w - 1] == ToWire(n / 256, w - 1);
    }
  }

  /** Reading memory as the host would and swapping reads the wire order. */
  lemma SwapReadsWire(s: seq<byte>)
    ensures Swap(FromHost(s), |s|) == FromWire(s)
  {
    var w, n := |s|, Swap(FromHost(s), |s|);
    SwapIsWire(n, w);
    SwapTwice(FromHost(s), w);
    ToFromHost(s);
    FromToWire(n, w);
  }

  /** On the wire the first byte is the most significant ... */
  lemma {:induction false} WireDigits(b: byte, s: seq<byte>)
    ensures FromWire([b] + s) == b * Pow256(|s|) + FromWire(s)
  {
    var all, n := [b] + s, |s|;
    if n == 0 {
      assert all[..0] == [];
    } else {
      WireDigits(b, s[..n - 1]);
      assert all[..n] == [b] + s[..n - 1] && all[n] == s[n - 1];
      TimesBase(b, Pow256(n - 1));
    }
  }

  /** ... and in host memory the last one. */
  lemma {:induction false} HostDigits(s: seq<byte>, b: byte)
    ensures FromHost(s + [b]) == FromHost(s) + b * Pow256(|s|)
  {
    var all := s + [b];
    if s == [] {
      assert all[1..] == [];
    } else {
      HostDigits(s[1..], b);
      assert all[1..] == s[1..] + [b] && all[0] == s[0];
      TimesBase(b, Pow256(|s| - 1));
    }
  }

  lemma TimesBase(b: nat, p: nat)
    ensures 256 * (b * p) == b * (256 * p)
  {
  }
}
