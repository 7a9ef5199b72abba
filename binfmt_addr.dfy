/**
 * Address width of an architecture and the bad-address test used to drop
 * gadgets whose address holds a forbidden byte.
 */
module BinfmtAddr {
  import opened BinfmtTypes

  /** Powers of 256 up to 2^32: Pow256[k] is the number of values of a k-byte integer. */
  const Pow256: seq<int> := [0x1, 0x100, 0x1_0000, 0x100_0000, 0x1_0000_0000]

  /** Byte `i` of address `addr`, counted from the least significant end. */
  function AddrByte(addr: int, i: nat): (b: byte)
    requires 0 <= addr
  {
    if i == 0 then (addr % 0x100) as byte else AddrByte(addr / 0x100, i - 1)
  }

  /**
   * Whether some byte of the `width`-byte decomposition of `addr` is in `bad`:
   * the behaviour assumed of the helpers that test a 32-bit or 64-bit address
   * against a byte list (their bodies are not part of this model).
   */
  predicate BytesAreInAddr(bad: seq<byte>, addr: int, width: nat)
    requires 0 <= addr
  {
    exists i :: 0 <= i < width && AddrByte(addr, i) in bad
  }

  /** Number of bytes in an address of the architecture. */
  function AddrSize(arch: Arch): (w: int)
    ensures w == 4 || w == 8
    ensures w == 4 <==> arch == Arch.X86 || arch == Arch.Arm
  {
    if arch == Arch.X86 then 4
    else if arch == Arch.X86_64 then 8
    else if arch == Arch.Arm then 4
    else if arch == Arch.Arm64 then 8
    else 8
  }

  /**
   * Whether `addr` holds a forbidden byte. A 4-byte architecture tests the
   * address truncated to 32 bits; the last branch is never taken because
   * AddrSize is always 4 or 8.
   */
  predicate IsBadAddr(bad: seq<byte>, addr: u64, arch: Arch)
    ensures bad == [] ==> !IsBadAddr(bad, addr, arch)
  {
    var w := AddrSize(arch);
    if w == 4 then BytesAreInAddr(bad, addr as int % 0x1_0000_0000, 4)
    else if w == 8 then BytesAreInAddr(bad, addr as int, 8)
    else true
  }

  /**
   * TruncateThenShift for k = 1, 2, 3 and 4, one lemma per k: with the
   * powers of 256 written as literals each proof stays linear arithmetic.
   */
  lemma TruncateThenShift1(a: int)
    requires 0 <= a
    ensures (a % 0x100) % 0x100 == a % 0x100
    ensures (a % 0x100) / 0x100 == (a / 0x100) % 0x1
  {
    var q, r := a / 0x100, a % 0x100;
    var s, t := r / 0x100, r % 0x100;
    assert r == s * 0x100 + t && 0 <= s < 0x1;
    assert a == (q * 0x1 + s) * 0x100 + t;
    assert a / 0x100 == q * 0x1 + s;
  }

  lemma TruncateThenShift2(a: int)
    requires 0 <= a
    ensures (a % 0x1_0000) % 0x100 == a % 0x100
    ensures (a % 0x1_0000) / 0x100 == (a / 0x100) % 0x100
  {
    var q, r := a / 0x1_0000, a % 0x1_0000;
    var s, t := r / 0x100, r % 0x100;
    assert r == s * 0x100 + t && 0 <= s < 0x100;
    assert a == (q * 0x100 + s) * 0x100 + t;
    assert a / 0x100 == q * 0x100 + s;
  }

  lemma TruncateThenShift3(a: int)
    requires 0 <= a
    ensures (a % 0x100_0000) % 0x100 == a % 0x100
    ensures (a % 0x100_0000) / 0x100 == (a / 0x100) % 0x1_0000
  {
    var q, r := a / 0x100_0000, a % 0x100_0000;
    var s, t := r / 0x100, r % 0x100;
    assert r == s * 0x100 + t && 0 <= s < 0x1_0000;
    assert a == (q * 0x1_0000 + s) * 0x100 + t;
    assert a / 0x100 == q * 0x1_0000 + s;
  }

  lemma TruncateThenShift4(a: int)
    requires 0 <= a
    ensures (a % 0x1_0000_0000) % 0x100 == a % 0x100
    ensures (a % 0x1_0000_0000) / 0x100 == (a / 0x100) % 0x100_0000
  {
    var q, r := a / 0x1_0000_0000, a % 0x1_0000_0000;
    var s, t := r / 0x100, r % 0x100;
    assert r == s * 0x100 + t && 0 <= s < 0x100_0000;
    assert a == (q * 0x100_0000 + s) * 0x100 + t;
    assert a / 0x100 == q * 0x100_0000 + s;
  }

  /** Keeping the k low bytes of `a` and then shifting out one byte keeps the k - 1 low bytes of `a` shifted. */
  lemma TruncateThenShift(a: int, k: nat)
    requires 0 <= a && 1 <= k <= 4
    ensures (a % Pow256[k]) % 0x100 == a % 0x100
    ensures (a % Pow256[k]) / 0x100 == (a / 0x100) % Pow256[k - 1]
  {
    if k == 1 {
      TruncateThenShift1(a);
    } else if k == 2 {
      TruncateThenShift2(a);
    } else if k == 3 {
      TruncateThenShift3(a);
    } else {
      TruncateThenShift4(a);
    }
  }

  /** Keeping the k low bytes of an address does not change those bytes. */
  lemma {:induction false} LowBytesKept(a: int, k: nat, i: nat)
    requires 0 <= a && k <= 4 && i < k
    ensures AddrByte(a % Pow256[k], i) == AddrByte(a, i)
  {
    TruncateThenShift(a, k);
    if i > 0 {
      LowBytesKept(a / 0x100, k - 1, i - 1);
    }
  }

  /** Truncating to 32 bits keeps the four low bytes of an address. */
  lemma LowBytesSurviveTruncation(addr: int, i: nat)
    requires 0 <= addr && i < 4
    ensures AddrByte(addr % 0x1_0000_0000, i) == AddrByte(addr, i)
  {
    LowBytesKept(addr, 4, i);
  }

  /**
   * The bad-address test holds exactly when one of the low AddrSize(arch)
   * bytes of the full 64-bit address is forbidden.
   */
  lemma IsBadAddrMeansForbiddenByte(bad: seq<byte>, addr: u64, arch: Arch)
    ensures IsBadAddr(bad, addr, arch) <==> BytesAreInAddr(bad, addr as int, AddrSize(arch))
  {
    if AddrSize(arch) == 4 {
      var full: int := addr as int;
      var low: int := full % 0x1_0000_0000;
      forall i | 0 <= i < 4
        ensures AddrByte(low, i) == AddrByte(full, i)
      {
        LowBytesSurviveTruncation(full, i);
      }
    }
  }

  /** On a 4-byte architecture the bits above 32 never make an address bad. */
  lemma HighBitsIgnoredOn32Bit(bad: seq<byte>, a: u64, b: u64, arch: Arch)
    requires AddrSize(arch) == 4
    requires a as int % 0x1_0000_0000 == b as int % 0x1_0000_0000
    ensures IsBadAddr(bad, a, arch) == IsBadAddr(bad, b, arch)
  {
  }
}
