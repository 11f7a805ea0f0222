/** Byte strings, XOR masking and big-endian lengths, shared by every wire module. */
module Bytes {

  newtype byte = x: int | 0 <= x < 256

  type bytes = seq<byte>

  datatype Option<+T> = None | Some(value: T)

  /** Exclusive or of the low `width` bits. Header bytes need no bit operations: `b & 0x70`
      is `b / 16 % 8`, `b & 0x7f` is `b % 128`, and so on. */
  function XorBits(a: nat, b: nat, width: nat): (r: nat) {
    if width == 0 then 0
    else (a + b) % 2 + 2 * XorBits(a / 2, b / 2, width - 1)
  }

  function Power2(width: nat): (p: nat)
    ensures p >= 1
  {
    if width == 0 then 1 else 2 * Power2(width - 1)
  }

  lemma {:induction false} XorBitsBound(a: nat, b: nat, width: nat)
    ensures XorBits(a, b, width) < Power2(width)
  {
    if width > 0 {
      XorBitsBound(a / 2, b / 2, width - 1);
    }
  }

  lemma ParityCancels(a: nat, b: nat, x: nat)
    requires x % 2 == (a + b) % 2
    ensures (x + b) % 2 == a % 2
  {
    var k := (a + b) / 2;
    var j := x / 2;
    assert a + b == 2 * k + x % 2 && x == 2 * j + x % 2;
    assert x + b == a + 2 * (j - k + b);
  }

  lemma {:induction false} XorBitsInvolutive(a: nat, b: nat, width: nat)
    requires a < Power2(width)
    ensures XorBits(XorBits(a, b, width), b, width) == a
  {
    if width > 0 {
      var x := XorBits(a, b, width);
      XorBitsSplit(a, b, width);
      ParityCancels(a, b, x);
      XorBitsInvolutive(a / 2, b / 2, width - 1);
      assert XorBits(x, b, width) == a % 2 + 2 * (a / 2);
    }
  }

  lemma EightBits()
    ensures Power2(8) == 256
  {
    assert Power2(4) == 16;
    assert Power2(8) == 16 * Power2(4);
  }

  function Xor(a: byte, b: byte): (r: byte) {
    XorBitsBound(a as int, b as int, 8);
    EightBits();
    XorBits(a as int, b as int, 8) as byte
  }

  lemma XorInvolutive(a: byte, b: byte)
    ensures Xor(Xor(a, b), b) == a
  {
    EightBits();
    XorBitsInvolutive(a as int, b as int, 8);
  }

  /** Masking of section 5.3 of RFC 6455: octet i is combined with mask octet i mod 4. */
  function Masked(payload: bytes, mask: bytes): (r: bytes)
    requires |mask| == 4
    ensures |r| == |payload|
  {
    seq(|payload|, i requires 0 <= i < |payload| => Xor(payload[i], mask[i % 4]))
  }

  lemma MaskedInvolutive(payload: bytes, mask: bytes)
    requires |mask| == 4
    ensures Masked(Masked(payload, mask), mask) == payload
  {
    forall i | 0 <= i < |payload|
      ensures Masked(Masked(payload, mask), mask)[i] == payload[i]
    {
      XorInvolutive(payload[i], mask[i % 4]);
    }
  }

  /** Bit k of a number. */
  function Bit(n: nat, k: nat): (r: int)
    ensures 0 <= r <= 1
  {
    if k == 0 then n % 2 else Bit(n / 2, k - 1)
  }

  /** Exclusive or, bit by bit. */
  lemma {:induction false} XorBitsBit(a: nat, b: nat, width: nat, k: nat)
    requires k < width
    ensures Bit(XorBits(a, b, width), k) == (Bit(a, k) + Bit(b, k)) % 2
  {
    XorBitsSplit(a, b, width);
    hide XorBits;
    if k == 0 {
      ParityAdds(a, b);
    } else {
      XorBitsBit(a / 2, b / 2, width - 1, k - 1);
    }
  }

  lemma XorBitsSplit(a: nat, b: nat, width: nat)
    requires width > 0
    ensures XorBits(a, b, width) % 2 == (a + b) % 2 && XorBits(a, b, width) / 2 == XorBits(a / 2, b / 2, width - 1)
  {
    Halved((a + b) % 2, XorBits(a / 2, b / 2, width - 1));
  }

  lemma Halved(bit: nat, rest: nat)
    requires bit <= 1
    ensures (bit + 2 * rest) % 2 == bit && (bit + 2 * rest) / 2 == rest
  {
  }

  lemma ParityAdds(a: nat, b: nat)
    ensures (a + b) % 2 == (a % 2 + b % 2) % 2
  {
  }

  /** Every bit of octet i is flipped exactly when that bit of mask octet i mod 4 is set. */
  lemma MaskedBits(payload: bytes, mask: bytes, i: nat, k: nat)
    requires |mask| == 4 && i < |payload| && k < 8
    ensures Bit(Masked(payload, mask)[i] as int, k) == (Bit(payload[i] as int, k) + Bit(mask[i % 4] as int, k)) % 2
  {
    XorBitsBit(payload[i] as int, mask[i % 4] as int, 8, k);
    hide XorBits;
  }

  /** int.from_bytes(b, "big"). */
  function BigEndian(b: bytes): (n: nat) {
    if b == [] then 0 else BigEndian(b[..|b| - 1]) * 256 + b[|b| - 1] as int
  }

  lemma BigEndianTwo(hi: byte, lo: byte)
    ensures BigEndian([hi, lo]) == hi as int * 256 + lo as int
  {
    assert [hi, lo][..1] == [hi];
    assert [hi][..0] == [];
    assert BigEndian([hi]) == BigEndian([]) * 256 + hi as int;
  }

  /** The value of eight octets, most significant first. */
  lemma BigEndianEight(b: bytes)
    requires |b| == 8
    ensures BigEndian(b) ==
            b[0] as int * 0x100_0000_0000_0000 + b[1] as int * 0x1_0000_0000_0000 + b[2] as int * 0x100_0000_0000
            + b[3] as int * 0x1_0000_0000 + b[4] as int * 0x100_0000 + b[5] as int * 0x1_0000 + b[6] as int * 0x100 + b[7] as int
  {
    hide BigEndian;
    BigEndianFour(b, 4);
    BigEndianFour(b, 8);
    assert b[..8] == b;
    assert BigEndian(b[..0]) == 0 by { BigEndianNone(b[..0]); }
  }

  lemma BigEndianNone(b: bytes)
    requires b == []
    ensures BigEndian(b) == 0
  {
  }

  lemma BigEndianFour(b: bytes, n: nat)
    requires 4 <= n <= |b|
    ensures BigEndian(b[..n]) ==
            BigEndian(b[..n - 4]) * 0x1_0000_0000
            + b[n - 4] as int * 0x100_0000 + b[n - 3] as int * 0x1_0000 + b[n - 2] as int * 0x100 + b[n - 1] as int
  {
    hide BigEndian;
    BigEndianFront(b, n);
    BigEndianFront(b, n - 1);
    BigEndianFront(b, n - 2);
    BigEndianFront(b, n - 3);
  }

  lemma BigEndianFront(b: bytes, n: nat)
    requires 1 <= n <= |b|
    ensures BigEndian(b[..n]) == BigEndian(b[..n - 1]) * 256 + b[n - 1] as int
  {
    assert b[..n][..n - 1] == b[..n - 1];
  }

  function Join(parts: seq<bytes>): (r: bytes) {
    if parts == [] then [] else parts[0] + Join(parts[1..])
  }

  lemma {:induction false} JoinAppend(a: seq<bytes>, b: seq<bytes>)
    ensures Join(a + b) == Join(a) + Join(b)
  {
    if a == [] {
      assert a + b == b;
    } else {
      assert (a + b)[1..] == a[1..] + b;
      JoinAppend(a[1..], b);
    }
  }

  lemma JoinOne(b: bytes)
    ensures Join([b]) == b
  {
    assert [b][1..] == [];
    assert Join([b]) == b + Join([b][1..]);
  }

  lemma SubsetIsSmaller<T>(a: set<T>, b: set<T>)
    requires a <= b
    ensures |a| <= |b|
  {
    assert b == a + (b - a);
  }

  lemma FrontSlice(a: bytes, b: bytes, i: nat, j: nat)
    requires i <= j <= |a|
    ensures (a + b)[i..j] == a[i..j]
  {
  }

  lemma Regroup<T>(a: seq<T>, b: seq<T>, c: seq<T>)
    ensures (a + b) + c == a + (b + c)
  {
  }
}
