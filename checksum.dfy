/** The two SACP checksums of sacp.go: the header CRC-8 (`headChksum`) and the
    trailing 16-bit one's-complement sum (`U16Chksum`). Each is given as a
    specification function and as the imperative loop of the Go code, proved
    equal to it. */
module Checksum {
  import opened Bytes

  // ---------------------------------------------------------------------------
  // Header CRC-8: polynomial 0x07, initial value 0, most significant bit first.
  // ---------------------------------------------------------------------------

  /** One bit of the CRC register, kept to 8 bits after every shift. */
  function CrcBit(crc: bv8, bit: bool): bv8
  {
    if (crc >> 7 == 1) != bit then (crc << 1) ^ 7 else crc << 1
  }

  /** The register after feeding the first `j` bits of `b`, most significant first. */
  function CrcBits(crc: bv8, b: bv8, j: nat): bv8
    requires j <= 8
  {
    if j == 0 then crc else CrcBit(CrcBits(crc, b, j - 1), (b >> (8 - j)) & 1 == 1)
  }

  /** The register after feeding all of `s`. */
  function CrcRegister(s: seq<byte>): bv8
  {
    if s == [] then 0 else CrcBits(CrcRegister(s[..|s| - 1]), s[|s| - 1] as bv8, 8)
  }

  /** CRC-8 (the SMBUS parameter set) of a byte string, as a byte. */
  function Crc8(s: seq<byte>): byte
  {
    CrcRegister(s) as int
  }

  /** The register after one more byte. */
  function ByteStep(crc: bv8, b: byte): bv8
  {
    CrcBits(crc, b as bv8, 8)
  }

  /** A table of registers, one byte at a time: when each byte takes the
      register from `regs[k]` to `regs[k + 1]`, the register of the whole
      string is the last entry. */
  lemma {:induction false} RegisterChain(s: seq<byte>, regs: seq<bv8>)
    requires |regs| == |s| + 1 && regs[0] == 0
    requires forall k | 0 <= k < |s| :: ByteStep(regs[k], s[k]) == regs[k + 1]
    ensures CrcRegister(s) == regs[|s|]
    decreases |s|
  {
    if s != [] {
      var init := s[..|s| - 1];
      assert forall k | 0 <= k < |init| :: init[k] == s[k];
      RegisterChain(init, regs[..|s|]);
    }
  }

  /** The register after each ASCII digit of "123456789". */
  lemma CheckDigitSteps()
    ensures ByteStep(0x00, 0x31) == 0x97
    ensures ByteStep(0x97, 0x32) == 0x72
    ensures ByteStep(0x72, 0x33) == 0xC0
    ensures ByteStep(0xC0, 0x34) == 0xC2
    ensures ByteStep(0xC2, 0x35) == 0xCB
    ensures ByteStep(0xCB, 0x36) == 0xFD
    ensures ByteStep(0xFD, 0x37) == 0x78
    ensures ByteStep(0x78, 0x38) == 0xC7
    ensures ByteStep(0xC7, 0x39) == 0xF4
  {
    assert 0x31 as bv8 == 0x31;
    assert CrcBits(0x00, 0x31, 1) == 0x00;
    assert CrcBits(0x00, 0x31, 2) == 0x00;
    assert CrcBits(0x00, 0x31, 3) == 0x07;
    assert CrcBits(0x00, 0x31, 4) == 0x09;
    assert CrcBits(0x00, 0x31, 5) == 0x12;
    assert CrcBits(0x00, 0x31, 6) == 0x24;
    assert CrcBits(0x00, 0x31, 7) == 0x48;
    assert CrcBits(0x00, 0x31, 8) == 0x97;
    assert 0x32 as bv8 == 0x32;
    assert CrcBits(0x97, 0x32, 1) == 0x29;
    assert CrcBits(0x97, 0x32, 2) == 0x52;
    assert CrcBits(0x97, 0x32, 3) == 0xA3;
    assert CrcBits(0x97, 0x32, 4) == 0x46;
    assert CrcBits(0x97, 0x32, 5) == 0x8C;
    assert CrcBits(0x97, 0x32, 6) == 0x1F;
    assert CrcBits(0x97, 0x32, 7) == 0x39;
    assert CrcBits(0x97, 0x32, 8) == 0x72;
    assert 0x33 as bv8 == 0x33;
    assert CrcBits(0x72, 0x33, 1) == 0xE4;
    assert CrcBits(0x72, 0x33, 2) == 0xCF;
    assert CrcBits(0x72, 0x33, 3) == 0x9E;
    assert CrcBits(0x72, 0x33, 4) == 0x3C;
    assert CrcBits(0x72, 0x33, 5) == 0x78;
    assert CrcBits(0x72, 0x33, 6) == 0xF0;
    assert CrcBits(0x72, 0x33, 7) == 0xE0;
    assert CrcBits(0x72, 0x33, 8) == 0xC0;
    assert 0x34 as bv8 == 0x34;
    assert CrcBits(0xC0, 0x34, 1) == 0x87;
    assert CrcBits(0xC0, 0x34, 2) == 0x09;
    assert CrcBits(0xC0, 0x34, 3) == 0x15;
    assert CrcBits(0xC0, 0x34, 4) == 0x2D;
    assert CrcBits(0xC0, 0x34, 5) == 0x5A;
    assert CrcBits(0xC0, 0x34, 6) == 0xB3;
    assert CrcBits(0xC0, 0x34, 7) == 0x61;
    assert CrcBits(0xC0, 0x34, 8) == 0xC2;
    assert 0x35 as bv8 == 0x35;
    assert CrcBits(0xC2, 0x35, 1) == 0x83;
    assert CrcBits(0xC2, 0x35, 2) == 0x01;
    assert CrcBits(0xC2, 0x35, 3) == 0x05;
    assert CrcBits(0xC2, 0x35, 4) == 0x0D;
    assert CrcBits(0xC2, 0x35, 5) == 0x1A;
    assert CrcBits(0xC2, 0x35, 6) == 0x33;
    assert CrcBits(0xC2, 0x35, 7) == 0x66;
    assert CrcBits(0xC2, 0x35, 8) == 0xCB;
    assert 0x36 as bv8 == 0x36;
    assert CrcBits(0xCB, 0x36, 1) == 0x91;
    assert CrcBits(0xCB, 0x36, 2) == 0x25;
    assert CrcBits(0xCB, 0x36, 3) == 0x4D;
    assert CrcBits(0xCB, 0x36, 4) == 0x9D;
    assert CrcBits(0xCB, 0x36, 5) == 0x3D;
    assert CrcBits(0xCB, 0x36, 6) == 0x7D;
    assert CrcBits(0xCB, 0x36, 7) == 0xFD;
    assert CrcBits(0xCB, 0x36, 8) == 0xFD;
    assert 0x37 as bv8 == 0x37;
    assert CrcBits(0xFD, 0x37, 1) == 0xFD;
    assert CrcBits(0xFD, 0x37, 2) == 0xFD;
    assert CrcBits(0xFD, 0x37, 3) == 0xFA;
    assert CrcBits(0xFD, 0x37, 4) == 0xF4;
    assert CrcBits(0xFD, 0x37, 5) == 0xEF;
    assert CrcBits(0xFD, 0x37, 6) == 0xDE;
    assert CrcBits(0xFD, 0x37, 7) == 0xBC;
    assert CrcBits(0xFD, 0x37, 8) == 0x78;
    assert 0x38 as bv8 == 0x38;
    assert CrcBits(0x78, 0x38, 1) == 0xF0;
    assert CrcBits(0x78, 0x38, 2) == 0xE7;
    assert CrcBits(0x78, 0x38, 3) == 0xCE;
    assert CrcBits(0x78, 0x38, 4) == 0x9C;
    assert CrcBits(0x78, 0x38, 5) == 0x38;
    assert CrcBits(0x78, 0x38, 6) == 0x70;
    assert CrcBits(0x78, 0x38, 7) == 0xE0;
    assert CrcBits(0x78, 0x38, 8) == 0xC7;
    assert 0x39 as bv8 == 0x39;
    assert CrcBits(0xC7, 0x39, 1) == 0x89;
    assert CrcBits(0xC7, 0x39, 2) == 0x15;
    assert CrcBits(0xC7, 0x39, 3) == 0x2D;
    assert CrcBits(0xC7, 0x39, 4) == 0x5D;
    assert CrcBits(0xC7, 0x39, 5) == 0xBD;
    assert CrcBits(0xC7, 0x39, 6) == 0x7D;
    assert CrcBits(0xC7, 0x39, 7) == 0xFA;
    assert CrcBits(0xC7, 0x39, 8) == 0xF4;
  }

  /** The catalogued check value of CRC-8/SMBUS: the ASCII digits
      "123456789" give 0xF4. */
  lemma Crc8CheckValue(digits: seq<byte>)
    requires |digits| == 9 && forall k | 0 <= k < 9 :: digits[k] == 0x31 + k
    ensures Crc8(digits) == 0xF4
  {
    var regs: seq<bv8> := [0x00, 0x97, 0x72, 0xC0, 0xC2, 0xCB, 0xFD, 0x78, 0xC7, 0xF4];
    forall k | 0 <= k < 9
      ensures ByteStep(regs[k], digits[k]) == regs[k + 1]
    {
      CheckDigitSteps();
      if k == 0 { assert digits[0] == 0x31; }
      else if k == 1 { assert digits[1] == 0x32; }
      else if k == 2 { assert digits[2] == 0x33; }
      else if k == 3 { assert digits[3] == 0x34; }
      else if k == 4 { assert digits[4] == 0x35; }
      else if k == 5 { assert digits[5] == 0x36; }
      else if k == 6 { assert digits[6] == 0x37; }
      else if k == 7 { assert digits[7] == 0x38; }
      else { assert digits[8] == 0x39; }
    }
    RegisterChain(digits, regs);
  }

  /** Shifting a 64-bit register and masking at the end leaves the same low
      byte as shifting the 8-bit register that is masked after every step. */
  lemma UnmaskedStep(crc: bv64, bit: bool)
    ensures var c07 := (crc >> 7) & 1 == 1;
            var next := if (!c07 && bit) || (c07 && !bit) then (crc << 1) ^ 7 else crc << 1;
            (next & 0xFF) as bv8 == CrcBit((crc & 0xFF) as bv8, bit)
  {
  }

  /** Bit `7 - j` of `b`, the `j`-th bit fed to the register. */
  function BitAt(b: bv8, j: nat): bool
    requires j < 8
  {
    (b >> (7 - j)) & 1 == 1
  }

  lemma CrcBitsStep(crc: bv8, b: bv8, j: nat)
    requires j < 8
    ensures CrcBits(crc, b, j + 1) == CrcBit(CrcBits(crc, b, j), BitAt(b, j))
  {
  }

  /** `headChksum` (sacp.go:102-117): Go's `int` accumulator is shifted left
      without masking and only its low byte is kept at the end. */
  method HeadChksum(data: seq<byte>) returns (r: byte)
    ensures r == Crc8(data)
  {
    var crc: bv64 := 0;
    var i := 0;
    while i < |data|
      invariant 0 <= i <= |data|
      invariant (crc & 0xFF) as bv8 == CrcRegister(data[..i])
    {
      crc := ShiftInByte(crc, data[i] as bv8);
      assert data[..i + 1][..i] == data[..i];
      i := i + 1;
    }
    assert data[..i] == data;
    crc := crc & 255;
    r := (crc as bv8) as int;
  }

  /** The inner loop of `headChksum`: the eight bits of one byte, most
      significant first. */
  method ShiftInByte(crc0: bv64, b: bv8) returns (crc: bv64)
    ensures (crc & 0xFF) as bv8 == CrcBits((crc0 & 0xFF) as bv8, b, 8)
  {
    ghost var start := (crc0 & 0xFF) as bv8;
    crc := crc0;
    var j := 0;
    while j < 8
      invariant 0 <= j <= 8
      invariant (crc & 0xFF) as bv8 == CrcBits(start, b, j)
    {
      CrcBitsStep(start, b, j);
      crc := ShiftInBit(crc, BitAt(b, j));
      j := j + 1;
    }
  }

  /** One pass of the inner loop: `bit := data[i]&255>>(7-j)&1 == 1` is
      `BitAt(data[i], j)`; the register is shifted and, when the bit leaving
      it differs from the incoming one, reduced by the polynomial 7. */
  method ShiftInBit(crc0: bv64, bit: bool) returns (crc: bv64)
    ensures (crc & 0xFF) as bv8 == CrcBit((crc0 & 0xFF) as bv8, bit)
  {
    var poly: bv64 := 7;
    var c07 := (crc0 >> 7) & 1 == 1;
    UnmaskedStep(crc0, bit);
    crc := crc0 << 1;
    if (!c07 && bit) || (c07 && !bit) {
      crc := crc ^ poly;
    }
  }

  // ---------------------------------------------------------------------------
  // Trailing checksum: big-endian 16-bit words summed, carries folded back,
  // complemented.
  // ---------------------------------------------------------------------------

  const Mask32: int := 0x1_0000_0000

  /** The big-endian 16-bit word made of two bytes. */
  function Word(hi: byte, lo: byte): uint16
  {
    hi as int * 0x100 + lo as int
  }

  /** Sum of the first `k` big-endian words of `s`. */
  function PairSum(s: seq<byte>, k: nat): nat
    requires 2 * k <= |s|
  {
    if k == 0 then 0 else PairSum(s, k - 1) + Word(s[2 * k - 2], s[2 * k - 1])
  }

  /** The value the odd trailing byte adds: the byte itself, as `U16Chksum` adds it. */
  function OddTail(s: seq<byte>): byte
  {
    if |s| % 2 == 1 then s[|s| - 1] else 0
  }

  /** The plain word sum, without any truncation. */
  function WordSum(s: seq<byte>): nat
  {
    PairSum(s, |s| / 2) + OddTail(s)
  }

  /** Adds the bits above the low 16 back into the low 16 until none are left.
      `(x >> 16) & 0xFFFF` drops bits above 32, as in the Go code. */
  function Fold(x: nat): (r: nat)
    ensures r <= 0xFFFF
    decreases x
  {
    if x <= 0xFFFF then x else Fold((x / 0x1_0000) % 0x1_0000 + x % 0x1_0000)
  }

  /** What `U16Chksum` returns for the bytes `s`: the pair sum is kept to 32
      bits, the odd byte is added, the carries are folded and the result is
      complemented. */
  function U16Checksum(s: seq<byte>): uint16
  {
    0xFFFF - Fold(PairSum(s, |s| / 2) % Mask32 + OddTail(s))
  }

  lemma {:induction false} PairSumStep(s: seq<byte>, k: nat)
    requires 2 * k + 2 <= |s|
    ensures PairSum(s, k + 1) == PairSum(s, k) + Word(s[2 * k], s[2 * k + 1])
  {
  }

  lemma {:induction false} PairSumPrefix(s: seq<byte>, n: nat, k: nat)
    requires 2 * k <= n <= |s|
    ensures PairSum(s[..n], k) == PairSum(s, k)
  {
    if k > 0 {
      PairSumPrefix(s, n, k - 1);
    }
  }

  /** `U16Chksum` (sacp.go:119-135) over the first `length` bytes of `data`. */
  method U16Chksum(data: seq<byte>, length: int) returns (r: uint16)
    requires length <= |data|
    ensures r == U16Checksum(data[..if length > 0 then length else 0])
  {
    var n := if length > 0 then length else 0;
    ghost var s := data[..n];
    var checkNum: int := 0;
    if length > 0 {
      var i := 0;
      while i < length - 1
        invariant 0 <= i <= length && i % 2 == 0
        invariant checkNum == PairSum(data, i / 2) % Mask32
      {
        checkNum := AddWord(data, i / 2, checkNum);
        i := i + 2;
      }
      assert i / 2 == |s| / 2;
      PairSumPrefix(data, n, i / 2);
      if length % 2 != 0 {
        checkNum := checkNum + data[length - 1];
      }
    }
    assert checkNum == PairSum(s, |s| / 2) % Mask32 + OddTail(s);
    checkNum := FoldCarries(checkNum);
    // ^checkNum & 0xFFFF on a value that fits 16 bits
    r := 0xFFFF - checkNum;
  }

  /** The carry loop of `U16Chksum`. */
  method FoldCarries(x: nat) returns (r: nat)
    ensures r == Fold(x)
  {
    r := x;
    while r > 0xFFFF
      invariant Fold(r) == Fold(x)
      decreases r
    {
      FoldShrinks(r);
      r := (r / 0x1_0000) % 0x1_0000 + r % 0x1_0000;
    }
  }

  lemma FoldShrinks(x: nat)
    requires x > 0xFFFF
    ensures (x / 0x1_0000) % 0x1_0000 + x % 0x1_0000 < x
  {
    var q, m := x / 0x1_0000, x % 0x1_0000;
    assert x == 0x1_0000 * q + m && q >= 1;
    assert q % 0x1_0000 <= q;
  }

  /** One pass of the word loop: `check_num += word; check_num &= 0xffffffff`. */
  method AddWord(s: seq<byte>, k: nat, checkNum: int) returns (next: int)
    requires 2 * k + 2 <= |s| && checkNum == PairSum(s, k) % Mask32
    ensures next == PairSum(s, k + 1) % Mask32
  {
    PairSumStep(s, k);
    next := checkNum + (s[2 * k] as int * 0x100 + s[2 * k + 1] as int);
    next := next % Mask32;
  }

  // ---------------------------------------------------------------------------
  // What the trailing checksum means.
  // ---------------------------------------------------------------------------

  lemma {:induction false} PairSumBound(s: seq<byte>, k: nat)
    requires 2 * k <= |s|
    ensures PairSum(s, k) <= k * 0xFFFF
  {
    if k > 0 {
      PairSumBound(s, k - 1);
    }
  }

  /** For covered lengths up to 65535 bytes the sum stays below 2^31, so the
      32-bit mask in `U16Chksum` never discards a bit. */
  lemma WordSumFits(s: seq<byte>)
    requires |s| <= 0xFFFF
    ensures WordSum(s) < 0x8000_0000
    ensures PairSum(s, |s| / 2) % Mask32 == PairSum(s, |s| / 2)
  {
    PairSumBound(s, |s| / 2);
  }

  lemma ModShift(a: int, h: int)
    ensures (a + h * 0xFFFF) % 0xFFFF == a % 0xFFFF
  {
  }

  /** Folding keeps the value modulo 0xFFFF (since 0x10000 = 1 modulo 0xFFFF),
      and a non-zero value never folds to zero. */
  lemma {:induction false} FoldResidue(x: nat)
    requires x < Mask32
    ensures Fold(x) % 0xFFFF == x % 0xFFFF
    ensures x > 0 ==> Fold(x) > 0
  {
    if x > 0xFFFF {
      var h, l := x / 0x1_0000, x % 0x1_0000;
      SplitHalves(x);
      assert Fold(x) == Fold(h + l);
      ModShift(h + l, h);
      FoldResidue(h + l);
    }
  }

  /** The two 16-bit halves of a 32-bit value, and their sum. */
  lemma SplitHalves(x: nat)
    requires 0xFFFF < x < Mask32
    ensures 0 < x / 0x1_0000 < 0x1_0000
    ensures (x / 0x1_0000) % 0x1_0000 == x / 0x1_0000
    ensures x == x / 0x1_0000 + x % 0x1_0000 + x / 0x1_0000 * 0xFFFF
    ensures x / 0x1_0000 + x % 0x1_0000 < x
  {
  }

  /** `U16Chksum` is the one's-complement checksum: its complement is the
      word sum with end-around carry, i.e. congruent to the word sum modulo
      0xFFFF and zero only for an all-zero sum. */
  lemma ChecksumIsOnesComplement(s: seq<byte>)
    requires |s| <= 0xFFFF
    ensures (0xFFFF - U16Checksum(s)) % 0xFFFF == WordSum(s) % 0xFFFF
    ensures U16Checksum(s) == 0xFFFF <==> WordSum(s) == 0
  {
    WordSumFits(s);
    FoldResidue(WordSum(s));
  }

  // ---------------------------------------------------------------------------
  // Error detection: a single flipped bit changes the checksum.
  // ---------------------------------------------------------------------------

  /** 2^k for the bit positions of a byte. */
  const BitValue: seq<int> := [1, 2, 4, 8, 16, 32, 64, 128]

  /** `b` with bit `k` inverted. */
  function FlipBit(b: byte, k: nat): (r: byte)
    requires k < 8
    ensures r != b
  {
    if (b / BitValue[k]) % 2 == 0 then b + BitValue[k] else b - BitValue[k]
  }

  /** `s` with bit `k` of byte `i` inverted. */
  function Flip(s: seq<byte>, i: nat, k: nat): (r: seq<byte>)
    requires i < |s| && k < 8
    ensures |r| == |s| && r[i] != s[i]
    ensures forall j | 0 <= j < |s| && j != i :: r[j] == s[j]
  {
    s[i := FlipBit(s[i], k)]
  }

  /** A byte's weight in the word sum: 256 as the high byte of a word, 1 as
      the low byte or as the odd trailing byte. */
  function Weight(n: nat, i: nat): int
  {
    if i % 2 == 0 && !(n % 2 == 1 && i == n - 1) then 0x100 else 1
  }

  lemma {:induction false} PairSumUpdate(s: seq<byte>, i: nat, x: byte, k: nat)
    requires i < |s| && 2 * k <= |s|
    ensures PairSum(s[i := x], k)
         == PairSum(s, k) + (if i < 2 * k then (x - s[i]) * (if i % 2 == 0 then 0x100 else 1) else 0)
  {
    if k > 0 {
      PairSumUpdate(s, i, x, k - 1);
    }
  }

  /** Changing one byte moves the word sum by the change times its weight. */
  lemma WordSumUpdate(s: seq<byte>, i: nat, x: byte)
    requires i < |s|
    ensures WordSum(s[i := x]) == WordSum(s) + (x - s[i]) * Weight(|s|, i)
  {
    PairSumUpdate(s, i, x, |s| / 2);
  }

  /** Two values congruent modulo 0xFFFF and less than 0xFFFF apart are equal. */
  lemma CongruentClose(a: int, b: int)
    requires a % 0xFFFF == b % 0xFFFF && -0xFFFF < a - b < 0xFFFF
    ensures a == b
  {
    var q := a / 0xFFFF - b / 0xFFFF;
    assert a - b == q * 0xFFFF;
  }

  /** Every single-bit error in the covered bytes changes `U16Chksum`, for
      covered lengths up to 65535 bytes. */
  lemma ChecksumDetectsBitFlip(s: seq<byte>, i: nat, k: nat)
    requires |s| <= 0xFFFF && i < |s| && k < 8
    ensures U16Checksum(Flip(s, i, k)) != U16Checksum(s)
  {
    var t := Flip(s, i, k);
    var d: int := t[i] as int - s[i] as int;
    assert d == BitValue[k] || d == -BitValue[k];
    assert t == s[i := t[i]];
    WordSumUpdate(s, i, t[i]);
    assert WordSum(t) - WordSum(s) == d * Weight(|s|, i);
    assert -0x8000 <= d * Weight(|s|, i) <= 0x8000 && d * Weight(|s|, i) != 0 by {
      if Weight(|s|, i) == 1 {
      } else {
        assert d * Weight(|s|, i) == d * 0x100;
      }
    }
    ChecksumIsOnesComplement(s);
    ChecksumIsOnesComplement(t);
    if U16Checksum(t) == U16Checksum(s) {
      CongruentClose(WordSum(t), WordSum(s));
    }
  }
}
