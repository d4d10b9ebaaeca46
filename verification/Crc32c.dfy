/** CRC-32C: the 256-entry table form against eight shift-xor steps a byte, against
    the bit-serial shift register, and what the digest detects. */
module Crc32c {
  import opened Bytes

  const POLY_LE: bv32 := 0x82F63B78

  /** A 32-bit machine word. Wrapping the bits lets proofs about whole words treat
      them as plain values. */
  datatype Word = Word(bits: bv32)

  function XorBits(x: bv32, y: bv32): bv32 {
    x ^ y
  }

  function Xor(x: Word, y: Word): Word {
    Word(XorBits(x.bits, y.bits))
  }

  function ShrBits(x: bv32): bv32 {
    x >> 8
  }

  function Shr8(x: Word): Word {
    Word(ShrBits(x.bits))
  }

  function Shl8(x: Word): Word {
    Word(x.bits << 8)
  }

  function FromByte(b: byte): Word {
    Word(b as bv32)
  }

  const ZERO := Word(0)
  const ONES := Word(0xFFFF_FFFF)

  /** One shift-xor step of the reflected register. */
  function StepBits(c: bv32): bv32 {
    (c >> 1) ^ (if c & 1 == 1 then POLY_LE else 0)
  }

  function Step(c: Word): Word {
    Word(StepBits(c.bits))
  }

  function Steps(c: Word, n: nat): Word {
    if n == 0 then c else Step(Steps(c, n - 1))
  }

  /** The register after one message byte. */
  function ByteStep(c: Word, b: byte): Word {
    Steps(Xor(c, FromByte(b)), 8)
  }

  /** The register after a whole message; seed and result are not inverted here. */
  function Crc(seed: Word, data: seq<byte>): Word {
    if data == [] then seed else ByteStep(Crc(seed, data[..|data| - 1]), data[|data| - 1])
  }

  /** The shift register fed one message bit at a time, least significant bit first,
      starting with bit k of b. */
  function BitSerial(c: Word, b: byte, k: nat): Word
    requires k <= 8
    decreases 8 - k
  {
    if k == 8 then c else BitSerial(Steps(Xor(c, FromByte((b >> k) & 1)), 1), b, k + 1)
  }

  /** The digest the iSCSI and tape code store: start at all ones, invert at the end. */
  function Digest(data: seq<byte>): Word {
    Xor(ONES, Crc(ONES, data))
  }

  /** The bytes of a word in the memory of a little-endian host. */
  function WordBytes(w: bv32): (r: seq<byte>)
    ensures |r| == 4
  {
    [(w & 0xFF) as byte, ((w >> 8) & 0xFF) as byte, ((w >> 16) & 0xFF) as byte, (w >> 24) as byte]
  }

  /** The four stored bytes of a digest. */
  function DigestBytes(data: seq<byte>): (r: seq<byte>)
    ensures |r| == 4
  {
    WordBytes(Digest(data).bits)
  }

  /** The flat 256-entry table, sixteen entries to a row. */
  const TABLE: seq<seq<bv32>> := [
    [0x00000000, 0xF26B8303, 0xE13B70F7, 0x1350F3F4, 0xC79A971F, 0x35F1141C, 0x26A1E7E8, 0xD4CA64EB,
     0x8AD958CF, 0x78B2DBCC, 0x6BE22838, 0x9989AB3B, 0x4D43CFD0, 0xBF284CD3, 0xAC78BF27, 0x5E133C24],
    [0x105EC76F, 0xE235446C, 0xF165B798, 0x030E349B, 0xD7C45070, 0x25AFD373, 0x36FF2087, 0xC494A384,
     0x9A879FA0, 0x68EC1CA3, 0x7BBCEF57, 0x89D76C54, 0x5D1D08BF, 0xAF768BBC, 0xBC267848, 0x4E4DFB4B],
    [0x20BD8EDE, 0xD2D60DDD, 0xC186FE29, 0x33ED7D2A, 0xE72719C1, 0x154C9AC2, 0x061C6936, 0xF477EA35,
     0xAA64D611, 0x580F5512, 0x4B5FA6E6, 0xB93425E5, 0x6DFE410E, 0x9F95C20D, 0x8CC531F9, 0x7EAEB2FA],
    [0x30E349B1, 0xC288CAB2, 0xD1D83946, 0x23B3BA45, 0xF779DEAE, 0x05125DAD, 0x1642AE59, 0xE4292D5A,
     0xBA3A117E, 0x4851927D, 0x5B016189, 0xA96AE28A, 0x7DA08661, 0x8FCB0562, 0x9C9BF696, 0x6EF07595],
    [0x417B1DBC, 0xB3109EBF, 0xA0406D4B, 0x522BEE48, 0x86E18AA3, 0x748A09A0, 0x67DAFA54, 0x95B17957,
     0xCBA24573, 0x39C9C670, 0x2A993584, 0xD8F2B687, 0x0C38D26C, 0xFE53516F, 0xED03A29B, 0x1F682198],
    [0x5125DAD3, 0xA34E59D0, 0xB01EAA24, 0x42752927, 0x96BF4DCC, 0x64D4CECF, 0x77843D3B, 0x85EFBE38,
     0xDBFC821C, 0x2997011F, 0x3AC7F2EB, 0xC8AC71E8, 0x1C661503, 0xEE0D9600, 0xFD5D65F4, 0x0F36E6F7],
    [0x61C69362, 0x93AD1061, 0x80FDE395, 0x72966096, 0xA65C047D, 0x5437877E, 0x4767748A, 0xB50CF789,
     0xEB1FCBAD, 0x197448AE, 0x0A24BB5A, 0xF84F3859, 0x2C855CB2, 0xDEEEDFB1, 0xCDBE2C45, 0x3FD5AF46],
    [0x7198540D, 0x83F3D70E, 0x90A324FA, 0x62C8A7F9, 0xB602C312, 0x44694011, 0x5739B3E5, 0xA55230E6,
     0xFB410CC2, 0x092A8FC1, 0x1A7A7C35, 0xE811FF36, 0x3CDB9BDD, 0xCEB018DE, 0xDDE0EB2A, 0x2F8B6829],
    [0x82F63B78, 0x709DB87B, 0x63CD4B8F, 0x91A6C88C, 0x456CAC67, 0xB7072F64, 0xA457DC90, 0x563C5F93,
     0x082F63B7, 0xFA44E0B4, 0xE9141340, 0x1B7F9043, 0xCFB5F4A8, 0x3DDE77AB, 0x2E8E845F, 0xDCE5075C],
    [0x92A8FC17, 0x60C37F14, 0x73938CE0, 0x81F80FE3, 0x55326B08, 0xA759E80B, 0xB4091BFF, 0x466298FC,
     0x1871A4D8, 0xEA1A27DB, 0xF94AD42F, 0x0B21572C, 0xDFEB33C7, 0x2D80B0C4, 0x3ED04330, 0xCCBBC033],
    [0xA24BB5A6, 0x502036A5, 0x4370C551, 0xB11B4652, 0x65D122B9, 0x97BAA1BA, 0x84EA524E, 0x7681D14D,
     0x2892ED69, 0xDAF96E6A, 0xC9A99D9E, 0x3BC21E9D, 0xEF087A76, 0x1D63F975, 0x0E330A81, 0xFC588982],
    [0xB21572C9, 0x407EF1CA, 0x532E023E, 0xA145813D, 0x758FE5D6, 0x87E466D5, 0x94B49521, 0x66DF1622,
     0x38CC2A06, 0xCAA7A905, 0xD9F75AF1, 0x2B9CD9F2, 0xFF56BD19, 0x0D3D3E1A, 0x1E6DCDEE, 0xEC064EED],
    [0xC38D26C4, 0x31E6A5C7, 0x22B65633, 0xD0DDD530, 0x0417B1DB, 0xF67C32D8, 0xE52CC12C, 0x1747422F,
     0x49547E0B, 0xBB3FFD08, 0xA86F0EFC, 0x5A048DFF, 0x8ECEE914, 0x7CA56A17, 0x6FF599E3, 0x9D9E1AE0],
    [0xD3D3E1AB, 0x21B862A8, 0x32E8915C, 0xC083125F, 0x144976B4, 0xE622F5B7, 0xF5720643, 0x07198540,
     0x590AB964, 0xAB613A67, 0xB831C993, 0x4A5A4A90, 0x9E902E7B, 0x6CFBAD78, 0x7FAB5E8C, 0x8DC0DD8F],
    [0xE330A81A, 0x115B2B19, 0x020BD8ED, 0xF0605BEE, 0x24AA3F05, 0xD6C1BC06, 0xC5914FF2, 0x37FACCF1,
     0x69E9F0D5, 0x9B8273D6, 0x88D28022, 0x7AB90321, 0xAE7367CA, 0x5C18E4C9, 0x4F48173D, 0xBD23943E],
    [0xF36E6F75, 0x0105EC76, 0x12551F82, 0xE03E9C81, 0x34F4F86A, 0xC69F7B69, 0xD5CF889D, 0x27A40B9E,
     0x79B737BA, 0x8BDCB4B9, 0x988C474D, 0x6AE7C44E, 0xBE2DA0A5, 0x4C4623A6, 0x5F16D052, 0xAD7D5351]
  ]

  lemma TableShape()
    ensures |TABLE| == 16
    ensures forall r :: 0 <= r < 16 ==> |TABLE[r]| == 16
  {
  }

  function TableAt(i: byte): Word {
    TableShape();
    Word(TABLE[(i >> 4) as nat][(i & 15) as nat])
  }

  // ----- algebra of one step

  lemma ShrXor(x: bv32, y: bv32)
    ensures (x ^ y) >> 1 == (x >> 1) ^ (y >> 1)
    ensures (x ^ y) & 1 == (x & 1) ^ (y & 1)
    ensures (x & 1 == 0 || x & 1 == 1) && (y & 1 == 0 || y & 1 == 1)
  {
  }

  lemma XorSwap(a: bv32, b: bv32, c: bv32, d: bv32)
    ensures (a ^ b) ^ (c ^ d) == (a ^ c) ^ (b ^ d)
  {
  }

  lemma StepBitsXor(x: bv32, y: bv32)
    ensures StepBits(x ^ y) == StepBits(x) ^ StepBits(y)
  {
    ShrXor(x, y);
    var p: bv32 := if x & 1 == 1 then POLY_LE else 0;
    var q: bv32 := if y & 1 == 1 then POLY_LE else 0;
    assert (if (x ^ y) & 1 == 1 then POLY_LE else 0) == p ^ q;
    XorSwap(x >> 1, y >> 1, p, q);
  }

  lemma StepBitsXorBits(x: bv32, y: bv32)
    ensures StepBits(XorBits(x, y)) == XorBits(StepBits(x), StepBits(y))
  {
    StepBitsXor(x, y);
  }

  lemma StepXor(x: Word, y: Word)
    ensures Step(Xor(x, y)) == Xor(Step(x), Step(y))
  {
    hide StepBits, XorBits;
    StepBitsXorBits(x.bits, y.bits);
  }

  /** The table algorithm rests on this: the steps are linear over exclusive or. */
  lemma {:induction false} StepsXor(x: Word, y: Word, n: nat)
    ensures Steps(Xor(x, y), n) == Xor(Steps(x, n), Steps(y, n))
  {
    hide Step, Xor;
    if n > 0 {
      StepsXor(x, y, n - 1);
      StepXor(Steps(x, n - 1), Steps(y, n - 1));
    }
  }

  lemma {:induction false} StepsAdd(c: Word, m: nat, n: nat)
    ensures Steps(c, m + n) == Steps(Steps(c, m), n)
  {
    hide Step;
    if n > 0 {
      StepsAdd(c, m, n - 1);
    }
  }

  lemma XorNone(x: bv32)
    ensures x ^ 0 == x
  {
  }

  lemma StepEven(x: bv32)
    requires x & 1 == 0
    ensures StepBits(x) == x >> 1
  {
    var y := x >> 1;
    assert StepBits(x) == y ^ 0;
    XorNone(y);
  }

  function EightStepBits(c: bv32): bv32 {
    StepBits(StepBits(StepBits(StepBits(StepBits(StepBits(StepBits(StepBits(c))))))))
  }

  lemma EightSteps(c: Word)
    ensures Steps(c, 8) == Word(EightStepBits(c.bits))
  {
    hide StepBits;
    assert Steps(c, 1) == Step(c);
    assert Steps(c, 3) == Step(Step(Step(c)));
    assert Steps(c, 5) == Step(Step(Step(Step(Step(c)))));
    assert Steps(c, 7) == Step(Step(Step(Step(Step(Step(Step(c)))))));
  }

  lemma EightHigh(c: bv32)
    requires c & 0xFF == 0
    ensures EightStepBits(c) == ShrBits(c)
  {
  }

  /** Bits above the low byte only move down in eight steps. */
  lemma StepsHigh(w: Word)
    requires w.bits & 0xFF == 0
    ensures Steps(w, 8) == Shr8(w)
  {
    hide EightStepBits, ShrBits;
    EightHigh(w.bits);
    EightSteps(w);
  }

  // ----- the table

  lemma RawEntry(i: byte)
    ensures TableAt(i).bits == EightStepBits(i as bv32)
  {
    TableShape();
  }

  /** Every literal of the table is eight shift-xor steps of its index. */
  lemma TableEntry(i: byte)
    ensures TableAt(i) == Steps(FromByte(i), 8)
  {
    RawEntry(i);
    EightSteps(FromByte(i));
  }

  lemma LowFits(c: bv32)
    ensures c & 0xFF <= 0xFF
  {
  }

  function LowByte(c: Word): byte {
    LowFits(c.bits);
    (c.bits & 0xFF) as byte
  }

  function HighBits(c: bv32): bv32 {
    c & 0xFFFF_FF00
  }

  function HighPart(c: Word): Word {
    Word(HighBits(c.bits))
  }

  lemma LowBack(c: bv32)
    requires c <= 0xFF
    ensures (c as byte) as bv32 == c
  {
  }

  lemma SplitBits(c: bv32)
    ensures XorBits(((c & 0xFF) as byte) as bv32, HighBits(c)) == c
    ensures HighBits(c) & 0xFF == 0 && ShrBits(HighBits(c)) == ShrBits(c)
  {
    LowFits(c);
    LowBack(c & 0xFF);
  }

  lemma SplitWord(c: Word)
    ensures c == Xor(FromByte(LowByte(c)), HighPart(c))
    ensures HighPart(c).bits & 0xFF == 0 && Shr8(HighPart(c)) == Shr8(c)
  {
    hide XorBits, HighBits, ShrBits;
    SplitBits(c.bits);
  }

  /** One table lookup does the work of eight steps. */
  lemma TableStep(c: Word)
    ensures Steps(c, 8) == Xor(TableAt(LowByte(c)), Shr8(c))
  {
    hide TableAt, LowByte, Steps, HighPart, FromByte, Xor, Shr8;
    SplitWord(c);
    StepsXor(FromByte(LowByte(c)), HighPart(c), 8);
    StepsHigh(HighPart(c));
    TableEntry(LowByte(c));
  }

  lemma ShrMix(c: Word, b: byte)
    ensures Shr8(Xor(c, FromByte(b))) == Shr8(c)
  {
  }

  // ----- the two implementations, one specification

  /** The loop built when CRC_LE_BITS is 1. */
  method CrcBitwise(seed: bv32, data: seq<byte>) returns (crc: bv32)
    ensures Word(crc) == Crc(Word(seed), data)
  {
    crc := seed;
    var n := 0;
    while n < |data|
      invariant 0 <= n <= |data|
      invariant Word(crc) == Crc(Word(seed), data[..n])
    {
      crc := crc ^ (data[n] as bv32);
      ghost var mixed := Word(crc);
      var i := 0;
      while i < 8
        invariant 0 <= i <= 8
        invariant Word(crc) == Steps(mixed, i)
      {
        crc := (crc >> 1) ^ (if crc & 1 == 1 then POLY_LE else 0);
        i := i + 1;
      }
      assert data[..n + 1][..n] == data[..n];
      n := n + 1;
    }
    assert data[..n] == data;
  }

  /** The loop built by default, one lookup a byte. */
  method CrcTable(seed: bv32, data: seq<byte>) returns (crc: bv32)
    ensures Word(crc) == Crc(Word(seed), data)
  {
    hide Steps, LowByte, TableAt, Xor, Shr8;
    var c := Word(seed);
    var n := 0;
    while n < |data|
      invariant 0 <= n <= |data|
      invariant c == Crc(Word(seed), data[..n])
    {
      TableStep(Xor(c, FromByte(data[n])));
      ShrMix(c, data[n]);
      c := Xor(TableAt(LowByte(Xor(c, FromByte(data[n])))), Shr8(c));
      assert data[..n + 1][..n] == data[..n];
      n := n + 1;
    }
    assert data[..n] == data;
    crc := c.bits;
  }

  // ----- what the value means

  /** A running crc continued over more bytes is the crc of the concatenation. */
  lemma {:induction false} CrcConcat(seed: Word, a: seq<byte>, b: seq<byte>)
    ensures Crc(seed, a + b) == Crc(Crc(seed, a), b)
    decreases |b|
  {
    hide ByteStep;
    if b == [] {
      assert a + b == a;
    } else {
      var b' := b[..|b| - 1];
      assert (a + b)[..|a + b| - 1] == a + b';
      CrcConcat(seed, a, b');
    }
  }

  lemma SplitBit(c: Word, b: byte)
    ensures Xor(c, FromByte(b)) == Xor(Xor(c, FromByte(b & 1)), FromByte(b & 0xFE))
    ensures (b & 0xFE) as bv32 & 1 == 0 && ((b & 0xFE) as bv32) >> 1 == (b >> 1) as bv32
  {
  }

  lemma EvenTail(c: Word, b: byte)
    ensures Steps(Xor(c, FromByte(b)), 1) == Xor(Steps(Xor(c, FromByte(b & 1)), 1), FromByte(b >> 1))
  {
    hide StepBits, Xor;
    var high := FromByte(b & 0xFE);
    SplitBit(c, b);
    StepsXor(Xor(c, FromByte(b & 1)), high, 1);
    StepEven(high.bits);
    assert Steps(high, 1).bits == FromByte(b >> 1).bits;
  }

  lemma ShiftAgain(b: byte, k: nat)
    requires k < 8
    ensures (b >> k) >> 1 == b >> (k + 1)
  {
    assert k == 0 || k == 1 || k == 2 || k == 3 || k == 4 || k == 5 || k == 6 || k == 7;
  }

  lemma XorZero(c: Word)
    ensures Xor(c, ZERO) == c && Xor(ZERO, c) == c
  {
  }

  lemma ShiftedOut(b: byte)
    ensures FromByte(b >> 8) == ZERO && b >> 0 == b
  {
  }

  lemma {:induction false} BitSerialFrom(c: Word, b: byte, k: nat)
    requires k <= 8
    ensures BitSerial(c, b, k) == Steps(Xor(c, FromByte(b >> k)), 8 - k)
    decreases 8 - k
  {
    hide Step, Xor, FromByte;
    if k == 8 {
      ShiftedOut(b);
      XorZero(c);
    } else {
      BitSerialFrom(Steps(Xor(c, FromByte((b >> k) & 1)), 1), b, k + 1);
      EvenTail(c, b >> k);
      ShiftAgain(b, k);
      StepsAdd(Xor(c, FromByte(b >> k)), 1, 7 - k);
    }
  }

  /** Mixing in a whole byte and shifting eight times is the bit-serial register. */
  lemma ByteStepIsBitSerial(c: Word, b: byte)
    ensures ByteStep(c, b) == BitSerial(c, b, 0)
  {
    BitSerialFrom(c, b, 0);
    ShiftedOut(b);
  }

  // ----- what the digest detects

  /** Undoes one step: the polynomial's top bit tells which branch was taken. */
  function Unstep(c: bv32): bv32 {
    if c & 0x8000_0000 == 0 then c << 1 else ((c ^ POLY_LE) << 1) | 1
  }

  lemma UnstepStep(x: bv32)
    ensures Unstep(StepBits(x)) == x
  {
  }

  lemma XorCancel(a: bv32, b: bv32, c: bv32)
    requires a ^ c == b ^ c
    ensures a == b
  {
    assert (a ^ c) ^ c == a && (b ^ c) ^ c == b;
  }

  lemma {:induction false} StepsInjective(x: Word, y: Word, n: nat)
    requires Steps(x, n) == Steps(y, n)
    ensures x == y
  {
    hide StepBits, Unstep;
    if n > 0 {
      UnstepStep(Steps(x, n - 1).bits);
      UnstepStep(Steps(y, n - 1).bits);
      StepsInjective(x, y, n - 1);
    }
  }

  lemma XorComm(a: Word, b: Word)
    ensures Xor(a, b) == Xor(b, a)
  {
  }

  lemma XorInjective(a: Word, b: Word, c: Word)
    requires Xor(a, c) == Xor(b, c) || Xor(c, a) == Xor(c, b)
    ensures a == b
  {
    XorComm(a, c);
    XorComm(b, c);
    XorCancel(a.bits, b.bits, c.bits);
  }

  lemma XorAssoc(a: Word, b: Word, c: Word)
    ensures Xor(Xor(a, b), c) == Xor(a, Xor(b, c))
  {
  }

  lemma {:induction false} CrcSeedInjective(s: Word, t: Word, data: seq<byte>)
    requires Crc(s, data) == Crc(t, data)
    ensures s == t
    decreases |data|
  {
    hide Xor, FromByte, Steps;
    if data != [] {
      var d' := data[..|data| - 1];
      var b := FromByte(data[|data| - 1]);
      StepsInjective(Xor(Crc(s, d'), b), Xor(Crc(t, d'), b), 8);
      XorInjective(Crc(s, d'), Crc(t, d'), b);
      CrcSeedInjective(s, t, d');
    }
  }

  /** Up to four bytes as one little-endian word. */
  function WordOf(x: seq<byte>): Word
    requires |x| <= 4
  {
    if x == [] then ZERO else Xor(FromByte(x[0]), Shl8(WordOf(x[1..])))
  }

  /** w uses only its low n bytes. */
  predicate Narrow(w: Word, n: nat) {
    w.bits & (if n == 0 then 0xFFFF_FFFF else if n == 1 then 0xFFFF_FF00
              else if n == 2 then 0xFFFF_0000 else if n == 3 then 0xFF00_0000 else 0) == 0
  }

  lemma ZeroNarrow()
    ensures Narrow(ZERO, 0)
  {
  }

  lemma PutByte(b: byte, w: Word, n: nat)
    requires n <= 3 && Narrow(w, n)
    ensures Narrow(Xor(FromByte(b), Shl8(w)), n + 1)
    ensures Narrow(w, 3)
  {
    assert n == 0 || n == 1 || n == 2 || n == 3;
  }

  lemma {:induction false} WordNarrow(x: seq<byte>)
    requires |x| <= 4
    ensures Narrow(WordOf(x), |x|)
  {
    hide Narrow, Xor, Shl8, FromByte;
    if x == [] {
      ZeroNarrow();
    } else {
      WordNarrow(x[1..]);
      PutByte(x[0], WordOf(x[1..]), |x| - 1);
    }
  }

  lemma ShiftBack(w: Word)
    requires Narrow(w, 3)
    ensures Shl8(w).bits & 0xFF == 0 && Shr8(Shl8(w)) == w
  {
  }

  lemma UnpackByte(a: byte, w: Word, b: byte, v: Word)
    requires Narrow(w, 3) && Narrow(v, 3)
    requires Xor(FromByte(a), Shl8(w)) == Xor(FromByte(b), Shl8(v))
    ensures a == b && w == v
  {
  }

  /** A short message moves the register as its whole word does. */
  lemma {:induction false} CrcOfWord(s: Word, x: seq<byte>)
    requires |x| <= 4
    ensures Crc(s, x) == Steps(Xor(s, WordOf(x)), 8 * |x|)
    decreases |x|
  {
    hide Step, Xor, Shl8, Shr8, FromByte, Narrow;
    if x == [] {
      XorZero(s);
    } else {
      var w := WordOf(x[1..]);
      var b := FromByte(x[0]);
      assert [x[0]] + x[1..] == x && [x[0]][..0] == [];
      CrcConcat(s, [x[0]], x[1..]);
      assert Crc(s, [x[0]]) == ByteStep(Crc(s, []), x[0]) == Steps(Xor(s, b), 8);
      CrcOfWord(Steps(Xor(s, b), 8), x[1..]);
      WordNarrow(x[1..]);
      PutByte(x[0], w, |x| - 1);
      ShiftBack(w);
      StepsHigh(Shl8(w));
      StepsXor(Xor(s, b), Shl8(w), 8);
      XorAssoc(s, b, Shl8(w));
      StepsAdd(Xor(s, WordOf(x)), 8, 8 * |x[1..]|);
    }
  }

  lemma {:induction false} WordInjective(x: seq<byte>, y: seq<byte>)
    requires |x| == |y| <= 4 && WordOf(x) == WordOf(y)
    ensures x == y
  {
    hide Xor, Shl8, FromByte, Narrow;
    if x != [] {
      WordNarrow(x[1..]);
      WordNarrow(y[1..]);
      PutByte(x[0], WordOf(x[1..]), |x| - 1);
      PutByte(y[0], WordOf(y[1..]), |y| - 1);
      UnpackByte(x[0], WordOf(x[1..]), y[0], WordOf(y[1..]));
      WordInjective(x[1..], y[1..]);
      assert x == [x[0]] + x[1..] && y == [y[0]] + y[1..];
    }
  }

  /** Two messages that agree except inside one window of at most four bytes never
      share a digest. */
  lemma DigestDetectsBurst(pre: seq<byte>, x: seq<byte>, y: seq<byte>, post: seq<byte>)
    requires |x| == |y| <= 4 && x != y
    ensures Digest(pre + x + post) != Digest(pre + y + post)
  {
    hide Crc, Xor, Steps, WordOf;
    CrcConcat(ONES, pre + x, post);
    CrcConcat(ONES, pre + y, post);
    CrcConcat(ONES, pre, x);
    CrcConcat(ONES, pre, y);
    var p := Crc(ONES, pre);
    if Digest(pre + x + post) == Digest(pre + y + post) {
      XorInjective(Crc(ONES, pre + x + post), Crc(ONES, pre + y + post), ONES);
      CrcSeedInjective(Crc(p, x), Crc(p, y), post);
      CrcOfWord(p, x);
      CrcOfWord(p, y);
      StepsInjective(Xor(p, WordOf(x)), Xor(p, WordOf(y)), 8 * |x|);
      XorInjective(WordOf(x), WordOf(y), p);
      WordInjective(x, y);
    }
  }

  // ----- the digest behind its message

  /** What the register holds when a message and its own digest have gone through it. */
  const RESIDUE := Word(0xB798_B438)

  lemma WordOfFour(a: byte, b: byte, c: byte, d: byte)
    ensures WordOf([a, b, c, d])
         == Xor(FromByte(a), Shl8(Xor(FromByte(b), Shl8(Xor(FromByte(c), Shl8(Xor(FromByte(d), Shl8(ZERO))))))))
  {
    hide Xor, Shl8, FromByte;
    assert [a, b, c, d][1..] == [b, c, d] && [b, c, d][1..] == [c, d] && [c, d][1..] == [d] && [d][1..] == [];
    assert WordOf([d]) == Xor(FromByte(d), Shl8(ZERO));
    assert WordOf([c, d]) == Xor(FromByte(c), Shl8(WordOf([d])));
    assert WordOf([b, c, d]) == Xor(FromByte(b), Shl8(WordOf([c, d])));
  }

  lemma BitsBack(w: bv32)
    ensures var (a, b, c, d) := ((w & 0xFF) as byte, ((w >> 8) & 0xFF) as byte, ((w >> 16) & 0xFF) as byte,
                                 (w >> 24) as byte);
            (a as bv32) ^ (((b as bv32) ^ (((c as bv32) ^ (((d as bv32) ^ 0) << 8)) << 8)) << 8) == w
  {
  }

  lemma WordBack(w: bv32)
    ensures WordOf(WordBytes(w)) == Word(w)
  {
    hide WordOf;
    var x := WordBytes(w);
    WordOfFour(x[0], x[1], x[2], x[3]);
    assert x == [x[0], x[1], x[2], x[3]];
    BitsBack(w);
  }

  lemma OnesCancel(w: Word)
    ensures Xor(w, Xor(ONES, w)) == ONES
  {
  }

  lemma OnesBits()
    ensures EightStepBits(0xFFFF_FFFF) == 0xAD82_ACAE && EightStepBits(0xAD82_ACAE) == 0x0E9E_882D
    ensures EightStepBits(0x0E9E_882D) == 0x9F9B_5C85 && EightStepBits(0x9F9B_5C85) == 0xB798_B438
  {
  }

  lemma OnesSteps()
    ensures Steps(ONES, 32) == RESIDUE
  {
    hide Steps, EightStepBits;
    OnesBits();
    StepsAdd(ONES, 8, 8);
    StepsAdd(ONES, 16, 8);
    StepsAdd(ONES, 24, 8);
    EightSteps(ONES);
    EightSteps(Steps(ONES, 8));
    EightSteps(Steps(ONES, 16));
    EightSteps(Steps(ONES, 24));
  }

  /** Whatever the message, the register ends on one value when the stored digest follows. */
  lemma DigestLeavesResidue(data: seq<byte>)
    ensures Crc(ONES, data + DigestBytes(data)) == RESIDUE
  {
    hide Crc, Steps, WordOf, WordBytes, Xor;
    var r := Crc(ONES, data);
    CrcConcat(ONES, data, DigestBytes(data));
    CrcOfWord(r, DigestBytes(data));
    WordBack(Digest(data).bits);
    OnesCancel(r);
    OnesSteps();
  }
}
