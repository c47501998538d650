/** Benchmark payload files (src/payload_file.rs): a 32-byte header whose first eight bytes
    are a timestamp and whose other three words come from a 64-bit mixer, so that two
    payloads of one batch differ outside the timestamp. */
module PayloadFile {
  import opened Numbers
  import opened Wrappers

  const PAYLOAD_HEADER_LEN: nat := 32
  const PAYLOAD_TIMESTAMP_LEN: nat := 8

  /** The run id is given as its UTF-8 bytes; the size is a 64-bit word in the source. */
  datatype PayloadFileSpec = PayloadFileSpec(runId: seq<bv8>, seed: bv64, index: bv64, sizeBytes: nat)

  // ------------------------------------------------------------ the mixer, stage by stage

  function Shift30(v: bv64): bv64 { v ^ (v >> 30) }

  function Shift27(v: bv64): bv64 { v ^ (v >> 27) }

  function Shift31(v: bv64): bv64 { v ^ (v >> 31) }

  function TimesA(v: bv64): bv64 { v * 0xbf58476d1ce4e5b9 }

  function TimesB(v: bv64): bv64 { v * 0x94d049bb133111eb }

  function Golden(v: bv64): bv64 { v + 0x9e3779b97f4a7c15 }

  function Mix(value: bv64): bv64 {
    Shift31(TimesB(Shift27(TimesA(Shift30(Golden(value))))))
  }

  // The inverse stages: a repeated shift, or the inverse of the odd factor modulo 2^64.

  function Unshift30(v: bv64): bv64 { v ^ (v >> 30) ^ (v >> 60) }

  function Unshift27(v: bv64): bv64 { v ^ (v >> 27) ^ (v >> 54) }

  function Unshift31(v: bv64): bv64 { v ^ (v >> 31) ^ (v >> 62) }

  function OverA(v: bv64): bv64 { v * 0x96de1b173f119089 }

  function OverB(v: bv64): bv64 { v * 0x319642b2d24d8ec3 }

  function Ungolden(v: bv64): bv64 { v - 0x9e3779b97f4a7c15 }

  function Unmix(mixed: bv64): bv64 {
    Ungolden(Unshift30(OverA(Unshift27(OverB(Unshift31(mixed))))))
  }

  // Each stage is related to its inverse on the expression itself first: the solver folds
  // the two constants there, and cannot once the definitions are unfolded separately.

  lemma ShiftTerms(v: bv64)
    ensures Shift30(v) == v ^ (v >> 30)
    ensures Shift27(v) == v ^ (v >> 27)
    ensures Shift31(v) == v ^ (v >> 31)
    ensures Unshift30(v) == v ^ (v >> 30) ^ (v >> 60)
    ensures Unshift27(v) == v ^ (v >> 27) ^ (v >> 54)
    ensures Unshift31(v) == v ^ (v >> 31) ^ (v >> 62)
  {}

  lemma UnshiftOfTerm(v: bv64)
    ensures Unshift30(v ^ (v >> 30)) == v
    ensures Unshift27(v ^ (v >> 27)) == v
    ensures Unshift31(v ^ (v >> 31)) == v
  {}

  lemma ShiftOfTerm(v: bv64)
    ensures Shift30(v ^ (v >> 30) ^ (v >> 60)) == v
    ensures Shift27(v ^ (v >> 27) ^ (v >> 54)) == v
    ensures Shift31(v ^ (v >> 31) ^ (v >> 62)) == v
  {}

  lemma TimesTerms(v: bv64)
    ensures TimesA(v) == v * 0xbf58476d1ce4e5b9
    ensures TimesB(v) == v * 0x94d049bb133111eb
    ensures OverA(v) == v * 0x96de1b173f119089
    ensures OverB(v) == v * 0x319642b2d24d8ec3
  {}

  lemma OverOfTerm(v: bv64)
    ensures OverA(v * 0xbf58476d1ce4e5b9) == v
    ensures OverB(v * 0x94d049bb133111eb) == v
  {}

  lemma TimesOfTerm(v: bv64)
    ensures TimesA(v * 0x96de1b173f119089) == v
    ensures TimesB(v * 0x319642b2d24d8ec3) == v
  {}

  lemma StagesInvert(v: bv64)
    ensures Unshift30(Shift30(v)) == v && Shift30(Unshift30(v)) == v
    ensures Unshift27(Shift27(v)) == v && Shift27(Unshift27(v)) == v
    ensures Unshift31(Shift31(v)) == v && Shift31(Unshift31(v)) == v
    ensures OverA(TimesA(v)) == v && TimesA(OverA(v)) == v
    ensures OverB(TimesB(v)) == v && TimesB(OverB(v)) == v
  {
    hide Shift30, Shift27, Shift31, Unshift30, Unshift27, Unshift31, TimesA, TimesB, OverA, OverB;
    ShiftTerms(v);
    UnshiftOfTerm(v);
    ShiftOfTerm(v);
    TimesTerms(v);
    OverOfTerm(v);
    TimesOfTerm(v);
  }

  lemma GoldenInverts(v: bv64)
    ensures Ungolden(Golden(v)) == v && Golden(Ungolden(v)) == v
  {}

  /** The mixer is a bijection of the 64-bit words. */
  lemma MixIsBijective(value: bv64)
    ensures Unmix(Mix(value)) == value
    ensures Mix(Unmix(value)) == value
  {
    hide Shift30, Shift27, Shift31, Unshift30, Unshift27, Unshift31;
    hide TimesA, TimesB, OverA, OverB, Golden, Ungolden;
    GoldenInverts(value);
    StagesInvert(Golden(value));
    StagesInvert(Shift30(Golden(value)));
    StagesInvert(TimesA(Shift30(Golden(value))));
    StagesInvert(Shift27(TimesA(Shift30(Golden(value)))));
    StagesInvert(TimesB(Shift27(TimesA(Shift30(Golden(value))))));

    StagesInvert(value);
    StagesInvert(Unshift31(value));
    StagesInvert(OverB(Unshift31(value)));
    StagesInvert(Unshift27(OverB(Unshift31(value))));
    StagesInvert(OverA(Unshift27(OverB(Unshift31(value)))));
    GoldenInverts(Unshift30(OverA(Unshift27(OverB(Unshift31(value))))));
  }

  /** The first two outputs that splitmix64 gives for the seed 0. */
  lemma MixerAnswers()
    ensures Mix(0) == 0xe220a8397b1dcdaf
    ensures Mix(0x9e3779b97f4a7c15) == 0x6e789e6aa1b965f4
  {}

  method Splitmix64(value: bv64) returns (mixed: bv64)
    ensures mixed == Mix(value)
  {
    hide Shift30, Shift27, Shift31, TimesA, TimesB, Golden;
    mixed := Golden(value);
    mixed := TimesA(Shift30(mixed));
    mixed := TimesB(Shift27(mixed));
    mixed := Shift31(mixed);
  }

  // ------------------------------------------------------------ words and their bytes

  /** Little-endian bytes of a word. */
  function LeBytes(word: bv64): (bytes: seq<bv8>)
    ensures |bytes| == 8
  {
    [(word & 0xff) as bv8, ((word >> 8) & 0xff) as bv8,
     ((word >> 16) & 0xff) as bv8, ((word >> 24) & 0xff) as bv8,
     ((word >> 32) & 0xff) as bv8, ((word >> 40) & 0xff) as bv8,
     ((word >> 48) & 0xff) as bv8, ((word >> 56) & 0xff) as bv8]
  }

  lemma LeBytesAreInjective(u: bv64, v: bv64)
    requires LeBytes(u) == LeBytes(v)
    ensures u == v
  {
    var a, b := LeBytes(u), LeBytes(v);
    assert a[0] == b[0] && a[1] == b[1] && a[2] == b[2] && a[3] == b[3];
    assert a[4] == b[4] && a[5] == b[5] && a[6] == b[6] && a[7] == b[7];
  }

  /** Least significant byte first: shifting a word by eight bits drops its first byte. */
  lemma LeBytesShift(word: bv64)
    ensures LeBytes(word)[0] == (word & 0xff) as bv8
    ensures LeBytes(word >> 8) == LeBytes(word)[1..] + [0]
  {}

  // A number as a 64-bit word, spelled by its base-256 digits.

  function Power256(n: nat): nat { if n == 0 then 1 else 256 * Power256(n - 1) }

  function Nibble(n: nat): bv8 {
    if n == 0 then 0 else if n == 1 then 1 else if n == 2 then 2 else if n == 3 then 3 else if n == 4 then 4
    else if n == 5 then 5 else if n == 6 then 6 else if n == 7 then 7 else if n == 8 then 8
    else if n == 9 then 9 else if n == 10 then 10 else if n == 11 then 11 else if n == 12 then 12
    else if n == 13 then 13 else if n == 14 then 14 else 15
  }

  function NibbleValue(v: bv8): nat {
    if v == 0 then 0 else if v == 1 then 1 else if v == 2 then 2 else if v == 3 then 3 else if v == 4 then 4
    else if v == 5 then 5 else if v == 6 then 6 else if v == 7 then 7 else if v == 8 then 8
    else if v == 9 then 9 else if v == 10 then 10 else if v == 11 then 11 else if v == 12 then 12
    else if v == 13 then 13 else if v == 14 then 14 else 15
  }

  lemma NibbleReadsBack(n: nat)
    requires n < 16
    ensures NibbleValue(Nibble(n)) == n && Nibble(n) < 16
  {}

  lemma NibbleValueReadsBack(v: bv8)
    requires v < 16
    ensures Nibble(NibbleValue(v)) == v && NibbleValue(v) < 16
  {}

  lemma NibblesPack(high: bv8, low: bv8)
    requires high < 16 && low < 16
    ensures ((high << 4) | low) >> 4 == high && ((high << 4) | low) & 15 == low
  {}

  lemma NibblesUnpack(b: bv8)
    ensures b >> 4 < 16 && b & 15 < 16 && ((b >> 4) << 4) | (b & 15) == b
  {}

  /** The byte of a digit below 256, and the digit of a byte. */
  function DigitByte(d: nat): bv8 { (Nibble(d / 16) << 4) | Nibble(d % 16) }

  function ByteDigit(b: bv8): nat { 16 * NibbleValue(b >> 4) + NibbleValue(b & 15) }

  lemma DigitReadsBack(d: nat)
    requires d < 256
    ensures ByteDigit(DigitByte(d)) == d
  {
    hide Nibble, NibbleValue;
    NibbleReadsBack(d / 16);
    NibbleReadsBack(d % 16);
    NibblesPack(Nibble(d / 16), Nibble(d % 16));
  }

  lemma ByteReadsBack(b: bv8)
    ensures DigitByte(ByteDigit(b)) == b && ByteDigit(b) < 256
  {
    hide Nibble, NibbleValue;
    NibblesUnpack(b);
    NibbleValueReadsBack(b >> 4);
    NibbleValueReadsBack(b & 15);
  }

  function Digits(i: nat, count: nat): (digits: seq<bv8>)
    ensures |digits| == count
    decreases count
  {
    if count == 0 then [] else [DigitByte(i % 256)] + Digits(i / 256, count - 1)
  }

  lemma {:induction false} DigitsAreInjective(i: nat, j: nat, count: nat)
    requires i < Power256(count) && j < Power256(count) && Digits(i, count) == Digits(j, count)
    ensures i == j
    decreases count
  {
    hide DigitByte, ByteDigit;
    if count > 0 {
      var a, b := Digits(i, count), Digits(j, count);
      assert a[0] == b[0] && a[1..] == b[1..];
      DigitReadsBack(i % 256);
      DigitReadsBack(j % 256);
      DigitsAreInjective(i / 256, j / 256, count - 1);
    }
  }

  function FromLeBytes(bytes: seq<bv8>): bv64
    requires |bytes| == 8
  {
    (bytes[0] as bv64) | ((bytes[1] as bv64) << 8) | ((bytes[2] as bv64) << 16) | ((bytes[3] as bv64) << 24) |
    ((bytes[4] as bv64) << 32) | ((bytes[5] as bv64) << 40) | ((bytes[6] as bv64) << 48) | ((bytes[7] as bv64) << 56)
  }

  lemma BytesReadBack(bytes: seq<bv8>)
    requires |bytes| == 8
    ensures LeBytes(FromLeBytes(bytes)) == bytes
  {}

  function WordOf(n: nat): bv64
    requires n < U64_SPAN
  {
    FromLeBytes(Digits(n, 8))
  }

  lemma WordOfIsInjective(i: nat, j: nat)
    requires i < U64_SPAN && j < U64_SPAN && i != j
    ensures WordOf(i) != WordOf(j)
  {
    hide LeBytes, FromLeBytes, Digits;
    BytesReadBack(Digits(i, 8));
    BytesReadBack(Digits(j, 8));
    SpanIsEightBytes();
    if WordOf(i) == WordOf(j) { DigitsAreInjective(i, j, 8); }
  }

  lemma {:induction false} SpanIsEightBytes()
    ensures Power256(8) == U64_SPAN
    ensures forall n: nat :: n < 8 ==> Power256(n) < U64_SPAN
  {
    assert Power256(1) == 256 && Power256(2) == 0x1_0000 && Power256(3) == 0x100_0000;
    assert Power256(4) == 0x1_0000_0000 && Power256(5) == 0x100_0000_0000;
    assert Power256(6) == 0x1_0000_0000_0000 && Power256(7) == 0x100_0000_0000_0000;
  }

  // ------------------------------------------------------------ the seed word

  function FnvStep(hash: bv64, byte: bv8): bv64 { (hash ^ (byte as bv64)) * 0x100000001b3 }

  /** FNV-1a over the bytes of the run id. */
  function RunHash(bytes: seq<bv8>): bv64 {
    if bytes == [] then 0xcbf29ce484222325 else FnvStep(RunHash(bytes[..|bytes| - 1]), bytes[|bytes| - 1])
  }

  method HashRunId(runId: seq<bv8>) returns (hash: bv64)
    ensures hash == RunHash(runId)
  {
    hide FnvStep;
    hash := 0xcbf29ce484222325;
    for i := 0 to |runId|
      invariant hash == RunHash(runId[..i])
    {
      hash := FnvStep(hash, runId[i]);
      assert runId[..i + 1][..i] == runId[..i];
    }
    assert runId[..|runId|] == runId;
  }

  /** The hash of "a" that the FNV authors give. */
  lemma HashAnswers()
    ensures RunHash([]) == 0xcbf29ce484222325
    ensures RunHash([0x61]) == 0xaf63dc4c8601ec8c
  {
    assert [0x61 as bv8][..0] == [];
  }

  /** The step undone for a fixed byte. */
  function FnvUnstep(hash: bv64, byte: bv8): bv64 { (hash * 0xce965057aff6957b) ^ (byte as bv64) }

  lemma FnvTerms(hash: bv64, byte: bv8)
    ensures FnvStep(hash, byte) == (hash ^ (byte as bv64)) * 0x100000001b3
  {}

  lemma FnvUnstepOfTerm(v: bv64, byte: bv8)
    ensures FnvUnstep(v * 0x100000001b3, byte) == v ^ (byte as bv64)
  {}

  lemma XorTwice(v: bv64, w: bv64)
    ensures (v ^ w) ^ w == v
    ensures (v ^ w) ^ v == w
  {}

  lemma FnvStepInverts(hash: bv64, byte: bv8)
    ensures FnvUnstep(FnvStep(hash, byte), byte) == hash
  {
    hide FnvStep, FnvUnstep;
    FnvTerms(hash, byte);
    FnvUnstepOfTerm(hash ^ (byte as bv64), byte);
    XorTwice(hash, byte as bv64);
  }

  lemma BytesAreWords(a: bv8, b: bv8)
    requires a as bv64 == b as bv64
    ensures a == b
  {}

  lemma FnvStepTellsBytes(hash: bv64, a: bv8, b: bv8)
    requires FnvStep(hash, a) == FnvStep(hash, b)
    ensures a == b
  {
    hide FnvStep, FnvUnstep;
    FnvTerms(hash, a);
    FnvTerms(hash, b);
    FnvUnstepOfTerm(hash ^ (a as bv64), 0);
    FnvUnstepOfTerm(hash ^ (b as bv64), 0);
    XorTwice(hash ^ (a as bv64), (0 as bv8) as bv64);
    XorTwice(hash ^ (b as bv64), (0 as bv8) as bv64);
    XorTwice(hash, a as bv64);
    XorTwice(hash, b as bv64);
    BytesAreWords(a, b);
  }

  /** Run ids of one length that differ in a single byte have different hashes. */
  lemma {:induction false} OneByteChangesHash(front: seq<bv8>, a: bv8, b: bv8, rest: seq<bv8>)
    requires a != b
    ensures RunHash(front + [a] + rest) != RunHash(front + [b] + rest)
    decreases |rest|
  {
    hide FnvStep, FnvUnstep;
    var x, y := front + [a] + rest, front + [b] + rest;
    if rest == [] {
      assert x[..|front|] == front == y[..|front|];
      if RunHash(x) == RunHash(y) { FnvStepTellsBytes(RunHash(front), a, b); }
    } else {
      var last := |rest| - 1;
      OneByteChangesHash(front, a, b, rest[..last]);
      assert x[..|x| - 1] == front + [a] + rest[..last] && y[..|y| - 1] == front + [b] + rest[..last];
      FnvStepInverts(RunHash(x[..|x| - 1]), rest[last]);
      FnvStepInverts(RunHash(y[..|y| - 1]), rest[last]);
    }
  }

  /** The size as a 64-bit word. */
  function SizeWord(sizeBytes: nat): bv64 { WordOf(sizeBytes % U64_SPAN) }

  lemma SizeWordTells(a: nat, b: nat)
    ensures SizeWord(a) == SizeWord(b) <==> a % U64_SPAN == b % U64_SPAN
  {
    hide WordOf;
    if a % U64_SPAN != b % U64_SPAN { WordOfIsInjective(a % U64_SPAN, b % U64_SPAN); }
  }

  function Seeded(hash: bv64, seed: bv64, index: bv64, size: bv64): bv64 {
    hash ^ seed ^ index.RotateLeft(17) ^ size.RotateLeft(7)
  }

  function SeedWord(spec: PayloadFileSpec): bv64 {
    Seeded(RunHash(spec.runId), spec.seed, spec.index, SizeWord(spec.sizeBytes))
  }

  /** The index that produces the given seed word. */
  function IndexOf(hash: bv64, seed: bv64, size: bv64, word: bv64): bv64 {
    (word ^ hash ^ seed ^ size.RotateLeft(7)).RotateRight(17)
  }

  lemma IndexReadsBack(hash: bv64, seed: bv64, size: bv64, index: bv64)
    ensures IndexOf(hash, seed, size, Seeded(hash, seed, index, size)) == index
  {}

  lemma IndexIsFound(hash: bv64, seed: bv64, size: bv64, word: bv64)
    ensures Seeded(hash, seed, IndexOf(hash, seed, size, word), size) == word
  {}

  lemma SeededIsBijectiveInIndex(hash: bv64, seed: bv64, size: bv64, v: bv64)
    ensures IndexOf(hash, seed, size, Seeded(hash, seed, v, size)) == v
    ensures Seeded(hash, seed, IndexOf(hash, seed, size, v), size) == v
  {
    hide Seeded, IndexOf;
    IndexReadsBack(hash, seed, size, v);
    IndexIsFound(hash, seed, size, v);
  }

  // Each other part of the seed word, too, is determined by the word and the rest.

  function HashOf(seed: bv64, index: bv64, size: bv64, word: bv64): bv64 {
    word ^ seed ^ index.RotateLeft(17) ^ size.RotateLeft(7)
  }

  function SeedOf(hash: bv64, index: bv64, size: bv64, word: bv64): bv64 {
    word ^ hash ^ index.RotateLeft(17) ^ size.RotateLeft(7)
  }

  function SizeOf(hash: bv64, seed: bv64, index: bv64, word: bv64): bv64 {
    (word ^ hash ^ seed ^ index.RotateLeft(17)).RotateRight(7)
  }

  lemma HashReadsBack(hash: bv64, seed: bv64, index: bv64, size: bv64)
    ensures HashOf(seed, index, size, Seeded(hash, seed, index, size)) == hash
  {}

  lemma SeedReadsBack(hash: bv64, seed: bv64, index: bv64, size: bv64)
    ensures SeedOf(hash, index, size, Seeded(hash, seed, index, size)) == seed
  {}

  lemma SizeReadsBack(hash: bv64, seed: bv64, index: bv64, size: bv64)
    ensures SizeOf(hash, seed, index, Seeded(hash, seed, index, size)) == size
  {}

  /** So each part of a payload's seed word alone makes a difference. */
  lemma SeedTells(hash: bv64, seed: bv64, index: bv64, size: bv64, other: bv64)
    ensures other != hash ==> Seeded(other, seed, index, size) != Seeded(hash, seed, index, size)
    ensures other != seed ==> Seeded(hash, other, index, size) != Seeded(hash, seed, index, size)
    ensures other != index ==> Seeded(hash, seed, other, size) != Seeded(hash, seed, index, size)
    ensures other != size ==> Seeded(hash, seed, index, other) != Seeded(hash, seed, index, size)
  {
    hide Seeded, HashOf, SeedOf, SizeOf, IndexOf;
    HashReadsBack(hash, seed, index, size);
    HashReadsBack(other, seed, index, size);
    SeedReadsBack(hash, seed, index, size);
    SeedReadsBack(hash, other, index, size);
    IndexReadsBack(hash, seed, size, index);
    IndexReadsBack(hash, seed, size, other);
    SizeReadsBack(hash, seed, index, size);
    SizeReadsBack(hash, seed, index, other);
  }

  /** Two payloads that differ in one byte of the run id, in the seed, in the index or in the size
      modulo 2^64, and in nothing else, have different seed words. */
  lemma SpecsTell(spec: PayloadFileSpec, other: PayloadFileSpec, front: seq<bv8>, rest: seq<bv8>, a: bv8, b: bv8)
    ensures spec.runId == front + [a] + rest && other == spec.(runId := front + [b] + rest) && a != b ==>
              SeedWord(other) != SeedWord(spec)
    ensures other == spec.(seed := other.seed) && other.seed != spec.seed ==> SeedWord(other) != SeedWord(spec)
    ensures other == spec.(index := other.index) && other.index != spec.index ==> SeedWord(other) != SeedWord(spec)
    ensures other == spec.(sizeBytes := other.sizeBytes) && other.sizeBytes % U64_SPAN != spec.sizeBytes % U64_SPAN ==>
              SeedWord(other) != SeedWord(spec)
  {
    hide Seeded, RunHash, SizeWord;
    var hash, size := RunHash(spec.runId), SizeWord(spec.sizeBytes);
    if a != b { OneByteChangesHash(front, a, b, rest); }
    SizeWordTells(spec.sizeBytes, other.sizeBytes);
    SeedTells(hash, spec.seed, spec.index, size, RunHash(other.runId));
    SeedTells(hash, spec.seed, spec.index, size, other.seed);
    SeedTells(hash, spec.seed, spec.index, size, other.index);
    SeedTells(hash, spec.seed, spec.index, size, SizeWord(other.sizeBytes));
  }

  /** Where index and size go in it. */
  lemma SeedAnswers()
    ensures Seeded(0, 0, 1, 0) == 0x2_0000 && Seeded(0, 0, 0, 1) == 0x80
  {}

  // ------------------------------------------------------------ the header

  /** The first `count` words after the timestamp: the mixer applied again and again. */
  function HeaderWords(state: bv64, count: nat): (bytes: seq<bv8>)
    ensures |bytes| == 8 * count
    decreases count
  {
    if count == 0 then [] else LeBytes(Mix(state)) + HeaderWords(Mix(state), count - 1)
  }

  function Zeros(count: nat): (bytes: seq<bv8>)
    ensures |bytes| == count
  {
    seq(count, _ => 0)
  }

  function HeaderBytes(spec: PayloadFileSpec): (header: seq<bv8>)
    ensures |header| == PAYLOAD_HEADER_LEN
  {
    Zeros(PAYLOAD_TIMESTAMP_LEN) + HeaderWords(SeedWord(spec), 3)
  }

  /** Eight zero bytes, then the mixer applied once, twice and three times to the seed word. */
  lemma HeaderIs(spec: PayloadFileSpec)
    ensures var header, word := HeaderBytes(spec), SeedWord(spec);
            && header[..8] == [0, 0, 0, 0, 0, 0, 0, 0]
            && header[8..16] == LeBytes(Mix(word))
            && header[16..24] == LeBytes(Mix(Mix(word)))
            && header[24..] == LeBytes(Mix(Mix(Mix(word))))
  {
    hide Mix, LeBytes, SeedWord;
    var a := Mix(SeedWord(spec));
    assert HeaderWords(Mix(Mix(a)), 0) == [];
    assert HeaderWords(Mix(a), 1) == LeBytes(Mix(Mix(a)));
    assert HeaderWords(a, 2) == LeBytes(Mix(a)) + LeBytes(Mix(Mix(a)));
    assert HeaderBytes(spec) == Zeros(8) + LeBytes(a) + LeBytes(Mix(a)) + LeBytes(Mix(Mix(a)));
  }

  method CopyFromSlice(target: array<bv8>, start: nat, bytes: seq<bv8>)
    requires start + |bytes| <= target.Length
    modifies target
    ensures target[..] == old(target[..start]) + bytes + old(target[start + |bytes|..])
  {
    for k := 0 to |bytes|
      invariant target[..start] == old(target[..start])
      invariant target[start..start + k] == bytes[..k]
      invariant target[start + k..] == old(target[start + k..])
    {
      target[start + k] := bytes[k];
    }
  }

  lemma NextHeaderWord(done: seq<bv8>, state: bv64, count: nat)
    requires count > 0
    ensures done + HeaderWords(state, count) == (done + LeBytes(Mix(state))) + HeaderWords(Mix(state), count - 1)
  {
    hide Mix, LeBytes;
  }

  method UniqueHeaderWithoutTimestamp(spec: PayloadFileSpec) returns (header: array<bv8>)
    ensures fresh(header) && header[..] == HeaderBytes(spec)
  {
    hide Mix, LeBytes, Seeded, SizeWord, RunHash, HeaderWords;
    header := new bv8[PAYLOAD_HEADER_LEN](_ => 0);
    var hash := HashRunId(spec.runId);
    var state := Seeded(hash, spec.seed, spec.index, SizeWord(spec.sizeBytes));
    ghost var done := Zeros(8);
    for chunk := 0 to 3
      invariant |done| == PAYLOAD_TIMESTAMP_LEN + 8 * chunk && header[..] == done + Zeros(24 - 8 * chunk)
      invariant done + HeaderWords(state, 3 - chunk) == HeaderBytes(spec)
    {
      NextHeaderWord(done, state, 3 - chunk);
      state := Splitmix64(state);
      var bytes := LeBytes(state);
      CopyFromSlice(header, PAYLOAD_TIMESTAMP_LEN + 8 * chunk, bytes);
      assert header[..] == done + bytes + Zeros(16 - 8 * chunk);
      done := done + bytes;
    }
  }

  // ------------------------------------------------------------ the file

  function SizePrefixLen(sizeBytes: nat, maxLen: nat): (len: nat)
    ensures len <= sizeBytes && len <= maxLen && (len == sizeBytes || len == maxLen)
  {
    if sizeBytes <= maxLen then sizeBytes else maxLen
  }

  /** What ends up in the file: timestamp, the rest of the header, zeros; each cut at the size. */
  function Payload(spec: PayloadFileSpec, timestamp: bv64): (bytes: seq<bv8>)
    ensures |bytes| == spec.sizeBytes
  {
    var t := SizePrefixLen(spec.sizeBytes, PAYLOAD_TIMESTAMP_LEN);
    var h := SizePrefixLen(spec.sizeBytes, PAYLOAD_HEADER_LEN);
    LeBytes(timestamp)[..t] + HeaderBytes(spec)[t..h] + Zeros(spec.sizeBytes - h)
  }

  lemma OverwrittenPrefix(stamp: seq<bv8>, header: seq<bv8>, size: nat)
    requires |stamp| == PAYLOAD_TIMESTAMP_LEN && |header| == PAYLOAD_HEADER_LEN
    ensures var t := SizePrefixLen(size, PAYLOAD_TIMESTAMP_LEN);
            var h := SizePrefixLen(size, PAYLOAD_HEADER_LEN);
            stamp[..t] + (header[..h] + Zeros(size)[h..])[t..] == stamp[..t] + header[t..h] + Zeros(size - h)
  {
    var t := SizePrefixLen(size, PAYLOAD_TIMESTAMP_LEN);
    var h := SizePrefixLen(size, PAYLOAD_HEADER_LEN);
    var rest := Zeros(size - h);
    assert Zeros(size)[h..] == rest;
    assert (header[..h] + rest)[t..] == header[t..h] + rest;
  }

  /** Byte by byte: the timestamp, the header from its ninth byte, and zeros after it. */
  lemma PayloadBytes(spec: PayloadFileSpec, timestamp: bv64, k: nat)
    requires k < spec.sizeBytes
    ensures Payload(spec, timestamp)[k] ==
              if k < 8 then LeBytes(timestamp)[k] else if k < 32 then HeaderBytes(spec)[k] else 0
  {
    hide LeBytes, HeaderBytes;
  }

  /** `timestamp` is the clock reading taken just before the last write. */
  method CreateTimestampedPayloadFile(spec: PayloadFileSpec, timestamp: bv64)
    returns (content: Result<seq<bv8>, string>)
    ensures content == if spec.sizeBytes == 0 then Err("payload file size must be greater than zero")
                       else Ok(Payload(spec, timestamp))
  {
    hide LeBytes, HeaderBytes, Payload, SizePrefixLen, Zeros;
    if spec.sizeBytes == 0 {
      return Err("payload file size must be greater than zero");
    }
    var file := ZeroFile(spec.sizeBytes);
    var header := UniqueHeaderWithoutTimestamp(spec);
    var h := SizePrefixLen(spec.sizeBytes, header.Length);
    WritePrefix(file, header[..h]);
    var t := SizePrefixLen(spec.sizeBytes, PAYLOAD_TIMESTAMP_LEN);
    WritePrefix(file, LeBytes(timestamp)[..t]);
    PayloadIsOverwritten(spec, timestamp);
    content := Ok(file[..]);
  }

  /** A write at the start of the file. */
  method WritePrefix(file: array<bv8>, bytes: seq<bv8>)
    requires |bytes| <= file.Length
    modifies file
    ensures file[..] == bytes + old(file[..])[|bytes|..]
  {
    CopyFromSlice(file, 0, bytes);
    assert old(file[..0]) + bytes == bytes;
    assert old(file[|bytes|..]) == old(file[..])[|bytes|..];
  }

  method ZeroFile(size: nat) returns (file: array<bv8>)
    ensures fresh(file) && file[..] == Zeros(size)
  {
    file := new bv8[size](_ => 0);
    assert file[..] == Zeros(size);
  }

  lemma PayloadIsOverwritten(spec: PayloadFileSpec, timestamp: bv64)
    ensures var t := SizePrefixLen(spec.sizeBytes, PAYLOAD_TIMESTAMP_LEN);
            var h := SizePrefixLen(spec.sizeBytes, PAYLOAD_HEADER_LEN);
            var headed := HeaderBytes(spec)[..h] + Zeros(spec.sizeBytes)[h..];
            LeBytes(timestamp)[..t] + headed[t..] == Payload(spec, timestamp)
  {
    hide LeBytes, HeaderBytes, SizePrefixLen, Zeros;
    OverwrittenPrefix(LeBytes(timestamp), HeaderBytes(spec), spec.sizeBytes);
  }

  // ------------------------------------------------------------ uniqueness within a batch

  lemma SliceOfSlice(bytes: seq<bv8>, low: nat, high: nat, n: nat)
    requires low + n <= high <= |bytes|
    ensures bytes[low..high][..n] == bytes[low..low + n]
  {}

  lemma MiddleSlice(a: seq<bv8>, b: seq<bv8>, c: seq<bv8>, n: nat)
    requires n <= |b|
    ensures (a + b + c)[|a|..|a| + n] == b[..n]
  {}

  /** The first mixed word sits in bytes 8..16, cut at the size. */
  lemma PayloadWord(spec: PayloadFileSpec, timestamp: bv64)
    requires spec.sizeBytes >= 8
    ensures var end := SizePrefixLen(spec.sizeBytes, 16);
            Payload(spec, timestamp)[8..end] == LeBytes(Mix(SeedWord(spec)))[..end - 8]
  {
    hide Mix, SeedWord, LeBytes, HeaderBytes;
    var end := SizePrefixLen(spec.sizeBytes, 16);
    var h := SizePrefixLen(spec.sizeBytes, PAYLOAD_HEADER_LEN);
    var header := HeaderBytes(spec);
    assert header[8..16] == LeBytes(Mix(SeedWord(spec))) by { HeaderFirstWord(spec); }
    MiddleSlice(LeBytes(timestamp)[..8], header[8..h], Zeros(spec.sizeBytes - h), end - 8);
    SliceOfSlice(header, 8, h, end - 8);
    SliceOfSlice(header, 8, 16, end - 8);
  }

  lemma HeaderFirstWord(spec: PayloadFileSpec)
    ensures HeaderBytes(spec)[8..16] == LeBytes(Mix(SeedWord(spec)))
  {
    hide Mix, SeedWord, LeBytes;
  }

  /** Two payloads of one batch differ in bytes 8..16, whatever their timestamps. */
  lemma DistinctIndicesDistinctPayloads(a: PayloadFileSpec, b: PayloadFileSpec, ta: bv64, tb: bv64)
    requires b == a.(index := b.index) && a.index != b.index
    requires a.sizeBytes >= 16
    ensures Payload(a, ta)[8..16] != Payload(b, tb)[8..16]
  {
    hide Mix, Unmix, LeBytes, Seeded, IndexOf, RunHash, SizeWord, Payload;
    PayloadWord(a, ta);
    PayloadWord(b, tb);
    if Payload(a, ta)[8..16] == Payload(b, tb)[8..16] {
      LeBytesAreInjective(Mix(SeedWord(a)), Mix(SeedWord(b)));
      MixIsBijective(SeedWord(a));
      MixIsBijective(SeedWord(b));
      SeededIsBijectiveInIndex(RunHash(a.runId), a.seed, SizeWord(a.sizeBytes), a.index);
      SeededIsBijectiveInIndex(RunHash(a.runId), a.seed, SizeWord(a.sizeBytes), b.index);
    }
  }

  // ------------------------------------------------------------ whole batches

  /** What a payload holds besides its timestamp. */
  function Unstamped(spec: PayloadFileSpec): (bytes: seq<bv8>)
    ensures |bytes| == spec.sizeBytes - SizePrefixLen(spec.sizeBytes, PAYLOAD_TIMESTAMP_LEN)
  {
    var t := SizePrefixLen(spec.sizeBytes, PAYLOAD_TIMESTAMP_LEN);
    var h := SizePrefixLen(spec.sizeBytes, PAYLOAD_HEADER_LEN);
    HeaderBytes(spec)[t..h] + Zeros(spec.sizeBytes - h)
  }

  lemma PayloadIsStampAndRest(spec: PayloadFileSpec, timestamp: bv64)
    ensures var t := SizePrefixLen(spec.sizeBytes, PAYLOAD_TIMESTAMP_LEN);
            Payload(spec, timestamp) == LeBytes(timestamp)[..t] + Unstamped(spec)
  {
    hide LeBytes, HeaderBytes, Zeros;
  }

  /** The payload of index i of a batch, without its timestamp. */
  function BatchPayload(runId: seq<bv8>, seed: bv64, sizeBytes: nat, i: nat): (bytes: seq<bv8>)
    requires i < U64_SPAN
    ensures sizeBytes >= 8 ==> |bytes| == sizeBytes - 8
  {
    Unstamped(PayloadFileSpec(runId, seed, WordOf(i), sizeBytes))
  }

  /** The payloads of a batch, which has the indices below `count`, differ outside their timestamps. */
  ghost predicate UniqueInBatch(runId: seq<bv8>, seed: bv64, sizeBytes: nat, count: nat)
    requires count <= U64_SPAN
  {
    forall i, j :: 0 <= i < j < count ==>
      BatchPayload(runId, seed, sizeBytes, i) != BatchPayload(runId, seed, sizeBytes, j)
  }

  lemma BatchPairDiffers(runId: seq<bv8>, seed: bv64, sizeBytes: nat, i: nat, j: nat)
    requires sizeBytes >= 16 && i < j < U64_SPAN
    ensures BatchPayload(runId, seed, sizeBytes, i) != BatchPayload(runId, seed, sizeBytes, j)
  {
    hide LeBytes, Payload, Unstamped, WordOf;
    WordOfIsInjective(i, j);
    var a := PayloadFileSpec(runId, seed, WordOf(i), sizeBytes);
    var b := PayloadFileSpec(runId, seed, WordOf(j), sizeBytes);
    DistinctIndicesDistinctPayloads(a, b, 0, 0);
    PayloadIsStampAndRest(a, 0);
    PayloadIsStampAndRest(b, 0);
    var stamp := LeBytes(0)[..8];
    assert (stamp + Unstamped(a))[8..16] == Unstamped(a)[..8];
    assert (stamp + Unstamped(b))[8..16] == Unstamped(b)[..8];
  }

  // Byte strings of a given length are no more than the numbers they spell.

  function Code(bytes: seq<bv8>): nat {
    if bytes == [] then 0 else 256 * Code(bytes[..|bytes| - 1]) + ByteDigit(bytes[|bytes| - 1])
  }

  lemma {:induction false} CodeIsSmall(bytes: seq<bv8>)
    ensures Code(bytes) < Power256(|bytes|)
  {
    hide ByteDigit;
    if bytes != [] {
      CodeIsSmall(bytes[..|bytes| - 1]);
      ByteReadsBack(bytes[|bytes| - 1]);
    }
  }

  lemma {:induction false} CodeIsInjective(a: seq<bv8>, b: seq<bv8>)
    requires |a| == |b| && Code(a) == Code(b)
    ensures a == b
    decreases |a|
  {
    hide ByteDigit, DigitByte;
    if a != [] {
      var n := |a| - 1;
      ByteReadsBack(a[n]);
      ByteReadsBack(b[n]);
      CodeIsInjective(a[..n], b[..n]);
      assert a == a[..n] + [a[n]] && b == b[..n] + [b[n]];
    }
  }

  lemma {:induction false} SubsetIsSmaller(a: set<nat>, b: set<nat>)
    requires a <= b
    ensures |a| <= |b|
    decreases |a|
  {
    if a != {} {
      var x :| x in a;
      SubsetIsSmaller(a - {x}, b - {x});
    }
  }

  function Codes(strings: seq<seq<bv8>>): (s: set<nat>)
    ensures forall x :: x in s <==> exists i :: 0 <= i < |strings| && Code(strings[i]) == x
  {
    if strings == [] then {}
    else
      var before := Codes(strings[..|strings| - 1]);
      assert forall i :: 0 <= i < |strings| - 1 ==> strings[..|strings| - 1][i] == strings[i];
      before + {Code(strings[|strings| - 1])}
  }

  lemma NoCodes()
    ensures Codes([]) == {}
  {}

  lemma CodesOfPrefix(strings: seq<seq<bv8>>)
    requires strings != []
    requires var last := |strings| - 1; forall i :: 0 <= i < last ==> Code(strings[i]) != Code(strings[last])
    ensures var last := |strings| - 1; |Codes(strings)| == |Codes(strings[..last])| + 1
  {
    hide Code;
    var last := |strings| - 1;
    assert forall i :: 0 <= i < last ==> strings[..last][i] == strings[i];
    assert Code(strings[last]) !in Codes(strings[..last]);
  }

  lemma {:induction false} DistinctStringsDistinctCodes(strings: seq<seq<bv8>>, n: nat)
    requires forall i :: 0 <= i < |strings| ==> |strings[i]| == n
    requires forall i, j :: 0 <= i < j < |strings| ==> strings[i] != strings[j]
    ensures |Codes(strings)| == |strings|
  {
    hide Code, Codes;
    if strings == [] {
      NoCodes();
    } else {
      var last := |strings| - 1;
      DistinctStringsDistinctCodes(strings[..last], n);
      forall i | 0 <= i < last ensures Code(strings[i]) != Code(strings[last]) {
        if Code(strings[i]) == Code(strings[last]) { CodeIsInjective(strings[i], strings[last]); }
      }
      CodesOfPrefix(strings);
    }
  }

  /** More strings of n bytes than there are contain one twice. */
  lemma StringsMustRepeat(strings: seq<seq<bv8>>, n: nat)
    requires forall i :: 0 <= i < |strings| ==> |strings[i]| == n
    requires |strings| > Power256(n)
    ensures exists i, j :: 0 <= i < j < |strings| && strings[i] == strings[j]
  {
    forall x | x in Codes(strings) ensures x < Power256(n) {
      var i :| 0 <= i < |strings| && Code(strings[i]) == x;
      CodeIsSmall(strings[i]);
    }
    SubsetIsSmaller(Codes(strings), Below(Power256(n)));
    if forall i, j :: 0 <= i < j < |strings| ==> strings[i] != strings[j] {
      DistinctStringsDistinctCodes(strings, n);
    }
  }

  /** Uniqueness of a batch, by size. From 16 bytes on it holds for every count; up to 8 bytes only a
      single payload is unique, as indices 0 and 1 already agree; in between, payloads repeat as soon as
      there are more of them than strings of the bytes left. */
  lemma UniqueInBatchBySize(runId: seq<bv8>, seed: bv64, sizeBytes: nat, count: nat)
    requires count <= U64_SPAN
    ensures sizeBytes >= 16 ==> UniqueInBatch(runId, seed, sizeBytes, count)
    ensures sizeBytes <= 8 ==> (UniqueInBatch(runId, seed, sizeBytes, count) <==> count <= 1)
    ensures 8 <= sizeBytes < 16 && UniqueInBatch(runId, seed, sizeBytes, count) ==> count <= Power256(sizeBytes - 8)
  {
    hide BatchPayload, Power256;
    if sizeBytes >= 16 {
      forall i, j | 0 <= i < j < count
        ensures BatchPayload(runId, seed, sizeBytes, i) != BatchPayload(runId, seed, sizeBytes, j)
      {
        BatchPairDiffers(runId, seed, sizeBytes, i, j);
      }
    }
    if sizeBytes <= 8 && count > 1 { TinyPayloadsAgree(runId, seed, sizeBytes); }
    if 8 <= sizeBytes < 16 && count > Power256(sizeBytes - 8) { ShortPayloadsRepeat(runId, seed, sizeBytes, count); }
  }

  lemma TinyPayloadsAgree(runId: seq<bv8>, seed: bv64, sizeBytes: nat)
    requires sizeBytes <= 8
    ensures BatchPayload(runId, seed, sizeBytes, 0) == BatchPayload(runId, seed, sizeBytes, 1) == []
  {}

  lemma ShortPayloadsRepeat(runId: seq<bv8>, seed: bv64, sizeBytes: nat, count: nat)
    requires 8 <= sizeBytes < 16 && Power256(sizeBytes - 8) < count <= U64_SPAN
    ensures !UniqueInBatch(runId, seed, sizeBytes, count)
  {
    hide BatchPayload, Power256;
    var payloads := seq(count, i requires 0 <= i < count => BatchPayload(runId, seed, sizeBytes, i));
    StringsMustRepeat(payloads, sizeBytes - 8);
    var i, j :| 0 <= i < j < |payloads| && payloads[i] == payloads[j];
    assert BatchPayload(runId, seed, sizeBytes, i) == BatchPayload(runId, seed, sizeBytes, j);
  }

  /** Sixteen bytes is exactly the size from which no batch, however large, contains two payloads that
      agree outside the timestamp. */
  lemma UniqueInBatchIffSixteenBytes(runId: seq<bv8>, seed: bv64, sizeBytes: nat)
    ensures (forall count: nat :: count <= U64_SPAN ==> UniqueInBatch(runId, seed, sizeBytes, count))
       <==> sizeBytes >= 16
  {
    hide UniqueInBatch, Power256;
    forall count: nat | count <= U64_SPAN && sizeBytes >= 16 ensures UniqueInBatch(runId, seed, sizeBytes, count) {
      UniqueInBatchBySize(runId, seed, sizeBytes, count);
    }
    if sizeBytes < 16 {
      UniqueInBatchBySize(runId, seed, sizeBytes, U64_SPAN);
      SpanIsEightBytes();
    }
  }
}
