/**
 * Control-table layout of the XL-series servos and the byte encodings the
 * controller uses on it: the 4-byte little-endian goal payload of a sync
 * write and the 10-byte present-load/speed/position span of a sync read.
 *
 * The word and byte helpers LoWord, HiWord, LoByte and HiByte belong to the
 * Dynamixel SDK, which is not part of this model; they are given here their
 * usual SDK meaning (v & 0xFFFF, (v >> 16) & 0xFFFF, w & 0xFF,
 * (w >> 8) & 0xFF on Python's unbounded two's-complement integers). That
 * meaning is an assumption of the model.
 */
module Registers {

  /** Register addresses and values used by the controller. */
  const AddrTorqueEnable: int := 64
  const AddrPresentLoad: int := 126
  const AddrPresentSpeed: int := 128
  const AddrPresentPosition: int := 132
  const TorqueEnable: Byte := 1
  const CommSuccess: int := 0

  /** Widths of the fields the controller reads and writes. */
  const LoadLength: nat := 2
  const SpeedLength: nat := 4
  const PositionLength: nat := 4
  const GoalLength: nat := 4

  /** The sync read asks every device for this many bytes from AddrPresentLoad. */
  const ReadLength: nat := 10

  type Byte = b: int | 0 <= b < 0x100

  /** The bytes one device returns for the controller's 10-byte sync read. */
  type Slice = s: seq<Byte> | |s| == 10 witness [0, 0, 0, 0, 0, 0, 0, 0, 0, 0]

  /** 256 to the power k: one more than the largest k-byte value. */
  function Pow256(k: nat): (p: nat)
    ensures p >= 1
  {
    if k == 0 then 1 else 0x100 * Pow256(k - 1)
  }

  // SDK word and byte helpers (assumed meaning, see the module comment).
  // Dafny's % and / by a positive constant are Python's & mask and >> shift.

  function LoWord(v: int): int { v % 0x1_0000 }

  function HiWord(v: int): int { (v / 0x1_0000) % 0x1_0000 }

  function LoByte(w: int): Byte { w % 0x100 }

  function HiByte(w: int): Byte { (w / 0x100) % 0x100 }

  /** The goal-position payload: low byte of the low word first, high byte of the high word last. */
  function GoalBytes(v: int): (bs: seq<Byte>)
    ensures |bs| == GoalLength
  {
    [LoByte(LoWord(v)), HiByte(LoWord(v)), LoByte(HiWord(v)), HiByte(HiWord(v))]
  }

  /** The value of a little-endian byte string (the SDK's MAKEWORD / MAKEDWORD). */
  function LittleEndian(bs: seq<Byte>): (n: nat)
    ensures n < Pow256(|bs|)
  {
    if bs == [] then 0 else bs[0] + 0x100 * LittleEndian(bs[1..])
  }

  /** One device's telemetry, as the controller stores it in its result map. */
  datatype Reading = Reading(load: nat, speed: nat, position: nat)

  /**
   * The reference layout of a 10-byte reply: load in bytes 0-1, speed in
   * bytes 2-5, position in bytes 6-9, each little-endian.
   */
  function ReadingOf(s: Slice): (r: Reading)
    ensures r.load < Pow256(LoadLength)
    ensures r.speed < Pow256(SpeedLength) && r.position < Pow256(PositionLength)
  {
    Reading(LittleEndian(s[0..2]), LittleEndian(s[2..6]), LittleEndian(s[6..10]))
  }

  // ---------------------------------------------------------------------
  // Arithmetic helpers

  /** Division by 256 is unique: a value splits into one low byte and the rest. */
  lemma ByteDivision(v: int, q: int, m: int)
    requires v == 0x100 * q + m && 0 <= m < 0x100
    ensures v / 0x100 == q && v % 0x100 == m
  {
  }

  /** Division by 2^16 is unique: a value splits into one low word and the rest. */
  lemma WordDivision(v: int, q: int, m: int)
    requires v == 0x1_0000 * q + m && 0 <= m < 0x1_0000
    ensures v / 0x1_0000 == q && v % 0x1_0000 == m
  {
  }

  /** Reducing modulo 2^32 keeps the low word and the low word of the rest. */
  lemma ModTwoWords(v: int)
    ensures v % 0x1_0000_0000 == LoWord(v) + 0x1_0000 * HiWord(v)
  {
  }

  /** Four bytes, spelled out. */
  lemma LittleEndian4(bs: seq<Byte>)
    requires |bs| == 4
    ensures LittleEndian(bs) == bs[0] as int + 0x100 * (bs[1] as int) + 0x1_0000 * (bs[2] as int) + 0x100_0000 * (bs[3] as int)
  {
    assert bs[1..][1..][1..][1..] == [];
    assert LittleEndian(bs[3..]) == bs[3];
    assert LittleEndian(bs[2..]) == bs[2] as int + 0x100 * (bs[3] as int);
    assert LittleEndian(bs[1..]) == bs[1] as int + 0x100 * (bs[2] as int) + 0x1_0000 * (bs[3] as int);
  }

  /** The two bytes of a 16-bit word give the word back. */
  lemma WordBytes(w: int)
    requires 0 <= w < 0x1_0000
    ensures LoByte(w) + 0x100 * HiByte(w) == w
  {
  }

  // ---------------------------------------------------------------------
  // Properties of the goal-position payload

  /** Decoding the payload yields the goal position modulo 2^32. */
  lemma GoalBytesRoundTrip(v: int)
    ensures LittleEndian(GoalBytes(v)) == v % 0x1_0000_0000
  {
    var bs := GoalBytes(v);
    LittleEndian4(bs);
    WordBytes(LoWord(v));
    WordBytes(HiWord(v));
    ModTwoWords(v);
  }

  /** Every 4-byte string is the payload of its own little-endian value. */
  lemma GoalBytesOfLittleEndian(bs: seq<Byte>)
    requires |bs| == GoalLength
    ensures GoalBytes(LittleEndian(bs)) == bs
  {
    var n := LittleEndian(bs);
    LittleEndian4(bs);
    var lo: int, hi: int := bs[0] as int + 0x100 * (bs[1] as int), bs[2] as int + 0x100 * (bs[3] as int);
    assert n == 0x1_0000 * hi + lo;
    WordDivision(n, hi, lo);
    WordDivision(hi, 0, hi);
    assert LoWord(n) == lo && HiWord(n) == hi;
    ByteDivision(lo, bs[1], bs[0]);
    ByteDivision(bs[1], 0, bs[1]);
    ByteDivision(hi, bs[3], bs[2]);
    ByteDivision(bs[3], 0, bs[3]);
  }

  /** Two goal positions share a payload exactly when they agree modulo 2^32. */
  lemma GoalBytesInjective(u: int, v: int)
    ensures GoalBytes(u) == GoalBytes(v) <==> u % 0x1_0000_0000 == v % 0x1_0000_0000
  {
    GoalBytesRoundTrip(u);
    GoalBytesRoundTrip(v);
    if u % 0x1_0000_0000 == v % 0x1_0000_0000 {
      GoalBytesOfLittleEndian(GoalBytes(u));
      GoalBytesOfLittleEndian(GoalBytes(v));
    }
  }

  /** The byte order, on the value 0x01020304 and on -1. */
  lemma GoalBytesExamples()
    ensures GoalBytes(0x0102_0304) == [0x04, 0x03, 0x02, 0x01]
    ensures GoalBytes(-1) == [0xFF, 0xFF, 0xFF, 0xFF]
  {
  }

  // ---------------------------------------------------------------------
  // Properties of the read span

  /** Load, speed and position are contiguous and exactly fill the 10-byte span at 126. */
  lemma ReadSpanTiled()
    ensures AddrPresentLoad + LoadLength == AddrPresentSpeed
    ensures AddrPresentSpeed + SpeedLength == AddrPresentPosition
    ensures AddrPresentPosition + PositionLength == AddrPresentLoad + ReadLength
  {
  }

  /**
   * A device that holds the payload of goal v in its position registers
   * reports position v modulo 2^32: the write encoding and the read
   * decoding agree.
   */
  lemma PositionEchoesGoal(s: Slice, v: int)
    requires s[AddrPresentPosition - AddrPresentLoad..AddrPresentPosition - AddrPresentLoad + PositionLength] == GoalBytes(v)
    ensures ReadingOf(s).position == v % 0x1_0000_0000
  {
    GoalBytesRoundTrip(v);
  }

  /** The reading decoded from a reply that carries load 100, speed 200 and position 3000. */
  lemma ReadingOfExample()
    ensures ReadingOf([100, 0, 200, 0, 0, 0, 0xB8, 0x0B, 0, 0]) == Reading(100, 200, 3000)
  {
  }
}
