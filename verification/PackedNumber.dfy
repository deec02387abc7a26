/** Packed inode numbers (chunkfs_i.h): four bits of chunk id above 28 bits of client inode
    number, held in an unsigned 64-bit word. */
module PackedNumber {

  const TWO28: nat := 0x1000_0000
  const TWO64: nat := 0x1_0000_0000_0000_0000

  type u64 = x: int | 0 <= x < 0x1_0000_0000_0000_0000

  /** Unsigned 64-bit addition: the C sum, reduced modulo 2^64. */
  function Add64(a: u64, b: u64): u64 {
    (a + b) % TWO64
  }

  /** Unsigned 64-bit subtraction. */
  function Sub64(a: u64, b: u64): u64 {
    (a - b) % TWO64
  }

  // ---- The macros, bit by bit -----------------------------------------------------------

  function Pow2(k: nat): (r: nat)
    ensures r >= 1
  {
    if k == 0 then 1 else 2 * Pow2(k - 1)
  }

  function And(a: nat, b: nat): nat {
    if a == 0 || b == 0 then 0
    else (if a % 2 == 1 && b % 2 == 1 then 1 else 0) + 2 * And(a / 2, b / 2)
  }

  function Or(a: nat, b: nat): nat
    decreases a + b
  {
    if a == 0 then b
    else if b == 0 then a
    else (if a % 2 == 1 || b % 2 == 1 then 1 else 0) + 2 * Or(a / 2, b / 2)
  }

  const CHUNK_MASK: nat := 0xF000_0000
  const INO_MASK: nat := 0x0FFF_FFFF

  /** UINO_TO_CHUNK_ID */
  function MacroChunkId(u: u64): nat {
    And(u, CHUNK_MASK) / TWO28
  }

  /** UINO_TO_INO */
  function MacroIno(u: u64): nat {
    And(u, INO_MASK)
  }

  /** MAKE_UINO: the shift loses whatever leaves the 64-bit word. */
  function MacroMake(chunk: u64, ino: u64): u64 {
    PowersUsed();
    OrBound(chunk * TWO28 % TWO64, ino, 64);
    Or(chunk * TWO28 % TWO64, ino)
  }

  // ---- Their arithmetic reading, used by the rest of the model -----------------------------

  function ChunkIdOf(u: u64): nat {
    u / TWO28 % 16
  }

  function InoOf(u: u64): nat {
    u % TWO28
  }

  function Pack(chunk: nat, ino: nat): u64
    requires chunk < 16 && ino < TWO28
  {
    chunk * TWO28 + ino
  }

  // ---- Bit lemmas ------------------------------------------------------------------------

  function Shl(a: nat, k: nat): nat {
    if k == 0 then a else 2 * Shl(a, k - 1)
  }

  function Shr(a: nat, k: nat): nat {
    if k == 0 then a else Shr(a / 2, k - 1)
  }

  /** The low `k` bits of `a`. */
  function Low(a: nat, k: nat): nat {
    if k == 0 then 0 else a % 2 + 2 * Low(a / 2, k - 1)
  }

  lemma {:induction false} AndLowMask(u: nat, k: nat)
    ensures And(u, Pow2(k) - 1) == Low(u, k)
  {
    if k != 0 {
      AndLowMask(u / 2, k - 1);
      var h := Pow2(k - 1);
      assert (2 * h - 1) / 2 == h - 1 && (2 * h - 1) % 2 == 1;
      if u == 0 {
        assert Low(u / 2, k - 1) == And(0, h - 1) == 0;
      } else if h == 1 {
        assert And(u / 2, 0) == 0;
      }
    }
  }

  lemma {:induction false} AndShifted(u: nat, a: nat, k: nat)
    ensures And(u, Shl(a, k)) == Shl(And(Shr(u, k), a), k)
  {
    if k != 0 {
      AndShifted(u / 2, a, k - 1);
      AndEven(u, Shl(a, k - 1));
    }
  }

  lemma AndEven(u: nat, b: nat)
    ensures And(u, 2 * b) == 2 * And(u / 2, b)
  {
    assert (2 * b) % 2 == 0 && 2 * b / 2 == b;
  }

  lemma {:induction false} OrShifted(a: nat, b: nat, k: nat)
    ensures Or(Shl(a, k), b) == Shl(Or(a, Shr(b, k)), k) + Low(b, k)
  {
    if k != 0 {
      OrShifted(a, b / 2, k - 1);
      OrEven(Shl(a, k - 1), b);
    }
  }

  lemma OrEven(a: nat, b: nat)
    ensures Or(2 * a, b) == b % 2 + 2 * Or(a, b / 2)
  {
    assert (2 * a) % 2 == 0 && 2 * a / 2 == a;
    assert a == 0 ==> Or(a, b / 2) == b / 2;
    assert b == 1 ==> Or(a, 0) == a;
  }

  lemma {:induction false} OrBound(a: nat, b: nat, k: nat)
    requires a < Pow2(k) && b < Pow2(k)
    ensures Or(a, b) < Pow2(k)
  {
    if k != 0 && a != 0 && b != 0 {
      OrBound(a / 2, b / 2, k - 1);
    }
  }

  lemma {:induction false} ShlIsTimes(a: nat, k: nat)
    ensures Shl(a, k) == a * Pow2(k)
  {
    if k != 0 {
      ShlIsTimes(a, k - 1);
      Regroup(a, Pow2(k - 1));
    }
  }

  lemma Regroup(a: int, h: int)
    ensures a * (2 * h) == 2 * (a * h)
  {
  }

  /** Shifted-out and kept bits together are the word. */
  lemma {:induction false} SplitBits(a: nat, k: nat)
    ensures a == Shr(a, k) * Pow2(k) + Low(a, k) && Low(a, k) < Pow2(k)
  {
    if k != 0 {
      SplitBits(a / 2, k - 1);
      Regroup(Shr(a / 2, k - 1), Pow2(k - 1));
    }
  }

  lemma PowersUsed()
    ensures Pow2(4) == 16 && Pow2(28) == TWO28 && Pow2(64) == TWO64
  {
    assert Pow2(8) == 0x100;
    assert Pow2(16) == 0x1_0000;
    assert Pow2(24) == 0x100_0000;
    assert Pow2(32) == 0x1_0000_0000;
    assert Pow2(40) == 0x100_0000_0000;
    assert Pow2(48) == 0x1_0000_0000_0000;
    assert Pow2(56) == 0x100_0000_0000_0000;
  }

  lemma FieldBits(u: nat, j: nat, k: nat)
    ensures And(u, Pow2(k) - 1) == u - Shr(u, k) * Pow2(k)
    ensures And(u, (Pow2(j) - 1) * Pow2(k)) == (Shr(u, k) - Shr(Shr(u, k), j) * Pow2(j)) * Pow2(k)
    ensures u - Shr(u, k) * Pow2(k) < Pow2(k)
  {
    var field := Pow2(j) - 1;
    AndLowMask(u, k);
    SplitBits(u, k);
    AndShifted(u, field, k);
    ShlIsTimes(field, k);
    AndLowMask(Shr(u, k), j);
    SplitBits(Shr(u, k), j);
    ShlIsTimes(Low(Shr(u, k), j), k);
  }

  lemma QuotientUnique(u: nat, q: nat, r: nat)
    requires u == q * TWO28 + r && r < TWO28
    ensures u / TWO28 == q && u % TWO28 == r
  {
  }

  /** The masking macros are exactly a quotient and a remainder, for every 64-bit word. */
  lemma MacrosDecode(u: u64)
    ensures MacroChunkId(u) == ChunkIdOf(u)
    ensures MacroIno(u) == InoOf(u)
  {
    MacrosDecodeWith(u, 4, 28);
  }

  lemma MacrosDecodeWith(u: u64, j: nat, k: nat)
    requires j == 4 && k == 28
    ensures And(u, CHUNK_MASK) / TWO28 == ChunkIdOf(u)
    ensures And(u, INO_MASK) == InoOf(u)
  {
    PowersUsed();
    FieldBits(u, j, k);
    var top := Shr(u, k);
    FieldsOf(u, top, Shr(top, j), And(u, CHUNK_MASK), And(u, INO_MASK)) by {
      SplitBits(top, j);
    }
  }

  lemma FieldsOf(u: nat, top: nat, above: nat, field: nat, low: nat)
    requires low == u - top * TWO28 && low < TWO28
    requires field == (top - above * 16) * TWO28 && 0 <= top - above * 16 < 16
    ensures field / TWO28 == u / TWO28 % 16 && low == u % TWO28
  {
    QuotientUnique(u, top, low);
    QuotientUnique(field, top - above * 16, 0);
  }

  lemma MakeBits(c: nat, ino: nat, k: nat)
    ensures Or(c * Pow2(k), ino) == Or(c, Shr(ino, k)) * Pow2(k) + (ino - Shr(ino, k) * Pow2(k))
    ensures 0 <= ino - Shr(ino, k) * Pow2(k) < Pow2(k)
  {
    ShlIsTimes(c, k);
    OrShifted(c, ino, k);
    ShlIsTimes(Or(c, Shr(ino, k)), k);
    SplitBits(ino, k);
  }

  /** Packing then unpacking gives back both halves exactly when each fits its field. */
  lemma RoundTripIff(chunk: u64, ino: u64)
    ensures MacroChunkId(MacroMake(chunk, ino)) == chunk && MacroIno(MacroMake(chunk, ino)) == ino
            <==> chunk < 16 && ino < TWO28
    ensures chunk < 16 && ino < TWO28 ==> MacroMake(chunk, ino) == Pack(chunk, ino)
  {
    MacrosDecode(MacroMake(chunk, ino));
    MakeDecoded(chunk, ino, MacroMake(chunk, ino), 28);
  }

  /** The shift keeps the low 36 bits of the chunk id. */
  lemma ShiftedOut(chunk: nat)
    ensures chunk * TWO28 % TWO64 == chunk % 0x10_0000_0000 * TWO28
  {
    var q, c := chunk / 0x10_0000_0000, chunk % 0x10_0000_0000;
    WordQuotient(chunk * TWO28, q, c * TWO28);
  }

  lemma WordQuotient(x: nat, q: nat, r: nat)
    requires x == q * TWO64 + r && r < TWO64
    ensures x % TWO64 == r
  {
  }

  lemma MakeDecoded(chunk: u64, ino: u64, made: u64, k: nat)
    requires k == 28 && made == MacroMake(chunk, ino)
    ensures ChunkIdOf(made) == chunk && InoOf(made) == ino <==> chunk < 16 && ino < TWO28
    ensures chunk < 16 && ino < TWO28 ==> made == Pack(chunk, ino)
  {
    PowersUsed();
    var c := chunk % 0x10_0000_0000;
    ShiftedOut(chunk);
    MakeBits(c, ino, k);
    var over := Shr(ino, k);
    var top := Or(c, over);
    assert over == 0 ==> top == c;
    DecodedIff(chunk, ino, made, c, over, top);
  }

  lemma DecodedIff(chunk: u64, ino: u64, made: u64, c: nat, over: nat, top: nat)
    requires c == chunk % 0x10_0000_0000 && (over == 0 ==> top == c)
    requires 0 <= ino - over * TWO28 < TWO28 && made == top * TWO28 + (ino - over * TWO28)
    ensures ChunkIdOf(made) == chunk && InoOf(made) == ino <==> chunk < 16 && ino < TWO28
    ensures chunk < 16 && ino < TWO28 ==> made == Pack(chunk, ino)
  {
    QuotientUnique(made, top, ino - over * TWO28);
    if ino < TWO28 {
      assert over == 0;
    }
  }

  /** Distinct places have distinct packed numbers, none of them 0 (the end-of-list mark)
      when the chunk id is at least 1. */
  lemma PackInjective(c: nat, i: nat, c': nat, i': nat)
    requires c < 16 && i < TWO28 && c' < 16 && i' < TWO28
    ensures Pack(c, i) == Pack(c', i') <==> c == c' && i == i'
    ensures ChunkIdOf(Pack(c, i)) == c && InoOf(Pack(c, i)) == i
    ensures Pack(c, i) == 0 <==> c == 0 && i == 0
  {
  }
}
