/** Fixed-width machine words, kept as bounded integers, and single-bit masks over bytes. */
module Words {

  datatype Option<+T> = None | Some(value: T)

  type u8 = x: int | 0 <= x < 0x100
  type u16 = x: int | 0 <= x < 0x1_0000
  type u32 = x: int | 0 <= x < 0x1_0000_0000

  function Low8(x: int): u8 { x % 0x100 }

  function Low16(x: int): u16 { x % 0x1_0000 }

  function Low32(x: int): u32 { x % 0x1_0000_0000 }

  function Min(x: int, y: int): int { if x < y then x else y }

  /** The bytes that have exactly one bit set. */
  predicate IsMask(mask: int) {
    mask == 1 || mask == 2 || mask == 4 || mask == 8 || mask == 16 || mask == 32 || mask == 64 || mask == 128
  }

  /** `byte & mask`, as a truth value. */
  predicate Has(byte: u8, mask: int)
    requires IsMask(mask)
  {
    byte / mask % 2 == 1
  }

  /** Adding a mask turns a bit that is clear, taking it away one that is set, and neither leaves the byte. */
  predicate Moves(byte: u8, mask: int)
    requires IsMask(mask)
  {
    if Has(byte, mask) then byte >= mask && (byte - mask) / mask % 2 == 0
    else byte + mask < 0x100 && (byte + mask) / mask % 2 == 1
  }

  lemma MovesOne(byte: u8)
    ensures Moves(byte, 1)
  {
  }

  lemma MovesTwo(byte: u8)
    ensures Moves(byte, 2)
  {
  }

  lemma MovesFour(byte: u8)
    ensures Moves(byte, 4)
  {
  }

  lemma MovesEight(byte: u8)
    ensures Moves(byte, 8)
  {
  }

  lemma MovesSixteen(byte: u8)
    ensures Moves(byte, 16)
  {
  }

  lemma MovesThirtyTwo(byte: u8)
    ensures Moves(byte, 32)
  {
  }

  lemma MovesSixtyFour(byte: u8)
    ensures Moves(byte, 64)
  {
  }

  lemma MovesTop(byte: u8)
    ensures Moves(byte, 128)
  {
  }

  lemma MaskMoves(byte: u8, mask: int)
    requires IsMask(mask)
    ensures Moves(byte, mask)
  {
    if
    case mask == 1 => MovesOne(byte);
    case mask == 2 => MovesTwo(byte);
    case mask == 4 => MovesFour(byte);
    case mask == 8 => MovesEight(byte);
    case mask == 16 => MovesSixteen(byte);
    case mask == 32 => MovesThirtyTwo(byte);
    case mask == 64 => MovesSixtyFour(byte);
    case mask == 128 => MovesTop(byte);
  }

  /** `byte | mask`. */
  function Raise(byte: u8, mask: int): (r: u8)
    requires IsMask(mask)
    ensures Has(r, mask)
  {
    MaskMoves(byte, mask);
    if Has(byte, mask) then byte else byte + mask
  }

  /** `byte & ~mask`. */
  function Lower(byte: u8, mask: int): (r: u8)
    requires IsMask(mask)
    ensures !Has(r, mask)
  {
    MaskMoves(byte, mask);
    if Has(byte, mask) then byte - mask else byte
  }
}
