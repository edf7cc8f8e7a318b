/** Machine words as the program uses them: fixed widths, saturating and trapping
    arithmetic, little-endian byte strings, and the error type every instruction returns. */
module Words {

  const U16_MAX: int := 0xFFFF
  const U32_MAX: int := 0xFFFF_FFFF
  const U64_MAX: int := 0xFFFF_FFFF_FFFF_FFFF
  const U128_MAX: int := 0xFFFF_FFFF_FFFF_FFFF_FFFF_FFFF_FFFF_FFFF
  const I64_MAX: int := 0x7FFF_FFFF_FFFF_FFFF
  const I64_MIN: int := -0x8000_0000_0000_0000

  type u8 = x: int | 0 <= x <= 255
  type u16 = x: int | 0 <= x <= U16_MAX
  type u32 = x: int | 0 <= x <= U32_MAX
  type u64 = x: int | 0 <= x <= U64_MAX
  type i64 = x: int | I64_MIN <= x <= I64_MAX

  type Bytes = seq<u8>

  /** A 32-byte account address. */
  type Pubkey = s: Bytes | |s| == 32 witness
    [0, 0, 0, 0, 0, 0, 0, 0, 0, 0, 0, 0, 0, 0, 0, 0, 0, 0, 0, 0, 0, 0, 0, 0, 0, 0, 0, 0, 0, 0, 0, 0]

  /** `Pubkey::default()`. */
  const ZERO_KEY: Pubkey :=
    [0, 0, 0, 0, 0, 0, 0, 0, 0, 0, 0, 0, 0, 0, 0, 0, 0, 0, 0, 0, 0, 0, 0, 0, 0, 0, 0, 0, 0, 0, 0, 0]

  /** The program's own error codes, then `TokenProgram` (SPL Token refused the call),
      `AccountMissing` (no such account) and `Trap` (an overflow or a division by zero aborted it). */
  datatype AgamaError =
    | ZeroAmount | DustDeposit | InsufficientShares | InsufficientLiquidity | MathOverflow
    | BadPool | Unauthorized | BookAheadOfVault | BadExitParams | TransferMismatch
    | PaymentMismatch | UnknownExit | ExitBookFull | BadSessionRotation
    | TokenProgram | AccountMissing | Trap

  datatype Result<+T> = Ok(value: T) | Err(error: AgamaError) {
    predicate IsFailure() { Err? }
    function PropagateFailure<U>(): Result<U>
      requires Err?
    {
      Err(error)
    }
    function Extract(): T
      requires Ok?
    {
      value
    }
  }

  datatype Option<+T> = None | Some(value: T)

  /** `require!(condition, error)`. */
  function Require(condition: bool, error: AgamaError): Result<()> {
    if condition then Ok(()) else Err(error)
  }

  function Min(a: int, b: int): int { if a <= b then a else b }

  function Max(a: int, b: int): int { if a >= b then a else b }

  /** Subtraction on naturals, stopping at zero. */
  function Monus(a: nat, b: nat): nat { if a <= b then 0 else a - b }

  /** `u64::saturating_add`. */
  function SatAdd(a: u64, b: u64): u64 { Min(a + b, U64_MAX) }

  /** `u64::saturating_sub`. */
  function SatSub(a: u64, b: u64): u64 { Monus(a, b) }

  /** `x as u64` on a wider unsigned value: the high bits are dropped. */
  function Truncate(x: nat): u64 { x % 0x1_0000_0000_0000_0000 }

  /** `u64::try_from(x)`. */
  function TryU64(x: nat): Result<u64> {
    if x <= U64_MAX then Ok(x) else Err(MathOverflow)
  }

  // ------------------------------------------------------------ little-endian

  function Pow256(n: nat): nat {
    if n == 0 then 1 else 256 * Pow256(n - 1)
  }

  /** The low `n` bytes of `x`, least significant first. */
  function LeBytes(x: nat, n: nat): (s: Bytes)
    ensures |s| == n
  {
    if n == 0 then [] else [x % 256] + LeBytes(x / 256, n - 1)
  }

  /** The number a little-endian byte string stands for. */
  function LeValue(s: Bytes): nat {
    if |s| == 0 then 0 else s[0] + 256 * LeValue(s[1..])
  }

  lemma Pow256Values()
    ensures Pow256(2) == U16_MAX + 1
    ensures Pow256(3) == 0x100_0000
    ensures Pow256(4) == U32_MAX + 1
    ensures Pow256(8) == U64_MAX + 1
  {
    assert Pow256(2) == 256 * Pow256(1);
    assert Pow256(3) == 256 * Pow256(2);
    assert Pow256(4) == 256 * Pow256(3);
    assert Pow256(6) == 256 * Pow256(5) == 65536 * Pow256(4);
    assert Pow256(8) == 256 * Pow256(7) == 65536 * Pow256(6);
  }

  /** Reading back what was written gives the number, when it fits. */
  lemma {:induction false} LeDecodesEncoded(x: nat, n: nat)
    requires x < Pow256(n)
    ensures LeValue(LeBytes(x, n)) == x
  {
    if n > 0 {
      LeDecodesEncoded(x / 256, n - 1);
      assert LeBytes(x, n)[1..] == LeBytes(x / 256, n - 1);
    }
  }

  /** Every byte string is the encoding of its own value, so the encoding is unique. */
  lemma {:induction false} LeEncodesDecoded(s: Bytes)
    ensures LeValue(s) < Pow256(|s|)
    ensures LeBytes(LeValue(s), |s|) == s
  {
    if |s| > 0 {
      LeEncodesDecoded(s[1..]);
      assert LeValue(s) / 256 == LeValue(s[1..]);
      assert s == [s[0]] + s[1..];
    }
  }
}
