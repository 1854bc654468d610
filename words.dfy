/**
 * Machine integer types of the emulator and their release-build arithmetic.
 *
 * The source uses Rust's `u8`, `u16`, `u32` and `usize` (64-bit target) with the
 * plain operators `+`, `-` and `*`. In a release build these wrap around; this
 * model fixes that choice throughout, so every sum, difference and product of
 * words is taken modulo 2^32 and every `usize` sum or difference modulo 2^64.
 */
module Words {

  const WORD_MOD: int := 0x1_0000_0000
  const USIZE_MOD: int := 0x1_0000_0000_0000_0000

  /** `u8` */
  type Byte = x: int | 0 <= x < 0x100
  /** `u16`, the instruction's address field */
  type Half = x: int | 0 <= x < 0x1_0000
  /** `u32`, the machine word */
  type Word = x: int | 0 <= x < 0x1_0000_0000
  /** `usize` on a 64-bit host */
  type USize = x: int | 0 <= x < 0x1_0000_0000_0000_0000

  /** `a + b` on `u32`, wrapping. */
  function WrapAdd(a: Word, b: Word): (r: Word)
    ensures a + b < WORD_MOD ==> r == a + b
    ensures a + b >= WORD_MOD ==> r == a + b - WORD_MOD
  {
    (a + b) % WORD_MOD
  }

  /** `a - b` on `u32`, wrapping. */
  function WrapSub(a: Word, b: Word): (r: Word)
    ensures b <= a ==> r == a - b
    ensures a < b ==> r == WORD_MOD + a - b
  {
    (a - b) % WORD_MOD
  }

  /** `a * b` on `u32`, wrapping: the low 32 bits of the product. */
  function WrapMul(a: Word, b: Word): (r: Word)
    ensures a * b < WORD_MOD ==> r == a * b
    ensures exists k: nat {:trigger k * WORD_MOD} :: a * b == k * WORD_MOD + r
  {
    var p := a * b;
    assert p == (p / WORD_MOD) * WORD_MOD + p % WORD_MOD;
    p % WORD_MOD
  }

  /** `x as u32` for a `usize`: keeps the low 32 bits. */
  function TruncateToWord(x: USize): (r: Word)
    ensures x < WORD_MOD ==> r == x
    ensures x >= WORD_MOD ==> r < x
    ensures exists k: nat {:trigger k * WORD_MOD} :: x == k * WORD_MOD + r
  {
    assert x == (x / WORD_MOD) * WORD_MOD + x % WORD_MOD;
    x % WORD_MOD
  }

  /**
   * `end - start + 1` on `usize`, wrapping (the block length the parser takes):
   * the length itself when it is below 2^64, 0 for the 2^64 positions of
   * `0..=usize::MAX`, and 2^64 less than the (negative) difference when
   * `end + 1 < start`.
   */
  function USizeSpan(start: USize, end: USize): (r: USize)
    ensures start <= end + 1 && end - start + 1 < USIZE_MOD ==> r == end - start + 1
    ensures end - start + 1 == USIZE_MOD ==> r == 0
    ensures end + 1 < start ==> r == USIZE_MOD + end - start + 1
  {
    (end - start + 1) % USIZE_MOD
  }

  /** `x + 1` on `usize`, wrapping. */
  function USizeSucc(x: USize): (r: USize)
    ensures x + 1 < USIZE_MOD ==> r == x + 1
    ensures x + 1 == USIZE_MOD ==> r == 0
  {
    (x + 1) % USIZE_MOD
  }

  lemma MulAtLeast(k: int, d: int)
    requires k >= 1 && d > 0
    ensures k * d >= d
  {
  }

  /** Quotient and remainder are determined by any decomposition `q * d + r` with `0 <= r < d`. */
  lemma DivUnique(n: int, d: int, q: int, r: int)
    requires d > 0 && n == q * d + r && 0 <= r < d
    ensures n / d == q && n % d == r
  {
    var q', r' := n / d, n % d;
    assert n == q' * d + r';
    assert (q - q') * d == r' - r;
    if q > q' {
      MulAtLeast(q - q', d);
    } else if q < q' {
      MulAtLeast(q' - q, d);
    }
  }
}
