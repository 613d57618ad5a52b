/**
 * Firmware status codes, one machine word wide (a 64-bit `usize`).
 *
 * Following Appendix D of the UEFI Specification: exactly one value means
 * success, error codes have the top bit of the word set, and every other
 * non-zero value is a warning (a success that carries extra information).
 * Only the codes the console wrapper names are given here.
 */
module StatusCodes {

  const WORD_LIMIT: int := 0x1_0000_0000_0000_0000

  newtype Status = x: int | 0 <= x < 0x1_0000_0000_0000_0000

  /** The top bit of the word; set in every error code. */
  const ERROR_BIT: Status := 0x8000_0000_0000_0000

  const SUCCESS: Status := 0
  /** Warning: a character could not be rendered and was skipped. */
  const WARN_UNKNOWN_GLYPH: Status := 1
  /** Error 3: the operation is not supported by the device. */
  const UNSUPPORTED: Status := 0x8000_0000_0000_0003

  predicate IsSuccess(s: Status) {
    s == SUCCESS
  }

  predicate IsError(s: Status) {
    s >= ERROR_BIT
  }

  predicate IsWarning(s: Status) {
    !IsSuccess(s) && !IsError(s)
  }
}
