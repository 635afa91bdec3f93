/** The lesser and the greater of two integers, and hexadecimal digits. */
module Numbers {

  function Min(a: int, b: int): int {
    if a < b then a else b
  }

  function Max(a: int, b: int): int {
    if a > b then a else b
  }

  /** A number and two of its quotients, each from the next quotient and a digit. */
  lemma DigitByDigit(u: int)
    requires 0 <= u
    ensures u == u / 16 * 16 + u % 16
    ensures u / 16 == u / 256 * 16 + u / 16 % 16
    ensures u / 256 == u / 4096 * 16 + u / 256 % 16
  {
    DivideTwice(u, 16);
    DivideTwice(u, 256);
  }

  lemma DivideTwice(u: int, d: int)
    requires 0 <= u && (d == 16 || d == 256)
    ensures u / d / 16 == u / (16 * d)
  {
  }
}
