/** Hexadecimal digits as octets, upper case when printed. */
module HexDigits {

  predicate IsHex(c: bv8) {
    0x30 <= c <= 0x39 || 0x41 <= c <= 0x46 || 0x61 <= c <= 0x66
  }

  function HexValue(c: bv8): bv8 {
    if c <= 0x39 then c - 0x30 else if c <= 0x46 then c - 0x41 + 10 else c - 0x61 + 10
  }

  function HexDigit(n: bv8): bv8 {
    if n < 10 then n + 0x30 else n - 10 + 0x41
  }
}
