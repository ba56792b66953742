/**
 The UTF-8 encoding of one code point, as section 3 of RFC 3629 defines it, and the white space that
 unicode.IsSpace knows.  What the other modules say about bytes is measured against these.
 */
module Runes {

  /** A code point that UTF-8 encodes: no surrogate, and none beyond U+10FFFF. */
  predicate Scalar(cp: int) {
    0 <= cp < 0xD800 || 0xE000 <= cp < 0x11_0000
  }

  function Byte(b: nat): char
    requires b < 256
  {
    b as char
  }

  function Encode(cp: int): (r: string)
    requires Scalar(cp)
    ensures 1 <= |r| <= 4 && forall i :: 0 <= i < |r| ==> (r[i] as int) < 256
  {
    if cp < 0x80 then [Byte(cp)]
    else if cp < 0x800 then [Byte(0xC0 + cp / 64), Byte(0x80 + cp % 64)]
    else if cp < 0x1_0000 then [Byte(0xE0 + cp / 4096), Byte(0x80 + cp / 64 % 64), Byte(0x80 + cp % 64)]
    else [Byte(0xF0 + cp / 262144), Byte(0x80 + cp / 4096 % 64), Byte(0x80 + cp / 64 % 64), Byte(0x80 + cp % 64)]
  }

  /** The code points with the property White_Space. */
  predicate WhiteSpace(cp: int) {
    || 0x09 <= cp <= 0x0D || cp == 0x20 || cp == 0x85 || cp == 0xA0 || cp == 0x1680
    || 0x2000 <= cp <= 0x200A || cp == 0x2028 || cp == 0x2029 || cp == 0x202F || cp == 0x205F || cp == 0x3000
  }
}
