// What the JSON reader takes from the C library, as far as it depends on the locale or on floating point.
module CLibrary {
  import opened Bytes
  import opened Options
  import opened DataOrder

  /** c32rtomb: the bytes of a code point in the locale, or none, which is the result (size_t) -1. strtod: the value that
      stands for the floating point number; which one that is does not matter here. */
  datatype Functions = Functions(c32rtomb: nat -> Option<seq<Byte>>, strtod: seq<Byte> -> Data)

  /** In every locale a basic character is its own byte, and no character is longer than a universal escape. */
  ghost predicate Standard(f: Functions) {
    && (forall c: nat :: c < 0x80 ==> f.c32rtomb(c) == Some([c]))
    && (forall c: nat :: f.c32rtomb(c).Some? ==> |f.c32rtomb(c).value| <= 6)
    && (forall s :: f.strtod(s) != Missing)
  }

  type Library = f: Functions | Standard(f) ghost witness UTF8

  /** Text is UTF-8 (section 3 of RFC 3629), which has no surrogates. */
  const UTF8: Functions := Functions(Utf8, _ => Null)

  /** The locale of a program that sets none: ASCII. */
  const POSIX: Functions := Functions(Ascii, _ => Null)

  function Utf8(c: nat): Option<seq<Byte>> {
    if c < 0x80 then Some([c])
    else if c < 0x800 then Some([0xC0 + c / 64, 0x80 + c % 64])
    else if 0xD800 <= c < 0xE000 then None
    else if c < 0x1_0000 then Some([0xE0 + c / 4096, 0x80 + c / 64 % 64, 0x80 + c % 64])
    else if c < 0x11_0000 then Some([0xF0 + c / 262144, 0x80 + c / 4096 % 64, 0x80 + c / 64 % 64, 0x80 + c % 64])
    else None
  }

  function Ascii(c: nat): Option<seq<Byte>> {
    if c < 0x80 then Some([c]) else None
  }
}
