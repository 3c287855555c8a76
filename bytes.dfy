/** Octets, and the 32-octet output of SHA-256 and HMAC-SHA256. */
module Bytes {

  /** A Java byte read as unsigned (the bit pattern is what every use here depends on). */
  type Byte = x: int | 0 <= x < 256

  /** The output of SHA-256 and of HMAC-SHA256: always 32 octets. */
  type Digest = s: seq<Byte> | |s| == 32 witness seq(32, _ => 0)
}
