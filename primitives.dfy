/**
 * The primitives the security engine calls but does not implement: the byte
 * codecs (UTF-8, Base64, hex, Base32), PBKDF2-HMAC-SHA256 (section 5.2 of
 * RFC 8018), AES-256-GCM (NIST SP 800-38D) and HMAC-SHA1/256/512.
 *
 * They are not given bodies of their own. A `Suite` bundles them as function
 * values, every operation of the model takes the suite as a parameter, and the
 * only facts assumed about them are the round-trip predicates below, which
 * appear as preconditions of the lemmas that need them.
 */
module Primitives {
  import opened Wrappers

  /** A Rust `u8`. */
  type byte = x: int | 0 <= x < 256

  type Bytes = seq<byte>

  /** A Rust `u64`. */
  type u64 = x: int | 0 <= x < 0x1_0000_0000_0000_0000

  /** A Rust `u32`. */
  type u32 = x: int | 0 <= x < 0x1_0000_0000

  /** A Rust `i32` / Kotlin `Int`. */
  type i32 = x: int | -0x8000_0000 <= x < 0x8000_0000

  /** The length of the derived key and of an AES-256 key, in bytes. */
  const KEY_LENGTH: nat := 32

  /** The length of the GCM authentication tag appended to every ciphertext. */
  const GCM_TAG_LENGTH: nat := 16

  /** A `[u8; KEY_LENGTH]`: what PBKDF2 fills in `derive_key`. */
  type Key = k: Bytes | |k| == KEY_LENGTH witness seq(KEY_LENGTH, _ => 0)

  /** The three HMAC hash functions the TOTP code may use. */
  datatype HmacAlgorithm = HmacSha1 | HmacSha256 | HmacSha512

  /** The output length of HMAC with the given hash: 20, 32 or 64 bytes. */
  function DigestLength(alg: HmacAlgorithm): nat
  {
    match alg
    case HmacSha1 => 20
    case HmacSha256 => 32
    case HmacSha512 => 64
  }

  /** An HMAC output. Every supported hash produces at least 20 bytes, which
      is what dynamic truncation relies on when it reads four bytes at an
      offset of at most 15. */
  type Digest = d: Bytes | |d| >= 20 witness seq(20, _ => 0)

  datatype Suite = Suite(
    /** `str::as_bytes`: the UTF-8 encoding of a string. */
    utf8Encode: string -> Bytes,
    /** `String::from_utf8`: fails on bytes that are not UTF-8. */
    utf8Decode: Bytes -> Option<string>,
    /** `base64::general_purpose::STANDARD` (section 4 of RFC 4648). */
    base64Encode: Bytes -> string,
    base64Decode: string -> Option<Bytes>,
    /** The `hex` crate: lower-case hex encoding and its decoder. */
    hexEncode: Bytes -> string,
    hexDecode: string -> Option<Bytes>,
    /** `data_encoding::BASE32_NOPAD` decoding. */
    base32Decode: string -> Option<Bytes>,
    /** PBKDF2-HMAC-SHA256 of (password bytes, salt, iteration count) into a 32-byte key. */
    pbkdf2Sha256: (Bytes, Bytes, nat) -> Key,
    /** AES-256-GCM encryption of a plaintext under a key and a 12-byte nonce,
        without associated data; the result carries the tag. `None` is the
        library's encryption error. */
    gcmEncrypt: (Key, Bytes, Bytes) -> Option<Bytes>,
    /** AES-256-GCM authenticated decryption; `None` when the tag does not verify. */
    gcmDecrypt: (Key, Bytes, Bytes) -> Option<Bytes>,
    /** HMAC of a message under a key with the given hash. */
    hmac: (HmacAlgorithm, Bytes, Bytes) -> Digest
  )

  /** Base64 decoding inverts Base64 encoding. */
  ghost predicate Base64RoundTrip(s: Suite)
  {
    forall b: Bytes :: s.base64Decode(s.base64Encode(b)) == Some(b)
  }

  /** Hex decoding inverts hex encoding. */
  ghost predicate HexRoundTrip(s: Suite)
  {
    forall b: Bytes :: s.hexDecode(s.hexEncode(b)) == Some(b)
  }

  /** UTF-8 decoding inverts UTF-8 encoding. */
  ghost predicate Utf8RoundTrip(s: Suite)
  {
    forall str: string :: s.utf8Decode(s.utf8Encode(str)) == Some(str)
  }

  /** A GCM ciphertext is the plaintext's length plus the 16-byte tag, and
      decrypting it under the same key and nonce gives the plaintext back. */
  ghost predicate GcmRoundTrip(s: Suite)
  {
    forall k: Key, iv: Bytes, pt: Bytes | s.gcmEncrypt(k, iv, pt).Some? ::
      && |s.gcmEncrypt(k, iv, pt).value| == |pt| + GCM_TAG_LENGTH
      && s.gcmDecrypt(k, iv, s.gcmEncrypt(k, iv, pt).value) == Some(pt)
  }

  /** Everything the backup round trip relies on. */
  ghost predicate BackupSound(s: Suite)
  {
    Base64RoundTrip(s) && Utf8RoundTrip(s) && GcmRoundTrip(s)
  }
}
