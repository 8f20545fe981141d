/**
 * The native core (`rust/src/lib.rs`): the backup envelope, the master-password
 * hash, TOTP generation and the two key-derivation guards. Randomness (salts and
 * IVs) and the clock are parameters; the cryptographic primitives and codecs
 * come from a `Primitives.Suite`.
 */
module RustCore {
  import opened Wrappers
  import opened Primitives
  import opened Text

  const ITERATION_COUNT: nat := 100_000
  const IV_LENGTH: nat := 12
  const BACKUP_SALT_LENGTH: nat := 16
  const MASTER_SALT_LENGTH: nat := 32
  const BACKUP_VERSION: byte := 1

  /** The length of the versioned header: version byte, salt and IV. */
  const HEADER_LENGTH: nat := 1 + BACKUP_SALT_LENGTH + IV_LENGTH

  datatype CryptoError =
    | EncryptionFailed
    | DecryptionFailed
    | InvalidKey
    | InvalidData
    | InvalidParameter
    | UnsupportedVersion
    | TotpFailed
    | SerializationError

  datatype OtpHashAlgorithm = Sha1 | Sha256 | Sha512

  /** The HMAC that `generate_totp` instantiates for each algorithm. */
  function HmacOf(algo: OtpHashAlgorithm): (h: HmacAlgorithm)
    ensures DigestLength(h) == match algo case Sha1 => 20 case Sha256 => 32 case Sha512 => 64
  {
    match algo
    case Sha1 => HmacSha1
    case Sha256 => HmacSha256
    case Sha512 => HmacSha512
  }

  /** The account record shared with the app through the native bindings;
      unlike the app's own `Account`, its icon initial is a string. */
  datatype Account = Account(
    id: i32,
    name: string,
    username: string,
    password: string,
    iconInitial: string,
    secretKey: string,
    algorithm: OtpHashAlgorithm,
    hasOtp: bool)

  datatype MasterPasswordData = MasterPasswordData(hash: string, salt: string)

  /** serde_json for a list of accounts: `None` is a serde error. */
  datatype SerdeJson = SerdeJson(
    encode: seq<Account> -> Option<string>,
    decode: string -> Option<seq<Account>>)

  /** Parsing the JSON that serde produced gives back the same accounts. */
  ghost predicate JsonRoundTrip(j: SerdeJson)
  {
    forall accounts: seq<Account> | j.encode(accounts).Some? ::
      j.decode(j.encode(accounts).value) == Some(accounts)
  }

  function AccountsToJson(accounts: seq<Account>, j: SerdeJson): (r: Result<string, CryptoError>)
    ensures r.Failure? <==> j.encode(accounts).None?
    ensures r.Failure? ==> r.error == SerializationError
  {
    match j.encode(accounts)
    case None => Failure(SerializationError)
    case Some(text) => Success(text)
  }

  function JsonToAccounts(json: string, j: SerdeJson): (r: Result<seq<Account>, CryptoError>)
    ensures r.Failure? <==> j.decode(json).None?
    ensures r.Failure? ==> r.error == SerializationError
  {
    match j.decode(json)
    case None => Failure(SerializationError)
    case Some(accounts) => Success(accounts)
  }

  lemma JsonRoundTripAccounts(accounts: seq<Account>, j: SerdeJson)
    requires JsonRoundTrip(j)
    requires AccountsToJson(accounts, j).Success?
    ensures JsonToAccounts(AccountsToJson(accounts, j).value, j) == Success(accounts)
  {
  }

  // ----- key derivation -----

  /** `derive_key`: PBKDF2-HMAC-SHA256 with 100 000 iterations into a 32-byte
      key. The crate's result is discarded in the source; HMAC accepts keys
      of any length, so it cannot fail. */
  function DeriveKey(password: string, salt: Bytes, s: Suite): (k: Key)
    ensures |k| == KEY_LENGTH
  {
    s.pbkdf2Sha256(s.utf8Encode(password), salt, ITERATION_COUNT)
  }

  function DeriveBackupKey(password: string, salt: Bytes, s: Suite): (r: Result<Key, CryptoError>)
    ensures r.Failure? <==> |salt| != BACKUP_SALT_LENGTH
    ensures r.Failure? ==> r.error == InvalidData
    ensures r.Success? ==> r.value == DeriveKey(password, salt, s)
  {
    if |salt| != BACKUP_SALT_LENGTH then Failure(InvalidData) else Success(DeriveKey(password, salt, s))
  }

  function DeriveMasterKey(password: string, salt: Bytes, s: Suite): (r: Result<Key, CryptoError>)
    ensures r.Failure? <==> |salt| != MASTER_SALT_LENGTH
    ensures r.Failure? ==> r.error == InvalidData
    ensures r.Success? ==> r.value == DeriveKey(password, salt, s)
  {
    if |salt| != MASTER_SALT_LENGTH then Failure(InvalidData) else Success(DeriveKey(password, salt, s))
  }

  /** No salt is accepted by both derivations: a master-password salt can
      never be used as a backup salt, nor the other way round. */
  lemma SaltGuardsDisjoint(password: string, salt: Bytes, s: Suite)
    ensures DeriveBackupKey(password, salt, s).Failure? || DeriveMasterKey(password, salt, s).Failure?
  {
  }

  // ----- backup envelope -----

  /** The versioned envelope: `version(1) || salt(16) || iv(12) || ciphertext`. */
  function Envelope(salt: Bytes, iv: Bytes, ciphertext: Bytes): (e: Bytes)
    requires |salt| == BACKUP_SALT_LENGTH && |iv| == IV_LENGTH
    ensures |e| == HEADER_LENGTH + |ciphertext|
    ensures e[0] == BACKUP_VERSION
    ensures e[1..1 + BACKUP_SALT_LENGTH] == salt
    ensures e[1 + BACKUP_SALT_LENGTH..HEADER_LENGTH] == iv
    ensures e[HEADER_LENGTH..] == ciphertext
  {
    [BACKUP_VERSION] + salt + iv + ciphertext
  }

  /** The three slices `decrypt_backup` cuts out of a decoded envelope. */
  datatype EnvelopeParts = EnvelopeParts(salt: Bytes, iv: Bytes, ciphertext: Bytes)

  /** The offset parsing of `decrypt_backup`. Inputs of at least 30 bytes are
      versioned and must start with version 1; shorter ones are read in the
      legacy layout without a version byte and need at least 29 bytes. */
  function ParseEnvelope(combined: Bytes): (r: Result<EnvelopeParts, CryptoError>)
    ensures |combined| >= HEADER_LENGTH + 1 && combined[0] != BACKUP_VERSION ==> r == Failure(UnsupportedVersion)
    ensures |combined| < BACKUP_SALT_LENGTH + IV_LENGTH + 1 ==> r == Failure(InvalidData)
    ensures |combined| == HEADER_LENGTH || (|combined| > HEADER_LENGTH && combined[0] == BACKUP_VERSION) ==> r.Success?
    ensures r.Success? ==> |r.value.salt| == BACKUP_SALT_LENGTH && |r.value.iv| == IV_LENGTH
    ensures r.Success? && |combined| >= HEADER_LENGTH + 1 ==>
      combined[0] == BACKUP_VERSION && r.value.salt + r.value.iv + r.value.ciphertext == combined[1..]
    ensures r.Success? && |combined| < HEADER_LENGTH + 1 ==>
      r.value.salt + r.value.iv + r.value.ciphertext == combined
  {
    if |combined| >= 1 + BACKUP_SALT_LENGTH + IV_LENGTH + 1 then
      if combined[0] != BACKUP_VERSION then Failure(UnsupportedVersion)
      else
        var saltStart := 1;
        var ivStart := saltStart + BACKUP_SALT_LENGTH;
        var cipherStart := ivStart + IV_LENGTH;
        assert combined[saltStart..ivStart] + combined[ivStart..cipherStart] + combined[cipherStart..] == combined[1..];
        Success(EnvelopeParts(combined[saltStart..ivStart], combined[ivStart..cipherStart], combined[cipherStart..]))
    else if |combined| < BACKUP_SALT_LENGTH + IV_LENGTH + 1 then
      Failure(InvalidData)
    else
      var saltStart := 0;
      var ivStart := saltStart + BACKUP_SALT_LENGTH;
      var cipherStart := ivStart + IV_LENGTH;
      assert combined[saltStart..ivStart] + combined[ivStart..cipherStart] + combined[cipherStart..] == combined;
      Success(EnvelopeParts(combined[saltStart..ivStart], combined[ivStart..cipherStart], combined[cipherStart..]))
  }

  /** Parsing an envelope with a non-empty ciphertext gives back its parts. */
  lemma ParseEnvelopeInverse(salt: Bytes, iv: Bytes, ciphertext: Bytes)
    requires |salt| == BACKUP_SALT_LENGTH && |iv| == IV_LENGTH && |ciphertext| >= 1
    ensures ParseEnvelope(Envelope(salt, iv, ciphertext)) == Success(EnvelopeParts(salt, iv, ciphertext))
  {
    var e := Envelope(salt, iv, ciphertext);
    assert e[1..17] == salt && e[17..29] == iv && e[29..] == ciphertext;
  }

  /** The legacy layout is only ever read from an input of exactly 29 bytes:
      shorter inputs are rejected and longer ones are taken as versioned. */
  lemma LegacyLayoutOnlyAt29(combined: Bytes)
    requires ParseEnvelope(combined).Success?
    ensures |combined| == HEADER_LENGTH || combined[0] == BACKUP_VERSION
    ensures |combined| == HEADER_LENGTH ==> ParseEnvelope(combined).value.salt == combined[..BACKUP_SALT_LENGTH]
  {
  }

  /** Consequently a legacy blob as GCM produces it (salt, IV, and a
      ciphertext of at least the 16-byte tag) whose first salt byte is not 1
      is rejected as an unsupported version rather than decrypted. */
  lemma LegacyBlobRejected(salt: Bytes, iv: Bytes, ciphertext: Bytes)
    requires |salt| == BACKUP_SALT_LENGTH && |iv| == IV_LENGTH && |ciphertext| >= GCM_TAG_LENGTH
    requires salt[0] != BACKUP_VERSION
    ensures ParseEnvelope(salt + iv + ciphertext) == Failure(UnsupportedVersion)
  {
    assert (salt + iv + ciphertext)[0] == salt[0];
  }

  /** The specification of `encrypt_backup`: the Base64 text of the envelope
      around the GCM ciphertext of the UTF-8 data. */
  function SealBackup(data: string, password: string, salt: Bytes, iv: Bytes, s: Suite): (r: Result<string, CryptoError>)
    requires |salt| == BACKUP_SALT_LENGTH && |iv| == IV_LENGTH
    ensures r.Failure? <==> s.gcmEncrypt(DeriveKey(password, salt, s), iv, s.utf8Encode(data)).None?
    ensures r.Failure? ==> r.error == EncryptionFailed
  {
    match s.gcmEncrypt(DeriveKey(password, salt, s), iv, s.utf8Encode(data))
    case None => Failure(EncryptionFailed)
    case Some(ciphertext) => Success(s.base64Encode(Envelope(salt, iv, ciphertext)))
  }

  /** `encrypt_backup`, with the salt and IV that `thread_rng` fills given as
      parameters. The envelope is built by appending, as the source does. */
  method EncryptBackup(data: string, password: string, salt: Bytes, iv: Bytes, s: Suite)
    returns (r: Result<string, CryptoError>)
    requires |salt| == BACKUP_SALT_LENGTH && |iv| == IV_LENGTH
    ensures r == SealBackup(data, password, salt, iv, s)
  {
    // The `?` after `derive_backup_key` cannot fire: the salt buffer has the
    // accepted length. `Aes256Gcm::new_from_slice` rejects only keys that are
    // not 32 bytes long (`InvalidKey`); a derived key always is.
    var key := DeriveBackupKey(password, salt, s).value;
    var sealed := s.gcmEncrypt(key, iv, s.utf8Encode(data));
    if sealed.None? {
      return Failure(EncryptionFailed);
    }
    var ciphertext := sealed.value;
    var combined: Bytes := [];
    combined := combined + [BACKUP_VERSION];
    combined := combined + salt;
    combined := combined + iv;
    combined := combined + ciphertext;
    assert combined == Envelope(salt, iv, ciphertext);
    r := Success(s.base64Encode(combined));
  }

  /** `decrypt_backup`. Malformed Base64, a short input or non-UTF-8
      plaintext fail with `InvalidData`; an unknown version byte fails with
      `UnsupportedVersion` before any key is derived; an authentication
      failure fails with `DecryptionFailed`. */
  function DecryptBackup(encryptedBase64: string, password: string, s: Suite): (r: Result<string, CryptoError>)
    ensures s.base64Decode(encryptedBase64).None? ==> r == Failure(InvalidData)
    ensures s.base64Decode(encryptedBase64).Some? && ParseEnvelope(s.base64Decode(encryptedBase64).value).Failure? ==>
      r == Failure(ParseEnvelope(s.base64Decode(encryptedBase64).value).error)
    ensures r.Failure? ==> r.error in {InvalidData, UnsupportedVersion, DecryptionFailed}
    ensures s.base64Decode(encryptedBase64).Some? && ParseEnvelope(s.base64Decode(encryptedBase64).value).Success? ==>
      var parts := ParseEnvelope(s.base64Decode(encryptedBase64).value).value;
      var plain := s.gcmDecrypt(DeriveKey(password, parts.salt, s), parts.iv, parts.ciphertext);
      && (plain.None? ==> r == Failure(DecryptionFailed))
      && (plain.Some? && s.utf8Decode(plain.value).None? ==> r == Failure(InvalidData))
      && (plain.Some? && s.utf8Decode(plain.value).Some? ==> r == Success(s.utf8Decode(plain.value).value))
    ensures r.Success? ==>
      var parts := ParseEnvelope(s.base64Decode(encryptedBase64).value).value;
      var plain := s.gcmDecrypt(DeriveKey(password, parts.salt, s), parts.iv, parts.ciphertext);
      plain.Some? && s.utf8Decode(plain.value) == Some(r.value)
  {
    match s.base64Decode(encryptedBase64)
    case None => Failure(InvalidData)
    case Some(combined) =>
      match ParseEnvelope(combined)
      case Failure(e) => Failure(e)
      case Success(parts) =>
        match DeriveBackupKey(password, parts.salt, s)
        case Failure(e) => Failure(e)
        case Success(key) =>
          // A 32-byte key never makes `new_from_slice` fail with `InvalidKey`.
          match s.gcmDecrypt(key, parts.iv, parts.ciphertext)
          case None => Failure(DecryptionFailed)
          case Some(plain) =>
            match s.utf8Decode(plain)
            case None => Failure(InvalidData)
            case Some(text) => Success(text)
  }

  /** A decoded input of at least 30 bytes whose first byte is not 1 is
      rejected as `UnsupportedVersion` whatever the password and whatever the
      key derivation and cipher do. */
  lemma UnknownVersionBeforeKeyDerivation(blob: string, p1: string, p2: string, s1: Suite, s2: Suite)
    requires s1.base64Decode == s2.base64Decode
    requires s1.base64Decode(blob).Some?
    requires |s1.base64Decode(blob).value| >= HEADER_LENGTH + 1
    requires s1.base64Decode(blob).value[0] != BACKUP_VERSION
    ensures DecryptBackup(blob, p1, s1) == DecryptBackup(blob, p2, s2) == Failure(UnsupportedVersion)
  {
  }

  /** Round trip: whatever `encrypt_backup` produces, `decrypt_backup` with the
      same password turns back into the original data. */
  lemma {:induction false} BackupRoundTrip(data: string, password: string, salt: Bytes, iv: Bytes, s: Suite)
    requires BackupSound(s)
    requires |salt| == BACKUP_SALT_LENGTH && |iv| == IV_LENGTH
    requires SealBackup(data, password, salt, iv, s).Success?
    ensures DecryptBackup(SealBackup(data, password, salt, iv, s).value, password, s) == Success(data)
  {
    var key := DeriveKey(password, salt, s);
    var plain := s.utf8Encode(data);
    var ciphertext := s.gcmEncrypt(key, iv, plain).value;
    assert |ciphertext| == |plain| + GCM_TAG_LENGTH && s.gcmDecrypt(key, iv, ciphertext) == Some(plain);
    var combined := Envelope(salt, iv, ciphertext);
    assert s.base64Decode(s.base64Encode(combined)) == Some(combined);
    ParseEnvelopeInverse(salt, iv, ciphertext);
    assert s.utf8Decode(plain) == Some(data);
  }

  // ----- master password -----

  /** `hash_master_password`, with the 32-byte salt from `thread_rng` given as
      a parameter. The `expect` cannot fire: the salt has the length
      `derive_master_key` accepts. */
  function HashMasterPassword(password: string, salt: Bytes, s: Suite): (d: MasterPasswordData)
    requires |salt| == MASTER_SALT_LENGTH
    ensures d.salt == s.hexEncode(salt)
    ensures HexRoundTrip(s) ==> VerifyMasterPassword(password, d.hash, d.salt, s)
  {
    var derived := DeriveMasterKey(password, salt, s);
    assert HexRoundTrip(s) ==> s.hexDecode(s.hexEncode(salt)) == Some(salt);
    MasterPasswordData(s.hexEncode(derived.value), s.hexEncode(salt))
  }

  /** `verify_master_password`: hex-decode the salt, re-derive, and compare
      the hex of the derived key with the stored hex by plain string equality. */
  function VerifyMasterPassword(password: string, storedHashHex: string, saltHex: string, s: Suite): (ok: bool)
    ensures s.hexDecode(saltHex).None? ==> !ok
    ensures s.hexDecode(saltHex).Some? && |s.hexDecode(saltHex).value| != MASTER_SALT_LENGTH ==> !ok
    ensures ok <==> (
      && s.hexDecode(saltHex).Some?
      && |s.hexDecode(saltHex).value| == MASTER_SALT_LENGTH
      && storedHashHex == s.hexEncode(DeriveKey(password, s.hexDecode(saltHex).value, s)))
  {
    match s.hexDecode(saltHex)
    case None => false
    case Some(salt) =>
      match DeriveMasterKey(password, salt, s)
      case Failure(_) => false
      case Success(currentHash) => s.hexEncode(currentHash) == storedHashHex
  }

  /** A password verifies against the record hashed from it. */
  lemma {:induction false} VerifyHashedPassword(password: string, salt: Bytes, s: Suite)
    requires HexRoundTrip(s)
    requires |salt| == MASTER_SALT_LENGTH
    ensures VerifyMasterPassword(password, HashMasterPassword(password, salt, s).hash, HashMasterPassword(password, salt, s).salt, s)
  {
    assert s.hexDecode(s.hexEncode(salt)) == Some(salt);
  }

  // ----- TOTP -----

  /** `u64::to_be_bytes`, for a width of 8. */
  function BigEndian(n: nat, width: nat): (b: Bytes)
    ensures |b| == width
  {
    if width == 0 then [] else BigEndian(n / 256, width - 1) + [n % 256]
  }

  function BigEndianValue(b: Bytes): nat
  {
    if b == [] then 0 else 256 * BigEndianValue(b[..|b| - 1]) + b[|b| - 1]
  }

  function Pow256(n: nat): (p: nat)
    ensures p >= 1
  {
    if n == 0 then 1 else 256 * Pow256(n - 1)
  }

  /** Reading the big-endian bytes back gives the counter. */
  lemma {:induction false} BigEndianRoundTrip(n: nat, width: nat)
    requires n < Pow256(width)
    ensures BigEndianValue(BigEndian(n, width)) == n
  {
    if width > 0 {
      BigEndianRoundTrip(n / 256, width - 1);
      var b := BigEndian(n, width);
      assert b[..|b| - 1] == BigEndian(n / 256, width - 1);
    }
  }

  /** Two byte strings of the same length with the same big-endian value are
      equal. */
  lemma {:induction false} BigEndianValueInjective(a: Bytes, b: Bytes)
    requires |a| == |b| && BigEndianValue(a) == BigEndianValue(b)
    ensures a == b
  {
    if a != [] {
      var n := |a|;
      var x, y := BigEndianValue(a[..n - 1]), BigEndianValue(b[..n - 1]);
      assert 256 * x + a[n - 1] == 256 * y + b[n - 1];
      assert x == y && a[n - 1] == b[n - 1];
      BigEndianValueInjective(a[..n - 1], b[..n - 1]);
      assert a == a[..n - 1] + [a[n - 1]] && b == b[..n - 1] + [b[n - 1]];
    }
  }

  /** `counter.to_be_bytes()`: the one 8-byte string whose big-endian value
      is the counter. */
  lemma CounterBytes(counter: u64)
    ensures |BigEndian(counter, 8)| == 8 && BigEndianValue(BigEndian(counter, 8)) == counter
    ensures forall m: Bytes :: |m| == 8 && BigEndianValue(m) == counter ==> m == BigEndian(counter, 8)
  {
    assert Pow256(8) == 0x1_0000_0000_0000_0000 by {
      assert Pow256(4) == 0x1_0000_0000;
    }
    BigEndianRoundTrip(counter, 8);
    forall m: Bytes | |m| == 8 && BigEndianValue(m) == counter
      ensures m == BigEndian(counter, 8)
    {
      BigEndianValueInjective(m, BigEndian(counter, 8));
    }
  }

  /** `compute_hmac`: the HMAC, with the hash the algorithm selects, of the
      8-byte big-endian encoding of the counter. */
  function ComputeHmac(algo: OtpHashAlgorithm, key: Bytes, counter: u64, s: Suite): (d: Digest)
    ensures forall m: Bytes :: |m| == 8 && BigEndianValue(m) == counter ==> d == s.hmac(HmacOf(algo), key, m)
  {
    CounterBytes(counter);
    s.hmac(HmacOf(algo), key, BigEndian(counter, 8))
  }

  /** The dynamic-truncation offset: the low four bits of the last byte
      (`& 0xf`). */
  function TruncationOffset(mac: Digest): (offset: nat)
    ensures offset <= 15 && offset + 3 < |mac|
  {
    mac[|mac| - 1] % 16
  }

  /** The 31-bit value `generate_totp` assembles from the four bytes at the
      offset. The masks `0x7f`/`0xff` and shifts by 24, 16, 8 and 0 put the
      bytes in disjoint bit ranges, so the `|` of the source is a sum. */
  function TruncatedValue(mac: Digest): (v: nat)
    ensures v < 0x8000_0000
  {
    var offset := TruncationOffset(mac);
    (mac[offset] as int % 0x80) * 0x100_0000 + mac[offset + 1] as int * 0x1_0000 + mac[offset + 2] as int * 0x100 + mac[offset + 3] as int
  }

  /** Dynamic truncation follows section 5.3 of RFC 4226: the four bytes at
      the offset, read big-endian, with the top bit cleared. */
  lemma TruncatedValueIsRfc4226(mac: Digest)
    ensures TruncatedValue(mac) == BigEndianValue(mac[TruncationOffset(mac)..TruncationOffset(mac) + 4]) % 0x8000_0000
  {
    var o := TruncationOffset(mac);
    var w := mac[o..o + 4];
    assert BigEndianValue(w[..1]) == mac[o] by {
      assert w[..1][..0] == [];
    }
    assert BigEndianValue(w[..2]) == 256 * mac[o] as int + mac[o + 1] as int by {
      assert w[..2][..1] == w[..1];
    }
    assert BigEndianValue(w[..3]) == 256 * (256 * mac[o] as int + mac[o + 1] as int) + mac[o + 2] as int by {
      assert w[..3][..2] == w[..2];
    }
    assert w[..4][..3] == w[..3] && w[..4] == w;
    assert BigEndianValue(w) == mac[o] as int * 0x100_0000 + mac[o + 1] as int * 0x1_0000 + mac[o + 2] as int * 0x100 + mac[o + 3] as int;
  }

  /** The secret as `generate_totp` cleans it: spaces removed, then upper-cased. */
  function CleanSecret(secret: string): (clean: string)
    ensures |clean| <= |secret| && ' ' !in clean
    ensures forall i :: 0 <= i < |clean| ==> !('a' <= clean[i] <= 'z')
  {
    Upper(RemoveSpaces(secret))
  }

  /** `format!("{:0>width$}", code, width = digits)` for a code below 10^digits:
      exactly `digits` decimal digits whose value is the code. */
  function FormatCode(code: nat, digits: nat): (text: string)
    requires digits >= 1 && code < Pow10(digits)
    ensures |text| == digits && AllDigits(text) && DigitsValue(text) == code
  {
    PaddedDecimal(code, digits);
    PadLeftZeros(DecimalString(code), digits)
  }

  /** The time-step counter `timestamp / period` of section 4 of RFC 6238. */
  function Counter(timestamp: u64, period: u64): (counter: u64)
    requires period != 0
    ensures counter <= timestamp
    ensures counter * period <= timestamp < counter * period + period
  {
    DivBounds(timestamp, period);
    timestamp / period
  }

  /** A truncated value reduced to `digits` decimal digits. */
  function Reduce(value: nat, digits: nat): (code: nat)
    ensures code < Pow10(digits)
  {
    value % Pow10(digits)
  }

  /** `generate_totp`, with the clock's reading in whole seconds since the
      Unix epoch given as a parameter (`None` when the clock is before it). */
  function GenerateTotp(secret: string, algo: OtpHashAlgorithm, digits: u32, period: u64, now: Option<u64>, s: Suite)
    : (r: Result<string, CryptoError>)
    ensures !(6 <= digits <= 8) || period == 0 ==> r == Failure(InvalidParameter)
    ensures 6 <= digits <= 8 && period != 0 && s.base32Decode(CleanSecret(secret)).None? ==> r == Failure(InvalidData)
    ensures r.Success? ==> |r.value| == digits && AllDigits(r.value) && DigitsValue(r.value) < Pow10(digits)
    ensures r.Success? ==> period != 0 && now.Some? && s.base32Decode(CleanSecret(secret)).Some?
  {
    if !(6 <= digits <= 8) then Failure(InvalidParameter)
    else if period == 0 then Failure(InvalidParameter)
    else
      match s.base32Decode(CleanSecret(secret))
      case None => Failure(InvalidData)
      case Some(secretBytes) =>
        match now
        case None => Failure(TotpFailed)
        case Some(timestamp) =>
          var counter := Counter(timestamp, period);
          var mac := ComputeHmac(algo, secretBytes, counter, s);
          var modulus := Pow10(digits);
          if modulus >= 0x1_0000_0000 then Failure(InvalidParameter)
          else Success(FormatCode(Reduce(TruncatedValue(mac), digits), digits))
  }

  /** With valid parameters, a decodable secret and a clock after the epoch,
      the code is the RFC 4226 truncation of the HMAC of the counter
      `timestamp / period` (section 4 of RFC 6238), reduced modulo 10^digits. */
  lemma {:induction false} TotpIsTruncatedHmac(secret: string, algo: OtpHashAlgorithm, digits: u32, period: u64, timestamp: u64, s: Suite)
    requires 6 <= digits <= 8 && period != 0
    requires s.base32Decode(CleanSecret(secret)).Some?
    ensures GenerateTotp(secret, algo, digits, period, Some(timestamp), s).Success?
    ensures
      var mac := ComputeHmac(algo, s.base32Decode(CleanSecret(secret)).value, timestamp / period, s);
      DigitsValue(GenerateTotp(secret, algo, digits, period, Some(timestamp), s).value)
        == BigEndianValue(mac[TruncationOffset(mac)..TruncationOffset(mac) + 4]) % 0x8000_0000 % Pow10(digits)
  {
    var mac := ComputeHmac(algo, s.base32Decode(CleanSecret(secret)).value, timestamp / period, s);
    assert Pow10(digits) <= Pow10(8) < 0x1_0000_0000 by {
      assert Pow10(8) == 100_000_000;
      Pow10Monotone(digits, 8);
    }
    TruncatedValueIsRfc4226(mac);
  }

  lemma {:induction false} Pow10Monotone(a: nat, b: nat)
    requires a <= b
    ensures Pow10(a) <= Pow10(b)
  {
    if a < b {
      Pow10Monotone(a, b - 1);
    }
  }

  /** Two readings of the clock in the same period give the same code. */
  lemma TotpStableWithinPeriod(secret: string, algo: OtpHashAlgorithm, digits: u32, period: u64, t1: u64, t2: u64, s: Suite)
    requires period != 0 && t1 / period == t2 / period
    ensures GenerateTotp(secret, algo, digits, period, Some(t1), s) == GenerateTotp(secret, algo, digits, period, Some(t2), s)
  {
  }
}
