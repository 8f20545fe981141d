/**
 * `TotpUtil`: the app-side TOTP helpers. Secrets are cleaned (trimmed,
 * upper-cased, spaces removed), checked against the Base32 alphabet of Apache
 * Commons Codec, decoded, and handed to the one-time-password library with six
 * digits, HMAC of the chosen algorithm and a 30-second step. The clock reading
 * and the lenient Base32 decoder are parameters; HMAC comes from the suite.
 */
module TotpUtil {
  import opened Wrappers
  import opened Primitives
  import opened Text
  import opened OtpAlgorithms
  import RustCore

  /** What `generateTOTP` returns instead of a code when anything goes wrong. */
  const ERROR: string := "ERROR"

  const CODE_DIGITS: nat := 6
  const TIME_STEP_SECONDS: nat := 30

  /** `secret.trim().uppercase().replace(" ", "")`. */
  function Clean(secret: string): (clean: string)
    ensures |clean| <= |secret| && ' ' !in clean
    ensures forall i :: 0 <= i < |clean| ==> !('a' <= clean[i] <= 'z')
  {
    var clean := RemoveSpaces(Upper(Trim(secret)));
    assert forall i :: 0 <= i < |clean| ==> !('a' <= clean[i] <= 'z') by {
      forall i | 0 <= i < |clean|
        ensures !('a' <= clean[i] <= 'z')
      {
        assert clean[i] in clean;
      }
    }
    clean
  }

  /** A character of the Base32 decode table: `A`-`Z`, `a`-`z` and `2`-`7`. */
  predicate InBase32Table(c: char)
  {
    ('A' <= c <= 'Z') || ('a' <= c <= 'z') || ('2' <= c <= '7')
  }

  /** `Base32.isInAlphabet(String)`: every character is in the decode table,
      is the pad `=`, or is one of the codec's whitespace characters (space,
      tab, line feed, carriage return). `=` is accepted at any position. */
  predicate IsInAlphabet(s: string): (ok: bool)
    ensures s == [] ==> ok
    ensures ok ==> forall i :: 0 <= i < |s| ==> s[i] !in "0189"
  {
    forall i :: 0 <= i < |s| ==>
      InBase32Table(s[i]) || s[i] == '=' || s[i] == ' ' || s[i] == '\t' || s[i] == '\n' || s[i] == '\r'
  }

  /** `isValidSecret`: not blank, and the cleaned secret is in the alphabet. */
  predicate IsValidSecret(secret: string): (ok: bool)
    ensures IsBlank(secret) ==> !ok
    ensures ok ==> Clean(secret) != []
    ensures ok ==> forall i :: 0 <= i < |Clean(secret)| ==> Clean(secret)[i] !in "0189"
  {
    CleanShape(secret);
    !IsBlank(secret) && IsInAlphabet(Clean(secret))
  }

  lemma ToUpperKeepsWhitespace(c: char)
    ensures IsWhitespace(ToUpper(c)) <==> IsWhitespace(c)
    ensures ToUpper(ToUpper(c)) == ToUpper(c)
  {
  }

  /** Cleaning a non-blank secret leaves a non-empty string that starts and
      ends with a character that is not whitespace, and keeps no lower-case
      letter; cleaning a blank secret leaves nothing. */
  lemma {:induction false} CleanShape(secret: string)
    ensures IsBlank(secret) <==> Clean(secret) == []
    ensures Clean(secret) != [] ==>
      && !IsWhitespace(Clean(secret)[0])
      && !IsWhitespace(Clean(secret)[|Clean(secret)| - 1])
    ensures forall i :: 0 <= i < |Clean(secret)| ==> ToUpper(Clean(secret)[i]) == Clean(secret)[i]
  {
    var t := Trim(secret);
    var u := Upper(t);
    var c := RemoveSpaces(u);
    assert c == Clean(secret);
    TrimBlank(secret);
    if t != [] {
      assert c != [] && !IsWhitespace(c[0]) && !IsWhitespace(c[|c| - 1]) by {
        ToUpperKeepsWhitespace(t[0]);
        ToUpperKeepsWhitespace(t[|t| - 1]);
        RemoveSpacesEnds(u);
      }
    }
    assert forall i :: 0 <= i < |c| ==> ToUpper(c[i]) == c[i] by {
      forall i | 0 <= i < |c|
        ensures ToUpper(c[i]) == c[i]
      {
        assert c[i] in c;
        var j :| 0 <= j < |u| && u[j] == c[i];
        ToUpperKeepsWhitespace(t[j]);
      }
    }
  }

  /** Cleaning is idempotent. */
  lemma {:induction false} CleanIdempotent(secret: string)
    ensures Clean(Clean(secret)) == Clean(secret)
  {
    var c := Clean(secret);
    CleanShape(secret);
    TrimOfTrimmed(c);
    assert Upper(c) == c;
    RemoveSpacesNoop(c);
  }

  /** `generateTOTP` checks the cleaned secret, which `isValidSecret` cleans
      again: the verdict is the same as on the raw secret. */
  lemma {:induction false} ValidityOfCleaned(secret: string)
    ensures IsValidSecret(Clean(secret)) == IsValidSecret(secret)
  {
    CleanShape(secret);
    CleanIdempotent(secret);
    var c := Clean(secret);
    if c != [] {
      assert !IsWhitespace(c[0]);
    }
  }

  /** A string of upper-case letters and the digits 2-7 is its own cleaned
      form. */
  lemma CanonicalSecretClean(secret: string)
    requires forall i :: 0 <= i < |secret| ==> ('A' <= secret[i] <= 'Z') || ('2' <= secret[i] <= '7')
    ensures Clean(secret) == secret
  {
    assert Trim(secret) == secret by {
      if secret != [] {
        assert !IsWhitespace(secret[0]) && !IsWhitespace(secret[|secret| - 1]);
      }
      TrimOfTrimmed(secret);
    }
    assert Upper(secret) == secret;
    assert RemoveSpaces(secret) == secret by {
      assert ' ' !in secret;
      RemoveSpacesNoop(secret);
    }
  }

  /** A canonical Base32 secret (upper-case letters and the digits 2-7) is
      valid and is its own cleaned form. */
  lemma {:induction false} CanonicalSecretValid(secret: string)
    requires secret != []
    requires forall i :: 0 <= i < |secret| ==> ('A' <= secret[i] <= 'Z') || ('2' <= secret[i] <= '7')
    ensures Clean(secret) == secret
    ensures IsValidSecret(secret)
  {
    CanonicalSecretClean(secret);
    assert !IsBlank(secret) by {
      assert !IsWhitespace(secret[0]);
    }
    assert IsInAlphabet(secret) by {
      forall i | 0 <= i < |secret|
        ensures InBase32Table(secret[i])
      {
      }
    }
  }

  /** The digits 0, 1, 8 and 9 are not Base32: a secret whose cleaned form
      holds one is invalid. */
  lemma NonBase32DigitRejected(secret: string, i: nat)
    requires i < |Clean(secret)| && Clean(secret)[i] in "0189"
    ensures !IsValidSecret(secret)
  {
    var c := Clean(secret)[i];
    assert c == '0' || c == '1' || c == '8' || c == '9';
    assert !InBase32Table(c);
    assert !IsInAlphabet(Clean(secret));
  }

  /** The library's HOTP value for a counter (section 5.3 of RFC 4226): the
      dynamic truncation of the HMAC of the 8-byte big-endian counter,
      reduced modulo 10^6 and padded to six digits. */
  function HotpCode(algorithm: OtpAlgorithm, key: Bytes, counter: nat, s: Suite): (code: string)
    ensures |code| == CODE_DIGITS && AllDigits(code)
    ensures DigitsValue(code) < Pow10(CODE_DIGITS)
  {
    var mac := s.hmac(LibAlgo(algorithm), key, RustCore.BigEndian(counter, 8));
    RustCore.FormatCode(RustCore.Reduce(RustCore.TruncatedValue(mac), CODE_DIGITS), CODE_DIGITS)
  }

  /** The library's time-step counter: whole 30-second steps since the epoch. */
  function StepCounter(nowMillis: nat): (counter: nat)
    ensures counter <= nowMillis
  {
    DivBounds(nowMillis, TIME_STEP_SECONDS * 1000);
    nowMillis / (TIME_STEP_SECONDS * 1000)
  }

  /** `generateTOTP`, with `System.currentTimeMillis()` as `nowMillis` and
      Apache's lenient Base32 decoder as `decode`. A cleaned secret that is not
      valid gives `"ERROR"`; so does one that decodes to no bytes, because an
      empty HMAC key is rejected by `SecretKeySpec` and the exception is caught. */
  function GenerateTotp(secret: string, algorithm: OtpAlgorithm, nowMillis: nat, decode: string -> Bytes, s: Suite)
    : (code: string)
    ensures !IsValidSecret(Clean(secret)) || decode(Clean(secret)) == [] ==> code == ERROR
    ensures IsValidSecret(Clean(secret)) && decode(Clean(secret)) != [] ==>
      |code| == CODE_DIGITS && AllDigits(code)
  {
    var cleanSecret := Clean(secret);
    var valid := IsValidSecret(cleanSecret);
    if !valid then ERROR
    else
      var key := decode(cleanSecret);
      if key == [] then ERROR
      else HotpCode(algorithm, key, StepCounter(nowMillis), s)
  }

  /** Whatever the clock and the decoder, an invalid secret yields `"ERROR"`
      and a valid one that decodes to a key yields six digits, never `"ERROR"`. */
  lemma {:induction false} GenerateTotpOutcome(secret: string, algorithm: OtpAlgorithm, nowMillis: nat, decode: string -> Bytes, s: Suite)
    ensures !IsValidSecret(secret) ==> GenerateTotp(secret, algorithm, nowMillis, decode, s) == ERROR
    ensures IsValidSecret(secret) && decode(Clean(secret)) != [] ==>
      var code := GenerateTotp(secret, algorithm, nowMillis, decode, s);
      |code| == CODE_DIGITS && AllDigits(code) && code != ERROR
  {
    ValidityOfCleaned(secret);
  }

  /** The native algorithm of the same name. */
  function CoreAlgorithm(a: OtpAlgorithm): (c: RustCore.OtpHashAlgorithm)
    ensures RustCore.HmacOf(c) == LibAlgo(a)
  {
    match a
    case SHA1 => RustCore.Sha1
    case SHA256 => RustCore.Sha256
    case SHA512 => RustCore.Sha512
  }

  /** The app's code and the native core's six-digit, 30-second code agree
      whenever both decoders read the secret as the same non-empty key. */
  lemma {:induction false} AppCodeMatchesCore(secret: string, algorithm: OtpAlgorithm, nowMillis: nat, decode: string -> Bytes, s: Suite)
    requires IsValidSecret(secret)
    requires decode(Clean(secret)) != []
    requires s.base32Decode(RustCore.CleanSecret(secret)) == Some(decode(Clean(secret)))
    requires nowMillis / 1000 < 0x1_0000_0000_0000_0000
    ensures RustCore.GenerateTotp(secret, CoreAlgorithm(algorithm), 6, 30, Some(nowMillis / 1000), s)
      == Success(GenerateTotp(secret, algorithm, nowMillis, decode, s))
  {
    ValidityOfCleaned(secret);
    var seconds: u64 := nowMillis / 1000;
    assert seconds / 30 == nowMillis / 30000;
    assert Pow10(6) == 1_000_000;
  }

  /** Kotlin's `/` on `Long`: rounds toward zero. */
  function TruncDiv(a: int, b: int): (q: int)
    requires b > 0
    ensures a >= 0 ==> b * q <= a < b * q + b
    ensures a < 0 ==> q <= 0 && b * q - b < a <= b * q
  {
    if a >= 0 then a / b else -((-a) / b)
  }

  /** Kotlin's `%` on `Long`: the remainder takes the sign of the dividend. */
  function TruncRem(a: int, b: int): (r: int)
    requires b > 0
    ensures a == b * TruncDiv(a, b) + r
    ensures a >= 0 ==> 0 <= r < b
    ensures a < 0 ==> -b < r <= 0
  {
    a - b * TruncDiv(a, b)
  }

  /** `getRemainingSeconds`, with the clock's reading in milliseconds as a
      parameter: the seconds left in the current 30-second window. */
  function RemainingSeconds(nowMillis: int): (r: int)
    ensures nowMillis >= 0 ==> 1 <= r <= TIME_STEP_SECONDS
    ensures nowMillis >= 0 ==> (r == TIME_STEP_SECONDS <==> (nowMillis / 1000) % TIME_STEP_SECONDS == 0)
    ensures nowMillis >= 0 ==> (nowMillis / 1000) % TIME_STEP_SECONDS + r == TIME_STEP_SECONDS
  {
    var time := TruncDiv(nowMillis, 1000);
    TIME_STEP_SECONDS - TruncRem(time, TIME_STEP_SECONDS)
  }

  /** One second later the count has gone down by one, except at the start of
      a new window, where it is back at 30. */
  lemma RemainingSecondsTick(nowMillis: nat)
    ensures RemainingSeconds(nowMillis + 1000) ==
      if RemainingSeconds(nowMillis) == 1 then TIME_STEP_SECONDS else RemainingSeconds(nowMillis) - 1
  {
    var q := nowMillis / 1000;
    DivBounds(nowMillis, 1000);
    assert (nowMillis + 1000) / 1000 == q + 1;
    SecondStep(q);
  }

  /** The position in the 30-second window advances by one and wraps. */
  lemma SecondStep(q: nat)
    ensures (q + 1) % TIME_STEP_SECONDS == if q % TIME_STEP_SECONDS == TIME_STEP_SECONDS - 1 then 0 else q % TIME_STEP_SECONDS + 1
  {
  }
}
