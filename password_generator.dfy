/**
 * `PasswordGenerator`: random passwords drawn uniformly from a pool built out
 * of up to four character classes. The `SecureRandom.nextInt(pool.length)`
 * draws are a parameter: `draws[i]` is the index chosen for position `i`.
 */
module PasswordGenerator {

  const UPPER: string := "ABCDEFGHIJKLMNOPQRSTUVWXYZ"
  const LOWER: string := "abcdefghijklmnopqrstuvwxyz"
  const DIGITS: string := "0123456789"
  const SPECIAL: string := "!@#$%^&*()-_=+[]{}|;:,.<>?"

  /** The pool: the enabled classes appended in the fixed order upper, lower,
      digits, special. */
  function CharPool(includeUpper: bool, includeLower: bool, includeDigits: bool, includeSpecial: bool)
    : (pool: string)
    ensures |pool| == (if includeUpper then 26 else 0) + (if includeLower then 26 else 0)
                    + (if includeDigits then 10 else 0) + (if includeSpecial then 26 else 0)
    ensures forall c :: c in pool <==>
      || (includeUpper && c in UPPER)
      || (includeLower && c in LOWER)
      || (includeDigits && c in DIGITS)
      || (includeSpecial && c in SPECIAL)
  {
    (if includeUpper then UPPER else "") + (if includeLower then LOWER else "")
    + (if includeDigits then DIGITS else "") + (if includeSpecial then SPECIAL else "")
  }

  /** The draws can index the pool: enough of them, each below the pool's size. */
  predicate DrawsFit(draws: seq<nat>, length: int, poolSize: nat)
  {
    |draws| >= length && forall i :: 0 <= i < |draws| ==> draws[i] < poolSize
  }

  /** `generate`: the empty string when no class is enabled, otherwise one pool
      character per position of `1..length` (none when `length` is below one). */
  function Generate(draws: seq<nat>, length: int := 16, includeUpper: bool := true, includeLower: bool := true,
                    includeDigits: bool := true, includeSpecial: bool := true): (password: string)
    requires var pool := CharPool(includeUpper, includeLower, includeDigits, includeSpecial);
      pool != [] ==> DrawsFit(draws, length, |pool|)
    ensures !(includeUpper || includeLower || includeDigits || includeSpecial) ==> password == ""
    ensures length <= 0 ==> password == ""
    ensures (includeUpper || includeLower || includeDigits || includeSpecial) && length > 0 ==> |password| == length
    ensures forall i :: 0 <= i < |password| ==>
      password[i] in CharPool(includeUpper, includeLower, includeDigits, includeSpecial)
  {
    var pool := CharPool(includeUpper, includeLower, includeDigits, includeSpecial);
    if pool == [] then ""
    else if length <= 0 then ""
    else seq(length, i requires 0 <= i < length => pool[draws[i]])
  }

  lemma UpperRange(c: char)
    requires c in UPPER
    ensures 'A' <= c <= 'Z'
  {
  }

  lemma LowerRange(c: char)
    requires c in LOWER
    ensures 'a' <= c <= 'z'
  {
  }

  lemma DigitsRange(c: char)
    requires c in DIGITS
    ensures '0' <= c <= '9'
  {
  }

  lemma SpecialNotAlphanumeric(c: char)
    requires c in SPECIAL
    ensures !('A' <= c <= 'Z') && !('a' <= c <= 'z') && !('0' <= c <= '9')
  {
  }

  /** The four classes share no character. */
  lemma ClassesDisjoint(c: char)
    ensures c in UPPER ==> c !in LOWER && c !in DIGITS && c !in SPECIAL
    ensures c in LOWER ==> c !in DIGITS && c !in SPECIAL
    ensures c in DIGITS ==> c !in SPECIAL
  {
    if c in UPPER { UpperRange(c); }
    if c in LOWER { LowerRange(c); }
    if c in DIGITS { DigitsRange(c); }
    if c in SPECIAL { SpecialNotAlphanumeric(c); }
  }

  /** The default pool has all 88 characters. */
  lemma DefaultPool()
    ensures |CharPool(true, true, true, true)| == 88
  {
  }

  /** Only enabled classes appear: a disabled class contributes no character. */
  lemma {:induction false} DisabledClassAbsent(draws: seq<nat>, length: int, includeUpper: bool, includeLower: bool,
                                               includeDigits: bool, includeSpecial: bool, i: nat)
    requires var pool := CharPool(includeUpper, includeLower, includeDigits, includeSpecial);
      pool != [] ==> DrawsFit(draws, length, |pool|)
    requires i < |Generate(draws, length, includeUpper, includeLower, includeDigits, includeSpecial)|
    ensures var c := Generate(draws, length, includeUpper, includeLower, includeDigits, includeSpecial)[i];
      && (!includeUpper ==> c !in UPPER)
      && (!includeLower ==> c !in LOWER)
      && (!includeDigits ==> c !in DIGITS)
      && (!includeSpecial ==> c !in SPECIAL)
  {
    var c := Generate(draws, length, includeUpper, includeLower, includeDigits, includeSpecial)[i];
    ClassesDisjoint(c);
  }

  /** Each position is the pool character the corresponding draw selects,
      whatever classes are enabled, so a uniform draw gives a uniform
      character of the pool. */
  lemma PositionIsDraw(draws: seq<nat>, length: int, includeUpper: bool, includeLower: bool,
                       includeDigits: bool, includeSpecial: bool, i: nat)
    requires CharPool(includeUpper, includeLower, includeDigits, includeSpecial) != []
    requires DrawsFit(draws, length, |CharPool(includeUpper, includeLower, includeDigits, includeSpecial)|)
    requires i < length
    ensures Generate(draws, length, includeUpper, includeLower, includeDigits, includeSpecial)[i]
      == CharPool(includeUpper, includeLower, includeDigits, includeSpecial)[draws[i]]
  {
  }
}
