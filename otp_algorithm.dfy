/**
 * `OtpAlgorithm`: the three TOTP hash algorithms the app offers, each bound to
 * the HMAC algorithm of the one-time-password library.
 */
module OtpAlgorithms {
  import opened Primitives

  datatype OtpAlgorithm = SHA1 | SHA256 | SHA512

  /** The enum's entries in declaration order, as the algorithm picker lists them. */
  const Entries: seq<OtpAlgorithm> := [SHA1, SHA256, SHA512]

  /** `libAlgo`: the library HMAC algorithm of the same name. */
  function LibAlgo(a: OtpAlgorithm): (h: HmacAlgorithm)
    ensures a == SHA1 <==> h == HmacSha1
    ensures a == SHA256 <==> h == HmacSha256
    ensures a == SHA512 <==> h == HmacSha512
  {
    match a
    case SHA1 => HmacSha1
    case SHA256 => HmacSha256
    case SHA512 => HmacSha512
  }

  /** The position of an entry in the declaration. */
  function Ordinal(a: OtpAlgorithm): (i: nat)
    ensures i < |Entries| && Entries[i] == a
  {
    match a
    case SHA1 => 0
    case SHA256 => 1
    case SHA512 => 2
  }

  /** Every algorithm is listed exactly once, and distinct entries use
      distinct HMACs. */
  lemma EntriesComplete(a: OtpAlgorithm, b: OtpAlgorithm)
    ensures a in Entries
    ensures forall i, j :: 0 <= i < j < |Entries| ==> Entries[i] != Entries[j]
    ensures LibAlgo(a) == LibAlgo(b) ==> a == b
  {
  }
}
