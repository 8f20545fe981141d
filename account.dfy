/**
 * The app's own `Account` record (`model/Account.kt`). The password, the TOTP
 * secret, the algorithm and the OTP flag have defaults; the icon initial is a
 * single character.
 */
module AccountModel {
  import opened Primitives
  import opened OtpAlgorithms

  datatype Account = Account(
    id: i32,
    name: string,
    username: string,
    password: string := "",
    iconInitial: char,
    secretKey: string := "",
    algorithm: OtpAlgorithm := SHA1,
    hasOtp: bool := false)

  /** An account built from the four required fields only: no password, no
      secret, SHA1, and no second factor. */
  function PlainAccount(id: i32, name: string, username: string, iconInitial: char): (a: Account)
    ensures a.id == id && a.name == name && a.username == username && a.iconInitial == iconInitial
    ensures a.password == "" && a.secretKey == "" && a.algorithm == SHA1 && !a.hasOtp
  {
    Account(id, name, username, iconInitial := iconInitial)
  }

  /** Data-class `copy` of one field keeps every other field and equality is
      field-wise. */
  lemma CopyPassword(a: Account, password: string)
    ensures a.(password := password).password == password
    ensures a.(password := password) == a <==> a.password == password
    ensures a.(password := password).(password := a.password) == a
  {
  }
}
