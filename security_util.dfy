/**
 * `SecurityUtil`: the app's security facade. It keeps the lock state, the
 * settings, the master-password record and the serialised accounts in one
 * encrypted preferences file, and forwards backup and password operations to
 * the native core, turning its errors into Kotlin exceptions.
 *
 * The preferences are a map from key to typed value. Readers are functions of
 * the map; writers are the methods of `SecureStore`, which owns it. The
 * monotonic clock (`SystemClock.elapsedRealtime()`) and the random salts are
 * parameters.
 */
module SecurityUtil {
  import opened Wrappers
  import opened Primitives
  import opened RustCore

  const KEY_AUTO_LOCK_TIME: string := "auto_lock_time"
  /** 30 seconds, in milliseconds. */
  const DEFAULT_AUTO_LOCK_TIME: int := 30 * 1000
  const KEY_LAST_BACKGROUND_TIME: string := "last_background_time"
  const KEY_MASTER_PASSWORD_HASH: string := "master_password_hash"
  const KEY_SALT: string := "master_password_salt"
  const KEY_BIOMETRIC_ENABLED: string := "biometric_enabled"
  const KEY_ACCOUNTS: string := "stored_accounts"
  const KEY_TERMS_ACCEPTED: string := "terms_accepted"

  datatype PrefValue = LongPref(long: int) | BoolPref(flag: bool) | StringPref(str: string)

  type Prefs = map<string, PrefValue>

  /** Every key holds the type its reader asks for, so no `getLong`,
      `getBoolean` or `getString` throws `ClassCastException`. */
  predicate WellTyped(p: Prefs)
  {
    && (KEY_LAST_BACKGROUND_TIME in p ==> p[KEY_LAST_BACKGROUND_TIME].LongPref?)
    && (KEY_AUTO_LOCK_TIME in p ==> p[KEY_AUTO_LOCK_TIME].LongPref?)
    && (KEY_TERMS_ACCEPTED in p ==> p[KEY_TERMS_ACCEPTED].BoolPref?)
    && (KEY_BIOMETRIC_ENABLED in p ==> p[KEY_BIOMETRIC_ENABLED].BoolPref?)
    && (KEY_ACCOUNTS in p ==> p[KEY_ACCOUNTS].StringPref?)
    && (KEY_MASTER_PASSWORD_HASH in p ==> p[KEY_MASTER_PASSWORD_HASH].StringPref?)
    && (KEY_SALT in p ==> p[KEY_SALT].StringPref?)
  }

  // ----- readers -----

  /** `getLong(KEY_LAST_BACKGROUND_TIME, 0L)`: 0 means "active or just unlocked". */
  function LastBackgroundTime(p: Prefs): (t: int)
    requires WellTyped(p)
    ensures KEY_LAST_BACKGROUND_TIME !in p ==> t == 0
  {
    if KEY_LAST_BACKGROUND_TIME in p then p[KEY_LAST_BACKGROUND_TIME].long else 0
  }

  /** `getAutoLockTime`: the stored threshold, 30 000 ms when none is stored. */
  function AutoLockTime(p: Prefs): (ms: int)
    requires WellTyped(p)
    ensures KEY_AUTO_LOCK_TIME !in p ==> ms == DEFAULT_AUTO_LOCK_TIME
  {
    if KEY_AUTO_LOCK_TIME in p then p[KEY_AUTO_LOCK_TIME].long else DEFAULT_AUTO_LOCK_TIME
  }

  /** `shouldReauthenticate` at monotonic time `now`: only when a background
      time is recorded and strictly more than the threshold has elapsed. */
  function ShouldReauthenticate(p: Prefs, now: int): (r: bool)
    requires WellTyped(p)
    ensures LastBackgroundTime(p) == 0 ==> !r
    ensures r <==> LastBackgroundTime(p) != 0 && now > LastBackgroundTime(p) + AutoLockTime(p)
  {
    var lastTime := LastBackgroundTime(p);
    if lastTime == 0 then false
    else
      var elapsed := now - lastTime;
      elapsed > AutoLockTime(p)
  }

  /** `isTermsAccepted`: false until accepted. */
  function IsTermsAccepted(p: Prefs): (r: bool)
    requires WellTyped(p)
    ensures r ==> KEY_TERMS_ACCEPTED in p
  {
    KEY_TERMS_ACCEPTED in p && p[KEY_TERMS_ACCEPTED].flag
  }

  /** `isBiometricEnabled`: false until switched on. */
  function IsBiometricEnabled(p: Prefs): (r: bool)
    requires WellTyped(p)
    ensures r ==> KEY_BIOMETRIC_ENABLED in p
  {
    KEY_BIOMETRIC_ENABLED in p && p[KEY_BIOMETRIC_ENABLED].flag
  }

  /** `isMasterPasswordSet`: the hash key is present, whatever the salt. A
      store without it accepts no password at all. */
  function IsMasterPasswordSet(p: Prefs): (r: bool)
    ensures !r && WellTyped(p) ==> forall password: string, s: Suite :: !VerifyStoredPassword(p, password, s)
  {
    KEY_MASTER_PASSWORD_HASH in p
  }

  /** `loadAccounts`: no stored list, or one that does not parse, reads as
      the empty list. */
  function LoadAccounts(p: Prefs, j: SerdeJson): (accounts: seq<Account>)
    requires WellTyped(p)
    ensures KEY_ACCOUNTS !in p ==> accounts == []
    ensures KEY_ACCOUNTS in p && j.decode(p[KEY_ACCOUNTS].str).None? ==> accounts == []
    ensures KEY_ACCOUNTS in p && j.decode(p[KEY_ACCOUNTS].str).Some? ==> accounts == j.decode(p[KEY_ACCOUNTS].str).value
  {
    if KEY_ACCOUNTS !in p then []
    else
      match JsonToAccounts(p[KEY_ACCOUNTS].str, j)
      case Failure(_) => []
      case Success(accounts) => accounts
  }

  /** The store after `saveAccounts`: the JSON of the list under its key, or
      no change at all when serialisation fails (the exception is logged and
      swallowed). */
  function WithAccounts(p: Prefs, accounts: seq<Account>, j: SerdeJson): (q: Prefs)
    ensures WellTyped(p) ==> WellTyped(q)
    ensures AccountsToJson(accounts, j).Failure? ==> q == p
    ensures AccountsToJson(accounts, j).Success? ==>
      && KEY_ACCOUNTS in q && q[KEY_ACCOUNTS] == StringPref(AccountsToJson(accounts, j).value)
      && forall k :: k in p && k != KEY_ACCOUNTS ==> k in q && q[k] == p[k]
    ensures q.Keys == p.Keys || q.Keys == p.Keys + {KEY_ACCOUNTS}
  {
    match AccountsToJson(accounts, j)
    case Failure(_) => p
    case Success(json) => p[KEY_ACCOUNTS := StringPref(json)]
  }

  /** `verifyMasterPassword`: false when the hash or the salt is missing,
      otherwise the native check against the stored pair. */
  function VerifyStoredPassword(p: Prefs, password: string, s: Suite): (ok: bool)
    requires WellTyped(p)
    ensures ok ==> KEY_MASTER_PASSWORD_HASH in p && KEY_SALT in p
    ensures ok <==> (
      && KEY_MASTER_PASSWORD_HASH in p && KEY_SALT in p
      && VerifyMasterPassword(password, p[KEY_MASTER_PASSWORD_HASH].str, p[KEY_SALT].str, s))
  {
    if KEY_MASTER_PASSWORD_HASH !in p then false
    else if KEY_SALT !in p then false
    else VerifyMasterPassword(password, p[KEY_MASTER_PASSWORD_HASH].str, p[KEY_SALT].str, s)
  }

  // ----- the backup bridge -----

  /** The user-facing messages of the exceptions the bridge throws. */
  datatype Message =
    | BackupParametersInvalid
    | BackupEncryptionFailed
    | BackupVersionIncompatible
    | BackupFormatInvalid
    | BackupFormatInvalidOrCorrupt
    | WrongPasswordOrCorrupt
    | DecryptionFailedGeneric

  /** The exceptions that cross the bridge: the two Kotlin exceptions thrown
      here, and a native `CryptoException` passed through unchanged. */
  datatype JvmException =
    | IllegalArgument(message: Message)
    | IllegalState(message: Message, cause: Option<CryptoError>)
    | Crypto(error: CryptoError)

  /** The `catch` chain of `encryptBackup`. */
  function EncryptException(e: CryptoError): (x: JvmException)
    ensures e == InvalidParameter <==> x == IllegalArgument(BackupParametersInvalid)
    ensures e != InvalidParameter <==> x == IllegalState(BackupEncryptionFailed, Some(e))
  {
    if e == InvalidParameter then IllegalArgument(BackupParametersInvalid)
    else IllegalState(BackupEncryptionFailed, Some(e))
  }

  /** The `catch` chain of `decryptBackup`, first match wins. */
  function DecryptException(e: CryptoError): (x: JvmException)
    ensures x.IllegalArgument? <==> e in {InvalidParameter, InvalidData, DecryptionFailed}
    ensures e == UnsupportedVersion ==> x == IllegalState(BackupVersionIncompatible, None)
    ensures e == DecryptionFailed ==> x == IllegalArgument(WrongPasswordOrCorrupt)
    ensures e == InvalidData ==> x == IllegalArgument(BackupFormatInvalidOrCorrupt)
    ensures e == InvalidParameter ==> x == IllegalArgument(BackupFormatInvalid)
    ensures e !in {UnsupportedVersion, InvalidParameter, InvalidData, DecryptionFailed} ==>
      x == IllegalState(DecryptionFailedGeneric, Some(e))
  {
    match e
    case UnsupportedVersion => IllegalState(BackupVersionIncompatible, None)
    case InvalidParameter => IllegalArgument(BackupFormatInvalid)
    case InvalidData => IllegalArgument(BackupFormatInvalidOrCorrupt)
    case DecryptionFailed => IllegalArgument(WrongPasswordOrCorrupt)
    case _ => IllegalState(DecryptionFailedGeneric, Some(e))
  }

  /** `encryptBackup`: the native envelope, or the only failure the native
      side can report, a failed encryption, as an `IllegalStateException`. */
  method EncryptBackup(data: string, password: string, salt: Bytes, iv: Bytes, s: Suite)
    returns (r: Result<string, JvmException>)
    requires |salt| == BACKUP_SALT_LENGTH && |iv| == IV_LENGTH
    ensures r.Success? <==> SealBackup(data, password, salt, iv, s).Success?
    ensures r.Success? ==> r.value == SealBackup(data, password, salt, iv, s).value
    ensures r.Failure? ==> r.error == IllegalState(BackupEncryptionFailed, Some(EncryptionFailed))
  {
    var sealed := RustCore.EncryptBackup(data, password, salt, iv, s);
    match sealed
    case Success(text) =>
      r := Success(text);
    case Failure(e) =>
      r := Failure(EncryptException(e));
  }

  /** `decryptBackup`: the native result with its errors translated. Only the
      three messages for a bad version, a bad format and a wrong password can
      actually occur. */
  function DecryptBackup(encryptedBase64: string, password: string, s: Suite): (r: Result<string, JvmException>)
    ensures r.Success? <==> RustCore.DecryptBackup(encryptedBase64, password, s).Success?
    ensures r.Success? ==> r.value == RustCore.DecryptBackup(encryptedBase64, password, s).value
    ensures r.Failure? ==> r.error in {
      IllegalState(BackupVersionIncompatible, None),
      IllegalArgument(BackupFormatInvalidOrCorrupt),
      IllegalArgument(WrongPasswordOrCorrupt)}
  {
    match RustCore.DecryptBackup(encryptedBase64, password, s)
    case Success(text) => Success(text)
    case Failure(e) => Failure(DecryptException(e))
  }

  /** The backup round trip survives the bridge. */
  lemma {:induction false} BridgeBackupRoundTrip(data: string, password: string, salt: Bytes, iv: Bytes, s: Suite)
    requires BackupSound(s)
    requires |salt| == BACKUP_SALT_LENGTH && |iv| == IV_LENGTH
    requires SealBackup(data, password, salt, iv, s).Success?
    ensures DecryptBackup(SealBackup(data, password, salt, iv, s).value, password, s) == Success(data)
  {
    BackupRoundTrip(data, password, salt, iv, s);
  }

  // ----- the store -----

  class SecureStore {
    var prefs: Prefs

    ghost predicate Valid()
      reads this
    {
      WellTyped(prefs)
    }

    /** A fresh install: nothing stored. */
    constructor()
      ensures Valid() && prefs == map[]
    {
      prefs := map[];
    }

    /** `markEnterBackground`, at monotonic time `elapsedRealtime`. */
    method MarkEnterBackground(elapsedRealtime: int)
      requires Valid()
      modifies this
      ensures Valid()
      ensures prefs == old(prefs)[KEY_LAST_BACKGROUND_TIME := LongPref(elapsedRealtime)]
    {
      prefs := prefs[KEY_LAST_BACKGROUND_TIME := LongPref(elapsedRealtime)];
    }

    /** `markAuthenticated`: clears the background time. */
    method MarkAuthenticated()
      requires Valid()
      modifies this
      ensures Valid()
      ensures prefs == old(prefs)[KEY_LAST_BACKGROUND_TIME := LongPref(0)]
      ensures forall now :: !ShouldReauthenticate(prefs, now)
    {
      prefs := prefs[KEY_LAST_BACKGROUND_TIME := LongPref(0)];
    }

    method SetAutoLockTime(timeMs: int)
      requires Valid()
      modifies this
      ensures Valid()
      ensures prefs == old(prefs)[KEY_AUTO_LOCK_TIME := LongPref(timeMs)]
      ensures AutoLockTime(prefs) == timeMs
    {
      prefs := prefs[KEY_AUTO_LOCK_TIME := LongPref(timeMs)];
    }

    method SetTermsAccepted()
      requires Valid()
      modifies this
      ensures Valid()
      ensures prefs == old(prefs)[KEY_TERMS_ACCEPTED := BoolPref(true)]
      ensures IsTermsAccepted(prefs)
    {
      prefs := prefs[KEY_TERMS_ACCEPTED := BoolPref(true)];
    }

    method SetBiometricEnabled(enabled: bool)
      requires Valid()
      modifies this
      ensures Valid()
      ensures prefs == old(prefs)[KEY_BIOMETRIC_ENABLED := BoolPref(enabled)]
      ensures IsBiometricEnabled(prefs) == enabled
    {
      prefs := prefs[KEY_BIOMETRIC_ENABLED := BoolPref(enabled)];
    }

    /** `saveAccounts`. */
    method SaveAccounts(accounts: seq<Account>, j: SerdeJson)
      requires Valid()
      modifies this
      ensures Valid()
      ensures prefs == WithAccounts(old(prefs), accounts, j)
    {
      match AccountsToJson(accounts, j)
      case Failure(_) =>
      case Success(json) =>
        prefs := prefs[KEY_ACCOUNTS := StringPref(json)];
    }

    /** `setMasterPassword`, with the salt the native core draws as a
        parameter: the hash and the salt are written in one edit. */
    method SetMasterPassword(password: string, salt: Bytes, s: Suite)
      requires Valid()
      requires |salt| == MASTER_SALT_LENGTH
      modifies this
      ensures Valid()
      ensures var result := HashMasterPassword(password, salt, s);
        prefs == old(prefs)[KEY_MASTER_PASSWORD_HASH := StringPref(result.hash)][KEY_SALT := StringPref(result.salt)]
      ensures IsMasterPasswordSet(prefs)
    {
      var result := HashMasterPassword(password, salt, s);
      prefs := prefs[KEY_MASTER_PASSWORD_HASH := StringPref(result.hash)][KEY_SALT := StringPref(result.salt)];
    }
  }

  // ----- properties of the stored state -----

  /** The lock decision is monotone in time: once due, it stays due. */
  lemma ReauthenticationMonotone(p: Prefs, t1: int, t2: int)
    requires WellTyped(p)
    requires t1 <= t2 && ShouldReauthenticate(p, t1)
    ensures ShouldReauthenticate(p, t2)
  {
  }

  /** With the default threshold the lock is strict: exactly 30 000 ms after
      going to the background no re-authentication is asked for, 30 001 ms
      after it is. */
  lemma DefaultThresholdIsStrict(p: Prefs, t: int)
    requires WellTyped(p) && KEY_AUTO_LOCK_TIME !in p && t != 0
    ensures !ShouldReauthenticate(p[KEY_LAST_BACKGROUND_TIME := LongPref(t)], t + DEFAULT_AUTO_LOCK_TIME)
    ensures ShouldReauthenticate(p[KEY_LAST_BACKGROUND_TIME := LongPref(t)], t + DEFAULT_AUTO_LOCK_TIME + 1)
  {
  }

  /** A monotonic clock reading of exactly 0 is indistinguishable from
      "authenticated": going to the background at time 0 never locks. */
  lemma BackgroundAtZeroNeverLocks(p: Prefs, now: int)
    requires WellTyped(p)
    ensures !ShouldReauthenticate(p[KEY_LAST_BACKGROUND_TIME := LongPref(0)], now)
  {
  }

  /** Accounts saved successfully are loaded back unchanged. */
  lemma {:induction false} SaveThenLoad(p: Prefs, accounts: seq<Account>, j: SerdeJson)
    requires WellTyped(p) && JsonRoundTrip(j)
    requires AccountsToJson(accounts, j).Success?
    ensures LoadAccounts(WithAccounts(p, accounts, j), j) == accounts
  {
    JsonRoundTripAccounts(accounts, j);
  }

  /** After the master password is set, that password verifies. */
  lemma {:induction false} SetThenVerify(p: Prefs, password: string, salt: Bytes, s: Suite)
    requires WellTyped(p) && HexRoundTrip(s)
    requires |salt| == MASTER_SALT_LENGTH
    ensures var result := HashMasterPassword(password, salt, s);
      var q := p[KEY_MASTER_PASSWORD_HASH := StringPref(result.hash)][KEY_SALT := StringPref(result.salt)];
      WellTyped(q) && IsMasterPasswordSet(q) && VerifyStoredPassword(q, password, s)
  {
    VerifyHashedPassword(password, salt, s);
  }
}
