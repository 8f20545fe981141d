/**
 * `HomeViewModel`: the in-memory account list behind the home screen, the
 * precomputed TOTP codes, the single pending save, the backup export and
 * import, and the release-version comparison of the update check.
 *
 * The debounced save job is one slot: `ScheduleSave` marks a save as pending
 * (cancelling and replacing any earlier one), and `FlushPendingSave` is the
 * moment its delay expires, when the list as it then stands is written.
 */
module Home {
  import opened Wrappers
  import opened Primitives
  import opened Text
  import opened RustCore
  import OtpAlgorithms
  import TotpUtil
  import SecurityUtil

  // ----- list helpers -----

  /** The first position of `x` in `s`. */
  function FirstIndexOf<T(==)>(s: seq<T>, x: T): (i: nat)
    requires x in s
    ensures i < |s| && s[i] == x
    ensures forall k :: 0 <= k < i ==> s[k] != x
  {
    if s[0] == x then 0 else 1 + FirstIndexOf(s[1..], x)
  }

  /** `MutableList.removeAt(i)`: the element at `i` is taken out and the
      later ones move down by one. */
  function RemoveAt<T>(s: seq<T>, i: nat): (r: seq<T>)
    requires i < |s|
    ensures |r| == |s| - 1
    ensures forall k :: 0 <= k < i ==> r[k] == s[k]
    ensures forall k :: i <= k < |r| ==> r[k] == s[k + 1]
    ensures multiset(r) + multiset{s[i]} == multiset(s)
  {
    assert s == s[..i] + [s[i]] + s[i + 1..];
    s[..i] + s[i + 1..]
  }

  /** `MutableList.add(i, x)`: `x` is put at `i` and the later elements move
      up by one. */
  function InsertAt<T>(s: seq<T>, i: nat, x: T): (r: seq<T>)
    requires i <= |s|
    ensures |r| == |s| + 1 && r[i] == x
    ensures forall k :: 0 <= k < i ==> r[k] == s[k]
    ensures forall k :: i < k < |r| ==> r[k] == s[k - 1]
    ensures multiset(r) == multiset(s) + multiset{x}
  {
    assert s == s[..i] + s[i..];
    s[..i] + [x] + s[i..]
  }

  /** `MutableList.remove(element)`: only the first equal element goes. */
  function RemoveFirst<T(==)>(s: seq<T>, x: T): (r: seq<T>)
    ensures x !in s ==> r == s
    ensures x in s ==>
      var i := FirstIndexOf(s, x);
      && |r| == |s| - 1
      && (forall k :: 0 <= k < i ==> r[k] == s[k])
      && (forall k :: i <= k < |r| ==> r[k] == s[k + 1])
    ensures x in s ==> multiset(r) == multiset(s) - multiset{x}
  {
    if x !in s then s else RemoveAt(s, FirstIndexOf(s, x))
  }

  /** `indexOfFirst { it.id == id }`: the first position with that id, or -1. */
  function IndexOfFirstId(s: seq<Account>, id: i32): (i: int)
    ensures -1 <= i < |s|
    ensures i == -1 <==> forall k :: 0 <= k < |s| ==> s[k].id != id
    ensures i >= 0 ==> s[i].id == id && forall k :: 0 <= k < i ==> s[k].id != id
  {
    if s == [] then -1
    else if s[0].id == id then 0
    else
      var rest := IndexOfFirstId(s[1..], id);
      if rest == -1 then -1 else rest + 1
  }

  /** The app-side algorithm of the same name, which the TOTP helper takes. */
  function AppAlgorithm(a: OtpHashAlgorithm): (b: OtpAlgorithms.OtpAlgorithm)
    ensures TotpUtil.CoreAlgorithm(b) == a
  {
    match a
    case Sha1 => OtpAlgorithms.SHA1
    case Sha256 => OtpAlgorithms.SHA256
    case Sha512 => OtpAlgorithms.SHA512
  }

  // ----- backup import -----

  /** What `importBackup` reports through `onError`: the message of a bridge
      exception, the empty-backup notice, or the catch-all import failure. */
  datatype ImportError = BridgeError(message: SecurityUtil.Message) | EmptyBackup | ImportFailed

  /** The decision of `importBackup`. `content` is the file's text, `None` when
      it cannot be read (the plain `Exception` thrown then ends in the catch-all
      branch, as does a JSON error). The two bridge exceptions report their own
      message; an empty list is refused. */
  function ImportResult(content: Option<string>, password: string, s: Suite, j: SerdeJson)
    : (r: Result<seq<Account>, ImportError>)
    ensures r.Success? ==> r.value != []
    ensures content.None? ==> r == Failure(ImportFailed)
    ensures content.Some? && SecurityUtil.DecryptBackup(content.value, password, s).Failure? ==>
      r == Failure(BridgeError(SecurityUtil.DecryptBackup(content.value, password, s).error.message))
    ensures r.Success? ==>
      && content.Some?
      && SecurityUtil.DecryptBackup(content.value, password, s).Success?
      && j.decode(SecurityUtil.DecryptBackup(content.value, password, s).value) == Some(r.value)
  {
    match content
    case None => Failure(ImportFailed)
    case Some(encryptedContent) =>
      match SecurityUtil.DecryptBackup(encryptedContent, password, s)
      case Failure(e) => Failure(BridgeError(e.message))
      case Success(json) =>
        match JsonToAccounts(json, j)
        case Failure(_) => Failure(ImportFailed)
        case Success(importedAccounts) =>
          if importedAccounts != [] then Success(importedAccounts) else Failure(EmptyBackup)
  }

  /** A non-empty list that was exported is imported back unchanged. */
  lemma {:induction false} ExportThenImport(accounts: seq<Account>, password: string, salt: Bytes, iv: Bytes, s: Suite, j: SerdeJson)
    requires BackupSound(s) && JsonRoundTrip(j)
    requires accounts != []
    requires |salt| == BACKUP_SALT_LENGTH && |iv| == IV_LENGTH
    requires AccountsToJson(accounts, j).Success?
    requires SealBackup(AccountsToJson(accounts, j).value, password, salt, iv, s).Success?
    ensures ImportResult(Some(SealBackup(AccountsToJson(accounts, j).value, password, salt, iv, s).value), password, s, j)
      == Success(accounts)
  {
    var json := AccountsToJson(accounts, j).value;
    SecurityUtil.BridgeBackupRoundTrip(json, password, salt, iv, s);
    JsonRoundTripAccounts(accounts, j);
  }

  // ----- version comparison -----

  /** Kotlin's `split(sep)`: the pieces between separators, empty ones included. */
  function Split(s: string, sep: char): (parts: seq<string>)
    ensures |parts| >= 1
    ensures forall i :: 0 <= i < |parts| ==> sep !in parts[i]
    decreases |s|
  {
    if sep !in s then [s]
    else
      var k := FirstIndexOf(s, sep);
      assert sep !in s[..k];
      [s[..k]] + Split(s[k + 1..], sep)
  }

  /** The pieces put back together with the separator between them. */
  function Join(parts: seq<string>, sep: char): string
    requires |parts| >= 1
  {
    if |parts| == 1 then parts[0] else parts[0] + [sep] + Join(parts[1..], sep)
  }

  /** Splitting loses nothing: joining the pieces gives the string back. */
  lemma {:induction false} SplitJoin(s: string, sep: char)
    ensures Join(Split(s, sep), sep) == s
    decreases |s|
  {
    if sep in s {
      var k := FirstIndexOf(s, sep);
      var rest := Split(s[k + 1..], sep);
      SplitJoin(s[k + 1..], sep);
      assert Split(s, sep) == [s[..k]] + rest;
      assert ([s[..k]] + rest)[1..] == rest;
      assert Join(Split(s, sep), sep) == s[..k] + [sep] + Join(rest, sep);
      assert s == s[..k] + [sep] + s[k + 1..];
    }
  }

  predicate InInt(v: int)
  {
    -0x8000_0000 <= v < 0x8000_0000
  }

  /** Kotlin's `String.toIntOrNull()` in base 10: an optional `-` or `+`
      followed by at least one digit, with a value in the `Int` range. A first
      character below `'0'` other than a sign rejects the string. */
  function ToIntOrNull(s: string): (r: Option<i32>)
    ensures s == [] ==> r == None
    ensures s != [] && AllDigits(s) && InInt(DigitsValue(s)) ==> r == Some(DigitsValue(s))
    ensures s != [] && AllDigits(s) && !InInt(DigitsValue(s)) ==> r == None
    ensures |s| >= 2 && s[0] == '-' && AllDigits(s[1..]) ==>
      r == if InInt(-(DigitsValue(s[1..]) as int)) then Some(-(DigitsValue(s[1..]) as int)) else None
    ensures |s| >= 2 && s[0] == '+' && AllDigits(s[1..]) ==>
      r == if InInt(DigitsValue(s[1..])) then Some(DigitsValue(s[1..])) else None
    ensures r.Some? ==> s != [] && (AllDigits(s) || (|s| >= 2 && s[0] in "+-" && AllDigits(s[1..])))
  {
    if s == [] then None
    else if s[0] < '0' then
      if |s| == 1 then None
      else if s[0] == '-' then
        if AllDigits(s[1..]) && InInt(-(DigitsValue(s[1..]) as int)) then Some(-(DigitsValue(s[1..]) as int)) else None
      else if s[0] == '+' then
        if AllDigits(s[1..]) && InInt(DigitsValue(s[1..])) then Some(DigitsValue(s[1..])) else None
      else None
    else if AllDigits(s) && InInt(DigitsValue(s)) then Some(DigitsValue(s))
    else None
  }

  /** Every `Int` rendered in decimal parses back to itself. */
  lemma {:induction false} ToIntOrNullOfDecimal(n: nat)
    requires InInt(n)
    ensures ToIntOrNull(DecimalString(n)) == Some(n)
  {
    DecimalStringValue(n);
  }

  /** `mapNotNull { it.toIntOrNull() }`: the numeric pieces, in order. */
  function NumericParts(parts: seq<string>): (r: seq<int>)
    ensures |r| <= |parts|
    ensures (forall i :: 0 <= i < |parts| ==> ToIntOrNull(parts[i]).None?) ==> r == []
    ensures |parts| == 1 ==>
      r == if ToIntOrNull(parts[0]).Some? then [ToIntOrNull(parts[0]).value as int] else []
  {
    if parts == [] then []
    else
      match ToIntOrNull(parts[0])
      case None => NumericParts(parts[1..])
      case Some(v) => [v] + NumericParts(parts[1..])
  }

  /** The numeric pieces of two runs of pieces are those of the first run
      followed by those of the second: order is kept. */
  lemma {:induction false} NumericPartsAppend(a: seq<string>, b: seq<string>)
    ensures NumericParts(a + b) == NumericParts(a) + NumericParts(b)
  {
    if a != [] {
      assert (a + b)[0] == a[0] && (a + b)[1..] == a[1..] + b;
      NumericPartsAppend(a[1..], b);
    } else {
      assert a + b == b;
    }
  }

  /** When every piece is a number, each keeps its position and its value. */
  lemma {:induction false} NumericPartsAllNumeric(parts: seq<string>)
    requires forall i :: 0 <= i < |parts| ==> ToIntOrNull(parts[i]).Some?
    ensures |NumericParts(parts)| == |parts|
    ensures forall i :: 0 <= i < |parts| ==> NumericParts(parts)[i] == ToIntOrNull(parts[i]).value as int
  {
    if parts != [] {
      NumericPartsAllNumeric(parts[1..]);
    }
  }

  /** The numeric components of a version string. */
  function VersionParts(version: string): seq<int>
  {
    NumericParts(Split(version, '.'))
  }

  /** The first `k` components of both lists agree. */
  predicate AgreeUpTo(current: seq<int>, latest: seq<int>, k: nat)
  {
    k <= |current| && k <= |latest| && forall m :: 0 <= m < k ==> current[m] == latest[m]
  }

  /** `latest` is newer than `current` in the lexicographic order on
      component lists: at the first difference `latest` is larger, or there is
      none and `latest` is the longer list. */
  ghost predicate Newer(current: seq<int>, latest: seq<int>)
  {
    exists k: nat :: AgreeUpTo(current, latest, k) && NewerAt(current, latest, k)
  }

  /** At position `k` `latest` has the larger component, or `current` has
      ended and `latest` has not. */
  predicate NewerAt(current: seq<int>, latest: seq<int>, k: nat)
  {
    (k < |current| && k < |latest| && latest[k] > current[k]) || (k == |current| && k < |latest|)
  }

  /** `isVersionNewer`. */
  method IsVersionNewer(current: string, latest: string) returns (newer: bool)
    ensures newer <==> Newer(VersionParts(current), VersionParts(latest))
  {
    var currParts := VersionParts(current);
    var latestParts := VersionParts(latest);
    var n := if |currParts| < |latestParts| then |currParts| else |latestParts|;
    var i := 0;
    while i < n
      invariant 0 <= i <= n
      invariant AgreeUpTo(currParts, latestParts, i)
    {
      if latestParts[i] > currParts[i] {
        return true;
      }
      if latestParts[i] < currParts[i] {
        forall k: nat | AgreeUpTo(currParts, latestParts, k)
          ensures k <= i
        {
        }
        return false;
      }
      i := i + 1;
    }
    newer := |latestParts| > |currParts|;
    if !newer {
      forall k: nat | AgreeUpTo(currParts, latestParts, k)
        ensures !NewerAt(currParts, latestParts, k)
      {
      }
    } else {
      assert AgreeUpTo(currParts, latestParts, n) && NewerAt(currParts, latestParts, n);
    }
  }

  /** No version is newer than itself. */
  lemma NewerIrreflexive(v: seq<int>)
    ensures !Newer(v, v)
  {
  }

  /** Of two versions at most one is newer than the other. */
  lemma NewerAsymmetric(a: seq<int>, b: seq<int>)
    ensures Newer(a, b) ==> !Newer(b, a)
  {
    if Newer(a, b) {
      var k: nat :| AgreeUpTo(a, b, k) && NewerAt(a, b, k);
      forall m: nat | AgreeUpTo(b, a, m)
        ensures !NewerAt(b, a, m)
      {
      }
    }
  }

  /** When the shorter list is a prefix of the longer, `latest` is newer
      exactly when it has more components. */
  lemma NewerOnCommonPrefix(current: seq<int>, latest: seq<int>)
    requires AgreeUpTo(current, latest, if |current| < |latest| then |current| else |latest|)
    ensures Newer(current, latest) <==> |latest| > |current|
  {
    if |latest| > |current| {
      assert AgreeUpTo(current, latest, |current|) && NewerAt(current, latest, |current|);
    }
  }

  // ----- the view model -----

  class HomeViewModel {
    /** `_accounts`. */
    var accounts: seq<Account>
    /** Whether a debounced save is waiting (`saveJob` not yet run). */
    var savePending: bool
    /** `_otpCodes`: the latest code per account id. */
    var otpCodes: map<i32, string>

    constructor()
      ensures accounts == [] && !savePending && otpCodes == map[]
    {
      accounts := [];
      savePending := false;
      otpCodes := map[];
    }

    /** `loadAccounts`: the list becomes the stored list. */
    method LoadAccounts(store: SecurityUtil.SecureStore, j: SerdeJson)
      requires store.Valid()
      modifies this
      ensures accounts == SecurityUtil.LoadAccounts(store.prefs, j)
      ensures savePending == old(savePending) && otpCodes == old(otpCodes)
    {
      accounts := [];
      accounts := accounts + SecurityUtil.LoadAccounts(store.prefs, j);
    }

    /** `scheduleSave`: replaces any pending save by a new one. */
    method ScheduleSave()
      modifies this
      ensures savePending
      ensures accounts == old(accounts) && otpCodes == old(otpCodes)
    {
      savePending := true;
    }

    /** The pending save's delay expires: the list as it stands now is saved. */
    method FlushPendingSave(store: SecurityUtil.SecureStore, j: SerdeJson)
      requires store.Valid()
      modifies this, store
      ensures store.Valid() && !savePending
      ensures old(savePending) ==> store.prefs == SecurityUtil.WithAccounts(old(store.prefs), accounts, j)
      ensures !old(savePending) ==> store.prefs == old(store.prefs)
      ensures accounts == old(accounts) && otpCodes == old(otpCodes)
    {
      if savePending {
        store.SaveAccounts(accounts, j);
        savePending := false;
      }
    }

    /** `addAccount`, with the clock, the Base32 decoder and the HMAC suite
        the code generation uses as parameters. */
    method AddAccount(account: Account, nowMillis: nat, decode: string -> Bytes, s: Suite)
      modifies this
      ensures accounts == old(accounts) + [account]
      ensures savePending
      ensures account.hasOtp && account.secretKey != "" ==>
        otpCodes == old(otpCodes)[account.id := TotpUtil.GenerateTotp(account.secretKey, AppAlgorithm(account.algorithm), nowMillis, decode, s)]
      ensures !(account.hasOtp && account.secretKey != "") ==> otpCodes == old(otpCodes)
    {
      accounts := accounts + [account];
      ScheduleSave();
      if account.hasOtp && account.secretKey != "" {
        otpCodes := otpCodes[account.id := TotpUtil.GenerateTotp(account.secretKey, AppAlgorithm(account.algorithm), nowMillis, decode, s)];
      }
    }

    /** `deleteAccount`: removes the first equal account, if any; a save is
        scheduled either way. */
    method DeleteAccount(account: Account)
      modifies this
      ensures accounts == RemoveFirst(old(accounts), account)
      ensures savePending && otpCodes == old(otpCodes)
    {
      accounts := RemoveFirst(accounts, account);
      ScheduleSave();
    }

    /** `updatePassword`: the first account with the id gets the new password,
        every other account and every other field stays; an unknown id
        changes nothing and schedules no save. */
    method UpdatePassword(accountId: i32, newPassword: string)
      modifies this
      ensures var index := IndexOfFirstId(old(accounts), accountId);
        if index == -1 then
          accounts == old(accounts) && savePending == old(savePending)
        else
          && |accounts| == |old(accounts)|
          && accounts[index] == old(accounts)[index].(password := newPassword)
          && (forall k :: 0 <= k < |accounts| && k != index ==> accounts[k] == old(accounts)[k])
          && savePending
      ensures otpCodes == old(otpCodes)
    {
      var index := IndexOfFirstId(accounts, accountId);
      if index != -1 {
        var oldAccount := accounts[index];
        accounts := accounts[index := oldAccount.(password := newPassword)];
        ScheduleSave();
      }
    }

    /** `moveAccount`: `removeAt(fromIndex)` then `add(toIndex, …)`. Equal or
        out-of-range indices change nothing; otherwise the list is a
        permutation of the old one with the moved account at `toIndex`, the
        accounts in between shifted by one, and the rest in place. */
    method MoveAccount(fromIndex: int, toIndex: int)
      modifies this
      ensures fromIndex == toIndex || !(0 <= fromIndex < |old(accounts)|) || !(0 <= toIndex < |old(accounts)|) ==>
        accounts == old(accounts) && savePending == old(savePending)
      ensures fromIndex != toIndex && 0 <= fromIndex < |old(accounts)| && 0 <= toIndex < |old(accounts)| ==>
        && |accounts| == |old(accounts)|
        && multiset(accounts) == multiset(old(accounts))
        && accounts[toIndex] == old(accounts)[fromIndex]
        && (forall k :: 0 <= k < |accounts| && (k < fromIndex || k > toIndex) && (k < toIndex || k > fromIndex) ==>
              accounts[k] == old(accounts)[k])
        && (forall k :: fromIndex <= k < toIndex ==> accounts[k] == old(accounts)[k + 1])
        && (forall k :: toIndex < k <= fromIndex ==> accounts[k] == old(accounts)[k - 1])
        && savePending
      ensures otpCodes == old(otpCodes)
    {
      if fromIndex == toIndex || !(0 <= fromIndex < |accounts|) || !(0 <= toIndex < |accounts|) {
        return;
      }
      var moved := accounts[fromIndex];
      accounts := RemoveAt(accounts, fromIndex);
      accounts := InsertAt(accounts, toIndex, moved);
      ScheduleSave();
    }

    /** `exportBackup`, with the backup salt and IV as parameters: the
        encrypted JSON of the list, or the exception that escapes. */
    method ExportBackup(password: string, salt: Bytes, iv: Bytes, s: Suite, j: SerdeJson)
      returns (r: Result<string, SecurityUtil.JvmException>)
      requires |salt| == BACKUP_SALT_LENGTH && |iv| == IV_LENGTH
      ensures AccountsToJson(accounts, j).Failure? ==> r == Failure(SecurityUtil.Crypto(SerializationError))
      ensures AccountsToJson(accounts, j).Success? ==>
        (r.Success? <==> SealBackup(AccountsToJson(accounts, j).value, password, salt, iv, s).Success?)
      ensures r.Success? ==>
        AccountsToJson(accounts, j).Success? && r.value == SealBackup(AccountsToJson(accounts, j).value, password, salt, iv, s).value
    {
      match AccountsToJson(accounts, j)
      case Failure(e) =>
        r := Failure(SecurityUtil.Crypto(e));
      case Success(json) =>
        r := SecurityUtil.EncryptBackup(json, password, salt, iv, s);
    }

    /** `importBackup`: on success the list is replaced by the imported one
        and saved at once; on any error the list and the store are untouched
        and the error is reported. */
    method ImportBackup(content: Option<string>, password: string, store: SecurityUtil.SecureStore, s: Suite, j: SerdeJson)
      returns (error: Option<ImportError>)
      requires store.Valid()
      modifies this, store
      ensures store.Valid()
      ensures error.None? <==> ImportResult(content, password, s, j).Success?
      ensures error.None? ==>
        && accounts == ImportResult(content, password, s, j).value
        && accounts != []
        && store.prefs == SecurityUtil.WithAccounts(old(store.prefs), accounts, j)
      ensures error.Some? ==>
        && error.value == ImportResult(content, password, s, j).error
        && accounts == old(accounts)
        && store.prefs == old(store.prefs)
      ensures savePending == old(savePending) && otpCodes == old(otpCodes)
    {
      match ImportResult(content, password, s, j)
      case Failure(e) =>
        error := Some(e);
      case Success(importedAccounts) =>
        accounts := [];
        accounts := accounts + importedAccounts;
        store.SaveAccounts(accounts, j);
        error := None;
    }
  }
}
