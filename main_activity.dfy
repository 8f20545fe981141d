/**
 * The lock state machine of `MainActivity`: the screen flags, the lifecycle
 * observer (ON_START relock check, ON_STOP background time), the initial
 * check, the biometric prompt callbacks, the terms screen and the
 * master-password screen. Each event is one method; the clock, the result of
 * `canUseBiometric` and the random salt are parameters.
 *
 * `promptShown` records that a system biometric prompt is on screen; its
 * callbacks are only invoked while it is.
 */
module MainActivity {
  import opened Wrappers
  import opened Primitives
  import opened Text
  import opened RustCore
  import opened SecurityUtil

  /** The screen the `when` block composes. */
  datatype Screen = VaultHome | VaultSettings | Terms | Splash | PasswordEntry | Lock

  /** Why the master-password button refused to continue. */
  datatype PasswordError = EnterPassword | TooShort | Mismatch | WrongPassword

  /** The minimum length of a new master password. */
  const MIN_PASSWORD_LENGTH: nat := 6

  class AuthFlow {
    var isUnlocked: bool
    var showPasswordInput: bool
    var showTerms: bool
    var isCheckingAuth: bool
    var promptShown: bool
    /** `currentScreen == "settings"`; the vault shows its home page otherwise. */
    var settingsOpen: bool

    constructor()
      ensures !isUnlocked && !showPasswordInput && !showTerms && isCheckingAuth && !promptShown
      ensures !settingsOpen
    {
      settingsOpen := false;
      isUnlocked := false;
      showPasswordInput := false;
      showTerms := false;
      isCheckingAuth := true;
      promptShown := false;
    }

    /** The `when` block: the first flag that holds decides the screen. */
    function CurrentScreen(): (screen: Screen)
      reads this
      ensures screen == VaultHome <==> isUnlocked && !settingsOpen
      ensures screen == VaultSettings <==> isUnlocked && settingsOpen
      ensures screen == Terms <==> !isUnlocked && showTerms
      ensures screen == Splash <==> !isUnlocked && !showTerms && isCheckingAuth
      ensures screen == PasswordEntry <==> !isUnlocked && !showTerms && !isCheckingAuth && showPasswordInput
    {
      if isUnlocked then (if settingsOpen then VaultSettings else VaultHome)
      else if showTerms then Terms
      else if isCheckingAuth then Splash
      else if showPasswordInput then PasswordEntry
      else Lock
    }

    /** The home screen's settings button. */
    method OpenSettings()
      requires CurrentScreen() == VaultHome
      modifies this
      ensures CurrentScreen() == VaultSettings
      ensures isUnlocked == old(isUnlocked) && showPasswordInput == old(showPasswordInput)
      ensures showTerms == old(showTerms) && isCheckingAuth == old(isCheckingAuth) && promptShown == old(promptShown)
    {
      settingsOpen := true;
    }

    /** The settings screen's back action, and the back handler that is only
        installed while the unlocked app shows its settings. */
    method Back()
      modifies this
      ensures old(isUnlocked && settingsOpen) ==> CurrentScreen() == VaultHome
      ensures !old(isUnlocked && settingsOpen) ==> settingsOpen == old(settingsOpen)
      ensures isUnlocked == old(isUnlocked) && showPasswordInput == old(showPasswordInput)
      ensures showTerms == old(showTerms) && isCheckingAuth == old(isCheckingAuth) && promptShown == old(promptShown)
    {
      if isUnlocked && settingsOpen {
        settingsOpen := false;
      }
    }

    /** `triggerBiometric`: shows the system prompt. */
    method TriggerBiometric()
      modifies this
      ensures settingsOpen == old(settingsOpen)
      ensures promptShown
      ensures isUnlocked == old(isUnlocked) && showPasswordInput == old(showPasswordInput)
      ensures showTerms == old(showTerms) && isCheckingAuth == old(isCheckingAuth)
    {
      promptShown := true;
    }

    /** `onAuthenticationSucceeded` → `onSuccess`: unlocked, password input hidden. */
    method OnBiometricSucceeded()
      requires promptShown
      modifies this
      ensures settingsOpen == old(settingsOpen)
      ensures isUnlocked && !isCheckingAuth && !showPasswordInput && !promptShown
      ensures showTerms == old(showTerms)
    {
      isUnlocked := true;
      isCheckingAuth := false;
      showPasswordInput := false;
      promptShown := false;
    }

    /** `onAuthenticationError` → `onCancel` for every error code: the
        password input is shown and the app stays as locked as it was. */
    method OnBiometricError(errorCode: int)
      requires promptShown
      modifies this
      ensures settingsOpen == old(settingsOpen)
      ensures showPasswordInput && !isCheckingAuth && !promptShown
      ensures isUnlocked == old(isUnlocked) && showTerms == old(showTerms)
    {
      // The user-cancel and negative-button codes and every other code take
      // the same path.
      showPasswordInput := true;
      isCheckingAuth := false;
      promptShown := false;
    }

    /** ON_START at monotonic time `now`: relock when terms are accepted, a
        master password is set and the background time has run out; then
        biometric when enabled and available, the password input otherwise.
        An app that need not relock keeps its state. */
    method OnStart(store: SecureStore, now: int, biometricAvailable: bool)
      requires store.Valid()
      modifies this
      ensures settingsOpen == old(settingsOpen)
      ensures var relock := IsTermsAccepted(store.prefs) && IsMasterPasswordSet(store.prefs)
                           && ShouldReauthenticate(store.prefs, now);
        && (relock ==> !isUnlocked)
        && (relock && IsBiometricEnabled(store.prefs) && biometricAvailable ==>
              isCheckingAuth && promptShown && showPasswordInput == old(showPasswordInput))
        && (relock && !(IsBiometricEnabled(store.prefs) && biometricAvailable) ==>
              showPasswordInput && !isCheckingAuth && promptShown == old(promptShown))
        && (!relock ==> isUnlocked == old(isUnlocked) && showPasswordInput == old(showPasswordInput)
                        && promptShown == old(promptShown))
        && (!relock && old(isUnlocked) ==> !isCheckingAuth)
        && (!relock && !old(isUnlocked) ==> isCheckingAuth == old(isCheckingAuth))
      ensures showTerms == old(showTerms)
    {
      if IsTermsAccepted(store.prefs) && IsMasterPasswordSet(store.prefs) && ShouldReauthenticate(store.prefs, now) {
        isUnlocked := false;
        isCheckingAuth := true;
        if IsBiometricEnabled(store.prefs) && biometricAvailable {
          TriggerBiometric();
        } else {
          showPasswordInput := true;
          isCheckingAuth := false;
        }
      } else if isUnlocked {
        isCheckingAuth := false;
      }
    }

    /** ON_STOP at monotonic time `now`: the background time is recorded. */
    method OnStop(store: SecureStore, now: int)
      requires store.Valid()
      modifies store
      ensures store.Valid()
      ensures store.prefs == old(store.prefs)[KEY_LAST_BACKGROUND_TIME := LongPref(now)]
      ensures now != 0 ==> LastBackgroundTime(store.prefs) == now
    {
      store.MarkEnterBackground(now);
    }

    /** The first `LaunchedEffect`: terms first, then a missing master
        password, then the lock of a locked app. It never unlocks. */
    method InitialCheck(store: SecureStore, biometricAvailable: bool)
      requires store.Valid()
      modifies this
      ensures settingsOpen == old(settingsOpen)
      ensures isUnlocked == old(isUnlocked)
      ensures !IsTermsAccepted(store.prefs) ==>
        showTerms && !isCheckingAuth && showPasswordInput == old(showPasswordInput) && promptShown == old(promptShown)
      ensures IsTermsAccepted(store.prefs) && !IsMasterPasswordSet(store.prefs) ==>
        showPasswordInput && !isCheckingAuth && showTerms == old(showTerms) && promptShown == old(promptShown)
      ensures IsTermsAccepted(store.prefs) && IsMasterPasswordSet(store.prefs) && !old(isUnlocked) ==>
        if IsBiometricEnabled(store.prefs) && biometricAvailable
        then promptShown && isCheckingAuth == old(isCheckingAuth) && showPasswordInput == old(showPasswordInput)
        else showPasswordInput && !isCheckingAuth && promptShown == old(promptShown)
      ensures IsTermsAccepted(store.prefs) && IsMasterPasswordSet(store.prefs) && old(isUnlocked) ==>
        !isCheckingAuth && showPasswordInput == old(showPasswordInput) && promptShown == old(promptShown)
      ensures IsTermsAccepted(store.prefs) ==> showTerms == old(showTerms)
    {
      if !IsTermsAccepted(store.prefs) {
        showTerms := true;
        isCheckingAuth := false;
      } else if !IsMasterPasswordSet(store.prefs) {
        showPasswordInput := true;
        isCheckingAuth := false;
      } else if !isUnlocked {
        if IsBiometricEnabled(store.prefs) && biometricAvailable {
          TriggerBiometric();
        } else {
          showPasswordInput := true;
          isCheckingAuth := false;
        }
      } else {
        isCheckingAuth := false;
      }
    }

    /** The terms screen's `onAccepted`: terms stored; then either the
        password input (no master password yet) or the biometric prompt,
        whether or not biometric unlocking was switched on. */
    method OnTermsAccepted(store: SecureStore)
      requires store.Valid()
      modifies this, store
      ensures settingsOpen == old(settingsOpen)
      ensures store.Valid()
      ensures store.prefs == old(store.prefs)[KEY_TERMS_ACCEPTED := BoolPref(true)]
      ensures !showTerms && isUnlocked == old(isUnlocked)
      ensures !IsMasterPasswordSet(old(store.prefs)) ==>
        showPasswordInput && isCheckingAuth == old(isCheckingAuth) && promptShown == old(promptShown)
      ensures IsMasterPasswordSet(old(store.prefs)) ==>
        isCheckingAuth && promptShown && showPasswordInput == old(showPasswordInput)
    {
      store.SetTermsAccepted();
      showTerms := false;
      if !IsMasterPasswordSet(store.prefs) {
        showPasswordInput := true;
      } else {
        isCheckingAuth := true;
        TriggerBiometric();
      }
    }

    /** The lock screen's password button. */
    method OnPasswordClick()
      modifies this
      ensures settingsOpen == old(settingsOpen)
      ensures showPasswordInput
      ensures isUnlocked == old(isUnlocked) && showTerms == old(showTerms)
      ensures isCheckingAuth == old(isCheckingAuth) && promptShown == old(promptShown)
    {
      showPasswordInput := true;
    }

    /** `onUnlockSuccess`: unlocks, and on a first use with biometric hardware
        would switch biometric unlocking on. "First use" is read from the
        store at this moment. */
    method OnUnlockSuccess(store: SecureStore, biometricAvailable: bool)
      requires store.Valid()
      modifies this, store
      ensures settingsOpen == old(settingsOpen)
      ensures store.Valid() && isUnlocked
      ensures !IsMasterPasswordSet(old(store.prefs)) && biometricAvailable ==>
        store.prefs == old(store.prefs)[KEY_BIOMETRIC_ENABLED := BoolPref(true)]
      ensures IsMasterPasswordSet(old(store.prefs)) || !biometricAvailable ==> store.prefs == old(store.prefs)
      ensures showPasswordInput == old(showPasswordInput) && showTerms == old(showTerms)
      ensures isCheckingAuth == old(isCheckingAuth) && promptShown == old(promptShown)
    {
      var isFirstTime := !IsMasterPasswordSet(store.prefs);
      isUnlocked := true;
      if isFirstTime && biometricAvailable {
        store.SetBiometricEnabled(true);
      }
    }

    /** The master-password screen's button. `isFirstTime` is what the screen
        remembered when it appeared (no master password set then); `salt` is
        the native core's random salt. A blank password is refused. On first
        use the password must have six characters and match the confirmation;
        it is then stored and the app unlocks. Later, the app unlocks exactly
        when the stored record verifies the password. Because the password is
        stored before `onUnlockSuccess` looks, biometric unlocking is never
        switched on here. */
    method SubmitPassword(isFirstTime: bool, password: string, confirmPassword: string, store: SecureStore,
                          salt: Bytes, s: Suite, biometricAvailable: bool)
      returns (error: Option<PasswordError>)
      requires store.Valid()
      requires |salt| == MASTER_SALT_LENGTH
      modifies this, store
      ensures settingsOpen == old(settingsOpen)
      ensures store.Valid()
      ensures IsBlank(password) ==> error == Some(EnterPassword)
      ensures !IsBlank(password) && isFirstTime ==>
        error == (if |password| < MIN_PASSWORD_LENGTH then Some(TooShort)
                  else if password != confirmPassword then Some(Mismatch)
                  else None)
      ensures !IsBlank(password) && !isFirstTime ==>
        (error.None? <==> VerifyStoredPassword(old(store.prefs), password, s))
      ensures !IsBlank(password) && !isFirstTime && error.Some? ==> error.value == WrongPassword
      ensures error.Some? ==> store.prefs == old(store.prefs) && isUnlocked == old(isUnlocked)
      ensures error.None? ==> isUnlocked
      ensures error.None? && isFirstTime ==>
        var result := HashMasterPassword(password, salt, s);
        store.prefs == old(store.prefs)[KEY_MASTER_PASSWORD_HASH := StringPref(result.hash)][KEY_SALT := StringPref(result.salt)]
      ensures error.None? && !isFirstTime ==> store.prefs == old(store.prefs)
      ensures IsBiometricEnabled(store.prefs) == IsBiometricEnabled(old(store.prefs))
      ensures showPasswordInput == old(showPasswordInput) && showTerms == old(showTerms)
      ensures isCheckingAuth == old(isCheckingAuth) && promptShown == old(promptShown)
    {
      if IsBlank(password) {
        return Some(EnterPassword);
      }
      if isFirstTime {
        if |password| < MIN_PASSWORD_LENGTH {
          error := Some(TooShort);
        } else if password != confirmPassword {
          error := Some(Mismatch);
        } else {
          store.SetMasterPassword(password, salt, s);
          OnUnlockSuccess(store, biometricAvailable);
          error := None;
        }
      } else {
        if VerifyStoredPassword(store.prefs, password, s) {
          OnUnlockSuccess(store, biometricAvailable);
          error := None;
        } else {
          error := Some(WrongPassword);
        }
      }
    }
  }
}
