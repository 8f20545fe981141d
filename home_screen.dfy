/**
 * The decisions of the home screen (`ui/home/HomeScreen.kt`): how an account
 * is built from the add dialog, how that dialog validates its two steps, how
 * the edit-password dialog refuses a blank password, how a typed TOTP secret
 * is normalised and how a six-digit code is grouped for display.
 *
 * The dialogs' remembered state becomes the fields of a class; each button or
 * input handler is a method. Error texts are modelled as flags saying whether
 * the field's error message is shown.
 */
module HomeScreen {
  import opened Wrappers
  import opened Primitives
  import opened Text
  import opened OtpAlgorithms
  import opened AccountModel
  import TotpUtil
  import PasswordGenerator

  /** Kotlin's `Long.toInt()`: the low 32 bits read as a signed `Int`. */
  function ToInt32(n: int): (r: i32)
    ensures (r - n) % 0x1_0000_0000 == 0
    ensures -0x8000_0000 <= n < 0x8000_0000 ==> r == n
  {
    var low := n % 0x1_0000_0000;
    if low >= 0x8000_0000 then low - 0x1_0000_0000 else low
  }

  /** `createAccount`, with `System.currentTimeMillis()` as `nowMillis`. */
  function CreateAccount(name: string, user: string, pass: string, otp: bool, key: string, algo: OtpAlgorithm, nowMillis: int)
    : (a: Account)
    ensures a.id == ToInt32(nowMillis)
    ensures a.name == name && a.username == user && a.password == pass && a.algorithm == algo
    ensures name == [] ==> a.iconInitial == '?'
    ensures name != [] ==> a.iconInitial == ToUpper(name[0])
    ensures a.hasOtp == otp
    ensures a.secretKey == if otp then key else ""
  {
    Account(
      id := ToInt32(nowMillis),
      name := name,
      username := user,
      password := pass,
      iconInitial := if name == [] then '?' else ToUpper(name[0]),
      hasOtp := otp,
      secretKey := if otp then key else "",
      algorithm := algo)
  }

  /** The secret field's input filter: upper-cased, spaces removed. */
  function NormalizeSecretInput(input: string): (secret: string)
    ensures ' ' !in secret
    ensures forall i :: 0 <= i < |secret| ==> !('a' <= secret[i] <= 'z')
    ensures |secret| <= |input|
  {
    var secret := RemoveSpaces(Upper(input));
    assert forall i :: 0 <= i < |secret| ==> !('a' <= secret[i] <= 'z') by {
      forall i | 0 <= i < |secret|
        ensures !('a' <= secret[i] <= 'z')
      {
        assert secret[i] in secret;
      }
    }
    secret
  }

  /** Typing the already normalised text again changes nothing. */
  lemma {:induction false} NormalizeIdempotent(input: string)
    ensures NormalizeSecretInput(NormalizeSecretInput(input)) == NormalizeSecretInput(input)
  {
    var secret := NormalizeSecretInput(input);
    assert Upper(secret) == secret;
    RemoveSpacesNoop(secret);
  }

  /** The code as displayed: a six-character code is split 3 + 3 by a space,
      anything else is shown as it is. */
  function DisplayCode(otpCode: string): (shown: string)
    ensures |otpCode| == 6 ==> |shown| == 7 && shown[3] == ' ' && shown[..3] + shown[4..] == otpCode
    ensures |otpCode| != 6 ==> shown == otpCode
  {
    if |otpCode| == 6 then otpCode[..3] + " " + otpCode[3..] else otpCode
  }

  /** Copying the displayed digits and dropping the space gives the code back. */
  lemma {:induction false} DisplayCodeUngroups(otpCode: string)
    requires AllDigits(otpCode)
    ensures RemoveSpaces(DisplayCode(otpCode)) == otpCode
  {
    assert forall i :: 0 <= i < |otpCode| ==> otpCode[i] != ' ';
    if |otpCode| == 6 {
      RemoveSpacesConcat(otpCode[..3], " " + otpCode[3..]);
      RemoveSpacesConcat(" ", otpCode[3..]);
      assert otpCode[..3] + (" " + otpCode[3..]) == DisplayCode(otpCode);
      assert ' ' !in otpCode[..3] && ' ' !in otpCode[3..];
      RemoveSpacesNoop(otpCode[..3]);
      RemoveSpacesNoop(otpCode[3..]);
      assert otpCode[..3] + otpCode[3..] == otpCode;
    } else {
      RemoveSpacesNoop(otpCode);
    }
  }

  /** What the add dialog may hand to `onConfirm`: the three text fields are
      filled in; an account with a second factor has a valid secret; one
      without has no secret and the default algorithm. */
  predicate AcceptedAccount(a: Account)
  {
    && !IsBlank(a.name) && !IsBlank(a.username) && !IsBlank(a.password)
    && (a.hasOtp ==> TotpUtil.IsValidSecret(a.secretKey))
    && (!a.hasOtp ==> a.secretKey == "" && a.algorithm == SHA1)
  }

  /** The fields the add dialog remembers. */
  datatype Form = Form(
    name: string,
    username: string,
    password: string,
    includeSpecial: bool,
    hasOtp: bool,
    secret: string,
    algorithm: OtpAlgorithm)

  /** Which error messages are shown under the fields. */
  datatype Errors = Errors(name: bool, username: bool, password: bool, secret: bool)

  const NoErrors: Errors := Errors(false, false, false, false)

  /** `AddAccountDialog`: step 1 asks for the basic fields and whether a
      second factor is wanted, step 2 for the TOTP secret and algorithm. */
  class AddAccountDialog {
    var step: int
    var form: Form
    var errors: Errors

    /** Step 2 is only ever reached with the basic fields filled in and the
        second factor switched on, and those inputs are not shown there. */
    ghost predicate Valid()
      reads this
    {
      && (step == 1 || step == 2)
      && (step == 2 ==> form.hasOtp && !IsBlank(form.name) && !IsBlank(form.username) && !IsBlank(form.password))
    }

    constructor()
      ensures Valid()
      ensures step == 1 && errors == NoErrors
      ensures form == Form("", "", "", true, false, "", SHA1)
    {
      step := 1;
      form := Form("", "", "", true, false, "", SHA1);
      errors := NoErrors;
    }

    method EditName(value: string)
      requires Valid() && step == 1
      modifies this
      ensures Valid()
      ensures form == old(form).(name := value) && errors == old(errors).(name := false) && step == old(step)
    {
      form := form.(name := value);
      errors := errors.(name := false);
    }

    method EditUsername(value: string)
      requires Valid() && step == 1
      modifies this
      ensures Valid()
      ensures form == old(form).(username := value) && errors == old(errors).(username := false) && step == old(step)
    {
      form := form.(username := value);
      errors := errors.(username := false);
    }

    method EditPassword(value: string)
      requires Valid() && step == 1
      modifies this
      ensures Valid()
      ensures form == old(form).(password := value) && errors == old(errors).(password := false) && step == old(step)
    {
      form := form.(password := value);
      errors := errors.(password := false);
    }

    /** The generator button: a fresh 16-character password, special
        characters included as the check box says. */
    method GeneratePassword(draws: seq<nat>)
      requires Valid() && step == 1
      requires PasswordGenerator.DrawsFit(draws, 16, |PasswordGenerator.CharPool(true, true, true, form.includeSpecial)|)
      modifies this
      ensures Valid()
      ensures form == old(form).(password := PasswordGenerator.Generate(draws, includeSpecial := old(form).includeSpecial))
      ensures |form.password| == 16
      ensures errors == old(errors).(password := false) && step == old(step)
    {
      form := form.(password := PasswordGenerator.Generate(draws, includeSpecial := form.includeSpecial));
      errors := errors.(password := false);
    }

    method ToggleSpecial()
      requires Valid() && step == 1
      modifies this
      ensures Valid()
      ensures form == old(form).(includeSpecial := !old(form).includeSpecial) && errors == old(errors) && step == old(step)
    {
      form := form.(includeSpecial := !form.includeSpecial);
    }

    method SetHasOtp(enabled: bool)
      requires Valid() && step == 1
      modifies this
      ensures Valid()
      ensures form == old(form).(hasOtp := enabled) && errors == old(errors) && step == old(step)
    {
      form := form.(hasOtp := enabled);
    }

    /** The secret field: the typed text is stored normalised. */
    method EditSecret(value: string)
      requires Valid() && step == 2
      modifies this
      ensures Valid()
      ensures form == old(form).(secret := NormalizeSecretInput(value))
      ensures errors == old(errors).(secret := false) && step == old(step)
    {
      form := form.(secret := NormalizeSecretInput(value));
      errors := errors.(secret := false);
    }

    method SelectAlgorithm(algorithm: OtpAlgorithm)
      requires Valid() && step == 2
      modifies this
      ensures Valid()
      ensures form == old(form).(algorithm := algorithm) && errors == old(errors) && step == old(step)
    {
      form := form.(algorithm := algorithm);
    }

    /** The confirm button. In step 1 every blank field gets its error and
        nothing happens; otherwise a second factor leads to step 2 and its
        absence creates the account at once. In step 2 an invalid secret gets
        its error; a valid one creates the account. */
    method Confirm(nowMillis: int) returns (created: Option<Account>)
      requires Valid()
      modifies this
      ensures Valid()
      ensures form == old(form)
      ensures created.Some? ==> AcceptedAccount(created.value)
      ensures old(step) == 1 ==>
        && errors.name == (old(errors).name || IsBlank(form.name))
        && errors.username == (old(errors).username || IsBlank(form.username))
        && errors.password == (old(errors).password || IsBlank(form.password))
        && errors.secret == old(errors).secret
      ensures old(step) == 1 && (IsBlank(form.name) || IsBlank(form.username) || IsBlank(form.password)) ==>
        created.None? && step == 1
      ensures old(step) == 1 && !IsBlank(form.name) && !IsBlank(form.username) && !IsBlank(form.password) ==>
        if form.hasOtp then created.None? && step == 2
        else created == Some(CreateAccount(form.name, form.username, form.password, false, "", SHA1, nowMillis)) && step == 1
      ensures old(step) == 2 ==> step == 2
      ensures old(step) == 2 && !TotpUtil.IsValidSecret(form.secret) ==>
        created.None? && errors == old(errors).(secret := true)
      ensures old(step) == 2 && TotpUtil.IsValidSecret(form.secret) ==>
        created == Some(CreateAccount(form.name, form.username, form.password, true, form.secret, form.algorithm, nowMillis))
        && errors == old(errors)
    {
      if step == 1 {
        var hasError := false;
        if IsBlank(form.name) { errors := errors.(name := true); hasError := true; }
        if IsBlank(form.username) { errors := errors.(username := true); hasError := true; }
        if IsBlank(form.password) { errors := errors.(password := true); hasError := true; }
        if hasError {
          return None;
        }
        if form.hasOtp {
          step := 2;
          created := None;
        } else {
          created := Some(CreateAccount(form.name, form.username, form.password, false, "", SHA1, nowMillis));
        }
      } else {
        if !TotpUtil.IsValidSecret(form.secret) {
          errors := errors.(secret := true);
          return None;
        }
        created := Some(CreateAccount(form.name, form.username, form.password, true, form.secret, form.algorithm, nowMillis));
      }
    }

    /** The dismiss button: back from step 2 to step 1, or close the dialog
        (`closed`) from step 1. */
    method Dismiss() returns (closed: bool)
      requires Valid()
      modifies this
      ensures Valid()
      ensures closed <==> old(step) == 1
      ensures step == 1 && form == old(form) && errors == old(errors)
    {
      if step == 2 {
        step := 1;
        closed := false;
      } else {
        closed := true;
      }
    }
  }

  /** Closing the dialog from outside (the back gesture or a tap beside it)
      closes it from either step and leaves its state alone. */
  method DismissRequest(dialog: AddAccountDialog) returns (closed: bool)
    requires dialog.Valid()
    ensures closed
  {
    closed := true;
  }

  /** `EditPasswordDialog`: starts from the account's current password. */
  class EditPasswordDialog {
    var newPassword: string
    var passwordError: bool
    var includeSpecial: bool

    constructor(account: Account)
      ensures newPassword == account.password && !passwordError && includeSpecial
    {
      newPassword := account.password;
      passwordError := false;
      includeSpecial := true;
    }

    method EditPassword(value: string)
      modifies this
      ensures newPassword == value && !passwordError && includeSpecial == old(includeSpecial)
    {
      newPassword := value;
      passwordError := false;
    }

    /** The generator button: a fresh 16-character password. */
    method GeneratePassword(draws: seq<nat>)
      requires PasswordGenerator.DrawsFit(draws, 16, |PasswordGenerator.CharPool(true, true, true, includeSpecial)|)
      modifies this
      ensures newPassword == PasswordGenerator.Generate(draws, includeSpecial := old(includeSpecial))
      ensures |newPassword| == 16 && !passwordError && includeSpecial == old(includeSpecial)
    {
      newPassword := PasswordGenerator.Generate(draws, includeSpecial := includeSpecial);
      passwordError := false;
    }

    method ToggleSpecial()
      modifies this
      ensures includeSpecial == !old(includeSpecial)
      ensures newPassword == old(newPassword) && passwordError == old(passwordError)
    {
      includeSpecial := !includeSpecial;
    }

    /** The save button: a blank password shows the error and is not passed
        on; any other is handed to `onConfirm`. */
    method Confirm() returns (confirmed: Option<string>)
      modifies this
      ensures confirmed.Some? ==> !IsBlank(confirmed.value) && confirmed.value == newPassword
      ensures confirmed.None? <==> IsBlank(newPassword)
      ensures passwordError == (old(passwordError) || IsBlank(newPassword))
      ensures newPassword == old(newPassword) && includeSpecial == old(includeSpecial)
    {
      if IsBlank(newPassword) {
        passwordError := true;
        confirmed := None;
      } else {
        confirmed := Some(newPassword);
      }
    }
  }
}
