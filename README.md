# Cerberus vault core in Dafny

Cerberus is an Android credential vault. It stores accounts (service name, user
name, static password and an optional TOTP secret) in an encrypted preferences
file, unlocks with a master password or biometrics, relocks after a configurable
time in the background, shows six-digit TOTP codes, and exports and imports
password-encrypted backups. A native Rust core does the cryptographic work:
the backup envelope, the master-password hash and RFC 6238 TOTP codes.

This project models that security engine and proves properties of the model.

- `rust_core.dfy` (`RustCore`) covers the native core:
  - the backup envelope `version(1) || salt(16) || iv(12) || ciphertext` and its offset parsing, including the legacy layout without a version byte;
  - the error taxonomy and the two salt-length guards;
  - master-password hashing and verification;
  - `generate_totp` with its parameter checks, dynamic truncation and zero padding.
- `security_util.dfy` (`SecurityUtil`) covers the app's security facade:
  - the preferences are a typed map owned by class `SecureStore`;
  - the lock timer has a 0 sentinel and a strict timeout;
  - it covers the terms, biometric and auto-lock settings, saving and loading accounts, and setting and verifying the master password;
  - it translates native backup errors into Kotlin exceptions.
- `home_view_model.dfy` (`Home`) covers the in-memory account list:
  - add, delete, update-password and move;
  - the single pending save slot;
  - the precomputed OTP codes;
  - all-or-nothing backup import and export;
  - the release-version comparison.
- `totp_util.dfy` (`TotpUtil`) covers secret cleaning and validation, the `"ERROR"` sentinel and the remaining seconds of a TOTP window.
- `password_generator.dfy`, `account.dfy` and `otp_algorithm.dfy` cover the password generator, the app's `Account` record and the algorithm enum.
- `home_screen.dfy` (`HomeScreen`) covers:
  - account construction;
  - the two-step add dialog and the edit-password dialog, as classes with one method per handler;
  - normalisation of secret input;
  - 3+3 grouping of displayed codes.
- `main_activity.dfy` (`MainActivity`) covers the lock state machine. Class `AuthFlow` has one method per event:
  - the initial check and the ON_START/ON_STOP observer;
  - the biometric prompt callbacks;
  - the terms screen, the lock screen and the master-password screen.
- `primitives.dfy`, `text.dfy` and `wrappers.dfy` hold the abstract primitives, the string helpers of the Kotlin and Rust standard libraries, and `Option`/`Result`.

The primitives have no definitions in the model:
- AES-256-GCM (NIST SP 800-38D);
- PBKDF2-HMAC-SHA256 (section 5.2 of RFC 8018);
- HMAC-SHA1/256/512;
- Base64 (section 4 of RFC 4648), hex, Base32 and UTF-8;
- serde JSON.

They are function values bundled in `Primitives.Suite` and `RustCore.SerdeJson`. The only facts assumed about them are decode∘encode and decrypt∘encrypt round trips, and those appear as preconditions of the lemmas that use them. Randomness is a parameter: salts, IVs and `SecureRandom` draws. The clocks are parameters too: wall time in milliseconds or seconds, and the monotonic `elapsedRealtime`. So is the platform query `canUseBiometric`.

Some behaviour of the source is modelled as written:
- Two `Account` types exist. The app's type in `model/Account.kt` has a `Char` icon initial. The native type in `rust/src/lib.rs` has a `String` one. The view model works on the native type.
- `verify_master_password` compares hex strings with plain `==`.
- `SecurityUtil.markAuthenticated` is modelled, but nothing in `MainActivity.kt` calls it.
- After first-time setup, `onUnlockSuccess` reads `isMasterPasswordSet` again, and the password was stored just before. So the "enable biometrics on first use" branch never fires. `MainActivity.AuthFlow.SubmitPassword` proves that the biometric flag never changes.
- Accepting the terms with a master password already set triggers the biometric prompt without checking whether biometrics were enabled.
- `decrypt_backup` reads the legacy layout only from an input of exactly 29 bytes. A GCM output carries a 16-byte tag, so a real legacy backup is at least 44 bytes long and is taken as versioned. `RustCore.LegacyLayoutOnlyAt29` and `RustCore.LegacyBlobRejected` state this.
- Apache's `Base32.isInAlphabet` accepts `=` and the codec's whitespace at any position. The model follows the code here, not a stricter reading of "valid Base32".

## Model

| member | source | states |
|---|---|---|
| RustCore.HmacOf | rust/src/lib.rs:193-197 | each native algorithm selects the HMAC of the same hash, with digest length 20, 32 or 64 |
| RustCore.AccountsToJson | rust/src/lib.rs:75-77 | fails exactly when serde fails, and then with `SerializationError` |
| RustCore.JsonToAccounts | rust/src/lib.rs:80-82 | fails exactly when parsing fails, and then with `SerializationError` |
| RustCore.JsonRoundTripAccounts | rust/src/lib.rs:75-82 | given a serde round trip, parsing the JSON of a list gives the list back |
| RustCore.DeriveBackupKey | rust/src/lib.rs:228-233 | rejects exactly the salts whose length is not 16, with `InvalidData`; otherwise PBKDF2 of the password |
| RustCore.DeriveMasterKey | rust/src/lib.rs:235-240 | rejects exactly the salts whose length is not 32, with `InvalidData`; otherwise PBKDF2 of the password |
| RustCore.DeriveKey | rust/src/lib.rs:217-226 | a 32-byte key, whatever the password and salt; the PBKDF2 status is discarded |
| RustCore.SaltGuardsDisjoint | rust/src/lib.rs:228-240 | no salt passes both the backup and the master-password guard |
| RustCore.Envelope | rust/src/lib.rs:101-105 | byte 0 is version 1, bytes 1..17 the salt, 17..29 the IV, the rest the ciphertext; length 29 + ciphertext |
| RustCore.ParseEnvelope | rust/src/lib.rs:117-134 | from 30 bytes on, a version byte other than 1 gives `UnsupportedVersion`, and a version byte of 1 succeeds with salt ++ iv ++ ciphertext equal to `combined[1..]`; below 29 bytes gives `InvalidData`; exactly 29 bytes succeeds with the slices partitioning the input; salt is 16 bytes and IV is 12 |
| RustCore.ParseEnvelopeInverse | rust/src/lib.rs:117-125 | parsing an envelope with a non-empty ciphertext returns its salt, IV and ciphertext |
| RustCore.LegacyLayoutOnlyAt29 | rust/src/lib.rs:117-134 | a successful parse either used the versioned layout or had exactly 29 bytes |
| RustCore.LegacyBlobRejected | rust/src/lib.rs:117-121 | a legacy salt ++ iv ++ GCM output whose first salt byte is not 1 is refused as `UnsupportedVersion` |
| RustCore.SealBackup | rust/src/lib.rs:87-107 | the backup text is Base64 of the envelope around the GCM ciphertext; it fails only when GCM fails, with `EncryptionFailed` |
| RustCore.EncryptBackup | rust/src/lib.rs:87-108 | the byte-by-byte construction of `combined` produces exactly `SealBackup` |
| RustCore.DecryptBackup | rust/src/lib.rs:111-145 | bad Base64 gives `InvalidData`; envelope errors pass through; on a parsed envelope, a GCM failure gives `DecryptionFailed`, plaintext that is not UTF-8 gives `InvalidData`, and otherwise the decoded text is returned; only `InvalidData`, `UnsupportedVersion` or `DecryptionFailed` can occur |
| RustCore.UnknownVersionBeforeKeyDerivation | rust/src/lib.rs:117-121 | an unknown version byte in 30 or more bytes is rejected the same way whatever the password and the cipher |
| RustCore.BackupRoundTrip | rust/src/lib.rs:87-145 | given the Base64, UTF-8 and GCM round trips, decrypting an encrypted backup with the same password gives the data |
| RustCore.HashMasterPassword | rust/src/lib.rs:150-158 | the stored salt is the hex of the drawn salt, and given a hex round trip the record verifies the password |
| RustCore.VerifyMasterPassword | rust/src/lib.rs:161-171 | true iff the salt is valid hex of 32 bytes and the stored hex equals the hex of the re-derived key |
| RustCore.VerifyHashedPassword | rust/src/lib.rs:150-171 | a password verifies against the record hashed from it |
| RustCore.BigEndianRoundTrip | rust/src/lib.rs:211 | the 8-byte big-endian counter reads back as the counter |
| RustCore.TruncationOffset | rust/src/lib.rs:199 | the offset is at most 15 and offset + 3 is inside the HMAC |
| RustCore.TruncatedValue | rust/src/lib.rs:201-204 | the assembled value is below 2^31 |
| RustCore.TruncatedValueIsRfc4226 | rust/src/lib.rs:199-204 | the shifted-and-masked value is the four bytes at the offset read big-endian with the top bit cleared |
| RustCore.CleanSecret | rust/src/lib.rs:184 | the cleaned secret is no longer than the input, has no space and no lower-case ASCII letter |
| RustCore.Counter | rust/src/lib.rs:191 | the counter is the time step holding the timestamp: counter·period ≤ timestamp < (counter+1)·period |
| RustCore.BigEndianValueInjective | rust/src/lib.rs:211 | two equal-length byte strings with the same big-endian value are equal |
| RustCore.CounterBytes | rust/src/lib.rs:211 | `to_be_bytes` gives the one 8-byte string whose big-endian value is the counter |
| RustCore.ComputeHmac | rust/src/lib.rs:209-213 | the HMAC, under the algorithm's hash, of every 8-byte message whose big-endian value is the counter |
| RustCore.FormatCode | rust/src/lib.rs:206 | a code below 10^digits is rendered as exactly `digits` decimal digits whose value is the code |
| RustCore.GenerateTotp | rust/src/lib.rs:176-207 | digits outside 6..8 or period 0 give `InvalidParameter`; an undecodable cleaned secret gives `InvalidData`; a code has exactly `digits` decimal digits |
| RustCore.TotpIsTruncatedHmac | rust/src/lib.rs:191-206 | with valid parameters the code's value is the RFC 4226 truncation of the HMAC of `timestamp / period`, modulo 10^digits |
| RustCore.TotpStableWithinPeriod | rust/src/lib.rs:191 | two readings of the clock in the same period give the same code |
| Text.RemoveSpaces | app/src/main/java/com/yiran/cerberus/util/TotpUtil.kt:14 | the result keeps exactly the non-space characters and has no space |
| Text.RemoveSpacesConcat | app/src/main/java/com/yiran/cerberus/util/TotpUtil.kt:14 | removing spaces from a concatenation removes them from each part |
| Text.TrimStart | app/src/main/java/com/yiran/cerberus/util/TotpUtil.kt:14 | drops a whitespace prefix and leaves a non-whitespace first character |
| Text.TrimEnd | app/src/main/java/com/yiran/cerberus/util/TotpUtil.kt:14 | drops a whitespace suffix and leaves a non-whitespace last character |
| Text.TrimBlank | app/src/main/java/com/yiran/cerberus/util/TotpUtil.kt:34 | trimming leaves nothing iff the string is blank |
| Text.PaddedDecimal | rust/src/lib.rs:206 | zero-padding the decimal of n < 10^width gives `width` digits whose value is n |
| SecurityUtil.LastBackgroundTime | app/src/main/java/com/yiran/cerberus/util/SecurityUtil.kt:92 | an absent background time reads as 0 |
| SecurityUtil.AutoLockTime | app/src/main/java/com/yiran/cerberus/util/SecurityUtil.kt:100-102 | an absent threshold reads as 30 000 ms |
| SecurityUtil.ShouldReauthenticate | app/src/main/java/com/yiran/cerberus/util/SecurityUtil.kt:91-98 | false when the background time is 0; otherwise true iff strictly more than the threshold has elapsed |
| SecurityUtil.IsTermsAccepted | app/src/main/java/com/yiran/cerberus/util/SecurityUtil.kt:108 | true only when the flag is stored |
| SecurityUtil.IsBiometricEnabled | app/src/main/java/com/yiran/cerberus/util/SecurityUtil.kt:183 | true only when the flag is stored |
| SecurityUtil.LoadAccounts | app/src/main/java/com/yiran/cerberus/util/SecurityUtil.kt:120-128 | an absent or unparsable list reads as empty; otherwise the parsed list |
| SecurityUtil.WithAccounts | app/src/main/java/com/yiran/cerberus/util/SecurityUtil.kt:111-118 | on a serialisation failure the store is unchanged; otherwise only the accounts key changes, to the JSON |
| SecurityUtil.VerifyStoredPassword | app/src/main/java/com/yiran/cerberus/util/SecurityUtil.kt:169-174 | false when hash or salt is missing; otherwise the native verification of the stored pair |
| SecurityUtil.IsMasterPasswordSet | app/src/main/java/com/yiran/cerberus/util/SecurityUtil.kt:159 | a store without the hash key accepts no password, whatever the native verifier |
| SecurityUtil.EncryptException | app/src/main/java/com/yiran/cerberus/util/SecurityUtil.kt:133-141 | `InvalidParameter` becomes `IllegalArgumentException`; every other error becomes `IllegalStateException` with the error as its cause |
| SecurityUtil.DecryptException | app/src/main/java/com/yiran/cerberus/util/SecurityUtil.kt:143-157 | `UnsupportedVersion` becomes `IllegalStateException`; `InvalidParameter`, `InvalidData` and `DecryptionFailed` become `IllegalArgumentException`, each with its message; everything else becomes the generic `IllegalStateException` |
| SecurityUtil.EncryptBackup | app/src/main/java/com/yiran/cerberus/util/SecurityUtil.kt:133-141 | succeeds exactly when the native encryption does, with its text; the only possible failure is the wrapped `EncryptionFailed` |
| SecurityUtil.DecryptBackup | app/src/main/java/com/yiran/cerberus/util/SecurityUtil.kt:143-157 | succeeds exactly when the native decryption does; only the version, format and wrong-password exceptions can occur |
| SecurityUtil.BridgeBackupRoundTrip | app/src/main/java/com/yiran/cerberus/util/SecurityUtil.kt:133-157 | the backup round trip also holds through the Kotlin bridge |
| SecurityUtil.SecureStore.constructor | app/src/main/java/com/yiran/cerberus/util/SecurityUtil.kt:63-75 | a fresh preferences file is empty |
| SecurityUtil.SecureStore.MarkEnterBackground | app/src/main/java/com/yiran/cerberus/util/SecurityUtil.kt:77-82 | only the background time changes, to the clock reading |
| SecurityUtil.SecureStore.MarkAuthenticated | app/src/main/java/com/yiran/cerberus/util/SecurityUtil.kt:84-89 | the background time becomes 0, so no re-authentication is due at any time |
| SecurityUtil.SecureStore.SetAutoLockTime | app/src/main/java/com/yiran/cerberus/util/SecurityUtil.kt:104-106 | only the threshold changes, and reading it gives the value set |
| SecurityUtil.SecureStore.SetTermsAccepted | app/src/main/java/com/yiran/cerberus/util/SecurityUtil.kt:109 | only the terms flag changes, to true |
| SecurityUtil.SecureStore.SetBiometricEnabled | app/src/main/java/com/yiran/cerberus/util/SecurityUtil.kt:182 | only the biometric flag changes, to the value given |
| SecurityUtil.SecureStore.SaveAccounts | app/src/main/java/com/yiran/cerberus/util/SecurityUtil.kt:111-118 | the new store is `WithAccounts` of the old one and nothing is thrown |
| SecurityUtil.SecureStore.SetMasterPassword | app/src/main/java/com/yiran/cerberus/util/SecurityUtil.kt:161-167 | hash and salt are written together, and a master password is then set |
| SecurityUtil.ReauthenticationMonotone | app/src/main/java/com/yiran/cerberus/util/SecurityUtil.kt:91-98 | once re-authentication is due it stays due as time goes on |
| SecurityUtil.DefaultThresholdIsStrict | app/src/main/java/com/yiran/cerberus/util/SecurityUtil.kt:96-97 | with the default threshold, 30 000 ms in the background does not lock and 30 001 ms does |
| SecurityUtil.BackgroundAtZeroNeverLocks | app/src/main/java/com/yiran/cerberus/util/SecurityUtil.kt:92-94 | a recorded background time of 0 never locks |
| SecurityUtil.SaveThenLoad | app/src/main/java/com/yiran/cerberus/util/SecurityUtil.kt:111-128 | given a JSON round trip, accounts saved successfully load back unchanged |
| SecurityUtil.SetThenVerify | app/src/main/java/com/yiran/cerberus/util/SecurityUtil.kt:159-174 | after setting a master password it is set and that password verifies |
| Home.FirstIndexOf | app/src/main/java/com/yiran/cerberus/ui/home/HomeViewModel.kt:103 | the first position holding the element |
| Home.RemoveAt | app/src/main/java/com/yiran/cerberus/ui/home/HomeViewModel.kt:141 | the element at the index is removed, later ones shift down, and the multiset loses just that element |
| Home.InsertAt | app/src/main/java/com/yiran/cerberus/ui/home/HomeViewModel.kt:141 | the element is at the index, later ones shift up, and the multiset gains just that element |
| Home.RemoveFirst | app/src/main/java/com/yiran/cerberus/ui/home/HomeViewModel.kt:103 | only the first equal element is removed; without one the list is unchanged |
| Home.IndexOfFirstId | app/src/main/java/com/yiran/cerberus/ui/home/HomeViewModel.kt:108 | the first index with the id, or -1 iff no account has it |
| Home.AppAlgorithm | app/src/main/java/com/yiran/cerberus/ui/home/HomeViewModel.kt:98 | the app algorithm of the same name, which maps back to the native one |
| Home.ImportResult | app/src/main/java/com/yiran/cerberus/ui/home/HomeViewModel.kt:158-186 | an unreadable file gives the catch-all failure; bridge exceptions report their message; success means decryption and parsing gave a non-empty list |
| Home.ExportThenImport | app/src/main/java/com/yiran/cerberus/ui/home/HomeViewModel.kt:145-187 | an exported non-empty list is imported back unchanged |
| Home.Split | app/src/main/java/com/yiran/cerberus/ui/home/HomeViewModel.kt:246 | at least one piece and no piece contains the separator |
| Home.SplitJoin | app/src/main/java/com/yiran/cerberus/ui/home/HomeViewModel.kt:246 | joining the pieces with the separator gives the string back |
| Home.ToIntOrNull | app/src/main/java/com/yiran/cerberus/ui/home/HomeViewModel.kt:246 | the empty string is null; a digit string is its value when within `Int` range and null when it overflows; a leading `-` or `+` before digits negates or keeps the value under the same range test; a result needs digits after an optional sign |
| Home.ToIntOrNullOfDecimal | app/src/main/java/com/yiran/cerberus/ui/home/HomeViewModel.kt:246 | every non-negative `Int` in decimal parses back to itself |
| Home.NumericParts | app/src/main/java/com/yiran/cerberus/ui/home/HomeViewModel.kt:246-247 | a single piece gives its `Int` value or nothing; non-numeric pieces are dropped, and none numeric gives an empty list |
| Home.NumericPartsAppend | app/src/main/java/com/yiran/cerberus/ui/home/HomeViewModel.kt:246-247 | `mapNotNull` over two concatenated piece lists is the concatenation of their results |
| Home.NumericPartsAllNumeric | app/src/main/java/com/yiran/cerberus/ui/home/HomeViewModel.kt:246-247 | when every piece parses, the result has one value per piece, in order, each the piece's parsed value |
| Home.IsVersionNewer | app/src/main/java/com/yiran/cerberus/ui/home/HomeViewModel.kt:245-254 | the loop answers exactly the lexicographic order on numeric components: larger at the first difference, or longer on an equal prefix |
| Home.NewerIrreflexive | app/src/main/java/com/yiran/cerberus/ui/home/HomeViewModel.kt:245-254 | no version is newer than itself |
| Home.NewerAsymmetric | app/src/main/java/com/yiran/cerberus/ui/home/HomeViewModel.kt:245-254 | two versions are never each newer than the other |
| Home.NewerOnCommonPrefix | app/src/main/java/com/yiran/cerberus/ui/home/HomeViewModel.kt:253 | on an equal common prefix, newer iff `latest` has more components |
| Home.HomeViewModel.constructor | app/src/main/java/com/yiran/cerberus/ui/home/HomeViewModel.kt:31-47 | no accounts, no pending save, no codes |
| Home.HomeViewModel.LoadAccounts | app/src/main/java/com/yiran/cerberus/ui/home/HomeViewModel.kt:49-59 | the list becomes the stored list |
| Home.HomeViewModel.ScheduleSave | app/src/main/java/com/yiran/cerberus/ui/home/HomeViewModel.kt:83-91 | one save is pending, replacing any earlier one; the list is untouched |
| Home.HomeViewModel.FlushPendingSave | app/src/main/java/com/yiran/cerberus/ui/home/HomeViewModel.kt:85-90 | a pending save writes the list as it stands when the delay expires, and then none is pending |
| Home.HomeViewModel.AddAccount | app/src/main/java/com/yiran/cerberus/ui/home/HomeViewModel.kt:93-100 | the account is appended, a save is pending, and an OTP account with a secret gets its code |
| Home.HomeViewModel.DeleteAccount | app/src/main/java/com/yiran/cerberus/ui/home/HomeViewModel.kt:102-105 | only the first equal account is removed, and a save is pending |
| Home.HomeViewModel.UpdatePassword | app/src/main/java/com/yiran/cerberus/ui/home/HomeViewModel.kt:107-114 | only the password of the first account with the id changes; an unknown id changes nothing and schedules no save |
| Home.HomeViewModel.MoveAccount | app/src/main/java/com/yiran/cerberus/ui/home/HomeViewModel.kt:139-143 | equal or out-of-range indices change nothing; otherwise a permutation with the moved account at `toIndex`, the accounts between shifted by one and the rest in place |
| Home.HomeViewModel.ExportBackup | app/src/main/java/com/yiran/cerberus/ui/home/HomeViewModel.kt:145-148 | the sealed JSON of the current list, or the serialisation or encryption exception |
| Home.HomeViewModel.ImportBackup | app/src/main/java/com/yiran/cerberus/ui/home/HomeViewModel.kt:150-187 | all or nothing: a non-empty import replaces the list and saves it at once; any error leaves list and store untouched |
| TotpUtil.CleanShape | app/src/main/java/com/yiran/cerberus/util/TotpUtil.kt:14 | the cleaned secret is empty iff the secret is blank, has no whitespace at either end, and has no lower-case letter |
| TotpUtil.CleanIdempotent | app/src/main/java/com/yiran/cerberus/util/TotpUtil.kt:14 | cleaning twice is cleaning once |
| TotpUtil.Clean | app/src/main/java/com/yiran/cerberus/util/TotpUtil.kt:14 | the cleaned secret is no longer than the input, has no space and no lower-case ASCII letter |
| TotpUtil.IsInAlphabet | app/src/main/java/com/yiran/cerberus/util/TotpUtil.kt:36 | the empty string is in the alphabet; a string in it has none of 0, 1, 8 and 9 |
| TotpUtil.IsValidSecret | app/src/main/java/com/yiran/cerberus/util/TotpUtil.kt:33-37 | a blank secret is invalid; a valid secret cleans to a non-empty string with none of 0, 1, 8 and 9 |
| TotpUtil.ValidityOfCleaned | app/src/main/java/com/yiran/cerberus/util/TotpUtil.kt:33-37 | validity depends only on the cleaned form |
| TotpUtil.CanonicalSecretClean | app/src/main/java/com/yiran/cerberus/util/TotpUtil.kt:14 | a string of A-Z and 2-7 is left unchanged by cleaning |
| TotpUtil.CanonicalSecretValid | app/src/main/java/com/yiran/cerberus/util/TotpUtil.kt:33-37 | a non-empty secret of A-Z and 2-7 is valid and already clean |
| TotpUtil.NonBase32DigitRejected | app/src/main/java/com/yiran/cerberus/util/TotpUtil.kt:36 | a cleaned secret containing 0, 1, 8 or 9 is invalid |
| TotpUtil.HotpCode | app/src/main/java/com/yiran/cerberus/util/TotpUtil.kt:17-26 | six decimal digits with a value below 10^6 |
| TotpUtil.GenerateTotp | app/src/main/java/com/yiran/cerberus/util/TotpUtil.kt:12-31 | an invalid cleaned secret or an empty key gives exactly "ERROR"; otherwise six decimal digits |
| TotpUtil.GenerateTotpOutcome | app/src/main/java/com/yiran/cerberus/util/TotpUtil.kt:12-31 | stated on the raw secret: invalid gives "ERROR"; valid with a key gives six digits, never "ERROR" |
| TotpUtil.CoreAlgorithm | app/src/main/java/com/yiran/cerberus/util/TotpUtil.kt:19 | the native algorithm uses the same HMAC as the app's |
| TotpUtil.AppCodeMatchesCore | app/src/main/java/com/yiran/cerberus/util/TotpUtil.kt:17-26 | with 6 digits and a 30-second step, the app's code equals the native core's when both decoders agree on a non-empty key |
| TotpUtil.TruncDiv | app/src/main/java/com/yiran/cerberus/util/TotpUtil.kt:49 | Kotlin `/` rounds toward zero: for a ≥ 0, b·q ≤ a < b·q + b (the floor); for a < 0, q ≤ 0 and b·q − b < a ≤ b·q (the ceiling) |
| TotpUtil.TruncRem | app/src/main/java/com/yiran/cerberus/util/TotpUtil.kt:50 | Kotlin `%` takes the dividend's sign and completes the division identity |
| TotpUtil.RemainingSeconds | app/src/main/java/com/yiran/cerberus/util/TotpUtil.kt:48-51 | for t ≥ 0 it lies in [1, 30], is 30 iff the second count is a multiple of 30, and adds up to 30 with the elapsed seconds |
| TotpUtil.RemainingSecondsTick | app/src/main/java/com/yiran/cerberus/util/TotpUtil.kt:48-51 | one second later it is one less, or back to 30 after 1 |
| PasswordGenerator.CharPool | app/src/main/java/com/yiran/cerberus/util/PasswordGenerator.kt:20-25 | the pool holds exactly the enabled classes, and its size is the sum of their sizes |
| PasswordGenerator.Generate | app/src/main/java/com/yiran/cerberus/util/PasswordGenerator.kt:13-32 | empty when no class is enabled or length ≤ 0; otherwise exactly `length` characters, all from the pool |
| PasswordGenerator.UpperRange | app/src/main/java/com/yiran/cerberus/util/PasswordGenerator.kt:8 | the upper class is A-Z |
| PasswordGenerator.LowerRange | app/src/main/java/com/yiran/cerberus/util/PasswordGenerator.kt:9 | the lower class is a-z |
| PasswordGenerator.DigitsRange | app/src/main/java/com/yiran/cerberus/util/PasswordGenerator.kt:10 | the digit class is 0-9 |
| PasswordGenerator.SpecialNotAlphanumeric | app/src/main/java/com/yiran/cerberus/util/PasswordGenerator.kt:11 | no special character is a letter or digit |
| PasswordGenerator.ClassesDisjoint | app/src/main/java/com/yiran/cerberus/util/PasswordGenerator.kt:8-11 | the four classes share no character |
| PasswordGenerator.DefaultPool | app/src/main/java/com/yiran/cerberus/util/PasswordGenerator.kt:13-25 | the default pool has 88 characters |
| PasswordGenerator.DisabledClassAbsent | app/src/main/java/com/yiran/cerberus/util/PasswordGenerator.kt:20-31 | no character of a disabled class appears in the password |
| PasswordGenerator.PositionIsDraw | app/src/main/java/com/yiran/cerberus/util/PasswordGenerator.kt:29-31 | for every flag combination with a non-empty pool, position i of the password is the pool character that draw i selects |
| OtpAlgorithms.LibAlgo | app/src/main/java/com/yiran/cerberus/util/OtpAlgorithm.kt:6-10 | each variant maps to the HMAC of the same name, in both directions |
| OtpAlgorithms.Ordinal | app/src/main/java/com/yiran/cerberus/util/OtpAlgorithm.kt:7-9 | every variant sits at its declaration position in SHA1, SHA256, SHA512 |
| OtpAlgorithms.EntriesComplete | app/src/main/java/com/yiran/cerberus/util/OtpAlgorithm.kt:6-10 | the three entries are distinct and cover every variant, and distinct variants map to distinct HMACs |
| AccountModel.PlainAccount | app/src/main/java/com/yiran/cerberus/model/Account.kt:5-14 | the defaults are no password, no secret, SHA1 and no second factor |
| AccountModel.CopyPassword | app/src/main/java/com/yiran/cerberus/model/Account.kt:5-14 | `copy(password = …)` changes only the password, and equality is field-wise |
| HomeScreen.ToInt32 | app/src/main/java/com/yiran/cerberus/ui/home/HomeScreen.kt:597 | `Long.toInt()` keeps the value modulo 2^32 and is the identity on the `Int` range |
| HomeScreen.CreateAccount | app/src/main/java/com/yiran/cerberus/ui/home/HomeScreen.kt:595-606 | fields are copied; the icon is the upper-cased first letter or '?'; the secret is kept only with OTP on; the id is the wrapped clock reading |
| HomeScreen.NormalizeSecretInput | app/src/main/java/com/yiran/cerberus/ui/home/HomeScreen.kt:527 | the stored secret has no space and no lower-case letter |
| HomeScreen.NormalizeIdempotent | app/src/main/java/com/yiran/cerberus/ui/home/HomeScreen.kt:527 | normalising twice is normalising once |
| HomeScreen.DisplayCode | app/src/main/java/com/yiran/cerberus/ui/home/HomeScreen.kt:380 | a 6-character code becomes 3 + space + 3; any other length is unchanged |
| HomeScreen.DisplayCodeUngroups | app/src/main/java/com/yiran/cerberus/ui/home/HomeScreen.kt:380 | removing the space from a displayed digit code gives the code back |
| HomeScreen.AddAccountDialog.constructor | app/src/main/java/com/yiran/cerberus/ui/home/HomeScreen.kt:438-453 | step 1, empty fields, special characters on, no OTP, SHA1, no errors |
| HomeScreen.AddAccountDialog.EditName | app/src/main/java/com/yiran/cerberus/ui/home/HomeScreen.kt:469 | the name changes and its error clears |
| HomeScreen.AddAccountDialog.EditUsername | app/src/main/java/com/yiran/cerberus/ui/home/HomeScreen.kt:477 | the user name changes and its error clears |
| HomeScreen.AddAccountDialog.EditPassword | app/src/main/java/com/yiran/cerberus/ui/home/HomeScreen.kt:486 | the password changes and its error clears |
| HomeScreen.AddAccountDialog.GeneratePassword | app/src/main/java/com/yiran/cerberus/ui/home/HomeScreen.kt:492-495 | a generated 16-character password, honouring the special-character box, and the error clears |
| HomeScreen.AddAccountDialog.ToggleSpecial | app/src/main/java/com/yiran/cerberus/ui/home/HomeScreen.kt:497-507 | in step 1, where the box is shown, only the special-character flag flips |
| HomeScreen.AddAccountDialog.SetHasOtp | app/src/main/java/com/yiran/cerberus/ui/home/HomeScreen.kt:517 | only the OTP switch changes |
| HomeScreen.AddAccountDialog.EditSecret | app/src/main/java/com/yiran/cerberus/ui/home/HomeScreen.kt:524-527 | in step 2, where the field is shown, the secret is stored normalised and its error clears |
| HomeScreen.AddAccountDialog.SelectAlgorithm | app/src/main/java/com/yiran/cerberus/ui/home/HomeScreen.kt:531-545 | in step 2, where the menu is shown, only the algorithm changes |
| HomeScreen.AddAccountDialog.Confirm | app/src/main/java/com/yiran/cerberus/ui/home/HomeScreen.kt:554-574 | step 1 flags every blank field and stops; with OTP it goes to step 2, and without OTP it creates a plain SHA1 account; step 2 flags an invalid secret and otherwise creates the OTP account; anything created is acceptable |
| HomeScreen.AddAccountDialog.Dismiss | app/src/main/java/com/yiran/cerberus/ui/home/HomeScreen.kt:584-586 | step 2 goes back to step 1; step 1 closes the dialog |
| HomeScreen.DismissRequest | app/src/main/java/com/yiran/cerberus/ui/home/HomeScreen.kt:456 | a dismiss request from outside the dialog closes it from either step |
| HomeScreen.EditPasswordDialog.constructor | app/src/main/java/com/yiran/cerberus/ui/home/HomeScreen.kt:287-289 | starts from the account's password, no error, special characters on |
| HomeScreen.EditPasswordDialog.EditPassword | app/src/main/java/com/yiran/cerberus/ui/home/HomeScreen.kt:306-309 | the password changes and the error clears |
| HomeScreen.EditPasswordDialog.GeneratePassword | app/src/main/java/com/yiran/cerberus/ui/home/HomeScreen.kt:315-318 | a generated 16-character password and the error clears |
| HomeScreen.EditPasswordDialog.ToggleSpecial | app/src/main/java/com/yiran/cerberus/ui/home/HomeScreen.kt:330-332 | only the special-character box flips |
| HomeScreen.EditPasswordDialog.Confirm | app/src/main/java/com/yiran/cerberus/ui/home/HomeScreen.kt:339-344 | a blank password shows the error and is not passed on; otherwise the password is passed on |
| MainActivity.AuthFlow.constructor | app/src/main/java/com/yiran/cerberus/MainActivity.kt:85-89 | locked, no password input, no terms, checking, home page |
| MainActivity.AuthFlow.CurrentScreen | app/src/main/java/com/yiran/cerberus/MainActivity.kt:193-234 | the vault when unlocked; then terms, splash, password input and lock screen, in that priority |
| MainActivity.AuthFlow.OpenSettings | app/src/main/java/com/yiran/cerberus/MainActivity.kt:196 | from the vault home page to the settings page |
| MainActivity.AuthFlow.Back | app/src/main/java/com/yiran/cerberus/MainActivity.kt:163-180 | back from settings to the home page only while unlocked on settings |
| MainActivity.AuthFlow.TriggerBiometric | app/src/main/java/com/yiran/cerberus/MainActivity.kt:94-106 | the prompt is shown and no lock flag changes |
| MainActivity.AuthFlow.OnBiometricSucceeded | app/src/main/java/com/yiran/cerberus/MainActivity.kt:96-100 | unlocked, not checking, password input hidden |
| MainActivity.AuthFlow.OnBiometricError | app/src/main/java/com/yiran/cerberus/MainActivity.kt:254-264 | every error code shows the password input and stops checking, leaving the lock as it was |
| MainActivity.AuthFlow.OnStart | app/src/main/java/com/yiran/cerberus/MainActivity.kt:112-129 | relocks iff terms accepted, password set and re-authentication due; then biometric if enabled and available, else password input; otherwise the lock state is kept; the biometric relock leaves the password input as it was |
| MainActivity.AuthFlow.OnStop | app/src/main/java/com/yiran/cerberus/MainActivity.kt:130-133 | the background time is recorded |
| MainActivity.AuthFlow.InitialCheck | app/src/main/java/com/yiran/cerberus/MainActivity.kt:144-161 | terms first, then a missing master password, then biometric or password input for a locked app; it never unlocks |
| MainActivity.AuthFlow.OnTermsAccepted | app/src/main/java/com/yiran/cerberus/MainActivity.kt:202-211 | terms stored; password input without a master password, else the biometric prompt whether or not biometrics are enabled |
| MainActivity.AuthFlow.OnPasswordClick | app/src/main/java/com/yiran/cerberus/MainActivity.kt:230 | the password input is shown |
| MainActivity.AuthFlow.OnUnlockSuccess | app/src/main/java/com/yiran/cerberus/MainActivity.kt:218-224 | unlocked; biometrics enabled only when no master password is stored at that moment and the hardware allows |
| MainActivity.AuthFlow.SubmitPassword | app/src/main/java/com/yiran/cerberus/MainActivity.kt:474-495 | blank refused; first use needs 6 characters and a matching confirmation, then stores and unlocks; later use unlocks iff the stored record verifies; errors change nothing; the biometric flag never changes |

## Left out

- RustCore.DeriveKey: its contract states only the 32-byte length. The key itself is the PBKDF2-HMAC-SHA256 function of the suite, with 100 000 iterations, and that function is a parameter, so there is nothing further to state about it.
- The primitives AES-GCM, PBKDF2, HMAC, Base64, hex, Base32, UTF-8 and serde JSON are abstract functions. Only their round trips are assumed, so nothing is claimed about their security.
- Rejection of a wrong password or altered ciphertext by GCM is not assumed. Such a "wrong key fails" axiom over all keys would be inconsistent for short messages, so `RustCore.DecryptBackup` states which error each stage gives, in terms of whether GCM reports a failure, not when GCM fails.
- Constant-time comparison and timing side channels cannot be expressed in this model.
- Randomness (`thread_rng`, `SecureRandom`) and the clocks are parameters. The model does not capture that salts and IVs are fresh or that the draws are uniform.
- `getProgress` in `TotpUtil.kt` uses floating point.
- Coroutines are left out: the TOTP ticker loop, the `withContext` dispatching, job cancellation beyond a single pending-save slot, and `onCleared`.
- The network update check (`checkUpdate`) is left out; only its version comparison is modelled.
- The view model's dialog-visibility members (`selectAccountForEdit`, `openAddDialog` and the others, `HomeViewModel.kt:116-137`) only set UI flags. The screen keeps its own copies of these flags.
- Android plumbing is left out: creating the encrypted preferences and master key, loading the native library, clipboard, toasts and content-resolver I/O. An unreadable backup file is the `None` content of `Home.ImportResult`.
- Compose layout, animation, the predictive-back progress and the settings screen are left out.
- `canUseBiometric` is a platform query and becomes the parameter `biometricAvailable`. Constructing the biometric prompt is left out.
- `isCheckingAuth` is a `remember` state and the other flags are `rememberSaveable`. Recreating the activity, which resets only `isCheckingAuth`, is not modelled.
- `MainActivity.AuthFlow.OnStop` models the evident call with the store and the clock. The source calls `markEnterBackground()` without the context argument that `SecurityUtil.kt:77` requires.
- The two `Account` types are kept apart:
  - `HomeScreen.kt:180`, `191` and `202` pass the app's account to a view model that works on the native account. That conversion is not modelled.
  - At `HomeViewModel.kt:98` the native algorithm is passed where the TOTP helper expects the app's enum. `Home.AppAlgorithm` maps them by name.
- Text.ToUpper: upper-cases ASCII letters only. Kotlin's and Rust's full Unicode case mapping is not modelled.
- TotpUtil.IsInAlphabet: takes the codec's whitespace to be space, tab, line feed and carriage return. Releases of Apache Commons Codec that test `Character.isWhitespace` also accept vertical tab, form feed and the controls 0x1C-0x1F. The codec version is not pinned in `app/build.gradle.kts`, so the model takes the narrower set.
- Home.ToIntOrNull: reads ASCII digits only. Kotlin also accepts other Unicode decimal digits.
- MainActivity.AuthFlow.SubmitPassword: counts the password length in Unicode scalar values. Kotlin's `length` counts UTF-16 code units, so the two differ for characters outside the Basic Multilingual Plane.
- TotpUtil.GenerateTotp: the counter is the integer quotient of the millisecond clock by 30 000, and the code is the RFC 4226 truncation. The library's own arithmetic, and the exact characters Apache's lenient Base32 decoder (the `decode` parameter) skips, are not modelled.
- Integers are unbounded. Kotlin `Long` overflow in `elapsedRealtime() - lastTime` and Rust `u64` overflow cannot occur for real clock values and are not modelled. `HomeScreen.ToInt32` models the one narrowing that matters.
