# ZeroStorageCaptcha: the token protocol, modelled in Dafny

ZeroStorageCaptcha issues captchas without keeping any record of the ones it
has handed out. A captcha's token is a signature over its answer and an epoch
value. To validate a reply, the token is recomputed and compared. A small
ledger of accepted tokens makes each token usable only once.

This project models the protocol core, as the C++/Qt library implements it.

- **`ZeroStorageCaptchaCrypto::TimeToken`** holds the current and previous
  epoch values (`crypto.dfy`, class `TimeToken`). `init` starts the rotation.
  Each timer tick drops the ledger entries of the old previous epoch. The
  current value then becomes the previous one, and a fresh value becomes
  current.
- **`ZeroStorageCaptchaCrypto::KeyHolder`** derives and checks tokens
  (`crypto.dfy`, class `KeyHolder`).
  - `captchaSecretLine` signs the answer (upper-cased unless case-sensitive)
    followed by an epoch value. The key is created lazily, the first time it
    is needed. The 64-byte signature is encoded as base64url and then
    shortened by `compact`.
  - `validateCaptchaAnswer` recomputes the token under the current epoch,
    then under the previous one. It consults the ledger and, on success,
    records one entry.
- **The string helpers** are the table-driven `random`, `compact` and the
  decimal clock text (`text.dfy`). The two library transforms a token relies
  on are base64url (RFC 4648, section 5) and ASCII upper-casing
  (`encoding.dfy`).
- **The ledger** `m_usedTokens` is a multimap from epoch value to accepted
  token. It is kept as a list of entries with the predicates and lemmas about
  it (`ledger.dfy`).
- **`ZeroStorageCaptcha`** holds the configuration by difficulty, the answer
  text, and the `getCaptcha`/`captchaToken`/`validate` hand-over to the
  protocol (`captcha.dfy`).

## How the program is modelled

Each static singleton of the program becomes one object. Its fields are the
singleton's static members. Where the program reaches across from one class
to the other, the objects are passed as parameters.

The environment is made explicit:

- `draws` lists the values the random distribution yields.
- `now` is the clock in seconds.
- The Ed25519 signer is a deterministic function value, given to the key
  holder when it is created. This matches RFC 8032, section 5.1.6.

The rotation timer's timeout is the explicit method `TimeToken.Tick`.

## Behaviour of the code worth knowing

- **The ledger lookup is by epoch value alone.** `m_usedTokens.find(timeKey)`
  at `zerostoragecaptchacrypto.cpp:94` does not look at the token. Once one
  token has been accepted under an epoch, every other token matching that
  epoch is refused until the epoch rotates out. So each epoch accepts one
  token, and a ledger kept consistent with the epochs holds at most two
  entries. `OneAcceptancePerEpoch` and `LiveLedgerHoldsAtMostTwo` state this.
- **Capacity is refused only when strictly exceeded.** Validation at
  `zerostoragecaptchacrypto.cpp:89` refuses when the ledger holds strictly
  more entries than the capacity. The default capacity is 100000.
- **`compact` deletes more than padding.** It keeps every third character,
  then deletes '=' and also the base64url letters '_' and '-'.

## Model

| member | source | states |
|---|---|---|
| `Encoding.ByteOf` | zerostoragecaptchacrypto.cpp:55 | the `char` cast keeps a character's code modulo 256, and keeps the code itself below 256 |
| `Encoding.ByteOfAscii` | zerostoragecaptchacrypto.cpp:55 | the byte cast of an ASCII character is its code |
| `Encoding.UrlDigit` | zerostoragecaptchacrypto.cpp:71 | each 6-bit value has a base64url letter; it is a letter or digit exactly for values below 62 |
| `Encoding.Base64Url` | zerostoragecaptchacrypto.cpp:71 | the encoding is 4 letters per started group of 3 bytes, all from the base64url alphabet or '=' |
| `Encoding.UrlDigitValue` | zerostoragecaptchacrypto.cpp:71 | every base64url letter stands for exactly one 6-bit value |
| `Encoding.GroupArithmetic` | zerostoragecaptchacrypto.cpp:71 | the 6-bit pieces of three bytes reassemble into those bytes |
| `Encoding.EncodeGroup` | zerostoragecaptchacrypto.cpp:71 | a full group of three bytes is written as four alphabet letters, none of them padding |
| `Encoding.EncodeLastByte` | zerostoragecaptchacrypto.cpp:71 | a last group of one byte is written as four characters from the alphabet or '=' |
| `Encoding.EncodeLastTwoBytes` | zerostoragecaptchacrypto.cpp:71 | a last group of two bytes is written as four characters from the alphabet or '=' |
| `Encoding.GroupRoundTrip` | zerostoragecaptchacrypto.cpp:71 | the four letters of a full group of three bytes decode back to those three bytes |
| `Encoding.OneByteRoundTrip` | zerostoragecaptchacrypto.cpp:71 | a last group of one byte, such as the 64th byte of a signature, decodes back from its two letters and padding |
| `Encoding.Base64UrlRoundTrip` | zerostoragecaptchacrypto.cpp:71 | decoding the base64url text of any byte text gives that byte text back, so the encoding loses no signature bits |
| `Encoding.Base64UrlInjective` | zerostoragecaptchacrypto.cpp:71 | different byte texts, and so different signatures, have different base64url texts |
| `Encoding.ToUpper` | zerostoragecaptchacrypto.cpp:59 | upper-casing keeps the text up to letter case and leaves no lower-case letter |
| `Encoding.ToUpperIdentifiesCaseVariants` | zerostoragecaptchacrypto.cpp:59 | two texts upper-case to the same text if and only if they differ only in letter case |
| `Encoding.ToUpperIdempotent` | zerostoragecaptchacrypto.cpp:59 | upper-casing twice is upper-casing once |
| `CryptoText.RandomString` | zerostoragecaptchacrypto.cpp:149-170 | `random` gives max(length, 0) characters: digits in numbers-only mode, else letters and digits other than '0', 'o' and 'O' |
| `CryptoText.TableIndices` | zerostoragecaptchacrypto.cpp:151-157 | the table has 60 characters; the first 10 are digits; those at indices 1 to 59 are letters or digits other than '0' |
| `CryptoText.LowestDraw` | zerostoragecaptchacrypto.cpp:162 | the distribution's lower bound is a table index no greater than the upper bound, and is above 0 (skipping '0') outside numbers-only mode |
| `CryptoText.HighestDraw` | zerostoragecaptchacrypto.cpp:162 | the distribution's upper bound stays inside the 60-character table, and inside its 10 digits in numbers-only mode |
| `CryptoText.Random` | zerostoragecaptchacrypto.cpp:159-169 | the appending loop returns exactly the random text of the draws |
| `CryptoText.RandomStringFromTable` | zerostoragecaptchacrypto.cpp:151-166 | every character of a random text comes from the table |
| `CryptoText.NumbersOnlyDigits` | zerostoragecaptchacrypto.cpp:162-166 | in numbers-only mode every character is a decimal digit |
| `CryptoText.NoZeroCharacter` | zerostoragecaptchacrypto.cpp:162-166 | outside numbers-only mode '0' never appears and every character is a non-zero ASCII code |
| `CryptoText.EveryThird` | zerostoragecaptchacrypto.cpp:113-120 | keeps the characters at 1-based positions divisible by 3, in order, so the result is a third of the input's length, rounded down |
| `CryptoText.Without` | zerostoragecaptchacrypto.cpp:121-123 | deleting a character removes all its occurrences and nothing else, as multisets and as membership |
| `CryptoText.WithoutAbsent` | zerostoragecaptchacrypto.cpp:121-123 | deleting a character that does not occur changes nothing |
| `CryptoText.WithoutAppend` | zerostoragecaptchacrypto.cpp:121-123 | deleting a character distributes over concatenation |
| `Encoding.PaddedEnd` | zerostoragecaptchacrypto.cpp:71 | the base64url text of a byte text whose length leaves remainder 1 by 3 ends in two '=' |
| `CryptoText.CompactedPaddedEnd` | zerostoragecaptchacrypto.cpp:110-125 | for a text of length 3k + 1 (k at least 1) whose next-to-last character is '=', compaction keeps at most (length - 2) / 3 characters |
| `CryptoText.Compacted` | zerostoragecaptchacrypto.cpp:110-125 | the compacted text is at most a third of the input's length, draws its characters from the input, and contains no '=', '_' or '-' |
| `CryptoText.ThreePassesCompact` | zerostoragecaptchacrypto.cpp:110-125 | the three passes of `compact` equal the one-pass definition |
| `CryptoText.CompactedPlain` | zerostoragecaptchacrypto.cpp:110-125 | when the kept characters hold no '=', '_' or '-', compaction only thins the text out |
| `CryptoText.Compact` | zerostoragecaptchacrypto.cpp:110-125 | the counter loop and removals of `compact` compute the compacted text |
| `CryptoText.NatDecimal` | zerostoragecaptchacrypto.cpp:32 | (`QString::number` at lines 32 and 37) a natural number's decimal text is non-empty digits, one digit exactly below 10 |
| `CryptoText.Decimal` | zerostoragecaptchacrypto.cpp:32 | (`QString::number` at lines 32 and 37) the decimal text of a number is non-empty and starts with '-' exactly for negatives |
| `CryptoText.NatDecimalInjective` | zerostoragecaptchacrypto.cpp:32 | different natural numbers have different decimal texts |
| `CryptoText.DecimalInjective` | zerostoragecaptchacrypto.cpp:32 | different clock readings have different decimal texts |
| `UsedTokens.HasEpoch` | zerostoragecaptchacrypto.cpp:94 | the lookup finds an epoch exactly when some entry is filed under it |
| `UsedTokens.Admits` | zerostoragecaptchacrypto.cpp:86-97 | a token is admitted exactly when its epoch matched, the ledger is not over capacity, and no entry is filed under that epoch yet |
| `UsedTokens.WithoutEpoch` | zerostoragecaptchacrypto.cpp:104-108 | removal drops exactly the entries under that epoch and keeps every other entry |
| `UsedTokens.AppendKeepsOnePerEpoch` | zerostoragecaptchacrypto.cpp:94-97 | inserting under an epoch absent from the ledger keeps at most one entry per epoch |
| `UsedTokens.WithoutEpochKeepsOnePerEpoch` | zerostoragecaptchacrypto.cpp:104-108 | removal keeps at most one entry per epoch |
| `UsedTokens.PruneKeepsInvariant` | zerostoragecaptchacrypto.cpp:34-38 | after a rotation, every remaining entry is filed under the old current epoch, which becomes the previous one, with one entry per epoch |
| `UsedTokens.AdmitKeepsInvariant` | zerostoragecaptchacrypto.cpp:88-98 | an admitted insertion under a live epoch keeps the ledger to live epochs, one entry each |
| `UsedTokens.OneAcceptancePerEpoch` | zerostoragecaptchacrypto.cpp:94-97 | once an entry is filed under an epoch, that epoch admits no further token |
| `UsedTokens.OnePerEpochBound` | zerostoragecaptchacrypto.cpp:94-97 | a ledger with one entry per epoch, all from a set of epochs, is no longer than that set |
| `UsedTokens.LiveLedgerHoldsAtMostTwo` | zerostoragecaptchacrypto.cpp:94-97 | a ledger consistent with the two live epochs holds at most two entries, and no more than the non-empty live epochs: none before the rotator starts |
| `ZeroStorageCaptchaCrypto.Int32Of` | zerostoragecaptchacrypto.h:49 | the capacity kept in an `int` is the size_t argument reduced modulo 2^32 into the signed range, unchanged below 2^31 and negative from 2^31 to 2^32 - 1 |
| `ZeroStorageCaptchaCrypto.EpochValue` | zerostoragecaptchacrypto.cpp:32 | (the same expression at lines 32 and 37) an epoch value is longer than its 5 random characters |
| `ZeroStorageCaptchaCrypto.EpochValueDeterminesClock` | zerostoragecaptchacrypto.cpp:32 | epoch values made at different seconds differ, whatever the random part |
| `ZeroStorageCaptchaCrypto.NoiseKey` | zerostoragecaptchacrypto.cpp:50-57 | the created key has 32 bytes, none of them 0 |
| `ZeroStorageCaptchaCrypto.NoiseKeyBytes` | zerostoragecaptchacrypto.cpp:52-56 | byte i of the created key is character i of `random(KEYSIZE)` |
| `ZeroStorageCaptchaCrypto.KeyInUse` | zerostoragecaptchacrypto.cpp:50-57 | the key signed with has 32 bytes and a non-zero first byte, and an existing key is kept |
| `ZeroStorageCaptchaCrypto.KeyCreatedOnce` | zerostoragecaptchacrypto.cpp:50-57 | once created, the key is never created again |
| `ZeroStorageCaptchaCrypto.SignedText` | zerostoragecaptchacrypto.cpp:59-60 | the signed text is the answer, kept as is when case-sensitive and otherwise the same up to letter case, followed by the epoch value |
| `ZeroStorageCaptchaCrypto.SignedTextIdentifiesAnswers` | zerostoragecaptchacrypto.cpp:59-60 | two answers give the same signed text exactly when they are equal (case-sensitive) or equal up to letter case (otherwise) |
| `ZeroStorageCaptchaCrypto.SecretLine` | zerostoragecaptchacrypto.cpp:59-71 | a derived token has at most 28 characters, all letters and digits: the last of the 29 kept characters of a signature's text is always padding |
| `ZeroStorageCaptchaCrypto.SignatureTextLength` | zerostoragecaptchacrypto.cpp:62-71 | the base64url text of a 64-byte signature always has 88 characters |
| `ZeroStorageCaptchaCrypto.CaseInsensitiveTokens` | zerostoragecaptchacrypto.cpp:59-71 | with case sensitivity off, answers differing only in case get the same token |
| `ZeroStorageCaptchaCrypto.MatchedEpoch` | zerostoragecaptchacrypto.cpp:76-84 | the matched epoch is the current one whenever the token is the current line, the previous one when only the previous line matches, and none otherwise; a matched epoch's line is the token |
| `ZeroStorageCaptchaCrypto.AcceptanceCharacterised` | zerostoragecaptchacrypto.cpp:74-102 | acceptance holds exactly when the ledger is within capacity and the token matches the current epoch, or else the previous epoch, where that epoch is non-empty and has no entry yet |
| `ZeroStorageCaptchaCrypto.AcceptedTokenIsLive` | zerostoragecaptchacrypto.cpp:76-84 | an accepted token is the answer's token under the current or the previous epoch |
| `ZeroStorageCaptchaCrypto.TimeToken.constructor` | zerostoragecaptchacrypto.cpp:18-20 | at start there is no timer and both epoch values are empty |
| `ZeroStorageCaptchaCrypto.TimeToken.Inited` | zerostoragecaptchacrypto.h:29 | the rotator runs exactly when there is a current epoch value |
| `ZeroStorageCaptchaCrypto.TimeToken.CurrentToken` | zerostoragecaptchacrypto.h:30 | once the rotator runs, the current epoch value is never empty |
| `ZeroStorageCaptchaCrypto.TimeToken.PrevToken` | zerostoragecaptchacrypto.h:31 | before the rotator runs, there is no previous epoch value |
| `ZeroStorageCaptchaCrypto.TimeToken.Init` | zerostoragecaptchacrypto.cpp:27-32 | `init` does nothing once started; otherwise it installs a fresh current value; it keeps a ledger consistent with the epochs |
| `ZeroStorageCaptchaCrypto.TimeToken.Tick` | zerostoragecaptchacrypto.cpp:34-38 | a tick removes the old previous epoch's entries, moves current to previous, installs a fresh current value, and preserves ledger consistency |
| `ZeroStorageCaptchaCrypto.KeyHolder.constructor` | zerostoragecaptchacrypto.cpp:21-25 | at start the key is all zero, capacity is 100000, case sensitivity is off and the ledger is empty |
| `ZeroStorageCaptchaCrypto.KeyHolder.SetCaseSensitive` | zerostoragecaptchacrypto.h:48 | sets the case flag, false when no argument is given, and changes nothing else |
| `ZeroStorageCaptchaCrypto.KeyHolder.SetMaxSizeOfUsedTokensCache` | zerostoragecaptchacrypto.h:49 | stores the size, wrapped to 32 bits, as the capacity and changes nothing else |
| `ZeroStorageCaptchaCrypto.KeyHolder.Overflowing` | zerostoragecaptchacrypto.cpp:89 | a ledger within its capacity is not over it, and a negative capacity (a size whose value modulo 2^32 is 2^31 or more, wrapped into the `int`) blocks even the empty ledger |
| `ZeroStorageCaptchaCrypto.KeyHolder.CaptchaSecretLine` | zerostoragecaptchacrypto.cpp:42-72 | over capacity it returns "" and leaves the key alone; otherwise it creates the key if needed and returns the token for the current or, on request, the previous epoch |
| `ZeroStorageCaptchaCrypto.KeyHolder.FillKey` | zerostoragecaptchacrypto.cpp:50-57 | the key-filling loop stores the created key |
| `ZeroStorageCaptchaCrypto.KeyHolder.ValidateCaptchaAnswer` | zerostoragecaptchacrypto.cpp:74-102 | accepts exactly when the matched epoch admits the token; on acceptance adds one entry (epoch, token), otherwise leaves the ledger unchanged; keeps the ledger consistent with the epochs |
| `ZeroStorageCaptchaCrypto.KeyHolder.RemoveOldToken` | zerostoragecaptchacrypto.cpp:104-108 | drops every entry under the given epoch and nothing else |
| `ZeroStorageCaptchaCrypto.ValidateTwice` | zerostoragecaptchacrypto.cpp:94-97 | validating the same answer and token twice without a tick never succeeds the second time |
| `ZeroStorageCaptchaCrypto.IssueThenValidate` | zerostoragecaptchacrypto.cpp:74-102 | a freshly derived token is accepted for its answer, or for any case variant when case-insensitive, while the ledger has room and no entry under the current epoch |
| `Captcha.Deform` | zerostoragecaptcha.cpp:176-182 | amplitudes go to the `*mod2` values and frequencies to the `*mod1` values |
| `Captcha.ForDifficulty` | zerostoragecaptcha.cpp:184-261 | the features nest: noise only with ellipses, ellipses only with lines |
| `Captcha.DifficultyFeatures` | zerostoragecaptcha.cpp:184-261 | lines come from level 1, ellipses from 2 and noise from 3; enabled features have positive counts and ordered ellipse radii; level 0 only turns the features off and sets the sine deformation |
| `Captcha.OutOfRangeClamped` | zerostoragecaptcha.cpp:186-260 | out-of-range levels act as level 0 or level 5 |
| `Captcha.HighLevelsForgetHistory` | zerostoragecaptcha.cpp:219-260 | from level 3 up every setting is fixed, whatever was set before |
| `Captcha.DifficultyIdempotent` | zerostoragecaptcha.cpp:184-261 | setting one difficulty twice is setting it once |
| `Captcha.HighLevelOverrides` | zerostoragecaptcha.cpp:219-260 | a level from 3 up overrides any earlier level |
| `Captcha.TextLength` | zerostoragecaptcha.cpp:265-269 | a non-positive length becomes 5; a positive one is kept |
| `Captcha.ZeroStorageCaptcha.constructor` | zerostoragecaptcha.cpp:33-67 | the constructor starts the rotator only if not started, and sets padding 5, the difficulty-3 settings and the text "NOTSET" |
| `Captcha.ZeroStorageCaptcha.SetSinDeform` | zerostoragecaptcha.cpp:176-182 | amplitudes go to the `*mod2` fields and frequencies to the `*mod1` fields; no other field changes |
| `Captcha.ZeroStorageCaptcha.SetDifficulty` | zerostoragecaptcha.cpp:184-261 | the new settings are those of the level applied to the old ones; text and padding stay |
| `Captcha.ZeroStorageCaptcha.GenerateText` | zerostoragecaptcha.cpp:263-274 | the answer becomes a random text of the corrected length |
| `Captcha.ZeroStorageCaptcha.CaptchaToken` | zerostoragecaptcha.cpp:82-85 | the token is the answer's current-epoch token, or "" over capacity |
| `Captcha.ZeroStorageCaptcha.Validate` | zerostoragecaptcha.cpp:69-72 | `validate` has the same contract as `validateCaptchaAnswer`: the same acceptance, ledger, key and capacity effects |
| `Captcha.ZeroStorageCaptcha.GetCaptcha` | zerostoragecaptcha.cpp:74-80 | starts the rotator with a fresh current epoch value if it was not running, and otherwise leaves both values alone; the container's answer is the generated text; its token is that text's current-epoch token, with the key created if needed, or "" over capacity with the key untouched |
| `Captcha.IssueAndRedeemTwice` | zerostoragecaptcha.cpp:69-85 | an issued captcha's answer is accepted once and refused the second time, also for the first captcha of a fresh process, whose `getCaptcha` starts the rotator |

## Left out

- **Rendering.** The model leaves out `updateCaptcha`, the PNG of
  `captchaPngByteArray`, fonts, colours, image size, `qsrand`, and the choice
  of colours by the clock's milliseconds. `Captcha.Container` therefore
  carries no picture.
- **Signing.** `KeyHolder::sign` is an OpenSSL Ed25519 call. It is an
  uninterpreted deterministic `Signer` function.
- **The signature copy loop.** The byte-by-byte copy of the signature into a
  `QByteArray` (zerostoragecaptchacrypto.cpp:65-69) is the identity, so the
  signature is encoded directly.
- **The text handed to the signer.** The program passes the UTF-8 bytes of
  the signed text, with a length counted in UTF-16 units. The model gives
  the signer the text itself, which agrees for ASCII text.
- **Library transforms.** `toBase64` and `toUpper` are modelled for ASCII
  text only: base64url per RFC 4648, section 5, and ASCII upper-casing.
- **Randomness, clock and timer.** `std::random_device`, `QDateTime` and the
  `QTimer` are replaced by parameters (`draws`, `now`). A timeout is an
  explicit `Tick` call; the interval is only the constant
  `TIMER_TO_CHANGE_TOKEN_MSECS`.
- **Concurrency.** The mutex and the unlocked size read in
  `captchaSecretLine` are left out, and so is any interleaving of a tick with
  a validation.
- **Logging.** `warningLog` and the `qInfo` messages, including the message
  for out-of-range difficulty levels.
- **`hash`.** It is declared in zerostoragecaptchacrypto.h but defined
  nowhere.
- **Getters and setters of `zerostoragecaptcha.h`.** These plain field
  accessors are not modelled, including `drawEllipses()` and `drawNoise()`,
  which return `m_drawLines`.
- **Numbers-only answers.** `ZeroStorageCaptcha::m_onlyNumbers` is a static
  that starts false and that no code in this version writes, so
  `GenerateText` and `GetCaptcha` always draw letters and digits.
  Numbers-only mode is modelled only in `random` itself (`RandomString`,
  `NumbersOnlyDigits`).
- **The example programs.** They call functions that this version of the library does not
  define.
- **The multimap's order.** The ledger is a list. Only its size, the epochs
  it holds and its entries are observed, never their order.
- **Shared static state.** Each static singleton is one object. Several
  captcha objects share them only when given the same objects.
- `ZeroStorageCaptchaCrypto.KeyHolder.SetMaxSizeOfUsedTokensCache`: requires
  the argument to fit a 64-bit `size_t`.
