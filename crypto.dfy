/**
 * The stateless token protocol of ZeroStorageCaptchaCrypto: the epoch
 * rotator `TimeToken` and the token deriver and replay guard `KeyHolder`.
 * In the program both keep their state in static members; here each is one
 * object whose fields are those members, and the two are passed to each
 * other's operations where the program reaches across.
 *
 * The environment is explicit: `draws` are the values the random
 * distribution yields, `now` is the clock in seconds since the Unix epoch,
 * and the Ed25519 signer is a deterministic function value fixed when the
 * key holder is created.
 */
module ZeroStorageCaptchaCrypto {
  import opened Encoding
  import opened CryptoText
  import opened UsedTokens

  const KEYSIZE := 32
  const SIGSIZE := 64
  const TIME_TOKEN_SIZE := 5
  const DEFAULT_SIZE_OF_USED_TOKENS_CACHE := 100000
  /** Interval of the rotation timer; each timeout is one `TimeToken.Tick` call here. */
  const TIMER_TO_CHANGE_TOKEN_MSECS := 90000

  /** An Ed25519 signature (RFC 8032): always SIGSIZE bytes. */
  type Signature = s: seq<byte> | |s| == SIGSIZE witness seq(SIGSIZE, _ => 0 as byte)

  /**
   * `KeyHolder::sign`: the signature of a text under a private key. Ed25519
   * signing is deterministic (RFC 8032, section 5.1.6), so it is a function.
   */
  type Signer = (seq<byte>, string) -> Signature

  /** `setMaxSizeOfUsedTokensCache` stores a `size_t` into an `int`: the value
      is reduced modulo 2^32 into the signed 32-bit range. */
  function Int32Of(size: int): (r: int)
    requires 0 <= size
    ensures -0x8000_0000 <= r < 0x8000_0000
    ensures (r - size) % 0x1_0000_0000 == 0
    ensures size < 0x8000_0000 ==> r == size
    ensures 0x8000_0000 <= size < 0x1_0000_0000 ==> r < 0
  {
    var m := size % 0x1_0000_0000;
    if m < 0x8000_0000 then m else m - 0x1_0000_0000
  }

  // ---------------------------------------------------------------------
  // Epoch values
  // ---------------------------------------------------------------------

  predicate EpochDrawsFit(draws: seq<int>)
  {
    DrawsFit(draws, false) && TIME_TOKEN_SIZE <= |draws|
  }

  /** A fresh epoch value: TIME_TOKEN_SIZE random characters, then the clock in decimal. */
  function EpochValue(draws: seq<int>, now: int): (v: string)
    requires EpochDrawsFit(draws)
    ensures |v| > TIME_TOKEN_SIZE
  {
    RandomString(TIME_TOKEN_SIZE, false, draws) + Decimal(now)
  }

  /** The clock part makes epoch values made at different seconds different,
      whatever the random part. */
  lemma EpochValueDeterminesClock(d1: seq<int>, n1: int, d2: seq<int>, n2: int)
    requires EpochDrawsFit(d1) && EpochDrawsFit(d2)
    requires EpochValue(d1, n1) == EpochValue(d2, n2)
    ensures n1 == n2
  {
    var v := EpochValue(d1, n1);
    assert Decimal(n1) == v[TIME_TOKEN_SIZE..] == Decimal(n2);
    DecimalInjective(n1, n2);
  }

  // ---------------------------------------------------------------------
  // Token derivation
  // ---------------------------------------------------------------------

  predicate KeyDrawsFit(draws: seq<int>)
  {
    DrawsFit(draws, false) && KEYSIZE <= |draws|
  }

  /** The key the lazy initialisation copies, byte by byte, out of `random(KEYSIZE)`. */
  function NoiseKey(draws: seq<int>): (k: seq<byte>)
    requires KeyDrawsFit(draws)
    ensures |k| == KEYSIZE
    ensures forall j :: 0 <= j < KEYSIZE ==> k[j] != 0
  {
    var noize := RandomString(KEYSIZE, false, draws);
    var k := seq(KEYSIZE, j requires 0 <= j < KEYSIZE => ByteOf(noize[j]));
    assert forall j :: 0 <= j < KEYSIZE ==> k[j] != 0 by {
      forall j | 0 <= j < KEYSIZE
        ensures k[j] != 0
      {
        assert IsTableLetterOrDigit(noize[j]);
        ByteOfAscii(noize[j]);
      }
    }
    k
  }

  /** Byte `j` of the noise key is character `j` of the noise text. */
  lemma NoiseKeyBytes(draws: seq<int>)
    requires KeyDrawsFit(draws)
    ensures forall j :: 0 <= j < KEYSIZE ==> NoiseKey(draws)[j] == ByteOf(RandomString(KEYSIZE, false, draws)[j])
  {
  }

  /**
   * The key a derivation signs with: the held key, unless its first byte is
   * still 0, in which case a new one is made from the noise first.
   */
  function KeyInUse(key: seq<byte>, draws: seq<int>): (k: seq<byte>)
    requires |key| == KEYSIZE && KeyDrawsFit(draws)
    ensures |k| == KEYSIZE && k[0] != 0
    ensures key[0] != 0 ==> k == key
  {
    if key[0] == 0 then NoiseKey(draws) else key
  }

  /** Once made, the key is never made again, whatever noise later calls bring. */
  lemma KeyCreatedOnce(key: seq<byte>, d1: seq<int>, d2: seq<int>)
    requires |key| == KEYSIZE && KeyDrawsFit(d1) && KeyDrawsFit(d2)
    ensures KeyInUse(KeyInUse(key, d1), d2) == KeyInUse(key, d1)
  {
  }

  /** The text that is signed: the answer, upper-cased unless case-sensitive, then the epoch value. */
  function SignedText(caseSensitive: bool, answer: string, epoch: string): (text: string)
    ensures |text| == |answer| + |epoch| && text[|answer|..] == epoch
    ensures caseSensitive ==> text[..|answer|] == answer
    ensures !caseSensitive ==> SameIgnoringCase(text[..|answer|], answer)
  {
    (if caseSensitive then answer else ToUpper(answer)) + epoch
  }

  /**
   * For one epoch value, two answers are signed as the same text exactly when
   * they are equal (case-sensitive) or differ only in letter case (otherwise).
   */
  lemma SignedTextIdentifiesAnswers(caseSensitive: bool, a: string, b: string, epoch: string)
    ensures SignedText(caseSensitive, a, epoch) == SignedText(caseSensitive, b, epoch)
            <==> if caseSensitive then a == b else SameIgnoringCase(a, b)
  {
    var na := if caseSensitive then a else ToUpper(a);
    var nb := if caseSensitive then b else ToUpper(b);
    if na + epoch == nb + epoch {
      assert na == (na + epoch)[..|na|] == (nb + epoch)[..|nb|] == nb;
    }
    ToUpperIdentifiesCaseVariants(a, b);
  }

  /**
   * The token `captchaSecretLine` derives while the ledger is within its
   * capacity: the signature of the signed text, base64url-encoded, compacted.
   * At most 28 characters: of the 88 base64url characters of 64 bytes, 29
   * are kept, and the last of them is always padding. All letters and digits.
   */
  function SecretLine(sign: Signer, key: seq<byte>, caseSensitive: bool, epoch: string, answer: string): (line: string)
    ensures |line| <= 28
    ensures forall c :: c in line ==> IsAlphanumeric(c)
  {
    var signature := sign(key, SignedText(caseSensitive, answer, epoch));
    PaddedEnd(signature);
    CompactedPaddedEnd(Base64Url(signature));
    Compacted(Base64Url(signature))
  }

  /** The base64url text of a signature, before compaction, is always 88 characters. */
  lemma SignatureTextLength(signature: Signature)
    ensures |Base64Url(signature)| == 88
  {
  }

  /** With case sensitivity off, answers differing only in letter case get one token. */
  lemma CaseInsensitiveTokens(sign: Signer, key: seq<byte>, epoch: string, a: string, b: string)
    requires SameIgnoringCase(a, b)
    ensures SecretLine(sign, key, false, epoch, a) == SecretLine(sign, key, false, epoch, b)
  {
    SignedTextIdentifiesAnswers(false, a, b, epoch);
  }

  /**
   * The epoch value `validateCaptchaAnswer` settles on: the current one when
   * the token is the current line, else the previous one when it is the
   * previous line, else none (the empty string).
   */
  function MatchedEpoch(sign: Signer, key: seq<byte>, caseSensitive: bool, current: string, prev: string,
                        answer: string, token: string): (e: string)
    ensures e == current || e == prev || e == ""
    ensures SecretLine(sign, key, caseSensitive, current, answer) == token ==> e == current
    ensures (SecretLine(sign, key, caseSensitive, current, answer) != token
             && SecretLine(sign, key, caseSensitive, prev, answer) == token) ==> e == prev
    ensures e != "" ==> token == SecretLine(sign, key, caseSensitive, e, answer)
  {
    if SecretLine(sign, key, caseSensitive, current, answer) == token then current
    else if SecretLine(sign, key, caseSensitive, prev, answer) == token then prev
    else ""
  }

  /**
   * When validation accepts, spelled out: the ledger is within capacity and
   * either the token is the current line, the current epoch exists and has
   * no entry yet, or the token is not the current line but the previous one,
   * and the previous epoch exists and has no entry yet.
   */
  lemma AcceptanceCharacterised(l: Ledger, capacity: int, sign: Signer, key: seq<byte>, caseSensitive: bool,
                                current: string, prev: string, answer: string, token: string)
    ensures Admits(l, capacity, MatchedEpoch(sign, key, caseSensitive, current, prev, answer, token))
      <==> |l| <= capacity &&
           ((SecretLine(sign, key, caseSensitive, current, answer) == token
             && current != "" && !HasEpoch(l, current))
            || (SecretLine(sign, key, caseSensitive, current, answer) != token
                && SecretLine(sign, key, caseSensitive, prev, answer) == token
                && prev != "" && !HasEpoch(l, prev)))
  {
  }

  /**
   * An accepted token is the line of the submitted answer under one of the two
   * live epoch values: a token made under any other epoch value is accepted
   * only if the signer happens to give it the same line.
   */
  lemma AcceptedTokenIsLive(l: Ledger, capacity: int, sign: Signer, key: seq<byte>, caseSensitive: bool,
                            current: string, prev: string, answer: string, token: string)
    requires Admits(l, capacity, MatchedEpoch(sign, key, caseSensitive, current, prev, answer, token))
    ensures var e := MatchedEpoch(sign, key, caseSensitive, current, prev, answer, token);
            e != "" && (e == current || e == prev) && token == SecretLine(sign, key, caseSensitive, e, answer)
  {
  }

  // ---------------------------------------------------------------------
  // State
  // ---------------------------------------------------------------------

  /** The ledger only holds entries for the live epochs, one per epoch. */
  ghost predicate Consistent(keys: KeyHolder, tt: TimeToken)
    reads keys, tt
  {
    LiveEpochsOnly(keys.usedTokens, tt.current, tt.prev) && OnePerEpoch(keys.usedTokens)
  }

  /** `ZeroStorageCaptchaCrypto::TimeToken`: the current and previous epoch values. */
  class TimeToken {
    /** Whether `m_updater`, the rotation timer, exists. */
    var updaterStarted: bool
    var current: string
    var prev: string

    ghost predicate Valid()
      reads this
    {
      (updaterStarted ==> current != "") && (!updaterStarted ==> current == "" && prev == "")
    }

    /** The state at program start: no timer, both values empty. */
    constructor ()
      ensures Valid() && !updaterStarted && current == "" && prev == ""
    {
      updaterStarted, current, prev := false, "", "";
    }

    /** `inited()`: the rotator runs exactly when there is a current epoch value. */
    function Inited(): (started: bool)
      reads this
      ensures Valid() ==> (started <==> current != "")
    {
      updaterStarted
    }

    /** `currentToken()`: never empty once the rotator runs. */
    function CurrentToken(): (token: string)
      reads this
      ensures Valid() && Inited() ==> token != ""
    {
      current
    }

    /** `prevToken()`: empty until the rotator runs. */
    function PrevToken(): (token: string)
      reads this
      ensures Valid() && !Inited() ==> token == ""
    {
      prev
    }

    /**
     * `init`: does nothing once the timer exists; otherwise creates it and
     * installs a fresh current value.
     */
    method Init(draws: seq<int>, now: int)
      requires Valid() && EpochDrawsFit(draws)
      modifies this
      ensures Valid() && Inited()
      ensures old(Inited()) ==> current == old(current) && prev == old(prev)
      ensures !old(Inited()) ==> current == EpochValue(draws, now) && prev == old(prev)
      ensures forall l :: LiveEpochsOnly(l, old(current), old(prev)) ==> LiveEpochsOnly(l, current, prev)
    {
      if updaterStarted {
        return;
      }
      updaterStarted := true;
      var noise := Random(draws, TIME_TOKEN_SIZE);
      current := noise + Decimal(now);
    }

    /**
     * One timeout of the rotation timer: the entries of the old previous epoch
     * leave the ledger, the current value becomes the previous one and a
     * fresh value becomes current.
     */
    method Tick(keys: KeyHolder, draws: seq<int>, now: int)
      requires Valid() && Inited() && EpochDrawsFit(draws)
      modifies this, keys`usedTokens
      ensures Valid() && Inited()
      ensures keys.usedTokens == WithoutEpoch(old(keys.usedTokens), old(prev))
      ensures prev == old(current) && current == EpochValue(draws, now)
      ensures old(Consistent(keys, this)) ==> Consistent(keys, this)
    {
      ghost var wasConsistent := Consistent(keys, this);
      keys.RemoveOldToken(prev);
      prev := current;
      var noise := Random(draws, TIME_TOKEN_SIZE);
      current := noise + Decimal(now);
      if wasConsistent {
        PruneKeepsInvariant(old(keys.usedTokens), old(current), old(prev), current);
      }
    }
  }

  /** `ZeroStorageCaptchaCrypto::KeyHolder`: the signing key, the case flag and the replay ledger. */
  class KeyHolder {
    var usedTokens: Ledger
    var maximalSizeOfUsedMap: int
    var caseSensitive: bool
    const key: array<byte>
    const sign: Signer

    ghost predicate Valid()
      reads this
    {
      key.Length == KEYSIZE
    }

    /** The state at program start: an all-zero key, default capacity, case-insensitive, empty ledger. */
    constructor (sign: Signer)
      ensures Valid() && fresh(key)
      ensures key[..] == seq(KEYSIZE, _ => 0 as byte)
      ensures usedTokens == [] && maximalSizeOfUsedMap == DEFAULT_SIZE_OF_USED_TOKENS_CACHE
      ensures !caseSensitive && this.sign == sign
    {
      usedTokens := [];
      maximalSizeOfUsedMap := DEFAULT_SIZE_OF_USED_TOKENS_CACHE;
      caseSensitive := false;
      key := new byte[KEYSIZE](_ => 0 as byte);
      this.sign := sign;
    }

    /** `setCaseSensitive`: with no argument it turns case sensitivity off. */
    method SetCaseSensitive(enabled: bool := false)
      modifies this`caseSensitive
      ensures caseSensitive == enabled
    {
      caseSensitive := enabled;
    }

    /** `setMaxSizeOfUsedTokensCache`: a `size_t` argument kept in an `int`. */
    method SetMaxSizeOfUsedTokensCache(size: int)
      requires 0 <= size < 0x1_0000_0000_0000_0000
      modifies this`maximalSizeOfUsedMap
      ensures maximalSizeOfUsedMap == Int32Of(size)
    {
      maximalSizeOfUsedMap := Int32Of(size);
    }

    /**
     * `m_usedTokens.size() > m_maximalSizeOfUsedMap`: a ledger within its
     * capacity is not over it, and a negative capacity (a size whose value
     * modulo 2^32 is 2^31 or more, wrapped into the `int`) blocks even the
     * empty ledger.
     */
    function Overflowing(): (over: bool)
      reads this
      ensures |usedTokens| <= maximalSizeOfUsedMap ==> !over
      ensures maximalSizeOfUsedMap < 0 ==> over
      ensures over ==> usedTokens != [] || maximalSizeOfUsedMap < 0
    {
      |usedTokens| > maximalSizeOfUsedMap
    }

    /**
     * `captchaSecretLine`: the empty string while the ledger is over capacity;
     * otherwise the key is made if it does not exist yet, and the token of the
     * answer under the current (or, asked for, the previous) epoch is returned.
     */
    method CaptchaSecretLine(tt: TimeToken, noise: seq<int>, captchaAnswer: string, prevTimeToken: bool := false)
      returns (line: string)
      requires Valid() && KeyDrawsFit(noise)
      modifies key
      ensures Overflowing() ==> line == "" && key[..] == old(key[..])
      ensures !Overflowing() ==> key[..] == KeyInUse(old(key[..]), noise)
      ensures !Overflowing() ==>
        line == SecretLine(sign, key[..], caseSensitive, if prevTimeToken then tt.prev else tt.current, captchaAnswer)
    {
      if |usedTokens| > maximalSizeOfUsedMap {
        return "";
      }
      if key[0] == 0 {
        FillKey(noise);
      }
      var stringToSign := (if caseSensitive then captchaAnswer else ToUpper(captchaAnswer))
                          + (if prevTimeToken then tt.PrevToken() else tt.CurrentToken());
      var signature := sign(key[..], stringToSign);
      line := Compact(Base64Url(signature));
    }

    /** The lazy key creation inside `captchaSecretLine`: `random(KEYSIZE)`, copied byte by byte. */
    method FillKey(noise: seq<int>)
      requires Valid() && KeyDrawsFit(noise)
      modifies key
      ensures key[..] == NoiseKey(noise)
    {
      var noize := Random(noise, KEYSIZE);
      for i := 0 to KEYSIZE
        invariant forall j :: 0 <= j < i ==> key[j] == ByteOf(noize[j])
      {
        key[i] := ByteOf(noize[i]);
      }
      NoiseKeyBytes(noise);
    }

    /**
     * `validateCaptchaAnswer`: finds the epoch the token was made under
     * (current first, then previous) and accepts when that epoch exists, the
     * ledger is within capacity and holds no entry under that epoch yet; an
     * acceptance files one entry (epoch, token). Nothing else changes.
     */
    method ValidateCaptchaAnswer(tt: TimeToken, noise: seq<int>, answer: string, secretLine: string)
      returns (accepted: bool)
      requires Valid() && KeyDrawsFit(noise)
      modifies this`usedTokens, key
      ensures old(Overflowing()) ==> key[..] == old(key[..])
      ensures !old(Overflowing()) ==> key[..] == KeyInUse(old(key[..]), noise)
      ensures accepted == Admits(old(usedTokens), maximalSizeOfUsedMap,
                                 MatchedEpoch(sign, key[..], caseSensitive, tt.current, tt.prev, answer, secretLine))
      ensures usedTokens ==
        if accepted
        then old(usedTokens) + [Entry(MatchedEpoch(sign, key[..], caseSensitive, tt.current, tt.prev, answer, secretLine), secretLine)]
        else old(usedTokens)
      ensures accepted ==> |usedTokens| <= maximalSizeOfUsedMap + 1
      ensures old(Consistent(this, tt)) ==> Consistent(this, tt)
    {
      var timeKey := "";
      var line := CaptchaSecretLine(tt, noise, answer);
      ghost var k, l0 := key[..], usedTokens;
      if line == secretLine {
        timeKey := tt.CurrentToken();
      } else {
        line := CaptchaSecretLine(tt, noise, answer, prevTimeToken := true);
        if line == secretLine {
          timeKey := tt.PrevToken();
        }
      }
      assert key[..] == k;
      ghost var e := MatchedEpoch(sign, k, caseSensitive, tt.current, tt.prev, answer, secretLine);
      assert !Overflowing() ==> timeKey == e;
      if timeKey != "" {
        if |usedTokens| > maximalSizeOfUsedMap {
          assert !Admits(usedTokens, maximalSizeOfUsedMap, e);
          return false;
        }
        if !HasEpoch(usedTokens, timeKey) {
          assert Admits(usedTokens, maximalSizeOfUsedMap, e);
          if Consistent(this, tt) {
            AdmitKeepsInvariant(usedTokens, maximalSizeOfUsedMap, timeKey, secretLine, tt.current, tt.prev);
          }
          usedTokens := usedTokens + [Entry(timeKey, secretLine)];
          assert key[..] == k && usedTokens == l0 + [Entry(e, secretLine)];
          return true;
        }
      }
      assert !Admits(usedTokens, maximalSizeOfUsedMap, e);
      return false;
    }

    /** `removeOldToken`: drops every entry filed under the given epoch value. */
    method RemoveOldToken(oldPrevToken: string)
      modifies this`usedTokens
      ensures usedTokens == WithoutEpoch(old(usedTokens), oldPrevToken)
    {
      usedTokens := WithoutEpoch(usedTokens, oldPrevToken);
    }
  }

  // ---------------------------------------------------------------------
  // Protocol runs
  // ---------------------------------------------------------------------

  /**
   * Single use: validating the same answer and token twice with no rotation
   * in between never succeeds the second time.
   */
  method ValidateTwice(keys: KeyHolder, tt: TimeToken, noise: seq<int>, answer: string, token: string)
    returns (first: bool, second: bool)
    requires keys.Valid() && KeyDrawsFit(noise)
    modifies keys`usedTokens, keys.key
    ensures !second
  {
    ghost var l0 := keys.usedTokens;
    first := keys.ValidateCaptchaAnswer(tt, noise, answer, token);
    ghost var e := MatchedEpoch(keys.sign, keys.key[..], keys.caseSensitive, tt.current, tt.prev, answer, token);
    second := keys.ValidateCaptchaAnswer(tt, noise, answer, token);
    if first {
      OneAcceptancePerEpoch(l0, keys.maximalSizeOfUsedMap, e, token);
    }
  }

  /**
   * Issue then validate: while the ledger is within capacity and holds no
   * entry under the current epoch, the token derived for an answer is
   * accepted for that answer (or, case-insensitively, any case variant of it).
   */
  method IssueThenValidate(keys: KeyHolder, tt: TimeToken, noise: seq<int>, answer: string, reply: string)
    returns (token: string, accepted: bool)
    requires keys.Valid() && tt.Valid() && tt.Inited() && KeyDrawsFit(noise)
    requires |keys.usedTokens| <= keys.maximalSizeOfUsedMap && !HasEpoch(keys.usedTokens, tt.current)
    requires reply == answer || (!keys.caseSensitive && SameIgnoringCase(reply, answer))
    modifies keys`usedTokens, keys.key
    ensures accepted
    ensures keys.usedTokens == old(keys.usedTokens) + [Entry(tt.current, token)]
  {
    token := keys.CaptchaSecretLine(tt, noise, answer);
    if !keys.caseSensitive {
      ToUpperIdentifiesCaseVariants(reply, answer);
      CaseInsensitiveTokens(keys.sign, keys.key[..], tt.current, reply, answer);
    }
    accepted := keys.ValidateCaptchaAnswer(tt, noise, reply, token);
  }
}
