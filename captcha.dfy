/**
 * The non-graphical part of the `ZeroStorageCaptcha` object: its
 * configuration by difficulty level, its answer text, and the static
 * `getCaptcha`/`validate` entry points that hand over to the token protocol.
 * Drawing the picture is not modelled; the sine deformation parameters are
 * kept as exact reals (every value the object is given is a small integer).
 */
module Captcha {
  import opened CryptoText
  import opened UsedTokens
  import opened ZeroStorageCaptchaCrypto

  /** `ZeroStorageCaptcha::m_onlyNumbers`: static, false, and never changed. */
  const ONLY_NUMBERS := false

  /** The sine deformation of the picture (`m_hmod1`, `m_hmod2`, `m_vmod1`, `m_vmod2`). */
  datatype SinDeform = SinDeform(hmod1: real, hmod2: real, vmod1: real, vmod2: real)

  /** `setSinDeform`'s argument order: amplitudes go to `*mod2`, frequencies to `*mod1`. */
  function Deform(hAmplitude: real, hFrequency: real, vAmplitude: real, vFrequency: real): (d: SinDeform)
    ensures d.hmod1 == hFrequency && d.hmod2 == hAmplitude
    ensures d.vmod1 == vFrequency && d.vmod2 == vAmplitude
  {
    SinDeform(hFrequency, hAmplitude, vFrequency, vAmplitude)
  }

  /** The settings `setDifficulty` chooses between. */
  datatype Look = Look(
    drawLines: bool, lineWidth: int, lineCount: int,
    drawEllipses: bool, ellipseCount: int, ellipseMinRadius: int, ellipseMaxRadius: int,
    drawNoise: bool, noiseCount: int, noisePointSize: int,
    deform: SinDeform)

  /** The settings after `setDifficulty(val)` from `before`. */
  function ForDifficulty(val: int, before: Look): (after: Look)
    ensures after.drawNoise ==> after.drawEllipses
    ensures after.drawEllipses ==> after.drawLines
  {
    if val < 1 then
      before.(drawLines := false, drawEllipses := false, drawNoise := false,
              deform := Deform(10.0, 10.0, 5.0, 20.0))
    else if val == 1 then
      before.(drawLines := true, lineWidth := 3, lineCount := 5,
              drawEllipses := false, drawNoise := false,
              deform := Deform(10.0, 15.0, 5.0, 20.0))
    else if val == 2 then
      before.(drawLines := true, lineWidth := 2, lineCount := 5,
              drawEllipses := true, ellipseCount := 1, ellipseMinRadius := 20, ellipseMaxRadius := 40,
              drawNoise := false,
              deform := Deform(10.0, 15.0, 5.0, 15.0))
    else if val == 3 then
      Look(true, 2, 3, true, 1, 20, 50, true, 100, 3, Deform(8.0, 13.0, 5.0, 15.0))
    else if val == 4 then
      Look(true, 3, 5, true, 2, 20, 40, true, 100, 3, Deform(8.0, 13.0, 5.0, 15.0))
    else
      Look(true, 4, 7, true, 1, 20, 40, true, 200, 3, Deform(8.0, 10.0, 5.0, 10.0))
  }

  /**
   * What a difficulty level turns on. Out-of-range levels are accepted: below
   * 1 acts as 0 and above 5 as 5. Lines come from level 1, ellipses from
   * level 2 and noise from level 3; whatever is on has positive counts and
   * ordered ellipse radii. Level 0 only switches the three features off and
   * leaves their parameters as they were.
   */
  lemma DifficultyFeatures(val: int, before: Look)
    ensures var after := ForDifficulty(val, before);
      && (after.drawLines <==> val >= 1)
      && (after.drawEllipses <==> val >= 2)
      && (after.drawNoise <==> val >= 3)
      && (after.drawEllipses ==> 0 < after.ellipseMinRadius <= after.ellipseMaxRadius)
      && (after.drawLines ==> after.lineWidth > 0 && after.lineCount > 0)
      && (after.drawNoise ==> after.noiseCount > 0 && after.noisePointSize > 0)
      && (val < 1 ==>
            after.(drawLines := before.drawLines, drawEllipses := before.drawEllipses,
                   drawNoise := before.drawNoise, deform := before.deform) == before)
  {
  }

  /** Out-of-range levels behave as the nearest valid level. */
  lemma OutOfRangeClamped(val: int, before: Look)
    ensures ForDifficulty(val, before) == ForDifficulty(if val < 0 then 0 else if val > 5 then 5 else val, before)
  {
  }

  /** From level 3 up every setting is fixed: the previous ones do not matter. */
  lemma HighLevelsForgetHistory(val: int, b1: Look, b2: Look)
    requires val >= 3
    ensures ForDifficulty(val, b1) == ForDifficulty(val, b2)
  {
  }

  /** Setting the same difficulty twice is setting it once. */
  lemma DifficultyIdempotent(val: int, before: Look)
    ensures ForDifficulty(val, ForDifficulty(val, before)) == ForDifficulty(val, before)
  {
  }

  /** A level from 3 up overrides whatever level was set before it. */
  lemma HighLevelOverrides(first: int, val: int, before: Look)
    requires val >= 3
    ensures ForDifficulty(val, ForDifficulty(first, before)) == ForDifficulty(val, before)
  {
    HighLevelsForgetHistory(val, ForDifficulty(first, before), before);
  }

  /** The length `generateText` uses: a non-positive request becomes 5. */
  function TextLength(length: int): (n: int)
    ensures n > 0
    ensures length > 0 ==> n == length
    ensures length <= 0 ==> n == 5
  {
    if length <= 0 then 5 else length
  }

  /** `ZeroStorageCaptchaContainer` without the picture: the token and the answer. */
  datatype Container = Container(token: string, answer: string)

  /** One captcha: its answer text, its look and the picture padding. */
  class ZeroStorageCaptcha {
    var hmod1: real
    var hmod2: real
    var vmod1: real
    var vmod2: real
    var padding: real
    var captchaText: string
    var drawLines: bool
    var drawEllipses: bool
    var drawNoise: bool
    var noiseCount: int
    var lineCount: int
    var ellipseCount: int
    var lineWidth: int
    var ellipseMinRadius: int
    var ellipseMaxRadius: int
    var noisePointSize: int

    /** The object's settings, read off its fields. */
    function CurrentLook(): Look
      reads this
    {
      Look(drawLines, lineWidth, lineCount, drawEllipses, ellipseCount, ellipseMinRadius, ellipseMaxRadius,
           drawNoise, noiseCount, noisePointSize, SinDeform(hmod1, hmod2, vmod1, vmod2))
    }

    /**
     * The constructor: starts the epoch rotator unless it runs already, then
     * sets padding 5, difficulty 3 and the placeholder text "NOTSET".
     */
    constructor (tt: TimeToken, epochDraws: seq<int>, now: int)
      requires tt.Valid() && EpochDrawsFit(epochDraws)
      modifies tt
      ensures tt.Valid() && tt.Inited()
      ensures old(tt.Inited()) ==> tt.current == old(tt.current) && tt.prev == old(tt.prev)
      ensures !old(tt.Inited()) ==> tt.current == EpochValue(epochDraws, now) && tt.prev == old(tt.prev)
      ensures padding == 5.0 && captchaText == "NOTSET"
      ensures forall before :: CurrentLook() == ForDifficulty(3, before)
    {
      new;
      if !tt.Inited() {
        tt.Init(epochDraws, now);
      }
      hmod1, hmod2 := 0.0, 0.0;
      vmod1, vmod2 := 0.0, 0.0;
      padding := 5.0;
      ghost var start := CurrentLook();
      SetDifficulty(3);
      captchaText := "NOTSET";
      forall before
        ensures CurrentLook() == ForDifficulty(3, before)
      {
        HighLevelsForgetHistory(3, start, before);
      }
    }

    /** `setSinDeform`: amplitudes and frequencies of the two sine waves. */
    method SetSinDeform(hAmplitude: real, hFrequency: real, vAmplitude: real, vFrequency: real)
      modifies this
      ensures hmod1 == hFrequency && hmod2 == hAmplitude && vmod1 == vFrequency && vmod2 == vAmplitude
      ensures unchanged(this`padding, this`captchaText, this`drawLines, this`drawEllipses, this`drawNoise)
      ensures unchanged(this`noiseCount, this`lineCount, this`ellipseCount, this`lineWidth)
      ensures unchanged(this`ellipseMinRadius, this`ellipseMaxRadius, this`noisePointSize)
    {
      hmod1 := hFrequency;
      hmod2 := hAmplitude;
      vmod1 := vFrequency;
      vmod2 := vAmplitude;
    }

    /** `setDifficulty`: the settings of level `val`; text and padding stay. */
    method SetDifficulty(val: int)
      modifies this
      ensures CurrentLook() == ForDifficulty(val, old(CurrentLook()))
      ensures captchaText == old(captchaText) && padding == old(padding)
    {
      if val < 1 {
        drawLines := false;
        drawEllipses := false;
        drawNoise := false;
        SetSinDeform(10.0, 10.0, 5.0, 20.0);
      } else if val == 1 {
        drawLines := true;
        lineWidth := 3;
        lineCount := 5;
        drawEllipses := false;
        drawNoise := false;
        SetSinDeform(10.0, 15.0, 5.0, 20.0);
      } else if val == 2 {
        drawLines := true;
        lineWidth := 2;
        lineCount := 5;
        drawEllipses := true;
        ellipseCount := 1;
        ellipseMinRadius := 20;
        ellipseMaxRadius := 40;
        drawNoise := false;
        SetSinDeform(10.0, 15.0, 5.0, 15.0);
      } else if val == 3 {
        drawLines := true;
        lineWidth := 2;
        lineCount := 3;
        drawEllipses := true;
        ellipseCount := 1;
        ellipseMinRadius := 20;
        ellipseMaxRadius := 50;
        drawNoise := true;
        noiseCount := 100;
        noisePointSize := 3;
        SetSinDeform(8.0, 13.0, 5.0, 15.0);
      } else if val == 4 {
        drawLines := true;
        lineWidth := 3;
        lineCount := 5;
        drawEllipses := true;
        ellipseCount := 2;
        ellipseMinRadius := 20;
        ellipseMaxRadius := 40;
        drawNoise := true;
        noiseCount := 100;
        noisePointSize := 3;
        SetSinDeform(8.0, 13.0, 5.0, 15.0);
      } else {
        drawLines := true;
        lineWidth := 4;
        lineCount := 7;
        drawEllipses := true;
        ellipseCount := 1;
        ellipseMinRadius := 20;
        ellipseMaxRadius := 40;
        drawNoise := true;
        noiseCount := 200;
        noisePointSize := 3;
        SetSinDeform(8.0, 10.0, 5.0, 10.0);
      }
    }

    /** `generateText`: a fresh random answer of the requested length (5 when it is not positive). */
    method GenerateText(draws: seq<int>, length: int := 5)
      requires DrawsFit(draws, ONLY_NUMBERS) && TextLength(length) <= |draws|
      modifies this`captchaText
      ensures captchaText == RandomString(TextLength(length), ONLY_NUMBERS, draws)
      ensures |captchaText| == TextLength(length)
    {
      var n := length;
      if n <= 0 {
        n := 5;
      }
      captchaText := Random(draws, n, ONLY_NUMBERS);
    }

    /** `captchaToken`: the current-epoch token of the answer text. */
    method CaptchaToken(keys: KeyHolder, tt: TimeToken, noise: seq<int>) returns (token: string)
      requires keys.Valid() && KeyDrawsFit(noise)
      modifies keys.key
      ensures keys.Overflowing() ==> token == "" && keys.key[..] == old(keys.key[..])
      ensures !keys.Overflowing() ==> keys.key[..] == KeyInUse(old(keys.key[..]), noise)
      ensures !keys.Overflowing() ==>
        token == SecretLine(keys.sign, keys.key[..], keys.caseSensitive, tt.current, captchaText)
    {
      token := keys.CaptchaSecretLine(tt, noise, captchaText);
    }

    /** `validate`: the token protocol's validation, unchanged. */
    static method Validate(keys: KeyHolder, tt: TimeToken, noise: seq<int>, answer: string, token: string)
      returns (accepted: bool)
      requires keys.Valid() && KeyDrawsFit(noise)
      modifies keys`usedTokens, keys.key
      ensures old(keys.Overflowing()) ==> keys.key[..] == old(keys.key[..])
      ensures !old(keys.Overflowing()) ==> keys.key[..] == KeyInUse(old(keys.key[..]), noise)
      ensures accepted == Admits(old(keys.usedTokens), keys.maximalSizeOfUsedMap,
                                 MatchedEpoch(keys.sign, keys.key[..], keys.caseSensitive, tt.current, tt.prev, answer, token))
      ensures keys.usedTokens ==
        if accepted
        then old(keys.usedTokens)
             + [Entry(MatchedEpoch(keys.sign, keys.key[..], keys.caseSensitive, tt.current, tt.prev, answer, token), token)]
        else old(keys.usedTokens)
      ensures accepted ==> |keys.usedTokens| <= keys.maximalSizeOfUsedMap + 1
      ensures old(Consistent(keys, tt)) ==> Consistent(keys, tt)
    {
      accepted := keys.ValidateCaptchaAnswer(tt, noise, answer, token);
    }

    /**
     * `getCaptcha`: a new captcha of the given difficulty and length; the
     * container holds its answer and the token for the current epoch.
     */
    static method GetCaptcha(keys: KeyHolder, tt: TimeToken, epochDraws: seq<int>, now: int,
                             textDraws: seq<int>, noise: seq<int>, length: int := 5, difficulty: int := 3)
      returns (c: Container)
      requires keys.Valid() && tt.Valid() && EpochDrawsFit(epochDraws) && KeyDrawsFit(noise)
      requires DrawsFit(textDraws, ONLY_NUMBERS) && TextLength(length) <= |textDraws|
      modifies tt, keys.key
      ensures tt.Valid() && tt.Inited()
      ensures old(tt.Inited()) ==> tt.current == old(tt.current) && tt.prev == old(tt.prev)
      ensures !old(tt.Inited()) ==> tt.current == EpochValue(epochDraws, now) && tt.prev == old(tt.prev)
      ensures c.answer == RandomString(TextLength(length), ONLY_NUMBERS, textDraws)
      ensures keys.Overflowing() ==> c.token == "" && keys.key[..] == old(keys.key[..])
      ensures !keys.Overflowing() ==> keys.key[..] == KeyInUse(old(keys.key[..]), noise)
      ensures !keys.Overflowing() ==> c.token == SecretLine(keys.sign, keys.key[..], keys.caseSensitive, tt.current, c.answer)
    {
      var captcha := new ZeroStorageCaptcha(tt, epochDraws, now);
      captcha.SetDifficulty(difficulty);
      captcha.GenerateText(textDraws, length);
      var token := captcha.CaptchaToken(keys, tt, noise);
      c := Container(token, captcha.captchaText);
    }
  }

  /**
   * The usage the library is built for: a captcha is issued, its answer is
   * accepted once, and the same answer and token are refused the second time.
   */
  method IssueAndRedeemTwice(keys: KeyHolder, tt: TimeToken, epochDraws: seq<int>, now: int,
                             textDraws: seq<int>, noise: seq<int>)
    returns (first: bool, second: bool)
    requires keys.Valid() && tt.Valid() && Consistent(keys, tt) && EpochDrawsFit(epochDraws) && KeyDrawsFit(noise)
    requires DrawsFit(textDraws, ONLY_NUMBERS) && TextLength(5) <= |textDraws|
    requires |keys.usedTokens| <= keys.maximalSizeOfUsedMap
    requires tt.Inited() ==> !HasEpoch(keys.usedTokens, tt.current)
    modifies tt, keys`usedTokens, keys.key
    ensures first && !second
  {
    // Before the rotator starts both epoch values are empty, so a consistent
    // ledger is empty.
    LiveLedgerHoldsAtMostTwo(keys.usedTokens, tt.current, tt.prev);
    assert !tt.Inited() ==> {tt.current, tt.prev} - {""} == {};
    var c := ZeroStorageCaptcha.GetCaptcha(keys, tt, epochDraws, now, textDraws, noise);
    ghost var k := keys.key[..];
    assert MatchedEpoch(keys.sign, k, keys.caseSensitive, tt.current, tt.prev, c.answer, c.token) == tt.current;
    first := ZeroStorageCaptcha.Validate(keys, tt, noise, c.answer, c.token);
    assert keys.key[..] == k;
    assert keys.usedTokens == old(keys.usedTokens) + [Entry(tt.current, c.token)];
    second := ZeroStorageCaptcha.Validate(keys, tt, noise, c.answer, c.token);
    assert keys.key[..] == k;
    OneAcceptancePerEpoch(old(keys.usedTokens), keys.maximalSizeOfUsedMap, tt.current, c.token);
  }
}
