/**
 * The string helpers of the crypto unit: `random` (the table-driven random
 * text used for captcha answers, epoch values and the signing key),
 * `KeyHolder::compact` (the shortening of a base64url signature into a
 * token) and the decimal rendering of the clock (`QString::number`).
 *
 * Randomness is a parameter: `draws` lists, in order, the values the
 * `std::uniform_int_distribution` in `random` yields.
 */
module CryptoText {

  // ---------------------------------------------------------------------
  // random
  // ---------------------------------------------------------------------

  /** The character table of `random`, as written: 'k' stands twice (where 'o'
      would be) and 'h' stands where 'O' would be. */
  const RandomTable: seq<char> :=
    "0123456789" + "abcdefghij" + "klmnkpqrst" + "uvwxyzABCD" + "EFGHIJKLMN" + "hPQRSTUVWX"

  /** The smallest table index the distribution yields: index 0 only for numbers. */
  function LowestDraw(onlyNumbers: bool): (lo: int)
    ensures 0 <= lo <= HighestDraw(onlyNumbers)
    ensures !onlyNumbers ==> lo > 0
  {
    if onlyNumbers then 0 else 1
  }

  /** The largest table index the distribution yields: inside the table, and inside the digits for numbers. */
  function HighestDraw(onlyNumbers: bool): (hi: int)
    ensures hi < |RandomTable|
    ensures onlyNumbers ==> hi < 10
  {
    if onlyNumbers then 9 else 59
  }

  /** `draws` are values the distribution of `random(_, onlyNumbers)` can yield. */
  predicate DrawsFit(draws: seq<int>, onlyNumbers: bool)
  {
    forall i :: 0 <= i < |draws| ==> LowestDraw(onlyNumbers) <= draws[i] <= HighestDraw(onlyNumbers)
  }

  /** How many characters `random(length, _)` appends: none for a negative length. */
  function Wanted(length: int): nat { if length < 0 then 0 else length }

  /** A character `random` can emit without the numbers-only flag. */
  predicate IsTableLetterOrDigit(c: char)
  {
    ('1' <= c <= '9' || 'a' <= c <= 'z' || 'A' <= c <= 'X') && c != 'o' && c != 'O'
  }

  /**
   * The text `random(length, onlyNumbers)` returns when the distribution
   * yields `draws`: one table character per draw, `Wanted(length)` of them.
   */
  function RandomString(length: int, onlyNumbers: bool, draws: seq<int>): (r: string)
    requires DrawsFit(draws, onlyNumbers) && Wanted(length) <= |draws|
    ensures |r| == Wanted(length)
    ensures onlyNumbers ==> forall i :: 0 <= i < |r| ==> '0' <= r[i] <= '9'
    ensures !onlyNumbers ==> forall i :: 0 <= i < |r| ==> IsTableLetterOrDigit(r[i])
  {
    TableIndices();
    seq(Wanted(length), i requires 0 <= i < Wanted(length) => RandomTable[draws[i]])
  }

  /** Which characters stand at which table indices. */
  lemma TableIndices()
    ensures |RandomTable| == 60
    ensures forall j :: 0 <= j < 10 ==> '0' <= RandomTable[j] <= '9'
    ensures forall j :: 1 <= j < 60 ==> IsTableLetterOrDigit(RandomTable[j])
  {
  }

  /** `random`: appends one drawn table character at a time until `length` are there. */
  method Random(draws: seq<int>, length: int, onlyNumbers: bool := false) returns (value: string)
    requires DrawsFit(draws, onlyNumbers) && Wanted(length) <= |draws|
    ensures value == RandomString(length, onlyNumbers, draws)
  {
    value := [];
    while |value| < length
      invariant |value| <= Wanted(length)
      invariant value == RandomString(|value|, onlyNumbers, draws)
    {
      value := value + [RandomTable[draws[|value|]]];
    }
  }

  /** Every character of a random text is a character of the table. */
  lemma RandomStringFromTable(length: int, onlyNumbers: bool, draws: seq<int>)
    requires DrawsFit(draws, onlyNumbers) && Wanted(length) <= |draws|
    ensures forall c :: c in RandomString(length, onlyNumbers, draws) ==> c in RandomTable
  {
    var r := RandomString(length, onlyNumbers, draws);
    forall c | c in r
      ensures c in RandomTable
    {
      var i :| 0 <= i < |r| && r[i] == c;
      assert RandomTable[draws[i]] == c;
    }
  }

  /** A numbers-only random text is a text of decimal digits only. */
  lemma NumbersOnlyDigits(length: int, draws: seq<int>)
    requires DrawsFit(draws, true) && Wanted(length) <= |draws|
    ensures forall c :: c in RandomString(length, true, draws) ==> '0' <= c <= '9'
  {
  }

  /** Without the numbers-only flag, index 0 is never drawn: '0' and the NUL
      character never appear, so every character is a non-zero byte. */
  lemma NoZeroCharacter(length: int, draws: seq<int>)
    requires DrawsFit(draws, false) && Wanted(length) <= |draws|
    ensures '0' !in RandomString(length, false, draws)
    ensures forall c :: c in RandomString(length, false, draws) ==> 0 < c as int < 128
  {
  }

  // ---------------------------------------------------------------------
  // compact
  // ---------------------------------------------------------------------

  /** The characters of `s` at 1-based positions divisible by 3, in order. */
  function EveryThird(s: string): (r: string)
    ensures |r| == |s| / 3
    ensures forall k :: 0 <= k < |r| ==> r[k] == s[3 * k + 2]
    ensures multiset(r) <= multiset(s)
    decreases |s|
  {
    if s == [] then []
    else
      assert s == s[..|s| - 1] + [s[|s| - 1]];
      EveryThird(s[..|s| - 1]) + (if |s| % 3 == 0 then [s[|s| - 1]] else [])
  }

  /** `QString::remove(QChar)`: `s` with every occurrence of `c` deleted. */
  function Without(s: string, c: char): (r: string)
    ensures multiset(r) == multiset(s)[c := 0]
    ensures forall d :: d in r <==> d in s && d != c
    ensures |r| <= |s|
    decreases |s|
  {
    if s == [] then []
    else
      assert s == s[..|s| - 1] + [s[|s| - 1]];
      Without(s[..|s| - 1], c) + (if s[|s| - 1] == c then [] else [s[|s| - 1]])
  }

  /** Deleting a character that does not occur changes nothing. */
  lemma {:induction false} WithoutAbsent(s: string, c: char)
    requires c !in s
    ensures Without(s, c) == s
    decreases |s|
  {
    if s != [] {
      assert s == s[..|s| - 1] + [s[|s| - 1]];
      WithoutAbsent(s[..|s| - 1], c);
    }
  }

  /**
   * What `compact` returns for `s`, in one pass: the characters at 1-based
   * positions divisible by 3, in order, except '=', '_' and '-'.
   */
  function Compacted(s: string): (r: string)
    ensures |r| <= |s| / 3
    ensures forall c :: c in r ==> c in s && c != '=' && c != '_' && c != '-'
    decreases |s|
  {
    if s == [] then []
    else
      var n := |s|;
      Compacted(s[..n - 1])
      + (if n % 3 == 0 && s[n - 1] != '=' && s[n - 1] != '_' && s[n - 1] != '-' then [s[n - 1]] else [])
  }

  /**
   * When the text's length leaves a remainder of 1 on division by 3, its last
   * kept character is the one before last; if that is '=', it is deleted, so
   * one character fewer than a third remains.
   */
  lemma CompactedPaddedEnd(s: string)
    requires |s| % 3 == 1 && |s| >= 4 && s[|s| - 2] == '='
    ensures |Compacted(s)| <= (|s| - 2) / 3
  {
    var front := s[..|s| - 1];
    assert front[..|front| - 1] == s[..|s| - 2];
    assert front[|front| - 1] == '=';
    assert Compacted(front) == Compacted(s[..|s| - 2]);
  }

  /** Deleting a character distributes over concatenation. */
  lemma {:induction false} WithoutAppend(a: string, b: string, c: char)
    ensures Without(a + b, c) == Without(a, c) + Without(b, c)
    decreases |b|
  {
    if b == [] {
      assert a + b == a;
    } else {
      var front, y := b[..|b| - 1], b[|b| - 1];
      assert b == front + [y];
      assert (a + b)[..|a + b| - 1] == a + front;
      assert (a + b)[|a + b| - 1] == y;
      WithoutAppend(a, front, c);
    }
  }

  /** The three passes `compact` makes (keep every third character, then delete
      '=', '_' and '-') give the one-pass result. */
  lemma {:induction false} ThreePassesCompact(s: string)
    ensures Without(Without(Without(EveryThird(s), '='), '_'), '-') == Compacted(s)
    decreases |s|
  {
    if s != [] {
      var init, x := s[..|s| - 1], s[|s| - 1];
      var t := if |s| % 3 == 0 then [x] else [];
      var e := EveryThird(init);
      calc {
        Without(Without(Without(EveryThird(s), '='), '_'), '-');
        { assert EveryThird(s) == e + t; }
        Without(Without(Without(e + t, '='), '_'), '-');
        { WithoutAppend(e, t, '=');
          WithoutAppend(Without(e, '='), Without(t, '='), '_');
          WithoutAppend(Without(Without(e, '='), '_'), Without(Without(t, '='), '_'), '-'); }
        Without(Without(Without(e, '='), '_'), '-') + Without(Without(Without(t, '='), '_'), '-');
        { ThreePassesCompact(init);
          if |s| % 3 == 0 {
            assert [x][..0] == [];
          } }
        Compacted(init) + (if |s| % 3 == 0 && x != '=' && x != '_' && x != '-' then [x] else []);
      }
    }
  }

  /** Text without '=', '_' and '-' in the kept positions is only thinned out. */
  lemma CompactedPlain(s: string)
    requires '=' !in EveryThird(s) && '_' !in EveryThird(s) && '-' !in EveryThird(s)
    ensures Compacted(s) == EveryThird(s)
  {
    var kept := EveryThird(s);
    WithoutAbsent(kept, '=');
    WithoutAbsent(kept, '_');
    WithoutAbsent(kept, '-');
    ThreePassesCompact(s);
  }

  /** `KeyHolder::compact`: keep every third character, then delete '=', '_' and '-'. */
  method Compact(str: string) returns (result: string)
    ensures result == Compacted(str)
  {
    result := [];
    var counter := 0;
    for i := 0 to |str|
      invariant counter == i
      invariant result == EveryThird(str[..i])
    {
      assert str[..i + 1][..i] == str[..i];
      counter := counter + 1;
      if counter % 3 == 0 {
        result := result + [str[i]];
      }
    }
    assert str[..|str|] == str;
    result := Without(result, '=');
    result := Without(result, '_');
    result := Without(result, '-');
    ThreePassesCompact(str);
  }

  // ---------------------------------------------------------------------
  // QString::number
  // ---------------------------------------------------------------------

  function DigitChar(d: int): char
    requires 0 <= d < 10
  {
    ('0' as int + d) as char
  }

  /** Decimal digits of `n`, most significant first, without leading zeros. */
  function NatDecimal(n: nat): (r: string)
    ensures |r| >= 1 && (|r| == 1 <==> n < 10)
    ensures forall i :: 0 <= i < |r| ==> '0' <= r[i] <= '9'
    decreases n
  {
    if n < 10 then [DigitChar(n)] else NatDecimal(n / 10) + [DigitChar(n % 10)]
  }

  /** `QString::number` of a signed integer: a '-' before the digits of a negative one. */
  function Decimal(n: int): (r: string)
    ensures |r| >= 1 && (r[0] == '-' <==> n < 0)
  {
    if n < 0 then "-" + NatDecimal(-n) else NatDecimal(n)
  }

  /** Different numbers have different decimal texts. */
  lemma {:induction false} NatDecimalInjective(m: nat, n: nat)
    requires NatDecimal(m) == NatDecimal(n)
    ensures m == n
    decreases n
  {
    if n >= 10 && m >= 10 {
      var dm, dn := NatDecimal(m), NatDecimal(n);
      assert dm[|dm| - 1] == DigitChar(m % 10) && dn[|dn| - 1] == DigitChar(n % 10);
      assert NatDecimal(m / 10) == dm[..|dm| - 1] == dn[..|dn| - 1] == NatDecimal(n / 10);
      NatDecimalInjective(m / 10, n / 10);
    }
  }

  /** Different numbers have different `QString::number` texts. */
  lemma DecimalInjective(m: int, n: int)
    requires Decimal(m) == Decimal(n)
    ensures m == n
  {
    if m < 0 && n < 0 {
      assert NatDecimal(-m) == Decimal(m)[1..] == Decimal(n)[1..] == NatDecimal(-n);
      NatDecimalInjective(-m, -n);
    } else if m >= 0 && n >= 0 {
      NatDecimalInjective(m, n);
    }
  }
}
