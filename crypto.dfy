/** The random-value generators and the bcrypt helpers of the crypto utility. Each random
    draw is a parameter: a character index, a number in [0, 1) as Math.random returns it, or
    a nibble, so every generator is a function of its draws. */
module CryptoUtil {
  import opened Wrappers
  import opened Strings
  import ValidationUtil
  import Bcrypt

  const UpperLetters: string := "ABCDEFGHIJKLMNOPQRSTUVWXYZ"
  const LowerLetters: string := "abcdefghijklmnopqrstuvwxyz"
  const DecimalDigits: string := "0123456789"

  /** The 62 characters random strings are drawn from, in the source's order. */
  const Alphabet: string := UpperLetters + LowerLetters + DecimalDigits

  predicate IsAlphanumeric(c: char) {
    IsAsciiUpper(c) || IsAsciiLower(c) || IsAsciiDigit(c)
  }

  /** The alphabet's i-th character, computed: upper case, then lower case, then digits. */
  function AlphabetChar(i: int): (c: char)
    requires 0 <= i < 62
    ensures IsAlphanumeric(c)
  {
    if i < 26 then ('A' as int + i) as char
    else if i < 52 then ('a' as int + i - 26) as char
    else ('0' as int + i - 52) as char
  }

  /** The alphabet, position by position, is AlphabetChar. */
  lemma AlphabetComputed()
    ensures |Alphabet| == 62
    ensures forall i :: 0 <= i < 62 ==> Alphabet[i] == AlphabetChar(i)
  {
    var upper, lower, digits := UpperLetters, LowerLetters, DecimalDigits;
    UpperRun(upper);
    LowerRun(lower);
    DigitRun(digits);
    forall i | 0 <= i < 62 ensures Alphabet[i] == AlphabetChar(i) {
      if i < 26 {
        assert Alphabet[i] == upper[i];
      } else if i < 52 {
        assert Alphabet[i] == lower[i - 26];
      } else {
        assert Alphabet[i] == digits[i - 52];
      }
    }
  }

  lemma UpperRun(upper: string)
    requires upper == "ABCDEFGHIJKLMNOPQRSTUVWXYZ"
    ensures forall i :: 0 <= i < 26 ==> upper[i] == ('A' as int + i) as char
  {
    assert upper == seq(26, i requires 0 <= i < 26 => ('A' as int + i) as char);
  }

  lemma LowerRun(lower: string)
    requires lower == "abcdefghijklmnopqrstuvwxyz"
    ensures forall i :: 0 <= i < 26 ==> lower[i] == ('a' as int + i) as char
  {
    assert lower == seq(26, i requires 0 <= i < 26 => ('a' as int + i) as char);
  }

  lemma DigitRun(digits: string)
    requires digits == "0123456789"
    ensures forall i :: 0 <= i < 10 ==> digits[i] == ('0' as int + i) as char
  {
    assert digits == seq(10, i requires 0 <= i < 10 => ('0' as int + i) as char);
  }

  /** The alphabet is exactly the ASCII letters and digits. */
  lemma {:induction false} AlphabetIsAlphanumeric(c: char)
    ensures |Alphabet| == 62
    ensures c in Alphabet <==> IsAlphanumeric(c)
  {
    AlphabetComputed();
    if IsAsciiUpper(c) {
      assert Alphabet[c as int - 'A' as int] == c;
    } else if IsAsciiLower(c) {
      assert Alphabet[26 + c as int - 'a' as int] == c;
    } else if IsAsciiDigit(c) {
      assert Alphabet[52 + c as int - '0' as int] == c;
    } else {
      forall i | 0 <= i < 62 ensures Alphabet[i] != c {
        assert Alphabet[i] == AlphabetChar(i);
      }
    }
  }

  /** `generateRandomString(length)`: one character per loop turn, the i-th chosen by draw
      i. A length that is not positive gives the empty string. */
  method GenerateRandomString(draws: seq<nat>, length: int := 32) returns (result: string)
    requires length <= |draws|
    requires forall i :: 0 <= i < |draws| ==> draws[i] < |Alphabet|
    ensures |result| == if length > 0 then length else 0
    ensures forall i :: 0 <= i < |result| ==> result[i] == Alphabet[draws[i]]
    ensures forall i :: 0 <= i < |result| ==> IsAlphanumeric(result[i])
  {
    result := "";
    var i := 0;
    while i < length
      invariant 0 <= i && (i <= length || i == 0)
      invariant |result| == i
      invariant forall j :: 0 <= j < i ==> result[j] == Alphabet[draws[j]]
      invariant forall j :: 0 <= j < i ==> IsAlphanumeric(result[j])
    {
      AlphabetComputed();
      result := result + [Alphabet[draws[i]]];
      i := i + 1;
    }
  }

  /** `generateToken`: a random string, 64 characters unless told otherwise. */
  method GenerateToken(draws: seq<nat>, length: int := 64) returns (token: string)
    requires length <= |draws|
    requires forall i :: 0 <= i < |draws| ==> draws[i] < |Alphabet|
    ensures |token| == if length > 0 then length else 0
    ensures forall i :: 0 <= i < |token| ==> token[i] == Alphabet[draws[i]]
  {
    token := GenerateRandomString(draws, length);
  }

  /** `generateRandomNumber(min, max)` for a draw `random` in [0, 1): in [min, max] when
      min <= max; when min > max the formula yields a value in [max + 1, min]. */
  function GenerateRandomNumber(random: real, min: int := 100000, max: int := 999999): (r: int)
    requires 0.0 <= random < 1.0
    ensures min <= max ==> min <= r <= max
    ensures min > max ==> max + 1 <= r <= min
  {
    var span := max - min + 1;
    ScaledFloorBounds(random, span);
    (random * span as real).Floor + min
  }

  /** A draw in [0, 1) times a span has its floor in [0, span) or, for a non-positive
      span, in [span, 0]. */
  lemma ScaledFloorBounds(a: real, span: int)
    requires 0.0 <= a < 1.0
    ensures span > 0 ==> 0 <= (a * span as real).Floor < span
    ensures span <= 0 ==> span <= (a * span as real).Floor <= 0
  {
    var s := span as real;
    var x := a * s;
    if span > 0 {
      ScalePositive(a, s, x);
      FloorBetween(x, 0, span);
    } else {
      ScaleNonPositive(a, s, x);
      FloorBetween(x, span, 1);
    }
  }

  /** A draw in [0, 1) scales a positive span into [0, span). */
  lemma ScalePositive(a: real, s: real, x: real)
    requires 0.0 <= a < 1.0 && s > 0.0 && x == a * s
    ensures 0.0 <= x < s
  {
    ProductNonNegative(1.0 - a, s);
  }

  /** A draw in [0, 1) scales a non-positive span into [span, 0]. */
  lemma ScaleNonPositive(a: real, s: real, x: real)
    requires 0.0 <= a < 1.0 && s <= 0.0 && x == a * s
    ensures s <= x <= 0.0
  {
    ProductNonNegative(a, -s);
    ProductNonNegative(1.0 - a, -s);
  }

  /** The product of two non-negative reals is non-negative. */
  lemma ProductNonNegative(p: real, q: real)
    requires p >= 0.0 && q >= 0.0
    ensures p * q >= 0.0
  {
  }

  /** A real in [lo, hi) has its floor in [lo, hi). */
  lemma FloorBetween(x: real, lo: int, hi: int)
    requires lo as real <= x < hi as real
    ensures lo <= x.Floor < hi
  {
  }

  /** `generateVerificationCode`: the decimal string of a number in [100000, 999999]. */
  function GenerateVerificationCode(random: real): (code: string)
    requires 0.0 <= random < 1.0
  {
    DecimalString(GenerateRandomNumber(random))
  }

  /** A verification code is six decimal digits, does not start with '0', and reads back as
      the number drawn. */
  lemma VerificationCodeShape(random: real)
    requires 0.0 <= random < 1.0
    ensures var code := GenerateVerificationCode(random);
      && |code| == 6 && code[0] != '0'
      && (forall i :: 0 <= i < 6 ==> IsAsciiDigit(code[i]))
      && DecimalValue(code) == GenerateRandomNumber(random)
      && 100000 <= DecimalValue(code) <= 999999
  {
    var n := GenerateRandomNumber(random);
    DecimalStringShape(n);
    assert Pow10(5) == 100000 && Pow10(6) == 1000000;
    DigitCountBetweenPowers(n, 6);
    DecimalRoundTrip(n);
  }

  // ------------------------------------------------------------------- generateUUID

  /** The version 4 template of section 4.4 of RFC 4122: every 'x' and 'y' is replaced. */
  const UuidTemplate: string := "xxxxxxxx-xxxx-4xxx-yxxx-xxxxxxxxxxxx"

  /** `v.toString(16)` for a nibble. */
  function HexChar(v: nat): (c: char)
    requires v < 16
    ensures ValidationUtil.IsHexDigit(c) && !('A' <= c <= 'F')
  {
    "0123456789abcdef"[v]
  }

  /** The variant nibble `r & 0x3 | 0x8`: the top two bits are 10. */
  function VariantNibble(r: nat): (v: nat)
    requires r < 16
    ensures 8 <= v < 12 && v == 8 + r % 4
  {
    (((r as bv8) & 3) | 8) as nat
  }

  /** The replacement for one template character, given its draw. */
  function FillChar(t: char, r: nat): char
    requires r < 16
  {
    if t == 'x' then HexChar(r) else if t == 'y' then HexChar(VariantNibble(r)) else t
  }

  /** `generateUUID`: draw i fills template position i (draws at the fixed positions are
      not used). */
  function GenerateUUID(draws: seq<nat>): (uuid: string)
    requires |draws| == |UuidTemplate|
    requires forall i :: 0 <= i < |draws| ==> draws[i] < 16
  {
    seq(|UuidTemplate|, i requires 0 <= i < |UuidTemplate| => FillChar(UuidTemplate[i], draws[i]))
  }

  /** The shape of every generated uuid: 36 characters, hyphens at 8, 13, 18 and 23, the
      version digit 4 at 14, a variant digit 8, 9, a or b at 19, and lower-case hex digits
      everywhere else; hence the uuid validator accepts it. */
  lemma {:induction false} GeneratedUuidShape(draws: seq<nat>)
    requires |draws| == |UuidTemplate|
    requires forall i :: 0 <= i < |draws| ==> draws[i] < 16
    ensures var uuid := GenerateUUID(draws);
      && |uuid| == 36
      && (forall i :: 0 <= i < 36 && ValidationUtil.IsUuidHyphenPosition(i) ==> uuid[i] == '-')
      && uuid[14] == '4'
      && uuid[19] in "89ab"
      && (forall i :: 0 <= i < 36 && !ValidationUtil.IsUuidHyphenPosition(i) ==>
            ValidationUtil.IsHexDigit(uuid[i]) && !('A' <= uuid[i] <= 'F'))
      && ValidationUtil.IsValidUUID(uuid)
  {
    var uuid := GenerateUUID(draws);
    forall i | 0 <= i < 36
      ensures if ValidationUtil.IsUuidHyphenPosition(i) then UuidTemplate[i] == '-'
              else if i == 14 then UuidTemplate[i] == '4'
              else if i == 19 then UuidTemplate[i] == 'y'
              else UuidTemplate[i] == 'x'
    {
    }
    assert uuid[19] == HexChar(VariantNibble(draws[19]));
  }

  // ------------------------------------------------------------------ hashPassword

  const DefaultSaltRounds := 12

  /** The cost `hashPassword` uses: the configured BCRYPT_ROUNDS when a configuration is set
      and the value is there and not zero, 12 otherwise. */
  function SaltRounds(config: Option<map<string, int>>): (rounds: int)
    ensures rounds != 0
    ensures rounds == DefaultSaltRounds <==>
      (config.None? || "BCRYPT_ROUNDS" !in config.value || config.value["BCRYPT_ROUNDS"] in {0, 12})
    ensures config.Some? && "BCRYPT_ROUNDS" in config.value && config.value["BCRYPT_ROUNDS"] != 0 ==>
      rounds == config.value["BCRYPT_ROUNDS"]
  {
    if config.None? then DefaultSaltRounds
    else
      var configured := if "BCRYPT_ROUNDS" in config.value then config.value["BCRYPT_ROUNDS"]
                        else DefaultSaltRounds;
      if configured != 0 then configured else DefaultSaltRounds
  }

  /** The utility's process-wide configuration slot and the bcrypt wrappers that read it. */
  class Crypto {
    var configService: Option<map<string, int>>

    constructor ()
      ensures configService.None?
    {
      configService := None;
    }

    method SetConfigService(config: map<string, int>)
      modifies this
      ensures configService == Some(config)
    {
      configService := Some(config);
    }

    /** `hashPassword`: a hash at the configured cost that verifies the password. */
    method HashPassword(password: string, salt: Bcrypt.Salt) returns (hash: string)
      ensures hash == Bcrypt.Hash(password, SaltRounds(configService), salt)
      ensures |hash| == Bcrypt.HashLength && Bcrypt.Verify(password, hash)
    {
      var rounds := SaltRounds(configService);
      hash := Bcrypt.Hash(password, rounds, salt);
    }

    method ComparePassword(password: string, hash: string) returns (ok: bool)
      ensures ok == Bcrypt.Verify(password, hash)
    {
      ok := Bcrypt.Verify(password, hash);
    }
  }
}
