/** A stand-in for the bcryptjs library, which the source calls but does not contain. It
    keeps the shape of a bcrypt hash and the three rules of `compare` the source depends on:
    a hash is 60 characters long, a stored string of any other length verifies nothing, and
    only the first 72 bytes of a password's UTF-8 encoding are read. The digest is a plain
    positional code, not the Blowfish key schedule, so one-wayness and collision resistance
    are not modelled. */
module Bcrypt {
  import opened Strings

  /** "$2b$", a two-digit cost, "$", 22 salt characters and 31 digest characters. */
  const HashLength: nat := 60

  /** bcrypt reads at most this many bytes of a password. */
  const MaxKeyBytes: nat := 72

  /** bcrypt's base-64 alphabet: '.', '/', the ASCII letters and digits. */
  predicate IsBase64Char(c: char) {
    c == '.' || c == '/' || IsAsciiUpper(c) || IsAsciiLower(c) || IsAsciiDigit(c)
  }

  function Base64Char(d: nat): (c: char)
    requires d < 64
    ensures IsBase64Char(c)
  {
    if d == 0 then '.'
    else if d == 1 then '/'
    else if d < 28 then ('A' as int + d - 2) as char
    else if d < 54 then ('a' as int + d - 28) as char
    else ('0' as int + d - 54) as char
  }

  /** The 22 characters bcrypt draws at random for every hash. */
  type Salt = s: string | |s| == 22 && forall i :: 0 <= i < |s| ==> IsBase64Char(s[i])
    witness "......................"

  /** bcryptjs clamps the cost factor into [4, 31]. */
  function CostField(rounds: int): (r: string)
    ensures |r| == 2 && IsAsciiDigit(r[0]) && IsAsciiDigit(r[1])
  {
    var cost := if rounds < 4 then 4 else if rounds > 31 then 31 else rounds;
    [DigitChar(cost / 10), DigitChar(cost % 10)]
  }

  /** The UTF-8 encoding of one character. */
  function Utf8Char(c: char): (bytes: seq<nat>)
    ensures 1 <= |bytes| <= 4 && (c as int < 0x80 ==> bytes == [c as nat])
  {
    var code := c as int;
    if code < 0x80 then [code]
    else if code < 0x800 then [0xC0 + code / 64, 0x80 + code % 64]
    else if code < 0x10000 then [0xE0 + code / 4096, 0x80 + (code / 64) % 64, 0x80 + code % 64]
    else [0xF0 + code / 262144, 0x80 + (code / 4096) % 64, 0x80 + (code / 64) % 64, 0x80 + code % 64]
  }

  function Utf8Bytes(s: string): (bytes: seq<nat>)
    decreases |s|
  {
    if s == [] then [] else Utf8Bytes(s[..|s| - 1]) + Utf8Char(s[|s| - 1])
  }

  /** The bytes of a password bcrypt reads. */
  function Key(plain: string): (key: seq<nat>)
    ensures |key| <= MaxKeyBytes
  {
    var bytes := Utf8Bytes(plain);
    if |bytes| <= MaxKeyBytes then bytes else bytes[..MaxKeyBytes]
  }

  /** `n` base-64 digits of `x`, most significant first. */
  function Base64Digits(x: nat, n: nat): (r: string)
    ensures |r| == n && forall i :: 0 <= i < n ==> IsBase64Char(r[i])
  {
    if n == 0 then [] else Base64Digits(x / 64, n - 1) + [Base64Char(x % 64)]
  }

  /** The bytes read as the digits of a number in base 257. */
  function Fold(acc: nat, bytes: seq<nat>): nat
    decreases |bytes|
  {
    if bytes == [] then acc else Fold(acc * 257 + bytes[0] + 1, bytes[1..])
  }

  function Codes(s: string): seq<nat> {
    seq(|s|, i requires 0 <= i < |s| => s[i] as nat)
  }

  /** The 31 digest characters for a cost field, a salt and a key. */
  function Digest(cost: string, salt: string, key: seq<nat>): (d: string)
    ensures |d| == 31 && forall i :: 0 <= i < 31 ==> IsBase64Char(d[i])
  {
    Base64Digits(Fold(0, Codes(cost + salt) + key), 31)
  }

  function Hash(plain: string, rounds: int, salt: Salt): (h: string)
    ensures |h| == HashLength && Utf16Length(h) == HashLength
    ensures Verify(plain, h)
  {
    var cost := CostField(rounds);
    var h := "$2b$" + cost + "$" + salt + Digest(cost, salt, Key(plain));
    assert h[..4] == "$2b$" && h[4..6] == cost && h[6] == '$';
    assert h[7..29] == salt && h[29..] == Digest(cost, salt, Key(plain));
    assert forall i :: 0 <= i < |h| ==> h[i] as int < 0x80 by {
      forall i | 0 <= i < |h| ensures h[i] as int < 0x80 {
        if 7 <= i < 29 {
          assert h[i] == salt[i - 7] && IsBase64Char(salt[i - 7]);
        } else if 29 <= i {
          assert h[i] == h[29..][i - 29];
        }
      }
    }
    Utf16LengthOfAscii(h);
    h
  }

  /** bcrypt.compare: false for a stored string that is not 60 code units long; otherwise the
      stored digest is compared with the digest of the password under the stored cost and
      salt. */
  predicate Verify(plain: string, hash: string) {
    && Utf16Length(hash) == HashLength && |hash| == HashLength
    && hash[..4] == "$2b$" && hash[6] == '$'
    && hash[29..] == Digest(hash[4..6], hash[7..29], Key(plain))
  }

  /** A hash verifies its own password, and every password whose first 72 UTF-8 bytes are the
      same. */
  lemma VerifyHash(plain: string, other: string, rounds: int, salt: Salt)
    ensures Verify(plain, Hash(plain, rounds, salt))
    ensures Key(other) == Key(plain) ==> Verify(other, Hash(plain, rounds, salt))
  {
  }

  /** A stored string that is not 60 code units long verifies no password. */
  lemma WrongLengthVerifiesNothing(plain: string, stored: string)
    requires Utf16Length(stored) != HashLength
    ensures !Verify(plain, stored)
  {
  }

  /** A string without a bcrypt version marker "$2" verifies no password. */
  lemma NotAHash(plain: string, stored: string)
    requires !StartsWith(stored, "$2")
    ensures !Verify(plain, stored)
  {
  }

  /** An ASCII password is encoded one byte per character. */
  lemma {:induction false} Utf8OfAscii(s: string)
    requires forall i :: 0 <= i < |s| ==> s[i] as int < 0x80
    ensures Utf8Bytes(s) == Codes(s)
    decreases |s|
  {
    if s != [] {
      var init := s[..|s| - 1];
      Utf8OfAscii(init);
      assert Codes(s) == Codes(init) + [s[|s| - 1] as nat];
    }
  }

  /** Two ASCII passwords that agree on their first 72 characters verify against the same
      hashes, whatever follows. */
  lemma LongAsciiPasswordsAgree(a: string, b: string, hash: string)
    requires forall i :: 0 <= i < |a| ==> a[i] as int < 0x80
    requires forall i :: 0 <= i < |b| ==> b[i] as int < 0x80
    requires |a| >= MaxKeyBytes && |b| >= MaxKeyBytes && a[..MaxKeyBytes] == b[..MaxKeyBytes]
    ensures Verify(a, hash) <==> Verify(b, hash)
  {
    Utf8OfAscii(a);
    Utf8OfAscii(b);
    assert Key(a) == Codes(a)[..MaxKeyBytes];
    assert Key(b) == Codes(b)[..MaxKeyBytes];
    assert Codes(a)[..MaxKeyBytes] == Codes(b)[..MaxKeyBytes] by {
      forall i | 0 <= i < MaxKeyBytes ensures Codes(a)[i] == Codes(b)[i] {
        assert a[i] == a[..MaxKeyBytes][i] == b[..MaxKeyBytes][i] == b[i];
      }
    }
  }
}
