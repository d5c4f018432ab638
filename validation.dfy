/** ValidationUtil: the regular-expression validators become character-class predicates,
    and the bound checks become comparisons on integers. */
module ValidationUtil {
  import opened Wrappers
  import opened Strings

  // ---------------------------------------------------------------- e-mail

  /** The class [^\s@]. */
  predicate EmailChar(c: char) {
    !IsJsWhitespace(c) && c != '@'
  }

  /** /^[^\s@]+@[^\s@]+\.[^\s@]+$/: a non-empty run of e-mail characters, '@', a non-empty
      run, '.', a non-empty run. Since '.' is itself in [^\s@], the middle '.' may be any dot
      that is neither the first nor the last character after the '@'. */
  predicate IsValidEmail(email: string) {
    exists at, dot ::
      0 < at < |email| && at + 1 < dot < |email| - 1 && email[at] == '@' && email[dot] == '.'
      && forall i :: 0 <= i < |email| && i != at ==> EmailChar(email[i])
  }

  /** The domain part has a '.' that is neither its first nor its last character. */
  predicate HasInnerDot(domain: string) {
    exists k :: 0 < k < |domain| - 1 && domain[k] == '.'
  }

  lemma {:induction false} CountAppend(a: string, b: string, c: char)
    ensures Count(a + b, c) == Count(a, c) + Count(b, c)
  {
    if a == [] {
      assert a + b == b;
    } else {
      assert (a + b)[1..] == a[1..] + b;
      CountAppend(a[1..], b, c);
    }
  }

  lemma {:induction false} CountZero(s: string, c: char)
    ensures Count(s, c) == 0 <==> forall i :: 0 <= i < |s| ==> s[i] != c
  {
    if s != [] {
      CountZero(s[1..], c);
      assert forall i :: 1 <= i < |s| ==> s[i] == s[1..][i - 1];
    }
  }

  /** With `c` at index `at`, `c` occurs exactly once iff it occurs nowhere else. */
  lemma CountOnce(s: string, c: char, at: int)
    requires 0 <= at < |s| && s[at] == c
    ensures Count(s, c) == 1 <==> forall i :: 0 <= i < |s| && i != at ==> s[i] != c
  {
    assert s == s[..at] + [c] + s[at + 1..];
    CountAppend(s[..at] + [c], s[at + 1..], c);
    CountAppend(s[..at], [c], c);
    CountZero(s[..at], c);
    CountZero(s[at + 1..], c);
    assert forall i :: at < i < |s| ==> s[i] == s[at + 1..][i - at - 1];
  }

  /** The e-mail pattern holds exactly when there is one '@', no white space, a non-empty
      local part, and a domain with an inner '.'. */
  lemma EmailStructure(email: string)
    ensures IsValidEmail(email) <==>
      && Count(email, '@') == 1
      && (forall i :: 0 <= i < |email| ==> !IsJsWhitespace(email[i]))
      && exists at :: 0 < at < |email| && email[at] == '@' && HasInnerDot(email[at + 1..])
  {
    if IsValidEmail(email) {
      var at, dot :| 0 < at < |email| && at + 1 < dot < |email| - 1 && email[at] == '@' && email[dot] == '.'
        && forall i :: 0 <= i < |email| && i != at ==> EmailChar(email[i]);
      CountOnce(email, '@', at);
      assert email[at + 1..][dot - at - 1] == '.';
    }
    if && Count(email, '@') == 1
       && (forall i :: 0 <= i < |email| ==> !IsJsWhitespace(email[i]))
       && exists at :: 0 < at < |email| && email[at] == '@' && HasInnerDot(email[at + 1..])
    {
      var at :| 0 < at < |email| && email[at] == '@' && HasInnerDot(email[at + 1..]);
      var k :| 0 < k < |email[at + 1..]| - 1 && email[at + 1..][k] == '.';
      CountOnce(email, '@', at);
      assert email[at + 1 + k] == '.';
    }
  }

  // ---------------------------------------------------------------- phone

  /** The class [\d\s\-\(\)]. */
  predicate PhoneChar(c: char) {
    IsAsciiDigit(c) || IsJsWhitespace(c) || c == '-' || c == '(' || c == ')'
  }

  /** phone.replace(/\D/g, ''): the ASCII digits of `s`, in order. */
  function Digits(s: string): (r: string)
    ensures |r| <= |s|
    ensures forall i :: 0 <= i < |r| ==> IsAsciiDigit(r[i])
  {
    if s == [] then []
    else if IsAsciiDigit(s[0]) then [s[0]] + Digits(s[1..])
    else Digits(s[1..])
  }

  /** /^\+?[\d\s\-\(\)]+$/ and at least ten digits. A leading '+' is not in the class, so the
      optional '+' is taken exactly when the string starts with one, and the class must then
      match the non-empty rest. */
  predicate IsValidPhoneNumber(phone: string) {
    var start := if |phone| > 0 && phone[0] == '+' then 1 else 0;
    && start < |phone|
    && (forall i :: start <= i < |phone| ==> PhoneChar(phone[i]))
    && |Digits(phone)| >= 10
  }

  /** The phone check, position by position: every character is a digit, white space, '-',
      '(' or ')', except that the first may be '+'; and there are ten digits. */
  lemma PhoneStructure(phone: string)
    ensures IsValidPhoneNumber(phone) <==>
      && (forall i :: 0 <= i < |phone| ==> PhoneChar(phone[i]) || (i == 0 && phone[i] == '+'))
      && |Digits(phone)| >= 10
  {
  }

  // ---------------------------------------------------------------- passwords

  predicate IsPasswordSpecial(c: char) {
    c == '@' || c == '$' || c == '!' || c == '%' || c == '*' || c == '?' || c == '&'
  }

  /** The class [a-zA-Z\d@$!%*?&]. */
  predicate PasswordChar(c: char) {
    IsAsciiLower(c) || IsAsciiUpper(c) || IsAsciiDigit(c) || IsPasswordSpecial(c)
  }

  predicate HasLower(p: string) { exists i :: 0 <= i < |p| && IsAsciiLower(p[i]) }
  predicate HasUpper(p: string) { exists i :: 0 <= i < |p| && IsAsciiUpper(p[i]) }
  predicate HasDigit(p: string) { exists i :: 0 <= i < |p| && IsAsciiDigit(p[i]) }
  predicate HasSpecial(p: string) { exists i :: 0 <= i < |p| && IsPasswordSpecial(p[i]) }

  /** /^(?=.*[a-z])(?=.*[A-Z])(?=.*\d)[a-zA-Z\d@$!%*?&]{8,}$/. The look-aheads may scan the
      whole string because the main class already excludes line terminators. */
  predicate IsValidPassword(password: string) {
    && |password| >= 8
    && (forall i :: 0 <= i < |password| ==> PasswordChar(password[i]))
    && HasLower(password) && HasUpper(password) && HasDigit(password)
  }

  /** The strong pattern adds the look-ahead (?=.*[@$!%*?&]) to the same main class. */
  predicate IsStrongPassword(password: string)
    ensures IsStrongPassword(password) <==> IsValidPassword(password) && HasSpecial(password)
    ensures IsStrongPassword(password) ==> IsValidPassword(password)
  {
    && |password| >= 8
    && (forall i :: 0 <= i < |password| ==> PasswordChar(password[i]))
    && HasLower(password) && HasUpper(password) && HasDigit(password) && HasSpecial(password)
  }

  // ---------------------------------------------------------------- UUID

  /** [0-9a-f] under the /i flag. */
  predicate IsHexDigit(c: char) {
    IsAsciiDigit(c) || 'a' <= c <= 'f' || 'A' <= c <= 'F'
  }

  predicate IsUuidHyphenPosition(i: int) {
    i == 8 || i == 13 || i == 18 || i == 23
  }

  /** /^[0-9a-f]{8}-[0-9a-f]{4}-[1-5][0-9a-f]{3}-[89ab][0-9a-f]{3}-[0-9a-f]{12}$/i */
  predicate IsValidUUID(uuid: string) {
    && |uuid| == 36
    && (forall i :: 0 <= i < 36 ==>
          if IsUuidHyphenPosition(i) then uuid[i] == '-' else IsHexDigit(uuid[i]))
    && '1' <= uuid[14] <= '5'
    && (uuid[19] == '8' || uuid[19] == '9' || uuid[19] == 'a' || uuid[19] == 'b'
        || uuid[19] == 'A' || uuid[19] == 'B')
  }

  // ---------------------------------------------------------------- sanitizeString

  /** String.prototype.trimStart: drops leading white space; what is left is a suffix. */
  function TrimStart(s: string): (r: string)
    ensures |r| <= |s| && r == s[|s| - |r|..]
    ensures r != [] ==> !IsJsWhitespace(r[0])
  {
    if s != [] && IsJsWhitespace(s[0]) then TrimStart(s[1..]) else s
  }

  /** String.prototype.trimEnd: drops trailing white space; what is left is a prefix. */
  function TrimEnd(s: string): (r: string)
    ensures |r| <= |s| && r == s[..|r|]
    ensures r != [] ==> !IsJsWhitespace(r[|r| - 1])
  {
    if s != [] && IsJsWhitespace(s[|s| - 1]) then TrimEnd(s[..|s| - 1]) else s
  }

  /** .replace(/[<>]/g, '') */
  function RemoveAngleBrackets(s: string): (r: string)
    ensures forall i :: 0 <= i < |r| ==> r[i] != '<' && r[i] != '>'
    ensures |r| <= |s|
  {
    if s == [] then []
    else if s[0] == '<' || s[0] == '>' then RemoveAngleBrackets(s[1..])
    else [s[0]] + RemoveAngleBrackets(s[1..])
  }

  /** The removal only drops characters: what is left is a subsequence of the input. */
  lemma {:induction false} RemoveAngleBracketsSubsequence(s: string)
    ensures IsSubsequence(RemoveAngleBrackets(s), s)
    decreases |s|
  {
    if s != [] {
      var r := RemoveAngleBrackets(s[1..]);
      RemoveAngleBracketsSubsequence(s[1..]);
      if s[0] == '<' || s[0] == '>' {
        SubsequenceExtend(r, s);
      } else {
        assert ([s[0]] + r)[1..] == r;
      }
    }
  }

  /** str.trim().replace(/[<>]/g, '') */
  function SanitizeString(str: string): (r: string)
    ensures forall i :: 0 <= i < |r| ==> r[i] != '<' && r[i] != '>'
    ensures |r| <= |str|
  {
    RemoveAngleBrackets(TrimEnd(TrimStart(str)))
  }

  /** Sanitising only drops characters: the result is a subsequence of the input. */
  lemma SanitizeStringSubsequence(str: string)
    ensures IsSubsequence(SanitizeString(str), str)
  {
    var trimmed := TrimEnd(TrimStart(str));
    var start := |str| - |TrimStart(str)|;
    SliceIsSubsequence(str, start, start + |trimmed|);
    assert trimmed == str[start..start + |trimmed|];
    RemoveAngleBracketsSubsequence(trimmed);
    SubsequenceTransitive(RemoveAngleBrackets(trimmed), trimmed, str);
  }

  /** Trimming happens before the brackets are removed, so white space uncovered by the
      removal survives one pass: sanitising is not idempotent. */
  lemma SanitizeNotIdempotent()
    ensures SanitizeString("< a") == " a"
    ensures SanitizeString(" a") == "a"
    ensures SanitizeString(SanitizeString("< a")) != SanitizeString("< a")
  {
    SanitizeBracketFirst();
    SanitizeSpaceFirst();
  }

  lemma SanitizeBracketFirst()
    ensures SanitizeString("< a") == " a"
  {
    assert "< a" == ['<', ' ', 'a'] && " a" == [' ', 'a'];
    SanitizeBracketSpace('a');
  }

  lemma SanitizeSpaceFirst()
    ensures SanitizeString(" a") == "a"
  {
    assert " a" == [' ', 'a'] && "a" == ['a'];
    SanitizeSpaceChar('a');
  }

  /** A bracket, a space and a plain character: the ends are kept, the bracket dropped. */
  lemma SanitizeBracketSpace(c: char)
    requires !IsJsWhitespace(c) && c != '<' && c != '>'
    ensures SanitizeString(['<', ' ', c]) == [' ', c]
  {
    var s := ['<', ' ', c];
    assert s[1..] == [' ', c];
    RemoveAngleBracketsKeepsPlain([' ', c]);
    assert RemoveAngleBrackets(s) == [' ', c];
    TrimKeepsPlainEnds(s);
  }

  /** A space and a plain character: the space is trimmed. */
  lemma SanitizeSpaceChar(c: char)
    requires !IsJsWhitespace(c) && c != '<' && c != '>'
    ensures SanitizeString([' ', c]) == [c]
  {
    assert [' ', c][1..] == [c];
    TrimKeepsPlainEnds([c]);
    RemoveAngleBracketsKeepsPlain([c]);
  }

  /** Text that neither starts nor ends with white space is not trimmed. */
  lemma TrimKeepsPlainEnds(s: string)
    requires s != [] && !IsJsWhitespace(s[0]) && !IsJsWhitespace(s[|s| - 1])
    ensures TrimEnd(TrimStart(s)) == s
  {
  }

  /** Text without angle brackets passes through the bracket removal unchanged. */
  lemma {:induction false} RemoveAngleBracketsKeepsPlain(s: string)
    requires forall i :: 0 <= i < |s| ==> s[i] != '<' && s[i] != '>'
    ensures RemoveAngleBrackets(s) == s
    decreases |s|
  {
    if s != [] {
      RemoveAngleBracketsKeepsPlain(s[1..]);
      assert [s[0]] + s[1..] == s;
    }
  }

  // ---------------------------------------------------------------- bound checks

  predicate ValidateFileSize(fileSize: int, maxSize: int) {
    fileSize <= maxSize
  }

  predicate ValidateFileType(fileType: string, allowedTypes: seq<string>) {
    fileType in allowedTypes
  }

  predicate ValidateImageDimensions(width: int, height: int,
                                    minWidth: int := 100, minHeight: int := 100,
                                    maxWidth: int := 5000, maxHeight: int := 5000) {
    width >= minWidth && height >= minHeight && width <= maxWidth && height <= maxHeight
  }

  predicate IsPositiveNumber(value: int) {
    value > 0
  }

  predicate IsNonNegativeNumber(value: int) {
    value >= 0
  }

  /** `ownKeys` stands for the object's own property names (hasOwnProperty). */
  predicate ValidateObjectKeys(ownKeys: set<string>, requiredKeys: seq<string>) {
    forall k :: k in requiredKeys ==> k in ownKeys
  }

  /** JavaScript truthiness of an optional number: undefined and 0 are falsy. */
  predicate Truthy(n: Option<int>) {
    n.Some? && n.value != 0
  }

  predicate ValidateArrayLength(length: nat, minLength: int := 0, maxLength: Option<int> := None) {
    if length < minLength then false
    else if Truthy(maxLength) && length > maxLength.value then false
    else true
  }

  /** The bounds are inclusive at both ends, and the image defaults are 100 and 5000. */
  lemma BoundsInclusive(size: int, width: int, height: int)
    ensures ValidateFileSize(size, size) && !ValidateFileSize(size + 1, size)
    ensures ValidateImageDimensions(width, height) <==> 100 <= width <= 5000 && 100 <= height <= 5000
    ensures ValidateImageDimensions(100, 100) && ValidateImageDimensions(5000, 5000)
    ensures !ValidateImageDimensions(99, 100) && !ValidateImageDimensions(100, 5001)
  {
  }

  /** The key check is set inclusion, vacuous for no required keys; the type check is
      membership in the list, false for an empty list; zero is the one value the two sign
      checks disagree on. */
  lemma CollectionAndSignChecks(ownKeys: set<string>, requiredKeys: seq<string>, fileType: string,
                                allowedTypes: seq<string>, value: int)
    ensures ValidateObjectKeys(ownKeys, requiredKeys) <==> (set k | k in requiredKeys) <= ownKeys
    ensures ValidateObjectKeys(ownKeys, [])
    ensures ValidateFileType(fileType, allowedTypes) <==>
            exists i :: 0 <= i < |allowedTypes| && allowedTypes[i] == fileType
    ensures !ValidateFileType(fileType, [])
    ensures IsPositiveNumber(value) ==> IsNonNegativeNumber(value)
    ensures IsNonNegativeNumber(value) && !IsPositiveNumber(value) <==> value == 0
  {
  }

  /** A maximum of 0 is falsy and therefore no bound at all. */
  lemma ArrayLengthZeroMaxIsUnbounded(length: nat, minLength: int)
    ensures ValidateArrayLength(length, minLength, Some(0)) == ValidateArrayLength(length, minLength, None)
    ensures ValidateArrayLength(length, minLength, None) <==> length >= minLength
    ensures ValidateArrayLength(length, minLength, Some(length)) <==> length >= minLength
    ensures length > 0 ==> !ValidateArrayLength(length, 0, Some(length - 1)) || length - 1 == 0
  {
  }
}
