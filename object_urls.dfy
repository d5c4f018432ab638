/** The string building the cloud storage adapters share: object names made of a folder and
    a file name, and the path of an https URL as `new URL(...).pathname` returns it. */
module ObjectUrls {
  import opened Wrappers
  import opened Strings

  const Https: string := "https://"

  /** `folder/fileName`, the object name of the presigned and signed uploads and of the
      public URLs. */
  function FolderKey(folder: string, fileName: string): (key: string)
    ensures |key| == |folder| + 1 + |fileName| && key[|folder|] == '/'
    ensures key[..|folder|] == folder && key[|folder| + 1..] == fileName
  {
    folder + "/" + fileName
  }

  /** `folder/<ms since the epoch>-originalname`, the object name of a direct upload. */
  function TimestampedKey(folder: string, nowMs: nat, originalname: string): (key: string)
    ensures key == FolderKey(folder, DecimalString(nowMs) + "-" + originalname)
  {
    folder + "/" + DecimalString(nowMs) + "-" + originalname
  }

  /** Two uploads into the same folder under the same name at different instants get
      different keys. */
  lemma {:induction false} TimestampedKeysDiffer(folder: string, t1: nat, t2: nat, name: string)
    requires t1 != t2
    ensures TimestampedKey(folder, t1, name) != TimestampedKey(folder, t2, name)
  {
    var d1, d2 := DecimalString(t1), DecimalString(t2);
    if TimestampedKey(folder, t1, name) == TimestampedKey(folder, t2, name) {
      var k := TimestampedKey(folder, t1, name);
      assert k[|folder| + 1..] == d1 + "-" + name == d2 + "-" + name;
      assert d1 == d2 by {
        DigitsBeforeDash(d1, d2, name);
      }
      DecimalRoundTrip(t1);
      DecimalRoundTrip(t2);
    }
  }

  /** Two digit strings followed by the same "-name" are equal when their concatenations
      are: the first '-' marks where the digits end. */
  lemma DigitsBeforeDash(d1: string, d2: string, name: string)
    requires forall i :: 0 <= i < |d1| ==> IsAsciiDigit(d1[i])
    requires forall i :: 0 <= i < |d2| ==> IsAsciiDigit(d2[i])
    requires d1 + "-" + name == d2 + "-" + name
    ensures d1 == d2
  {
    var s := d1 + "-" + name;
    if |d1| == |d2| {
      assert d1 == s[..|d1|] == d2;
    }
  }

  /** The characters that may appear in a plain path segment: the URL parser leaves them
      as they are, without percent-encoding. */
  predicate IsPlainChar(c: char) {
    IsAsciiUpper(c) || IsAsciiLower(c) || IsAsciiDigit(c) || c == '-' || c == '_' || c == '.'
  }

  /** A "." or ".." segment starts at index j of `path`. */
  predicate DotSegmentAt(path: string, j: int)
    requires 0 <= j
  {
    j < |path| && path[j] == '.'
    && (j + 1 == |path| || path[j + 1] == '/'
        || (path[j + 1] == '.' && (j + 2 == |path| || path[j + 2] == '/')))
  }

  /** A path the URL parser returns as it is: it starts with '/', every other character is
      plain or '/', and no segment is "." or "..", which the parser would resolve. */
  predicate IsPlainPath(path: string) {
    && path != [] && path[0] == '/'
    && (forall i :: 0 <= i < |path| ==> IsPlainChar(path[i]) || path[i] == '/')
    && (forall i :: 0 <= i < |path| && path[i] == '/' ==> !DotSegmentAt(path, i + 1))
  }

  /** A plain path holds no query or fragment marker. */
  lemma PlainPathHasNoMarkers(path: string)
    requires IsPlainPath(path)
    ensures '?' !in path && '#' !in path
  {
    forall i | 0 <= i < |path| ensures path[i] != '?' && path[i] != '#' {
      assert IsPlainChar(path[i]) || path[i] == '/';
    }
  }

  /** The index of the first character of `s` that is in `stops`, or |s|. */
  function FirstIndexIn(s: string, stops: set<char>): (r: nat)
    ensures r <= |s|
    ensures forall j :: 0 <= j < r ==> s[j] !in stops
    ensures r < |s| ==> s[r] in stops
  {
    if s == [] then 0
    else if s[0] in stops then 0
    else 1 + FirstIndexIn(s[1..], stops)
  }

  /** The two properties of FirstIndexIn determine it. */
  lemma FirstIndexInUnique(s: string, stops: set<char>, r: nat)
    requires r <= |s| && (r < |s| ==> s[r] in stops)
    requires forall j :: 0 <= j < r ==> s[j] !in stops
    ensures FirstIndexIn(s, stops) == r
  {
  }

  /** The pathname of an https URL: the text after the host up to any query or fragment,
      and "/" when it is empty. None stands for the TypeError `new URL` raises on an
      input that is not an https URL with a host. */
  function Pathname(url: string): (r: Option<string>)
    ensures r.Some? ==> r.value != [] && r.value[0] == '/'
  {
    if !StartsWith(url, Https) then None
    else
      var rest := url[|Https|..];
      var hostEnd := FirstIndexIn(rest, {'/', '?', '#'});
      if hostEnd == 0 then None
      else
        var afterHost := rest[hostEnd..];
        var path := afterHost[..FirstIndexIn(afterHost, {'?', '#'})];
        if path == [] then Some("/")
        else
          assert path[0] == afterHost[0] == '/';
          Some(path)
  }

  /** `new URL(url).pathname.substring(1)`: the path without its leading '/'. */
  function PathAfterSlash(url: string): (r: Option<string>)
    ensures r.Some? <==> Pathname(url).Some?
    ensures r.Some? ==> Pathname(url) == Some("/" + r.value)
  {
    match Pathname(url)
    case None => None
    case Some(p) =>
      assert p == [p[0]] + p[1..];
      Some(p[1..])
  }

  /** A host the path parse stops at: non-empty, made of plain characters. */
  predicate IsPlainHost(host: string) {
    host != [] && forall i :: 0 <= i < |host| ==> IsPlainChar(host[i])
  }

  /** The path of `https://host/path` is recovered exactly when the parser has nothing to
      encode or resolve in it. */
  lemma PathnameOfUrl(host: string, path: string)
    requires IsPlainHost(host) && IsPlainPath(path)
    ensures Pathname(Https + host + path) == Some(path)
  {
    PlainPathHasNoMarkers(path);
    var url := Https + host + path;
    assert url[..|Https|] == Https;
    var rest := url[|Https|..];
    assert rest == host + path;
    assert rest[|host|] == path[0];
    assert forall j :: 0 <= j < |host| ==> rest[j] == host[j];
    FirstIndexInUnique(rest, {'/', '?', '#'}, |host|);
    assert rest[|host|..] == path;
    FirstIndexInUnique(path, {'?', '#'}, |path|);
    assert path[..|path|] == path;
  }
}
