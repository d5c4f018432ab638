/** The pure part of the local file-storage service: classifying a MIME type into a file
    category, and guessing a MIME type from a file name's extension. */
module FileStorage {
  import opened Wrappers
  import opened Strings

  /** The file categories the storage services classify uploads into. */
  datatype FileType = IMAGE | VIDEO | AUDIO | DOCUMENT | ARCHIVE

  predicate HasMediaPrefix(mimeType: string) {
    StartsWith(mimeType, "image/") || StartsWith(mimeType, "video/") || StartsWith(mimeType, "audio/")
  }

  /** The if-chain of getFileType: the three prefix tests first, then the document
      substrings, then the archive substrings, and DOCUMENT when nothing matched. */
  function GetFileType(mimeType: string): FileType {
    if StartsWith(mimeType, "image/") then IMAGE
    else if StartsWith(mimeType, "video/") then VIDEO
    else if StartsWith(mimeType, "audio/") then AUDIO
    else if Contains(mimeType, "pdf") || Contains(mimeType, "document") then DOCUMENT
    else if Contains(mimeType, "zip") || Contains(mimeType, "rar") then ARCHIVE
    else DOCUMENT
  }

  /** At most one of the three media prefixes can hold, since they differ in the first
      character. */
  lemma MediaPrefixesExclusive(m: string)
    ensures !(StartsWith(m, "image/") && StartsWith(m, "video/"))
    ensures !(StartsWith(m, "image/") && StartsWith(m, "audio/"))
    ensures !(StartsWith(m, "video/") && StartsWith(m, "audio/"))
  {
    if |m| >= 6 {
      assert m[..6][0] == m[0];
    }
  }

  /** Each category, characterised by the tests that lead to it: the media prefixes decide
      alone, ARCHIVE needs zip or rar with no earlier rule matching, and everything else is
      DOCUMENT. */
  lemma FileTypeClassification(m: string)
    ensures GetFileType(m) == IMAGE <==> StartsWith(m, "image/")
    ensures GetFileType(m) == VIDEO <==> StartsWith(m, "video/")
    ensures GetFileType(m) == AUDIO <==> StartsWith(m, "audio/")
    ensures GetFileType(m) == ARCHIVE <==>
      !HasMediaPrefix(m) && !Contains(m, "pdf") && !Contains(m, "document")
      && (Contains(m, "zip") || Contains(m, "rar"))
    ensures GetFileType(m) == DOCUMENT <==>
      !HasMediaPrefix(m) && (Contains(m, "pdf") || Contains(m, "document")
                             || !(Contains(m, "zip") || Contains(m, "rar")))
  {
    MediaPrefixesExclusive(m);
  }

  /** The document test runs before the archive test. */
  lemma PdfZipIsDocument()
    ensures GetFileType("application/pdf+zip") == DOCUMENT
  {
    assert "application/pdf+zip"[..6] == "applic";
    assert OccursAt("application/pdf+zip", "pdf", 12);
  }

  /** A path with its trailing '/' characters removed, as path.extname ignores them. */
  function TrimTrailingSlashes(s: string): (r: string)
    ensures r <= s
    ensures r == [] || r[|r| - 1] != '/'
  {
    if |s| > 0 && s[|s| - 1] == '/' then TrimTrailingSlashes(s[..|s| - 1]) else s
  }

  /** The index of the last `c` in `s`, or -1. */
  function LastIndexOf(s: string, c: char): (r: int)
    ensures -1 <= r < |s|
    ensures r >= 0 ==> s[r] == c
    ensures forall j :: r < j < |s| ==> s[j] != c
  {
    if s == [] then -1
    else if s[|s| - 1] == c then |s| - 1
    else LastIndexOf(s[..|s| - 1], c)
  }

  /** The two properties of LastIndexOf determine it. */
  lemma LastIndexOfUnique(s: string, c: char, r: int)
    requires -1 <= r < |s| && (r >= 0 ==> s[r] == c)
    requires forall j :: r < j < |s| ==> s[j] != c
    ensures LastIndexOf(s, c) == r
  {
  }

  /** The characters after the last '/' of `s`. */
  function AfterLastSlash(s: string): (r: string)
    ensures '/' !in r
  {
    var slash := LastIndexOf(s, '/');
    SliceAvoids(s, slash + 1, '/');
    s[slash + 1..]
  }

  /** The last path segment, ignoring trailing slashes. */
  function Basename(path: string): string {
    AfterLastSlash(TrimTrailingSlashes(path))
  }

  /** path.extname on POSIX paths: the last segment's text from its last '.', or "" when
      that segment has no '.', starts with its only relevant '.', or is "..". */
  function Extname(path: string): (r: string)
    ensures r == [] || (r[0] == '.' && '.' !in r[1..] && '/' !in r)
  {
    var base := Basename(path);
    var dot := LastIndexOf(base, '.');
    if dot <= 0 || base == ".." then ""
    else
      SliceAvoids(base, dot + 1, '.');
      assert base[dot..][1..] == base[dot + 1..];
      SliceAvoids(base, dot, '/');
      base[dot..]
  }

  /** Appending characters other than `c` does not move the last `c`. */
  lemma LastIndexOfAppend(a: string, b: string, c: char)
    requires c !in b
    ensures LastIndexOf(a + b, c) == LastIndexOf(a, c)
  {
    var r := LastIndexOf(a, c);
    forall j | r < j < |a + b| ensures (a + b)[j] != c {
      if j >= |a| {
        assert (a + b)[j] == b[j - |a|];
      }
    }
    LastIndexOfUnique(a + b, c, r);
  }

  lemma TrimWithoutTrailingSlash(s: string)
    requires s != [] && s[|s| - 1] != '/'
    ensures TrimTrailingSlashes(s) == s
  {
  }

  lemma SliceOfConcat(a: string, b: string, c: string, i: nat)
    requires i <= |a|
    ensures (a + b + c)[i..] == a[i..] + b + c
  {
  }

  lemma LastSlashOfStemAndExtension(stem: string, ext: string)
    requires '/' !in ext
    ensures LastIndexOf(stem + "." + ext, '/') == LastIndexOf(stem, '/')
  {
    LastIndexOfAppend(stem, ".", '/');
    LastIndexOfAppend(stem + ".", ext, '/');
  }

  /** The last segment of `stem.ext` is the stem's last segment followed by ".ext". */
  lemma BasenameOfStemAndExtension(stem: string, ext: string)
    requires |stem| > 0 && stem[|stem| - 1] != '/'
    requires |ext| > 0 && '/' !in ext
    ensures var slash := LastIndexOf(stem, '/');
      slash + 1 < |stem| && Basename(stem + "." + ext) == stem[slash + 1..] + "." + ext
  {
    var name := stem + "." + ext;
    var slash := LastIndexOf(stem, '/');
    assert name[|name| - 1] == ext[|ext| - 1];
    TrimWithoutTrailingSlash(name);
    LastSlashOfStemAndExtension(stem, ext);
    SliceOfConcat(stem, ".", ext, slash + 1);
  }

  /** A name `stem.ext` whose extension holds no '.' or '/' has extension ".ext". */
  lemma ExtnameOfStemAndExtension(stem: string, ext: string)
    requires |stem| > 0 && stem[|stem| - 1] != '/'
    requires |ext| > 0 && '.' !in ext && '/' !in ext
    ensures Extname(stem + "." + ext) == "." + ext
  {
    BasenameOfStemAndExtension(stem, ext);
    var b := stem[LastIndexOf(stem, '/') + 1..];
    var base := (b + ".") + ext;
    assert LastIndexOf(b + ".", '.') == |b|;
    LastIndexOfAppend(b + ".", ext, '.');
    assert base[|b|..] == "." + ext;
  }

  // ---- case-insensitivity -------------------------------------------------------------

  lemma {:induction false} LowerCharIdempotent(c: char)
    ensures LowerChar(LowerChar(c)) == LowerChar(c)
  {
    if IsAsciiUpper(c) {
      assert IsAsciiLower(LowerChar(c));
    }
  }

  /** Lower-casing never creates or removes a character that is not a letter. */
  lemma LowerCharKeeps(x: char, c: char)
    requires !IsAsciiUpper(c) && !IsAsciiLower(c)
    ensures LowerChar(x) == c <==> x == c
  {
  }

  lemma {:induction false} TrimToLower(s: string)
    ensures TrimTrailingSlashes(ToLower(s)) == ToLower(TrimTrailingSlashes(s))
    decreases |s|
  {
    if |s| > 0 {
      LowerCharKeeps(s[|s| - 1], '/');
      assert ToLower(s)[..|s| - 1] == ToLower(s[..|s| - 1]);
      TrimToLower(s[..|s| - 1]);
    }
  }

  lemma LastIndexOfToLower(s: string, c: char)
    requires !IsAsciiUpper(c) && !IsAsciiLower(c)
    ensures LastIndexOf(ToLower(s), c) == LastIndexOf(s, c)
  {
    var r := LastIndexOf(s, c);
    if r >= 0 {
      LowerCharKeeps(s[r], c);
    }
    forall j | r < j < |s| ensures ToLower(s)[j] != c {
      LowerCharKeeps(s[j], c);
    }
    LastIndexOfUnique(ToLower(s), c, r);
  }

  /** Lower-casing commutes with taking a suffix. */
  lemma ToLowerSuffix(s: string, i: nat)
    requires i <= |s|
    ensures ToLower(s)[i..] == ToLower(s[i..])
  {
  }

  lemma BasenameToLower(path: string)
    ensures Basename(ToLower(path)) == ToLower(Basename(path))
  {
    TrimToLower(path);
    var t := TrimTrailingSlashes(path);
    LastIndexOfToLower(t, '/');
    ToLowerSuffix(t, LastIndexOf(t, '/') + 1);
  }

  lemma DotDotToLower(base: string)
    ensures ToLower(base) == ".." <==> base == ".."
  {
    if |base| == 2 {
      LowerCharKeeps(base[0], '.');
      LowerCharKeeps(base[1], '.');
    }
  }

  /** Lower-casing a path lower-cases its extension and changes nothing else about it. */
  lemma ExtnameToLower(path: string)
    ensures Extname(ToLower(path)) == ToLower(Extname(path))
  {
    BasenameToLower(path);
    var base := Basename(path);
    LastIndexOfToLower(base, '.');
    DotDotToLower(base);
    var dot := LastIndexOf(base, '.');
    if dot > 0 && base != ".." {
      ToLowerSuffix(base, dot);
    }
  }

  lemma {:induction false} ToLowerIdempotent(s: string)
    ensures ToLower(ToLower(s)) == ToLower(s)
  {
    forall i | 0 <= i < |s| ensures ToLower(ToLower(s))[i] == ToLower(s)[i] {
      LowerCharIdempotent(s[i]);
    }
  }

  // ---- getMimeType --------------------------------------------------------------------

  const OctetStream: string := "application/octet-stream"

  /** The OOXML word-processing type, written in pieces around its first "document". */
  const DocxMime: string := DocxHead + "document" + DocxTail
  const DocxHead: string := "application/vnd.openxmlformats-office"
  const DocxTail: string := ".wordprocessingml.document"

  /** The extension table of getMimeType: the entry for a lower-cased extension, if any. */
  function MimeTypeOf(ext: string): Option<string> {
    if ext == ".jpg" || ext == ".jpeg" then Some("image/jpeg")
    else if ext == ".png" then Some("image/png")
    else if ext == ".gif" then Some("image/gif")
    else if ext == ".pdf" then Some("application/pdf")
    else if ext == ".doc" then Some("application/msword")
    else if ext == ".docx" then Some(DocxMime)
    else if ext == ".mp4" then Some("video/mp4")
    else if ext == ".avi" then Some("video/x-msvideo")
    else if ext == ".mp3" then Some("audio/mpeg")
    else if ext == ".wav" then Some("audio/wav")
    else None
  }

  /** The values of the table. */
  const MimeValues: set<string> := {
    "image/jpeg", "image/png", "image/gif", "application/pdf", "application/msword", DocxMime,
    "video/mp4", "video/x-msvideo", "audio/mpeg", "audio/wav"
  }

  /** The MIME type of a file name: the table entry of its lower-cased extension, or the
      octet-stream default when the extension is unknown or missing. Every table value is a
      non-empty string, so the `||` fallback fires exactly on a missing entry. */
  function GetMimeType(fileName: string): (r: string)
    ensures r in MimeValues || r == OctetStream
    ensures MimeTypeOf(ToLower(Extname(fileName))).Some? <==> r != OctetStream
  {
    match MimeTypeOf(ToLower(Extname(fileName)))
    case Some(mime) => mime
    case None => OctetStream
  }

  /** Upper- and lower-case spellings of a name get the same MIME type, e.g. `.JPG` and
      `.jpg`. */
  lemma MimeTypeCaseInsensitive(fileName: string)
    ensures GetMimeType(ToLower(fileName)) == GetMimeType(fileName)
  {
    ExtnameToLower(fileName);
    ToLowerIdempotent(Extname(fileName));
  }

  /** A name without an extension gets the octet-stream default. */
  lemma NoExtensionIsOctetStream(fileName: string)
    requires '.' !in Basename(fileName)
    ensures GetMimeType(fileName) == OctetStream
  {
    assert LastIndexOf(Basename(fileName), '.') == -1;
    assert Extname(fileName) == [];
    assert ToLower([]) == [];
    assert MimeTypeOf([]).None?;
  }

  /** The categories of the document-like values getMimeType can return. */
  lemma PdfMimeType()
    ensures GetFileType("application/pdf") == DOCUMENT
  {
    assert "application/pdf"[..6] == "applic";
    assert OccursAt("application/pdf", "pdf", 12);
  }

  lemma MswordMimeType()
    ensures GetFileType("application/msword") == DOCUMENT
  {
    var m := "application/msword";
    assert m[..6] == "applic";
    assert m[..16] == "application/mswo" && m[17..] == "d";
    AbsentExceptAt(m, "rar", 16);
    AbsentChar(m, "zip", 0);
  }

  lemma DocxMimeType()
    ensures GetFileType(DocxMime) == DOCUMENT
  {
    var head, tail := DocxHead, DocxTail;
    assert head[..6] == "applic";
    StartsWithConcat(head, "document" + tail, "applic");
    assert head + "document" + tail == head + ("document" + tail);
    ContainsMiddle(head, "document", tail);
  }

  lemma OctetStreamType()
    ensures GetFileType(OctetStream) == DOCUMENT
  {
    var o := OctetStream;
    assert o[..6] == "applic";
    assert o[..20] == "application/octet-st" && o[21..] == "eam";
    assert o[20..23] == "rea";
    AbsentChar(o, "zip", 0);
    AbsentExceptAt(o, "rar", 20);
  }

  /** The categories of the media values getMimeType can return. */
  lemma MediaMimeTypes()
    ensures GetFileType("image/jpeg") == IMAGE
    ensures GetFileType("image/png") == IMAGE
    ensures GetFileType("image/gif") == IMAGE
    ensures GetFileType("video/mp4") == VIDEO
    ensures GetFileType("video/x-msvideo") == VIDEO
    ensures GetFileType("audio/mpeg") == AUDIO
    ensures GetFileType("audio/wav") == AUDIO
  {
    assert "image/jpeg"[..6] == "image/" && "image/png"[..6] == "image/" && "image/gif"[..6] == "image/";
    assert "video/mp4"[..6] == "video/" && "video/x-msvideo"[..6] == "video/";
    assert "audio/mpeg"[..6] == "audio/" && "audio/wav"[..6] == "audio/";
  }

  /** The category of the MIME type an extension gets: the table entry's, or octet-stream's
      for an extension not in the table. */
  lemma FileTypeOfExtension(ext: string)
    ensures GetFileType(MimeTypeOf(ext).GetOr(OctetStream)) ==
        if ext in {".jpg", ".jpeg", ".png", ".gif"} then IMAGE
        else if ext in {".mp4", ".avi"} then VIDEO
        else if ext in {".mp3", ".wav"} then AUDIO
        else DOCUMENT
  {
    if ext in {".jpg", ".jpeg", ".png", ".gif", ".mp4", ".avi", ".mp3", ".wav"} {
      MediaMimeTypes();
    } else if ext == ".pdf" {
      PdfMimeType();
    } else if ext == ".doc" {
      MswordMimeType();
    } else if ext == ".docx" {
      DocxMimeType();
    } else {
      OctetStreamType();
    }
  }

  /** The category of a file guessed from its name: images, videos and audio from their
      extensions, DOCUMENT for everything else, and never ARCHIVE, since no table value
      mentions zip or rar. */
  lemma FileTypeOfFileName(fileName: string)
    ensures var ext := ToLower(Extname(fileName));
      GetFileType(GetMimeType(fileName)) ==
        if ext in {".jpg", ".jpeg", ".png", ".gif"} then IMAGE
        else if ext in {".mp4", ".avi"} then VIDEO
        else if ext in {".mp3", ".wav"} then AUDIO
        else DOCUMENT
    ensures GetFileType(GetMimeType(fileName)) != ARCHIVE
  {
    var ext := ToLower(Extname(fileName));
    assert GetMimeType(fileName) == MimeTypeOf(ext).GetOr(OctetStream);
    FileTypeOfExtension(ext);
  }
}
