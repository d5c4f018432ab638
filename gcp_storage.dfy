/** The pure part of the Google Cloud Storage adapter: object naming, public URLs, the
    object a file URL is taken to name, the signed-URL request, and the file classifier.
    The bucket name comes from configuration and is a parameter; the SDK's outcomes are
    parameters too. */
module GcpStorage {
  import opened Wrappers
  import opened Strings
  import opened ObjectUrls
  import FileStorage

  const StorageHost: string := "storage.googleapis.com"
  const DefaultFolder: string := "uploads"
  const DefaultSignedUrlTtl: nat := 3600

  /** The public URL of an object: `https://storage.googleapis.com/<bucket>/<object>`. */
  function ObjectUrl(bucketName: string, objectName: string): string {
    Https + StorageHost + "/" + bucketName + "/" + objectName
  }

  /** uploadFile: the object is named `folder/<now>-<originalname>`; on success its public
      URL is returned, and a failed save is reported with the SDK's message. */
  function UploadFile(bucketName: string, originalname: string, nowMs: nat,
                      saveError: Option<string>, folder: string := DefaultFolder): (r: Result<string, string>)
    ensures saveError.None? ==> r == Success(ObjectUrl(bucketName, TimestampedKey(folder, nowMs, originalname)))
    ensures saveError.Some? ==> r == Failure("Failed to upload file to GCP: " + saveError.value)
  {
    var fileName := TimestampedKey(folder, nowMs, originalname);
    match saveError
    case None => Success(Https + StorageHost + "/" + bucketName + "/" + fileName)
    case Some(message) => Failure("Failed to upload file to GCP: " + message)
  }

  /** getPublicUrl: the URL of `folder/fileName` in the bucket. */
  function GetPublicUrl(bucketName: string, fileName: string, folder: string := DefaultFolder): (url: string)
    ensures url == ObjectUrl(bucketName, FolderKey(folder, fileName))
  {
    var fullFileName := folder + "/" + fileName;
    Https + StorageHost + "/" + bucketName + "/" + fullFileName
  }

  /** The URL uploadFile returns is the public URL of the uploaded file under its
      timestamped name. */
  lemma UploadUrlIsPublicUrl(bucketName: string, originalname: string, nowMs: nat, folder: string)
    ensures UploadFile(bucketName, originalname, nowMs, None, folder)
         == Success(GetPublicUrl(bucketName, DecimalString(nowMs) + "-" + originalname, folder))
  {
  }

  /** extractFileNameFromUrl, as written: the URL's path without its leading '/'. For a
      URL this adapter builds, that path starts with the bucket name. */
  function ExtractFileNameFromUrl(fileUrl: string): (r: Result<string, string>)
    ensures r.Success? <==> Pathname(fileUrl).Some?
    ensures r.Success? ==> Pathname(fileUrl) == Some("/" + r.value)
  {
    match PathAfterSlash(fileUrl)
    case None => Failure("Invalid URL")
    case Some(path) => Success(path)
  }

  /** The URL of an uploaded object, handed back to deleteFile, yields the bucket name
      followed by the object name, not the object name: deleteFile asks the bucket for an
      object that does not exist. */
  lemma ExtractFileNameKeepsBucket(bucketName: string, objectName: string)
    requires IsPlainPath("/" + (bucketName + "/" + objectName))
    ensures ExtractFileNameFromUrl(ObjectUrl(bucketName, objectName)) == Success(bucketName + "/" + objectName)
    ensures ExtractFileNameFromUrl(ObjectUrl(bucketName, objectName)) != Success(objectName)
  {
    var tail := bucketName + "/" + objectName;
    ObjectPathname(bucketName, objectName);
    var r := ExtractFileNameFromUrl(ObjectUrl(bucketName, objectName));
    assert "/" + r.value == "/" + tail;
    assert r.value == ("/" + r.value)[1..] == ("/" + tail)[1..] == tail;
  }

  lemma StorageHostIsPlain()
    ensures IsPlainHost(StorageHost)
  {
    assert forall i :: 0 <= i < |StorageHost| ==> IsPlainChar(StorageHost[i]);
  }

  /** The path of an object's URL is `/<bucket>/<object>`. */
  lemma ObjectPathname(bucketName: string, objectName: string)
    requires IsPlainPath("/" + (bucketName + "/" + objectName))
    ensures Pathname(ObjectUrl(bucketName, objectName)) == Some("/" + (bucketName + "/" + objectName))
  {
    var path := "/" + (bucketName + "/" + objectName);
    assert ObjectUrl(bucketName, objectName) == Https + StorageHost + path;
    StorageHostIsPlain();
    PathnameOfUrl(StorageHost, path);
  }

  /** The bucket a deleted object is looked up in, and the object's name there. */
  datatype ObjectRef = ObjectRef(bucket: string, name: string)

  /** The object named by a public URL of this adapter: the path after the bucket segment.
      Failure for a URL that does not parse or whose path does not start with
      `/<bucket>/`. */
  function ObjectNameFromUrl(bucketName: string, fileUrl: string): (r: Result<string, string>)
    ensures r.Success? ==> ExtractFileNameFromUrl(fileUrl) == Success(bucketName + "/" + r.value)
  {
    match PathAfterSlash(fileUrl)
    case None => Failure("Invalid URL")
    case Some(path) =>
      if StartsWith(path, bucketName + "/") then
        assert path == (bucketName + "/") + path[|bucketName| + 1..];
        Success(path[|bucketName| + 1..])
      else Failure("Not an object of bucket " + bucketName)
  }

  /** Corrected lookup: the URL of an object gives back the object's own name. */
  lemma ObjectNameFromUrlRoundTrip(bucketName: string, objectName: string)
    requires IsPlainPath("/" + (bucketName + "/" + objectName))
    ensures ObjectNameFromUrl(bucketName, ObjectUrl(bucketName, objectName)) == Success(objectName)
  {
    ExtractFileNameKeepsBucket(bucketName, objectName);
    var path := bucketName + "/" + objectName;
    assert path[..|bucketName + "/"|] == bucketName + "/";
    assert path[|bucketName| + 1..] == objectName;
  }

  /** deleteFile with the corrected lookup: the object the URL names is deleted in the
      configured bucket; a URL that does not parse fails before the SDK is called, and an
      SDK failure is reported with its message. */
  function DeleteFile(bucketName: string, fileUrl: string, deleteObject: ObjectRef -> Option<string>)
    : (r: Result<ObjectRef, string>)
    ensures r.Success? ==> r.value.bucket == bucketName
                           && ObjectNameFromUrl(bucketName, fileUrl) == Success(r.value.name)
                           && deleteObject(r.value).None?
  {
    match ObjectNameFromUrl(bucketName, fileUrl)
    case Failure(e) => Failure(e)
    case Success(name) =>
      var target := ObjectRef(bucketName, name);
      match deleteObject(target)
      case None => Success(target)
      case Some(message) => Failure("Failed to delete file from GCP: " + message)
  }

  /** Deleting by the URL an upload returned targets the uploaded object. */
  lemma DeleteUploadedFile(bucketName: string, originalname: string, nowMs: nat, folder: string,
                           deleteObject: ObjectRef -> Option<string>)
    requires IsPlainPath("/" + (bucketName + "/" + TimestampedKey(folder, nowMs, originalname)))
    ensures var key := TimestampedKey(folder, nowMs, originalname);
      var url := UploadFile(bucketName, originalname, nowMs, None, folder).value;
      DeleteFile(bucketName, url, deleteObject)
        == if deleteObject(ObjectRef(bucketName, key)).None? then Success(ObjectRef(bucketName, key))
           else Failure("Failed to delete file from GCP: " + deleteObject(ObjectRef(bucketName, key)).value)
  {
    var key := TimestampedKey(folder, nowMs, originalname);
    ObjectNameFromUrlRoundTrip(bucketName, key);
  }

  /** The request generateSignedUrl sends to the SDK. */
  datatype SignedUrlRequest = SignedUrlRequest(objectName: string, action: string, expiresMs: int,
                                               contentType: string)

  /** generateSignedUrl: a write URL for `folder/fileName` that expires `expiresIn` seconds
      after `nowMs`, for octet-stream content. */
  function SignedUrlRequestFor(fileName: string, nowMs: int, folder: string := DefaultFolder,
                               expiresIn: int := DefaultSignedUrlTtl): (r: SignedUrlRequest)
    ensures r.objectName == FolderKey(folder, fileName)
    ensures r.action == "write" && r.contentType == FileStorage.OctetStream
  {
    SignedUrlRequest(folder + "/" + fileName, "write", nowMs + expiresIn * 1000,
                     "application/octet-stream")
  }

  /** The signed URL expires exactly expiresIn seconds after it is requested, one hour by
      default. */
  lemma SignedUrlExpiry(fileName: string, nowMs: int, folder: string, expiresIn: int)
    ensures SignedUrlRequestFor(fileName, nowMs, folder, expiresIn).expiresMs - nowMs == 1000 * expiresIn
    ensures SignedUrlRequestFor(fileName, nowMs).expiresMs == nowMs + 3600000
  {
  }

  /** The signed URL is for the object getPublicUrl names for the same file and folder. */
  lemma SignedUrlMatchesPublicUrl(bucketName: string, fileName: string, nowMs: int, folder: string,
                                  expiresIn: int)
    requires IsPlainPath("/" + (bucketName + "/" + FolderKey(folder, fileName)))
    ensures ObjectNameFromUrl(bucketName, GetPublicUrl(bucketName, fileName, folder))
         == Success(SignedUrlRequestFor(fileName, nowMs, folder, expiresIn).objectName)
  {
    ObjectNameFromUrlRoundTrip(bucketName, FolderKey(folder, fileName));
  }

  /** getFileType, written out a second time in this adapter. */
  function GetFileType(mimeType: string): (t: FileStorage.FileType) {
    if StartsWith(mimeType, "image/") then FileStorage.IMAGE
    else if StartsWith(mimeType, "video/") then FileStorage.VIDEO
    else if StartsWith(mimeType, "audio/") then FileStorage.AUDIO
    else if Contains(mimeType, "pdf") || Contains(mimeType, "document") then FileStorage.DOCUMENT
    else if Contains(mimeType, "zip") || Contains(mimeType, "rar") then FileStorage.ARCHIVE
    else FileStorage.DOCUMENT
  }

  /** This adapter classifies every MIME type as the file-storage service does. */
  lemma GetFileTypeAgrees(mimeType: string)
    ensures GetFileType(mimeType) == FileStorage.GetFileType(mimeType)
  {
  }
}
