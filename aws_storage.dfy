/** The pure part of the S3 adapter: the upload and presigned-post requests it builds, the
    key a file URL names, and the file classifier. The bucket name comes from configuration
    and every S3 call is a function parameter returning the SDK's result or error message. */
module AwsStorage {
  import opened Wrappers
  import opened Strings
  import opened ObjectUrls
  import FileStorage

  const DefaultFolder: string := "uploads"
  const DefaultPresignTtl: nat := 3600
  /** The largest upload a presigned post admits: 10 MiB. */
  const MaxUploadBytes: nat := 10485760

  /** The PutObject request of uploadFile. */
  datatype PutObjectRequest = PutObjectRequest(bucket: string, key: string, contentType: string, acl: string)

  function UploadRequest(bucketName: string, originalname: string, mimetype: string, nowMs: nat,
                         folder: string := DefaultFolder): (req: PutObjectRequest)
    ensures req.bucket == bucketName && req.contentType == mimetype && req.acl == "public-read"
    ensures req.key == TimestampedKey(folder, nowMs, originalname)
  {
    PutObjectRequest(bucketName, folder + "/" + DecimalString(nowMs) + "-" + originalname, mimetype,
                     "public-read")
  }

  /** uploadFile: the object's location as S3 reports it, or the SDK's error message. */
  function UploadFile(bucketName: string, originalname: string, mimetype: string, nowMs: nat,
                      upload: PutObjectRequest -> Result<string, string>,
                      folder: string := DefaultFolder): (r: Result<string, string>)
    ensures var sdk := upload(UploadRequest(bucketName, originalname, mimetype, nowMs, folder));
      && (sdk.Success? ==> r == sdk)
      && (sdk.Failure? ==> r == Failure("Failed to upload file to S3: " + sdk.error))
  {
    match upload(UploadRequest(bucketName, originalname, mimetype, nowMs, folder))
    case Success(location) => Success(location)
    case Failure(message) => Failure("Failed to upload file to S3: " + message)
  }

  /** A condition of a presigned-post policy. */
  datatype PolicyCondition =
    | ContentLengthRange(min: int, max: int)
    | StartsWithField(field: string, prefix: string)

  /** Whether an upload of `size` bytes with the given Content-Type meets a condition. */
  predicate Admits(c: PolicyCondition, size: int, contentType: string) {
    match c
    case ContentLengthRange(lo, hi) => lo <= size <= hi
    case StartsWithField(field, prefix) => field == "$Content-Type" ==> StartsWith(contentType, prefix)
  }

  /** The parameters of createPresignedPost. */
  datatype PresignedPostParams = PresignedPostParams(bucket: string, key: string, expires: int,
                                                     conditions: seq<PolicyCondition>)

  /** generatePresignedUrl's parameters: the key `folder/fileName`, the lifetime in seconds,
      and a policy capping the size at 10 MiB and demanding an image Content-Type. */
  function PresignedPost(bucketName: string, fileName: string, folder: string := DefaultFolder,
                         expiresIn: int := DefaultPresignTtl): (p: PresignedPostParams)
    ensures p.bucket == bucketName && p.key == FolderKey(folder, fileName) && p.expires == expiresIn
  {
    PresignedPostParams(bucketName, folder + "/" + fileName, expiresIn,
                        [ContentLengthRange(0, 10485760), StartsWithField("$Content-Type", "image/")])
  }

  /** An upload through a presigned post is admitted exactly when it is at most 10 MiB and
      its Content-Type starts with "image/"; every admitted upload is classified IMAGE. */
  lemma PresignedPolicyAdmits(bucketName: string, fileName: string, folder: string, expiresIn: int,
                              size: int, contentType: string)
    ensures var p := PresignedPost(bucketName, fileName, folder, expiresIn);
      (forall i :: 0 <= i < |p.conditions| ==> Admits(p.conditions[i], size, contentType))
      <==> 0 <= size <= MaxUploadBytes && StartsWith(contentType, "image/")
    ensures var p := PresignedPost(bucketName, fileName, folder, expiresIn);
      (forall i :: 0 <= i < |p.conditions| ==> Admits(p.conditions[i], size, contentType))
      ==> GetFileType(contentType) == FileStorage.IMAGE
  {
    var p := PresignedPost(bucketName, fileName, folder, expiresIn);
    assert p.conditions[0] == ContentLengthRange(0, MaxUploadBytes);
    assert p.conditions[1] == StartsWithField("$Content-Type", "image/");
  }

  /** generatePresignedUrl: the URL S3 returns, or the SDK's error message. */
  function GeneratePresignedUrl(bucketName: string, fileName: string,
                                createPresignedPost: PresignedPostParams -> Result<string, string>,
                                folder: string := DefaultFolder, expiresIn: int := DefaultPresignTtl)
    : (r: Result<string, string>)
    ensures var sdk := createPresignedPost(PresignedPost(bucketName, fileName, folder, expiresIn));
      && (sdk.Success? ==> r == sdk)
      && (sdk.Failure? ==> r == Failure("Failed to generate presigned URL: " + sdk.error))
  {
    match createPresignedPost(PresignedPost(bucketName, fileName, folder, expiresIn))
    case Success(url) => Success(url)
    case Failure(message) => Failure("Failed to generate presigned URL: " + message)
  }

  /** extractKeyFromUrl: the URL's path with its one leading '/' removed. */
  function ExtractKeyFromUrl(fileUrl: string): (r: Result<string, string>)
    ensures r.Success? <==> Pathname(fileUrl).Some?
    ensures r.Success? ==> Pathname(fileUrl) == Some("/" + r.value)
  {
    match PathAfterSlash(fileUrl)
    case None => Failure("Invalid URL")
    case Some(key) => Success(key)
  }

  /** For a virtual-hosted object URL `https://<host>/<key>`, the key is recovered. */
  lemma ExtractKeyOfObjectUrl(host: string, key: string)
    requires IsPlainHost(host) && IsPlainPath("/" + key)
    ensures ExtractKeyFromUrl(Https + host + "/" + key) == Success(key)
  {
    var path := "/" + key;
    assert Https + host + "/" + key == Https + host + path;
    PathnameOfUrl(host, path);
    var r := ExtractKeyFromUrl(Https + host + path);
    assert r.value == ("/" + r.value)[1..] == path[1..] == key;
  }

  /** The object a deleteFile call removes. */
  datatype DeleteObjectRequest = DeleteObjectRequest(bucket: string, key: string)

  /** deleteFile: the key is taken from the URL before the SDK is called, so a URL that does
      not parse fails with the parser's error; an SDK failure is reported with its message. */
  function DeleteFile(bucketName: string, fileUrl: string, deleteObject: DeleteObjectRequest -> Option<string>)
    : (r: Result<DeleteObjectRequest, string>)
    ensures r.Success? ==> r.value.bucket == bucketName && ExtractKeyFromUrl(fileUrl) == Success(r.value.key)
                           && deleteObject(r.value).None?
    ensures ExtractKeyFromUrl(fileUrl).Failure? ==> r == Failure("Invalid URL")
  {
    match ExtractKeyFromUrl(fileUrl)
    case Failure(e) => Failure(e)
    case Success(key) =>
      var request := DeleteObjectRequest(bucketName, key);
      match deleteObject(request)
      case None => Success(request)
      case Some(message) => Failure("Failed to delete file from S3: " + message)
  }

  /** Deleting by the virtual-hosted location of an upload targets the uploaded key. */
  lemma DeleteUploadedObject(bucketName: string, host: string, originalname: string, mimetype: string,
                             nowMs: nat, folder: string, deleteObject: DeleteObjectRequest -> Option<string>)
    requires IsPlainHost(host) && IsPlainPath("/" + TimestampedKey(folder, nowMs, originalname))
    ensures var key := UploadRequest(bucketName, originalname, mimetype, nowMs, folder).key;
      var request := DeleteObjectRequest(bucketName, key);
      DeleteFile(bucketName, Https + host + "/" + key, deleteObject)
        == if deleteObject(request).None? then Success(request)
           else Failure("Failed to delete file from S3: " + deleteObject(request).value)
  {
    var key := UploadRequest(bucketName, originalname, mimetype, nowMs, folder).key;
    assert key == TimestampedKey(folder, nowMs, originalname);
    ExtractKeyOfObjectUrl(host, key);
  }

  /** getFileType, written out a third time in this adapter. */
  function GetFileType(mimeType: string): (t: FileStorage.FileType) {
    if StartsWith(mimeType, "image/") then FileStorage.IMAGE
    else if StartsWith(mimeType, "video/") then FileStorage.VIDEO
    else if StartsWith(mimeType, "audio/") then FileStorage.AUDIO
    else if Contains(mimeType, "pdf") || Contains(mimeType, "document") then FileStorage.DOCUMENT
    else if Contains(mimeType, "zip") || Contains(mimeType, "rar") then FileStorage.ARCHIVE
    else FileStorage.DOCUMENT
  }

  /** This adapter classifies every MIME type as the file-storage service does. */
  lemma GetFileTypeAgrees(mimeType: string)
    ensures GetFileType(mimeType) == FileStorage.GetFileType(mimeType)
  {
  }
}
