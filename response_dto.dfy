/** The envelope every API answer is wrapped in, and its two factories. The timestamp is
    the clock's ISO-8601 rendering at construction and is a parameter. */
module ResponseDto {
  import opened Wrappers

  datatype ApiResponse<T> = ApiResponse(success: bool, message: string, data: Option<T>,
                                        timestamp: string, path: string)

  /** The constructor: the flags, message and data as given, and the path or "" when it is
      missing or empty. */
  function New<T>(success: bool, message: string, data: Option<T>, path: Option<string>,
                  timestamp: string): (r: ApiResponse<T>)
    ensures r.success == success && r.message == message && r.data == data
    ensures r.timestamp == timestamp
    ensures path.Some? ==> r.path == path.value
    ensures path.None? ==> r.path == ""
  {
    ApiResponse(success, message, data, timestamp, path.GetOr(""))
  }

  /** success(data, message = 'Success', path). */
  function Success<T>(data: T, timestamp: string, message: string := "Success",
                      path: Option<string> := None): (r: ApiResponse<T>)
    ensures r == New(true, message, Some(data), path, timestamp)
  {
    ApiResponse(true, message, Some(data), timestamp, path.GetOr(""))
  }

  /** error(message, path): no data. */
  function Error<T>(message: string, timestamp: string, path: Option<string> := None): (r: ApiResponse<T>)
    ensures r == New(false, message, None, path, timestamp)
  {
    ApiResponse(false, message, None, timestamp, path.GetOr(""))
  }

  /** A success envelope carries its data unchanged and the default message "Success"; an
      error envelope carries none; both default the path to "". A client can therefore tell
      the two apart by the flag alone. */
  lemma FactoriesOutcome<T>(data: T, message: string, timestamp: string, path: Option<string>)
    ensures Success(data, timestamp).message == "Success" && Success(data, timestamp).path == ""
    ensures Success(data, timestamp, message, path).success
    ensures Success(data, timestamp, message, path).data == Some(data)
    ensures !Error<T>(message, timestamp, path).success && Error<T>(message, timestamp, path).data.None?
    ensures Error<T>(message, timestamp).path == ""
    ensures Success(data, timestamp, message, path).message == Error<T>(message, timestamp, path).message
  {
  }
}
