/** Values shared by every component: optional values and the bridge's error-or-value results. */
module Results {
  datatype Option<+T> = None | Some(value: T)

  datatype ErrorCode =
    | InvalidArgument
    | InvalidUrl
    | InvalidUtf8
    | InvalidJson
    | PayloadTooLarge
    | QueueFull
    | DuplicateConflict
    | StaleGeneration
    | Stopped
    | TransportFailure
    | MalformedKey

  datatype Result<+T> = Ok(value: T) | Err(error: ErrorCode)
}
