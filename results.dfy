/** Failure-carrying values: the Python code raises exceptions, the model returns them. */
module Results {

  datatype Option<+T> = None | Some(value: T)

  datatype Result<+T, +E> = Success(value: T) | Failure(error: E)

  datatype Outcome<+E> = Pass | Fail(error: E)

  /** The one exception type of video_processing.py. */
  datatype Error = FfmpegError
}
