/** Option and Result, used for the source's nullable values and its exceptions. */
module Wrappers {

  datatype Option<+T> = None | Some(value: T) {
    function GetOr(default: T): T {
      match this
      case Some(v) => v
      case None => default
    }
  }

  datatype Result<+R, +E> = Success(value: R) | Failure(error: E)

  /** The exceptions the robots.txt engine throws, as values. */
  datatype Error =
    | NotLoaded                          // RobotsNotloadedException
    | UnparsableLine(line: string)       // "Unable to parse {line} in robots.txt"
    | BadCrawlDelay(text: string)        // int.Parse failing (format or overflow)
    | NoSuchAgent(name: string)          // Enumerable.First finding no match
    | NullReference                      // a field that is still null is used
    | ArgumentNull                       // ArgumentNullException from a constructor given null
    | FetchFailed(url: string)           // HttpRequestException from the HTTP client
    | NotDeserializable(url: string, root: string)  // "Unable to deserialize content from ..."
}
