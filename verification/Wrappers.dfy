module Wrappers {
  datatype Option<+T> = None | Some(value: T)

  /** The errors of the storage service that the model tells apart. */
  datatype CrawlerError = DbError | RobotParseError | UrlDoesntContainDomain | SerdeError

  datatype Result<+T> = Success(value: T) | Failure(error: CrawlerError)
}
