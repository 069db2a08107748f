/** The two kinds of failure a request can raise while it is handled. */
module Errors {

  /**
   * `MessageException` carries an HTTP response code and a message and is
   * turned into a plain-text response by the router; a `FileException`
   * (from opening, writing or reading a sysfs file) carries neither and is
   * not caught by the router.
   */
  datatype Failure =
    | MessageException(code: int, message: string)
    | FileException(path: string)
}
