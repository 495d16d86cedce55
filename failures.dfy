/** Error values and the result types that carry them.

    Every `raise` of the bridge is one constructor of `Error`; a raised
    exception that escapes a function becomes a `Fail` or `Err` value. */
module Failures {

  datatype Option<+T> = None | Some(value: T)

  /** The exceptions the bridge raises, one per `raise` site. */
  datatype Error =
    | MissingVariable(name: string)     // check_env: a required variable is absent
    | ProbeFailed                       // check_env: GET BASE_URL did not answer 200
    | LoginFailed                       // get_login_session: login did not answer 200
    | QueryFailed                       // get_completed_torrents: info did not answer 200
    | MarkFailed(hash: string)          // mark_torrent_as_done: addTags did not answer 200 (the
                                        // hash is kept for the proofs; the message does not name it)
    | RelativePath                      // update_nextcloud_files: ".." in the relative path
    | ContainerNotFound(container: string)  // docker raised NotFound
    | ContainerInvalid(container: string)  // the lookup returned None or a non-Container
    | RescanFailed(path: string)        // occ files:scan exited non-zero

  datatype Result<+T> = Ok(value: T) | Err(error: Error)

  /** The outcome of a procedure that returns nothing (Python `-> None`). */
  datatype Outcome = Pass | Fail(error: Error)
}
