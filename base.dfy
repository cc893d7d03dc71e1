/** Values shared by every part of the model: optional values, the errors the
    program stops with, fallible results, and Go's map indexing. */
module Base {

  datatype Option<T> = None | Some(value: T)

  /** The errors that abort a run. A failed backend call (transport, remote
      protocol or decode failure) carries the backend's message; a permission
      conflict names the repository, the key and both values. */
  datatype Error =
    | FetchFailed(message: string)
    | Mismatch(reponame: string, key: string, existing: string, incoming: string)

  datatype Result<T> = Ok(value: T) | Err(error: Error)

  /** Indexing a Go `map[string]string`: a missing key reads as the empty string. */
  function Lookup(m: map<string, string>, key: string): string
  {
    if key in m then m[key] else ""
  }
}
