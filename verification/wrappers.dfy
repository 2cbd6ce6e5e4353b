/** Small shared datatypes: an optional value, and the writes an HTTP
    response writer receives. */
module Wrappers {

  /** A value that may be absent; stands in for Go's nil pointers and
      nil slices. */
  datatype Option<+T> = None | Some(value: T)
}

module Http {

  /** One call on Go's http.ResponseWriter: `Header().Set(name, value)`,
      `WriteHeader(code)` or `Write(body)`. */
  datatype Write =
    | SetHeader(name: string, value: string)
    | WriteStatus(code: int)
    | WriteBody(body: string)

  const StatusOK: int := 200
  const StatusNotFound: int := 404
  const StatusMethodNotAllowed: int := 405
  const StatusInternalServerError: int := 500
}
