/** Datatypes shared by the service models. */
module Common {
  datatype Option<+T> = None | Some(value: T)

  // The application errors the services answer with (pkg/errors).
  datatype Status = Ok | BadRequest | Unauthorized | NotFound | Conflict | Internal

  // Unicode white space, as strings.TrimSpace sees it.
  predicate IsSpace(ch: char) {
    || '\t' <= ch <= '\r' || ch in {' ', '\U{85}', '\U{A0}', '\U{1680}'}
    || '\U{2000}' <= ch <= '\U{200A}' || ch in {'\U{2028}', '\U{2029}', '\U{202F}', '\U{205F}', '\U{3000}'}
  }

  predicate Blank(s: string) {
    forall ch :: ch in s ==> IsSpace(ch)
  }
}
