/** Small shared definitions: bytes and an optional value. */
module Base {

  /** One octet of a Uint8Array. */
  newtype byte = x: int | 0 <= x < 256

  /** A value that may be absent; `None` stands for a JavaScript call that threw
      or a lookup that found nothing. */
  datatype Option<+T> = None | Some(value: T)
}
