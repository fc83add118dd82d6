/** The C code's nullable pointers (`const char *`, `const WCompositorBackend *`)
    become `Option` values: `None` is NULL. */
module Wrappers {

  datatype Option<+T> = None | Some(value: T) {

    /** Returns the wrapped value, or `default` for NULL. */
    function GetOr(default: T): T {
      match this
      case Some(v) => v
      case None => default
    }
  }
}
