// The optional value used wherever the game's script returns `undefined` or
// stops early (no hit, no hint, no stored play count).
module Options {

  datatype Option<T> = None | Some(value: T)
}
