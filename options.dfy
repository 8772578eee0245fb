/** An optional value: `null`/`undefined` on the TypeScript side, `Option` on the Rust side. */
module Options {

  datatype Option<+T> = None | Some(value: T)
}
