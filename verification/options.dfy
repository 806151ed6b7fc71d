/** An optional value; stands for a TypeScript value that may be `null`. */
module Options {

  datatype Option<+T> = None | Some(value: T)
}
