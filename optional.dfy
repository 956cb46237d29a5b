/** An optional value: the model of a TypeScript value that may be `undefined` or `null`. */
module Optional {

  datatype Option<+T> = None | Some(value: T)

}
