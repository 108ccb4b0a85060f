/** Optional values, standing in for Swift's `T?`. */
module Options {

  datatype Option<+T> = None | Some(value: T)
}
