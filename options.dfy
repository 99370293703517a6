/** Optional values: a column that may be NULL, a form field or header that may be absent. */
module Options {

  datatype Option<+T> = None | Some(value: T)
}
