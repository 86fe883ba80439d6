/** Optional values: a document lookup that may miss, a nullable field, an omitted bound. */
module Options {
  datatype Option<+T> = None | Some(value: T)
}
