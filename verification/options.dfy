/** The optional value shared by the models: a page cursor, an embedded reply list, a sampled key. */
module Options {

  datatype Option<T> = None | Some(value: T)
}
