/** The optional value shared by the display list (the active polygon) and the input dialog
    (the value its callback receives). */
module Options {
  datatype Option<T> = None | Some(value: T)
}
