/** The optional value used for Python attributes that may hold `None`. */
module Options {
  datatype Option<T> = None | Some(value: T)

  /** The set holding the value of `o`, if any. */
  function Elements<T>(o: Option<T>): set<T>
  {
    match o
    case None => {}
    case Some(x) => {x}
  }
}
