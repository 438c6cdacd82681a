/** The nullable references of the analyzer (a symbol that may be null, an
    attribute class that may be null) are modelled with Option. */
module Wrappers {

  datatype Option<+T> = None | Some(value: T)
}
