/** The optional value the exporter's inputs use for absent fields and settings. */
module Wrappers {

  datatype Option<+T> = None | Some(value: T)
}
