/** The optional value used wherever the component works with something that
    may be `undefined`: the map handle before mount, the stored viewport before
    the first interaction, a missing feature property. */
module Wrappers {

  datatype Option<+T> = None | Some(value: T)
}
