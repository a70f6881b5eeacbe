/** The nullable values of the shell (`string | null`, an absent record) as an Option. */
module Wrappers {

  datatype Option<T> = None | Some(value: T)

}
