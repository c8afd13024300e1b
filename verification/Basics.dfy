module Basics {

  datatype Maybe<+T> = Nothing | Just(value: T)
}
