/** The marks of an attendance record. */
module Marks {
  datatype Mark = Unmarked | Present | Late | Online | AbsentExcused | AbsentUnexcused | Makeup
}
