/** Character classes shared by the timestamp layout and the decimal rendering of counts. */
module Chars {
  /** An ASCII decimal digit, '0' to '9'. */
  predicate IsDigit(c: char) {
    '0' <= c <= '9'
  }
}
