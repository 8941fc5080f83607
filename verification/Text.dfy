/** ASCII text as Python's string methods see it. */
module Text {

  /** What `strip` removes: blanks, tab to carriage return, and the four separators. */
  predicate IsSpace(c: char) {
    c == ' ' || '\t' <= c <= '\r' || '\U{1C}' <= c <= '\U{1F}'
  }
}
