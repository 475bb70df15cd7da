// Classes of ASCII characters.
module Characters {

  predicate IsDigit(c: char)
    ensures IsDigit(c) <==> 48 <= c as int <= 57
  {
    '0' <= c <= '9'
  }

  // Tab, line feed, vertical tab, form feed, carriage return, space.
  predicate IsSpace(c: char)
    ensures IsSpace(c) <==> 9 <= c as int <= 13 || c as int == 32
  {
    '\t' <= c <= '\r' || c == ' '
  }
}
