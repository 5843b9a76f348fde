/** Character classes shared by both tokenizers. */
module Chars {

  /** std::isspace in the classic "C" locale: space, tab, line feed,
      vertical tab, form feed and carriage return. */
  predicate IsSpace(c: char)
  {
    c == ' ' || c == '\t' || c == '\n' || c == '\U{000B}' || c == '\U{000C}' || c == '\r'
  }

  /** The escape table of both tokenizers: the character that a backslash
      followed by `c` stands for.  Note that `e` maps to 0x33, the digit '3',
      not to the ESC control character. */
  function Unescape(c: char): (r: char)
    ensures c == 'a' ==> r == '\U{0007}'
    ensures c == 'e' ==> r == '3'
    ensures c == 'n' ==> r == '\n'
    ensures c == 'r' ==> r == '\r'
    ensures c == 't' ==> r == '\t'
    ensures c !in "aenrt" ==> r == c
    ensures r != c <==> c in "aenrt"
  {
    if c == 'a' then '\U{0007}'
    else if c == 'e' then 0x33 as char
    else if c == 'n' then '\n'
    else if c == 'r' then '\r'
    else if c == 't' then '\t'
    else c
  }

  /** What `>> std::ws` (and the leading-blank skip of strtol) leaves of the
      input: everything from the first character that is not a space. */
  function SkipSpace(s: seq<char>): (r: seq<char>)
    ensures |r| <= |s|
    ensures r == [] || !IsSpace(r[0])
    ensures s != [] && !IsSpace(s[0]) ==> r == s
  {
    if s != [] && IsSpace(s[0]) then SkipSpace(s[1..]) else s
  }
}
