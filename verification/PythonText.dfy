/**
 What Python's string methods know of characters, and the state of a `split` in
 the making.
 */
module PythonText {

  /** The characters at which Python's `splitlines` ends a line. */
  predicate IsBreak(c: char) {
    var n := c as int;
    0x0A <= n <= 0x0D || 0x1C <= n <= 0x1E || n == 0x85 || n == 0x2028 || n == 0x2029
  }

  /** `str.isspace` on one character. */
  predicate IsSpace(c: char) {
    var n := c as int;
    0x09 <= n <= 0x0D || 0x1C <= n <= 0x20 || n == 0x85 || n == 0xA0 || n == 0x1680 || 0x2000 <= n <= 0x200A ||
    n == 0x2028 || n == 0x2029 || n == 0x202F || n == 0x205F || n == 0x3000
  }

  /** `not s.strip()`. */
  predicate Blank(s: string) { forall c | c in s :: IsSpace(c) }

  /** The pieces already closed by a separator, and the text since. */
  datatype Pieces = Pieces(closed: seq<string>, open: string)
}
