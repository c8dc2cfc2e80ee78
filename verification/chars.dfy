/** Character classes and substring tests shared by the splitter and the patterns. */
module Chars {

  /** The `\s` class of ECMAScript regular expressions: the WhiteSpace and
      LineTerminator code points of the language standard. */
  predicate IsWhitespace(c: char)
  {
    var n := c as int;
    n == 0x09 || n == 0x0A || n == 0x0B || n == 0x0C || n == 0x0D || n == 0x20
    || n == 0xA0 || n == 0x1680 || (0x2000 <= n <= 0x200A)
    || n == 0x2028 || n == 0x2029 || n == 0x202F || n == 0x205F
    || n == 0x3000 || n == 0xFEFF
  }

  /** One character of the splitter's class `[\s,]`. */
  predicate IsSeparator(c: char)
  {
    IsWhitespace(c) || c == ','
  }

  /** Characters that the regular-expression `.` does not match. */
  predicate IsLineTerminator(c: char)
  {
    c == '\n' || c == '\r' || c as int == 0x2028 || c as int == 0x2029
  }

  predicate SingleLine(s: string)
  {
    forall k :: 0 <= k < |s| ==> !IsLineTerminator(s[k])
  }

  predicate NoSeparator(s: string)
  {
    forall k :: 0 <= k < |s| ==> !IsSeparator(s[k])
  }

  /** `w` occurs in `s` starting at index `i`. */
  predicate StartsWithAt(s: string, i: nat, w: string)
  {
    i + |w| <= |s| && s[i..i + |w|] == w
  }

  predicate Occurs(s: string, w: string)
  {
    exists q :: 0 <= q <= |s| && StartsWithAt(s, q, w)
  }

  /** A line terminator is whitespace, so a separator-free string is one line. */
  lemma NoSeparatorIsSingleLine(s: string)
    requires NoSeparator(s)
    ensures SingleLine(s)
  {
  }
}
