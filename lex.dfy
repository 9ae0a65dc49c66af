/**
 * Lexicographic order on strings, compared character by character on code
 * points, with a proper prefix ordered first. This is the order of Python's
 * `str` comparison and `sorted`, and of SQLite's BINARY collation on TEXT
 * (UTF-8 byte order agrees with code-point order).
 */
module Lex {

  /** `a` sorts at or before `b`. */
  predicate LexLe(a: string, b: string)
  {
    a == [] || (b != [] && (a[0] < b[0] || (a[0] == b[0] && LexLe(a[1..], b[1..]))))
  }

  /** `a` sorts strictly before `b`. */
  predicate LexLt(a: string, b: string)
  {
    LexLe(a, b) && a != b
  }

  lemma {:induction false} LexLeRefl(a: string)
    ensures LexLe(a, a)
  {
    if a != [] {
      LexLeRefl(a[1..]);
    }
  }

  lemma {:induction false} LexLeTotal(a: string, b: string)
    ensures LexLe(a, b) || LexLe(b, a)
  {
    if a != [] && b != [] && a[0] == b[0] {
      LexLeTotal(a[1..], b[1..]);
    }
  }

  lemma {:induction false} LexLeAntisymmetric(a: string, b: string)
    requires LexLe(a, b) && LexLe(b, a)
    ensures a == b
  {
    if a != [] && b != [] {
      LexLeAntisymmetric(a[1..], b[1..]);
      assert a == [a[0]] + a[1..];
      assert b == [b[0]] + b[1..];
    }
  }

  lemma {:induction false} LexLeTransitive(a: string, b: string, c: string)
    requires LexLe(a, b) && LexLe(b, c)
    ensures LexLe(a, c)
  {
    if a != [] && b != [] && c != [] && a[0] == b[0] && b[0] == c[0] {
      LexLeTransitive(a[1..], b[1..], c[1..]);
    }
  }

  /**
   * Comparing two strings that start with prefixes of the same length: the
   * prefixes decide, and only equal prefixes hand the decision to the rest.
   */
  lemma {:induction false} LexLeAppend(x: string, s: string, y: string, t: string)
    requires |x| == |y|
    ensures LexLe(x + s, y + t) <==> LexLt(x, y) || (x == y && LexLe(s, t))
  {
    if x != [] {
      assert (x + s)[0] == x[0] && (x + s)[1..] == x[1..] + s;
      assert (y + t)[0] == y[0] && (y + t)[1..] == y[1..] + t;
      LexLeAppend(x[1..], s, y[1..], t);
      assert x == [x[0]] + x[1..];
      assert y == [y[0]] + y[1..];
      if x[0] == y[0] && x[1..] != y[1..] {
        assert x != y;
      }
    } else {
      assert x + s == s && y + t == t;
    }
  }
}
