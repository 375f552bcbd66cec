/**
  Lexicographic order on integer sequences.

  One order serves two purposes in the model: the order in which SQL's
  `ORDER BY a, b, c` arranges rows (each row ranked by the sequence of its
  sort columns), and the order in which the database compares text (each
  string ranked by the sequence of its character codes, as under the "C"
  collation).
*/
module Lex {

  /** `a` sorts no later than `b`: a proper prefix sorts first, otherwise
      the first differing position decides. */
  predicate Le(a: seq<int>, b: seq<int>)
    decreases |a|
  {
    |a| == 0 || (|b| > 0 && (a[0] < b[0] || (a[0] == b[0] && Le(a[1..], b[1..]))))
  }

  lemma {:induction false} LeReflexive(a: seq<int>)
    ensures Le(a, a)
    decreases |a|
  {
    if |a| > 0 {
      LeReflexive(a[1..]);
    }
  }

  lemma {:induction false} LeTotal(a: seq<int>, b: seq<int>)
    ensures Le(a, b) || Le(b, a)
    decreases |a|
  {
    if |a| > 0 && |b| > 0 && a[0] == b[0] {
      LeTotal(a[1..], b[1..]);
    }
  }

  lemma {:induction false} LeTransitive(a: seq<int>, b: seq<int>, c: seq<int>)
    requires Le(a, b) && Le(b, c)
    ensures Le(a, c)
    decreases |a|
  {
    if |a| > 0 && a[0] == b[0] && b[0] == c[0] {
      LeTransitive(a[1..], b[1..], c[1..]);
    }
  }

  lemma {:induction false} LeAntisymmetric(a: seq<int>, b: seq<int>)
    requires Le(a, b) && Le(b, a)
    ensures a == b
    decreases |a|
  {
    if |a| > 0 {
      LeAntisymmetric(a[1..], b[1..]);
      assert a == [a[0]] + a[1..];
      assert b == [b[0]] + b[1..];
    }
  }

  /** The character codes of a string. */
  function Codes(s: string): seq<int>
  {
    seq(|s|, i requires 0 <= i < |s| => s[i] as int)
  }

  /** Text comparison: `a` sorts no later than `b` character by character. */
  predicate TextLe(a: string, b: string)
  {
    Le(Codes(a), Codes(b))
  }

  lemma TextLeReflexive(a: string)
    ensures TextLe(a, a)
  {
    LeReflexive(Codes(a));
  }

  lemma TextLeTotal(a: string, b: string)
    ensures TextLe(a, b) || TextLe(b, a)
  {
    LeTotal(Codes(a), Codes(b));
  }

  lemma TextLeTransitive(a: string, b: string, c: string)
    requires TextLe(a, b) && TextLe(b, c)
    ensures TextLe(a, c)
  {
    LeTransitive(Codes(a), Codes(b), Codes(c));
  }

  /** Two texts that each sort no later than the other are the same text. */
  lemma TextLeAntisymmetric(a: string, b: string)
    requires TextLe(a, b) && TextLe(b, a)
    ensures a == b
  {
    LeAntisymmetric(Codes(a), Codes(b));
    assert |a| == |Codes(a)| == |Codes(b)| == |b|;
    forall i | 0 <= i < |a|
      ensures a[i] == b[i]
    {
      assert Codes(a)[i] == Codes(b)[i];
    }
  }
}
