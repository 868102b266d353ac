/**
 * Go's `<` on strings: lexicographic comparison. Go compares the UTF-8 bytes;
 * UTF-8 preserves the order of code points, so comparing characters gives the
 * same answer on valid UTF-8 (not on strings holding invalid byte sequences).
 */
module Lex {
  import opened Sorting

  /** `a < b` for Go strings. */
  predicate Less(a: string, b: string) {
    b != [] && (a == [] || a[0] < b[0] || (a[0] == b[0] && Less(a[1..], b[1..])))
  }

  /** `!(b < a)`: the order `sort.Slice` leaves between earlier and later elements. */
  predicate Leq(a: string, b: string) {
    !Less(b, a)
  }

  lemma {:induction false} LessIrreflexive(a: string)
    ensures !Less(a, a)
  {
    if a != [] {
      LessIrreflexive(a[1..]);
    }
  }

  lemma {:induction false} LessTransitive(a: string, b: string, c: string)
    requires Less(a, b) && Less(b, c)
    ensures Less(a, c)
  {
    if a != [] && a[0] == b[0] && b[0] == c[0] {
      LessTransitive(a[1..], b[1..], c[1..]);
    }
  }

  lemma {:induction false} LessTrichotomous(a: string, b: string)
    ensures a == b || Less(a, b) || Less(b, a)
  {
    if a != [] && b != [] && a[0] == b[0] {
      LessTrichotomous(a[1..], b[1..]);
      if a[1..] == b[1..] {
        assert a == [a[0]] + a[1..] && b == [b[0]] + b[1..];
      }
    }
  }

  lemma LessAsymmetric(a: string, b: string)
    requires Less(a, b)
    ensures !Less(b, a)
  {
    if Less(b, a) {
      LessTransitive(a, b, a);
      LessIrreflexive(a);
    }
  }

  /** `Leq` is a total preorder (indeed a total order), so it is a valid sort order. */
  lemma LeqTotalPreorder()
    ensures TotalPreorder((x: string, y: string) => Leq(x, y))
  {
    forall x: string, y: string
      ensures Leq(x, y) || Leq(y, x)
    {
      if Less(y, x) {
        LessAsymmetric(y, x);
      }
    }
    forall x: string, y: string, z: string | Leq(x, y) && Leq(y, z)
      ensures Leq(x, z)
    {
      if Less(z, x) {
        LessTrichotomous(x, y);
        if Less(x, y) {
          LessTransitive(z, x, y);
        }
      }
    }
  }
}
