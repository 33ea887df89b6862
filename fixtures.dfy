/** Selection from short literal lists, the shape of every test fixture. */
module Fixtures {
  import opened Seqs

  /** What one element contributes to a selection. */
  function Keep<T>(p: T -> bool, x: T): seq<T> {
    if p(x) then [x] else []
  }

  /** Selection from a literal list of two, three or four elements, one element at a time. */
  lemma Select2<T>(p: T -> bool, a: T, b: T)
    ensures Select(p, [a, b]) == Keep(p, a) + Keep(p, b)
  {
    SelectSnoc(p, [a], b);
    assert [a] + [b] == [a, b];
  }

  lemma Select3<T>(p: T -> bool, a: T, b: T, c: T)
    ensures Select(p, [a, b, c]) == Keep(p, a) + Keep(p, b) + Keep(p, c)
  {
    Select2(p, a, b);
    SelectSnoc(p, [a, b], c);
    assert [a, b] + [c] == [a, b, c];
  }

  lemma Select4<T>(p: T -> bool, a: T, b: T, c: T, d: T)
    ensures Select(p, [a, b, c, d]) == Keep(p, a) + Keep(p, b) + Keep(p, c) + Keep(p, d)
  {
    Select3(p, a, b, c);
    SelectSnoc(p, [a, b, c], d);
    assert [a, b, c] + [d] == [a, b, c, d];
  }
}
