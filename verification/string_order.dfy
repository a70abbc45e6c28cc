/** The iteration order of a set of paths: std::string's `<`, which is
    lexicographic on characters with a proper prefix first. */
module StringOrder {

  predicate Less(a: string, b: string)
    decreases |a|
  {
    if |b| == 0 then false
    else if |a| == 0 then true
    else a[0] < b[0] || (a[0] == b[0] && Less(a[1..], b[1..]))
  }

  lemma {:induction false} LessIrreflexive(a: string)
    ensures !Less(a, a)
    decreases |a|
  {
    if |a| > 0 {
      LessIrreflexive(a[1..]);
    }
  }

  lemma {:induction false} LessTransitive(a: string, b: string, c: string)
    requires Less(a, b) && Less(b, c)
    ensures Less(a, c)
    decreases |a|
  {
    if |a| > 0 && a[0] == b[0] && b[0] == c[0] {
      LessTransitive(a[1..], b[1..], c[1..]);
    }
  }

  /** The order in which a std::set of strings is iterated. */
  predicate StrictlySorted(xs: seq<string>) {
    forall i, j :: 0 <= i < j < |xs| ==> Less(xs[i], xs[j])
  }

  function Elements(xs: seq<string>): set<string> {
    set x | x in xs
  }

  lemma SortedTailElements(xs: seq<string>)
    requires StrictlySorted(xs) && |xs| > 0
    ensures StrictlySorted(xs[1..])
    ensures Elements(xs[1..]) == Elements(xs) - {xs[0]}
  {
    forall j | 1 <= j < |xs|
      ensures xs[j] != xs[0]
    {
      LessIrreflexive(xs[0]);
    }
    assert xs == [xs[0]] + xs[1..];
  }

  /** A set has exactly one strictly sorted enumeration. */
  lemma {:induction false} SortedByElements(xs: seq<string>, ys: seq<string>)
    requires StrictlySorted(xs) && StrictlySorted(ys)
    requires Elements(xs) == Elements(ys)
    ensures xs == ys
    decreases |xs|
  {
    if |xs| > 0 {
      assert xs[0] in Elements(ys);
    }
    if |ys| > 0 {
      assert ys[0] in Elements(xs);
    }
    if |xs| > 0 && |ys| > 0 {
      if xs[0] != ys[0] {
        assert ys[0] in Elements(xs);
        var i :| 0 <= i < |xs| && xs[i] == ys[0];
        assert xs[0] in Elements(ys);
        var j :| 0 <= j < |ys| && ys[j] == xs[0];
        assert Less(xs[0], ys[0]) && Less(ys[0], xs[0]);
        LessTransitive(xs[0], ys[0], xs[0]);
        LessIrreflexive(xs[0]);
        assert false;
      }
      SortedTailElements(xs);
      SortedTailElements(ys);
      SortedByElements(xs[1..], ys[1..]);
      assert xs == [xs[0]] + xs[1..] && ys == [ys[0]] + ys[1..];
    }
  }
}
