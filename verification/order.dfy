/**
  * The text ordering the database applies in `ORDER BY` on string columns (code-point order,
  * which is the byte order of their UTF-8 encoding), and the distinct-sorted listings built on it.
  */
module Order {

  /** `a` sorts strictly before `b`. */
  predicate Less(a: string, b: string)
    decreases |a|
  {
    if a == [] then b != []
    else if b == [] then false
    else if a[0] != b[0] then a[0] < b[0]
    else Less(a[1..], b[1..])
  }

  predicate LessEq(a: string, b: string) {
    a == b || Less(a, b)
  }

  lemma {:induction false} LessIrreflexive(a: string)
    ensures !Less(a, a)
    decreases |a|
  {
    if a != [] {
      LessIrreflexive(a[1..]);
    }
  }

  lemma {:induction false} LessTransitive(a: string, b: string, c: string)
    requires Less(a, b) && Less(b, c)
    ensures Less(a, c)
    decreases |a|
  {
    if a != [] && b != [] && c != [] && a[0] == b[0] && b[0] == c[0] {
      LessTransitive(a[1..], b[1..], c[1..]);
    }
  }

  lemma {:induction false} LessTotal(a: string, b: string)
    ensures a == b || Less(a, b) || Less(b, a)
    decreases |a|
  {
    if a != [] && b != [] && a[0] == b[0] {
      LessTotal(a[1..], b[1..]);
      if a[1..] == b[1..] {
        assert a == [a[0]] + a[1..] && b == [b[0]] + b[1..];
      }
    }
  }

  lemma LessAsymmetric(a: string, b: string)
    requires Less(a, b)
    ensures !Less(b, a)
  {
    if Less(b, a) {
      LessTransitive(a, b, a);
      LessIrreflexive(a);
    }
  }

  /** The values that occur in `xs`. */
  function Elems(xs: seq<string>): set<string> {
    set v | v in xs
  }

  /** Strictly increasing: sorted, and no value twice. */
  predicate StrictlySorted(xs: seq<string>) {
    forall i, j | 0 <= i < j < |xs| :: Less(xs[i], xs[j])
  }

  /** Every value of `xs` sorts after `x`. */
  predicate Below(x: string, xs: seq<string>) {
    forall i | 0 <= i < |xs| :: Less(x, xs[i])
  }

  lemma ConsSorted(x: string, xs: seq<string>)
    requires StrictlySorted(xs) && Below(x, xs)
    ensures StrictlySorted([x] + xs)
  {
    var r := [x] + xs;
    forall i, j | 0 <= i < j < |r| ensures Less(r[i], r[j]) {
      if i == 0 {
        assert r[j] == xs[j - 1];
      } else {
        assert r[i] == xs[i - 1] && r[j] == xs[j - 1];
      }
    }
  }

  lemma ElemsCons(x: string, xs: seq<string>)
    ensures Elems([x] + xs) == {x} + Elems(xs)
  {
    var r := [x] + xs;
    forall v | v in Elems(r) ensures v in {x} + Elems(xs) {
      var i :| 0 <= i < |r| && r[i] == v;
      if i > 0 {
        assert xs[i - 1] == v;
      }
    }
    assert r[0] == x;
    forall v | v in Elems(xs) ensures v in Elems(r) {
      var i :| 0 <= i < |xs| && xs[i] == v;
      assert r[i + 1] == v;
    }
  }

  /** A value below the head of a sorted list is below all of it. */
  lemma BelowHead(x: string, xs: seq<string>)
    requires StrictlySorted(xs) && xs != [] && Less(x, xs[0])
    ensures Below(x, xs)
  {
    forall j | 0 < j < |xs| ensures Less(x, xs[j]) {
      LessTransitive(x, xs[0], xs[j]);
    }
  }

  /** Adds `x` to a strictly sorted list unless it is already there. */
  function InsertDistinct(x: string, xs: seq<string>): (r: seq<string>)
    requires StrictlySorted(xs)
    ensures StrictlySorted(r)
    ensures Elems(r) == Elems(xs) + {x}
    decreases |xs|
  {
    if xs == [] then
      ElemsCons(x, []);
      [x]
    else if x == xs[0] then
      ElemsCons(xs[0], xs[1..]);
      assert [xs[0]] + xs[1..] == xs;
      xs
    else if Less(x, xs[0]) then
      BelowHead(x, xs);
      ConsSorted(x, xs);
      ElemsCons(x, xs);
      [x] + xs
    else
      var rest := InsertDistinct(x, xs[1..]);
      InsertDistinctAbove(x, xs, rest);
      [xs[0]] + rest
  }

  /** The recursive case of `InsertDistinct`: the head stays in front of the rest with `x` added. */
  lemma InsertDistinctAbove(x: string, xs: seq<string>, rest: seq<string>)
    requires StrictlySorted(xs) && xs != [] && x != xs[0] && !Less(x, xs[0])
    requires StrictlySorted(rest) && Elems(rest) == Elems(xs[1..]) + {x}
    ensures StrictlySorted([xs[0]] + rest)
    ensures Elems([xs[0]] + rest) == Elems(xs) + {x}
  {
    LessTotal(x, xs[0]);
    forall i | 0 <= i < |rest| ensures Less(xs[0], rest[i]) {
      var v := rest[i];
      assert v in Elems(rest);
      if v != x {
        var j :| 0 <= j < |xs[1..]| && xs[1..][j] == v;
        assert xs[j + 1] == v;
      }
    }
    ConsSorted(xs[0], rest);
    ElemsCons(xs[0], rest);
    ElemsCons(xs[0], xs[1..]);
    assert [xs[0]] + xs[1..] == xs;
  }

  /**
    * `SELECT DISTINCT col ... ORDER BY col` followed by the handlers' `[r for r in rows if r]`:
    * the non-empty values, each once, in ascending order.
    */
  function DistinctSorted(values: seq<string>): (r: seq<string>)
    ensures StrictlySorted(r)
    ensures Elems(r) == Elems(values) - {[]}
  {
    if values == [] then []
    else
      var init := DistinctSorted(values[..|values| - 1]);
      var last := values[|values| - 1];
      assert Elems(values) == Elems(values[..|values| - 1]) + {last} by {
        assert values == values[..|values| - 1] + [last];
      }
      if last == [] then init else InsertDistinct(last, init)
  }

  /** In a strictly sorted list the head sorts before every other element, so it is not repeated. */
  lemma HeadNotInTail(xs: seq<string>)
    requires StrictlySorted(xs) && xs != []
    ensures xs[0] !in Elems(xs[1..])
    ensures Elems(xs[1..]) == Elems(xs) - {xs[0]}
  {
    ElemsCons(xs[0], xs[1..]);
    assert [xs[0]] + xs[1..] == xs;
    if xs[0] in Elems(xs[1..]) {
      var j :| 0 <= j < |xs[1..]| && xs[1..][j] == xs[0];
      assert Less(xs[0], xs[j + 1]);
      LessIrreflexive(xs[0]);
    }
  }

  /** The head of a strictly sorted list is below every value the list holds, except itself. */
  lemma HeadIsLeast(xs: seq<string>, v: string)
    requires StrictlySorted(xs) && v in Elems(xs)
    ensures !Less(v, xs[0])
  {
    var j :| 0 <= j < |xs| && xs[j] == v;
    if j == 0 {
      LessIrreflexive(v);
    } else {
      LessAsymmetric(xs[0], v);
    }
  }

  lemma ElemsEmpty(xs: seq<string>)
    ensures Elems(xs) == {} <==> xs == []
  {
    if xs != [] {
      assert xs[0] in Elems(xs);
    }
  }

  /** A strictly sorted list is fixed by its set of values. */
  lemma {:induction false} StrictlySortedUnique(xs: seq<string>, ys: seq<string>)
    requires StrictlySorted(xs) && StrictlySorted(ys)
    requires Elems(xs) == Elems(ys)
    ensures xs == ys
    decreases |xs|
  {
    ElemsEmpty(xs);
    ElemsEmpty(ys);
    if xs != [] && ys != [] {
      assert xs[0] in Elems(ys) && ys[0] in Elems(xs);
      HeadIsLeast(ys, xs[0]);
      HeadIsLeast(xs, ys[0]);
      LessTotal(xs[0], ys[0]);
      HeadNotInTail(xs);
      HeadNotInTail(ys);
      StrictlySortedUnique(xs[1..], ys[1..]);
      assert xs == [xs[0]] + xs[1..] && ys == [ys[0]] + ys[1..];
    }
  }

  /** The listing depends only on which values occur, not on row order or repetition. */
  lemma DistinctSortedBySet(a: seq<string>, b: seq<string>)
    requires Elems(a) - {[]} == Elems(b) - {[]}
    ensures DistinctSorted(a) == DistinctSorted(b)
  {
    StrictlySortedUnique(DistinctSorted(a), DistinctSorted(b));
  }

  /** Lexicographic order on (name, type) pairs, as `ORDER BY name, type`. */
  predicate PairLessEq(a1: string, a2: string, b1: string, b2: string) {
    Less(a1, b1) || (a1 == b1 && LessEq(a2, b2))
  }

  /** Strict lexicographic order on (name, type) pairs. */
  predicate PairLess(a1: string, a2: string, b1: string, b2: string) {
    Less(a1, b1) || (a1 == b1 && Less(a2, b2))
  }

  lemma PairTotal(a1: string, a2: string, b1: string, b2: string)
    ensures PairLessEq(a1, a2, b1, b2) || PairLess(b1, b2, a1, a2)
  {
    LessTotal(a1, b1);
    LessTotal(a2, b2);
  }

  lemma PairLessEqTransitive(a1: string, a2: string, b1: string, b2: string, c1: string, c2: string)
    requires PairLessEq(a1, a2, b1, b2) && PairLessEq(b1, b2, c1, c2)
    ensures PairLessEq(a1, a2, c1, c2)
  {
    if Less(a1, b1) && Less(b1, c1) {
      LessTransitive(a1, b1, c1);
    } else if Less(a2, b2) && Less(b2, c2) {
      LessTransitive(a2, b2, c2);
    }
  }

  lemma PairLessAsymmetric(a1: string, a2: string, b1: string, b2: string)
    requires PairLess(a1, a2, b1, b2)
    ensures !PairLessEq(b1, b2, a1, a2)
  {
    if Less(a1, b1) {
      LessAsymmetric(a1, b1);
      if a1 == b1 {
        LessIrreflexive(a1);
      }
    } else {
      LessAsymmetric(a2, b2);
      if a2 == b2 {
        LessIrreflexive(a2);
      }
      LessIrreflexive(a1);
    }
  }
}
