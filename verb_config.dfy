/** Inflection adjacency maps: which inflections a quiz may ask for when it
    shows a given inflection (the helpers `make_bidirectional_verb_config` and
    `make_monodirectional_verb_config` of `controllers/verbquiz.py`). */
module VerbConfig {
  import opened Inflections

  /** A quiz configuration's `"inflections"` entry: for each predicate
      inflection (the form shown), the list of inflections that may be asked for. */
  type Adjacency = map<Inflection, seq<Inflection>>

  /** No inflection occurs twice. */
  predicate Distinct(xs: seq<Inflection>) {
    forall i, j :: 0 <= i < j < |xs| ==> xs[i] != xs[j]
  }

  /** The elements of a list, as a set. */
  function Elements(xs: seq<Inflection>): set<Inflection> {
    set x | x in xs
  }

  /** The comprehension `[x for x in xs if x != drop]`: `xs` in its own order
      with every occurrence of `drop` removed and every other element kept. */
  function Without(xs: seq<Inflection>, drop: Inflection): (r: seq<Inflection>)
    ensures forall y :: y in r <==> y in xs && y != drop
  {
    if xs == [] then []
    else (if xs[0] == drop then [] else [xs[0]]) + Without(xs[1..], drop)
  }

  /** Filtering keeps every other inflection as often as it occurs, and no
      occurrence of `drop`. */
  lemma {:induction false} WithoutCounts(xs: seq<Inflection>, drop: Inflection)
    ensures multiset(Without(xs, drop)) == multiset(xs)[drop := 0]
  {
    if xs != [] {
      var rest := xs[1..];
      WithoutCounts(rest, drop);
      assert xs == [xs[0]] + rest;
      assert multiset(xs) == multiset(rest) + multiset{xs[0]};
      ClearAfterAdd(multiset(rest), xs[0], drop);
      if xs[0] != drop {
        assert multiset(Without(xs, drop)) == multiset{xs[0]} + multiset(Without(rest, drop));
      }
    }
  }

  /** Clearing `drop` from a multiset after adding `x` to it. */
  lemma ClearAfterAdd(m: multiset<Inflection>, x: Inflection, drop: Inflection)
    ensures (m + multiset{x})[drop := 0] == if x == drop then m[drop := 0] else m[drop := 0] + multiset{x}
  {
  }

  /** Filtering works element by element: it distributes over concatenation,
      which with the one-element cases fixes the order of the result. */
  lemma {:induction false} WithoutConcat(a: seq<Inflection>, b: seq<Inflection>, drop: Inflection)
    ensures Without(a + b, drop) == Without(a, drop) + Without(b, drop)
  {
    if a == [] {
      assert a + b == b;
    } else {
      var head := if a[0] == drop then [] else [a[0]];
      assert (a + b)[0] == a[0] && (a + b)[1..] == a[1..] + b;
      calc {
        Without(a + b, drop);
        head + Without(a[1..] + b, drop);
        { WithoutConcat(a[1..], b, drop); }
        head + (Without(a[1..], drop) + Without(b, drop));
        { ConcatAssoc(head, Without(a[1..], drop), Without(b, drop)); }
        (head + Without(a[1..], drop)) + Without(b, drop);
        Without(a, drop) + Without(b, drop);
      }
    }
  }

  /** On one element the filter keeps it exactly when it differs from `drop`;
      with `WithoutConcat` this fixes the result element by element, in the
      input's order. */
  lemma WithoutSingle(x: Inflection, drop: Inflection)
    ensures Without([x], drop) == if x == drop then [] else [x]
  {
    assert [x][1..] == [];
  }

  lemma ConcatAssoc<T>(a: seq<T>, b: seq<T>, c: seq<T>)
    ensures a + (b + c) == (a + b) + c
  {
  }

  /** Filtering out an inflection that does not occur changes nothing; in
      particular filtering twice is the same as filtering once. */
  lemma {:induction false} WithoutAbsent(xs: seq<Inflection>, drop: Inflection)
    requires drop !in xs
    ensures Without(xs, drop) == xs
  {
    if xs != [] {
      WithoutAbsent(xs[1..], drop);
      assert xs == [xs[0]] + xs[1..];
    }
  }

  /** Removing an inflection that occurs exactly once leaves what stood
      before it followed by what stood after it. */
  lemma WithoutOnce(before: seq<Inflection>, drop: Inflection, after: seq<Inflection>)
    requires drop !in before && drop !in after
    ensures Without(before + [drop] + after, drop) == before + after
  {
    calc {
      Without(before + [drop] + after, drop);
    == { WithoutConcat(before + [drop], after, drop); }
      Without(before + [drop], drop) + Without(after, drop);
    == { WithoutConcat(before, [drop], drop); WithoutAbsent(after, drop); }
      Without(before, drop) + Without([drop], drop) + after;
    == { WithoutAbsent(before, drop); assert [drop][1..] == []; }
      before + [] + after;
    == { assert before + [] == before; }
      before + after;
    }
  }

  /** Removing an inflection that occurs once shortens a list by exactly one. */
  lemma WithoutDistinctLength(xs: seq<Inflection>, drop: Inflection)
    requires Distinct(xs) && drop in xs
    ensures |Without(xs, drop)| == |xs| - 1
  {
    var i :| 0 <= i < |xs| && xs[i] == drop;
    assert xs == xs[..i] + [drop] + xs[i + 1..];
    WithoutOnce(xs[..i], drop, xs[i + 1..]);
  }

  /** A list without repetitions has as many distinct elements as it is long. */
  lemma {:induction false} DistinctElementsCount(xs: seq<Inflection>)
    requires Distinct(xs)
    ensures |Elements(xs)| == |xs|
  {
    if xs != [] {
      DistinctElementsCount(xs[1..]);
      assert Elements(xs) == {xs[0]} + Elements(xs[1..]);
      assert xs[0] !in Elements(xs[1..]);
    }
  }

  /** `make_bidirectional_verb_config`: every inflection of the list is a key
      and may be asked for from every other inflection of the list, never
      from itself. */
  function MakeBidirectional(list: seq<Inflection>): (r: Adjacency)
    ensures forall k :: k in r <==> k in list
    ensures forall k, y :: k in r ==> (y in r[k] <==> y in list && y != k)
  {
    map k | k in list :: Without(list, k)
  }

  /** Each target list keeps every other element of the input list as often
      as it occurs there, and drops the key entirely. */
  lemma BidirectionalCounts(list: seq<Inflection>, k: Inflection)
    requires k in list
    ensures k in MakeBidirectional(list)
    ensures multiset(MakeBidirectional(list)[k]) == multiset(list)[k := 0]
  {
    WithoutCounts(list, k);
  }

  /** The relation is symmetric: whenever `b` may be asked for from `a`, `a`
      may be asked for from `b`. */
  lemma BidirectionalSymmetric(list: seq<Inflection>, a: Inflection, b: Inflection)
    requires a in MakeBidirectional(list) && b in MakeBidirectional(list)[a]
    ensures b in MakeBidirectional(list) && a in MakeBidirectional(list)[b]
  {
  }

  /** On a list without repetitions of length n the map has n keys, each with
      n - 1 targets. */
  lemma BidirectionalSizes(list: seq<Inflection>)
    requires Distinct(list)
    ensures |MakeBidirectional(list).Keys| == |list|
    ensures forall k :: k in MakeBidirectional(list) ==> |MakeBidirectional(list)[k]| == |list| - 1
  {
    DistinctElementsCount(list);
    assert MakeBidirectional(list).Keys == Elements(list);
    forall k | k in MakeBidirectional(list)
      ensures |MakeBidirectional(list)[k]| == |list| - 1
    {
      WithoutDistinctLength(list, k);
    }
  }

  /** `make_monodirectional_verb_config`: every inflection of `from` is a key
      and maps to `to` unchanged; a key that also occurs in `to` keeps its
      self-loop, because nothing is filtered here. */
  function MakeMonodirectional(from: seq<Inflection>, to: seq<Inflection>): (r: Adjacency)
    ensures forall k :: k in r <==> k in from
    ensures forall k :: k in r ==> r[k] == to
    ensures forall k :: k in r ==> (k in r[k] <==> k in to)
  {
    map k | k in from :: to
  }

  /** A configuration from which a question can always be made: it has a key,
      and no key's targets are all the key itself. */
  predicate Answerable(adj: Adjacency) {
    && adj != map[]
    && forall k :: k in adj ==> Without(adj[k], k) != []
  }
}
