/**
 * The grouping helpers of ch5-exercise3.js: the century each person died in,
 * the distinct centuries in first-seen order and then reversed in place, each
 * person's age, `zip`, and the nested loop of `ageGroupedByCentury` that
 * gathers the ages of one century. The loop is modelled up to the list it
 * hands to `average`; the map it returns sends each century to that list.
 */
module Centuries {
  import opened Ancestry

  // ---------------------------------------------------------------------------
  // Centuries and ages
  // ---------------------------------------------------------------------------

  /**
   * `Math.ceil(died / 100)`. For a whole year, rounding `(died + 99) / 100`
   * down is rounding `died / 100` up; Dafny's `/` rounds down for a
   * positive divisor, negative years included.
   */
  function Century(died: int): (c: int)
    ensures 100 * (c - 1) < died <= 100 * c
  {
    (died + 99) / 100
  }

  /** `ancestry.map(person => Math.ceil(person.died / 100))`. */
  function Centuries(people: seq<Person>): (centuries: seq<int>)
    ensures |centuries| == |people|
    ensures forall k :: 0 <= k < |people| ==>
      100 * (centuries[k] - 1) < people[k].died <= 100 * centuries[k]
  {
    seq(|people|, k requires 0 <= k < |people| => Century(people[k].died))
  }

  /** `ancestry.map(person => person.died - person.born)`. */
  function Ages(people: seq<Person>): (ages: seq<int>)
    ensures |ages| == |people|
    ensures forall k :: 0 <= k < |people| ==> people[k].born + ages[k] == people[k].died
  {
    seq(|people|, k requires 0 <= k < |people| => people[k].died - people[k].born)
  }

  // ---------------------------------------------------------------------------
  // Distinct centuries, then reversed
  // ---------------------------------------------------------------------------

  /** No value occurs twice. */
  predicate NoDuplicates(xs: seq<int>)
  {
    forall i, j :: 0 <= i < j < |xs| ==> xs[i] != xs[j]
  }

  /**
   * The `groupedCenturies` reduce as a function: each element is appended
   * unless the list built so far already holds it.
   */
  function Distinct(xs: seq<int>): (r: seq<int>)
    ensures NoDuplicates(r)
    ensures forall x :: x in r <==> x in xs
  {
    if |xs| == 0 then []
    else
      var d := Distinct(xs[..|xs| - 1]);
      assert forall x :: x in xs <==> x in xs[..|xs| - 1] || x == xs[|xs| - 1] by {
        assert xs == xs[..|xs| - 1] + [xs[|xs| - 1]];
      }
      if xs[|xs| - 1] in d then d else d + [xs[|xs| - 1]]
  }

  /** The index of the first occurrence of `x` in `xs`. */
  function FirstIndex(xs: seq<int>, x: int): (i: nat)
    requires x in xs
    ensures i < |xs| && xs[i] == x
    ensures forall j :: 0 <= j < i ==> xs[j] != x
  {
    if xs[0] == x then 0 else 1 + FirstIndex(xs[1..], x)
  }

  /** `Distinct` keeps values in the order of their first occurrence. */
  lemma {:induction false} DistinctOrder(xs: seq<int>, i: int, j: int)
    requires 0 <= i < j < |Distinct(xs)|
    ensures FirstIndex(xs, Distinct(xs)[i]) < FirstIndex(xs, Distinct(xs)[j])
  {
    var d := Distinct(xs);
    var init := xs[..|xs| - 1];
    var last := xs[|xs| - 1];
    var di := Distinct(init);
    assert xs == init + [last];
    FirstIndexPrefix(init, last, d[i]);
    FirstIndexPrefix(init, last, d[j]);
    if j < |di| {
      DistinctOrder(init, i, j);
    } else {
      assert d[j] == last && last !in init;
      assert d[i] == di[i] && di[i] in init;
    }
  }

  /** The first occurrence of a value of `xs` stays where it is when `xs` grows. */
  lemma {:induction false} FirstIndexPrefix(xs: seq<int>, y: int, x: int)
    requires x in xs + [y]
    ensures x in xs ==> FirstIndex(xs + [y], x) == FirstIndex(xs, x)
    ensures x !in xs ==> FirstIndex(xs + [y], x) == |xs|
  {
    if xs != [] && xs[0] != x {
      assert (xs + [y])[1..] == xs[1..] + [y];
      FirstIndexPrefix(xs[1..], y, x);
    }
  }

  /**
   * The `groupedCenturies` reduce: walk the centuries, pushing each one the
   * accumulator does not yet contain (`a.indexOf(b) < 0`).
   */
  method GroupCenturies(centuries: seq<int>) returns (grouped: seq<int>)
    ensures grouped == Distinct(centuries)
  {
    grouped := [];
    var k := 0;
    while k < |centuries|
      invariant 0 <= k <= |centuries|
      invariant grouped == Distinct(centuries[..k])
    {
      assert centuries[..k + 1][..k] == centuries[..k];
      if centuries[k] !in grouped {
        grouped := grouped + [centuries[k]];
      }
      k := k + 1;
    }
    assert centuries[..k] == centuries;
  }

  /** The sequence read back to front. */
  function Reversed<T>(s: seq<T>): (r: seq<T>)
    ensures |r| == |s|
  {
    seq(|s|, i requires 0 <= i < |s| => s[|s| - 1 - i])
  }

  /** Reading back to front twice gives the sequence back. */
  lemma ReversedTwice<T>(s: seq<T>)
    ensures Reversed(Reversed(s)) == s
  {
  }

  /** Reversing keeps exactly the same elements, as often as before. */
  lemma {:induction false} ReversedSameElements<T>(s: seq<T>)
    ensures multiset(Reversed(s)) == multiset(s)
  {
    if s != [] {
      var r := Reversed(s);
      assert r == [s[|s| - 1]] + Reversed(s[..|s| - 1]);
      ReversedSameElements(s[..|s| - 1]);
      assert s == s[..|s| - 1] + [s[|s| - 1]];
    }
  }

  /** `groupedCenturies.reverse()`: swap the ends towards the middle, in place. */
  method ReverseInPlace<T>(a: array<T>)
    modifies a
    ensures a[..] == Reversed(old(a[..]))
  {
    var i, j := 0, a.Length - 1;
    while i < j
      invariant 0 <= i <= a.Length && j == a.Length - 1 - i
      invariant i <= j + 1
      invariant forall k :: 0 <= k < i ==> a[k] == old(a[a.Length - 1 - k]) && a[a.Length - 1 - k] == old(a[k])
      invariant forall k :: i <= k <= j ==> a[k] == old(a[k])
    {
      a[i], a[j] := a[j], a[i];
      i, j := i + 1, j - 1;
    }
  }

  // ---------------------------------------------------------------------------
  // zip
  // ---------------------------------------------------------------------------

  /**
   * `args.reduce((a, b) => a.length < b.length ? a : b)`: the shortest
   * argument; on a tie the later one, since `<` does not hold.
   */
  function Shortest<T>(args: seq<seq<T>>): (s: seq<T>)
    requires |args| >= 1
    ensures s in args
    ensures forall k :: 0 <= k < |args| ==> |s| <= |args[k]|
  {
    if |args| == 1 then args[0]
    else
      var a := Shortest(args[..|args| - 1]);
      var b := args[|args| - 1];
      assert forall k :: 0 <= k < |args| - 1 ==> args[..|args| - 1][k] == args[k];
      if |a| < |b| then a else b
  }

  /**
   * `zip(...args)`: as many tuples as the shortest argument has elements,
   * tuple `i` holding element `i` of every argument in argument order; none
   * for no arguments.
   */
  function Zip<T>(args: seq<seq<T>>): (tuples: seq<seq<T>>)
    ensures |args| == 0 ==> tuples == []
    ensures forall k :: 0 <= k < |args| ==> |tuples| <= |args[k]|
    ensures |args| > 0 ==> exists k :: 0 <= k < |args| && |tuples| == |args[k]|
    ensures forall i :: 0 <= i < |tuples| ==> |tuples[i]| == |args|
    ensures forall i, k :: 0 <= i < |tuples| && 0 <= k < |args| ==> |tuples| <= |args[k]| && tuples[i][k] == args[k][i]
  {
    if |args| == 0 then []
    else
      var shortest := Shortest(args);
      seq(|shortest|, i requires 0 <= i < |shortest| =>
        seq(|args|, k requires 0 <= k < |args| => args[k][i]))
  }

  // ---------------------------------------------------------------------------
  // Gathering the ages of one century
  // ---------------------------------------------------------------------------

  /** What `ageGroupedByCentury` reads of a grouping: a first and a second component. */
  predicate Pairs(groupings: seq<seq<int>>)
  {
    forall j :: 0 <= j < |groupings| ==> |groupings[j]| >= 2
  }

  /**
   * The inner loop's `temp`: the second components of the groupings whose
   * first component is `century`, in grouping order.
   */
  function Collect(groupings: seq<seq<int>>, century: int): seq<int>
    requires Pairs(groupings)
  {
    if |groupings| == 0 then []
    else
      var last := groupings[|groupings| - 1];
      Collect(groupings[..|groupings| - 1], century) + if last[0] == century then [last[1]] else []
  }

  /** A value is gathered exactly when some grouping of that century carries it. */
  lemma {:induction false} CollectMembers(groupings: seq<seq<int>>, century: int, x: int)
    requires Pairs(groupings)
    ensures x in Collect(groupings, century) <==>
      exists j :: 0 <= j < |groupings| && groupings[j][0] == century && groupings[j][1] == x
  {
    if |groupings| > 0 {
      var init := groupings[..|groupings| - 1];
      CollectMembers(init, century, x);
      assert forall j :: 0 <= j < |init| ==> init[j] == groupings[j];
    }
  }

  /** Gathering over two runs of groupings is gathering over each, in order. */
  lemma {:induction false} CollectAppend(g1: seq<seq<int>>, g2: seq<seq<int>>, century: int)
    requires Pairs(g1) && Pairs(g2)
    ensures Pairs(g1 + g2)
    ensures Collect(g1 + g2, century) == Collect(g1, century) + Collect(g2, century)
  {
    var g := g1 + g2;
    if |g2| > 0 {
      assert g[..|g| - 1] == g1 + g2[..|g2| - 1];
      CollectAppend(g1, g2[..|g2| - 1], century);
    } else {
      assert g == g1;
    }
  }

  /** The ages of the people who died in `century`, in data order. */
  function AgesDiedIn(people: seq<Person>, century: int): seq<int>
  {
    if |people| == 0 then []
    else
      var p := people[|people| - 1];
      AgesDiedIn(people[..|people| - 1], century) + if Century(p.died) == century then [p.died - p.born] else []
  }

  /**
   * With `groupings = zip(centuries, ages)`, gathering a century gives the
   * ages of exactly the people who died in it, in data order.
   */
  lemma GroupingsOfPeople(people: seq<Person>, century: int)
    ensures Pairs(Zip([Centuries(people), Ages(people)]))
    ensures Collect(Zip([Centuries(people), Ages(people)]), century) == AgesDiedIn(people, century)
  {
    var g := Zip([Centuries(people), Ages(people)]);
    assert |g| == |people| by {
      assert |g| <= |Centuries(people)| && |g| <= |Ages(people)|;
    }
    CollectPeople(g, people, century);
  }

  /** The induction behind GroupingsOfPeople, over groupings built one person at a time. */
  lemma {:induction false} CollectPeople(g: seq<seq<int>>, people: seq<Person>, century: int)
    requires |g| == |people|
    requires forall j :: 0 <= j < |g| ==>
      |g[j]| == 2 && g[j][0] == Century(people[j].died) && g[j][1] == people[j].died - people[j].born
    ensures Pairs(g) && Collect(g, century) == AgesDiedIn(people, century)
  {
    if |g| > 0 {
      CollectPeople(g[..|g| - 1], people[..|people| - 1], century);
    }
  }

  /**
   * The loops of `ageGroupedByCentury`, up to the list each century's
   * average is taken of: for each century of `groupedCenturies`, gather
   * `groupings[j][1]` of every grouping whose `groupings[j][0]` is that
   * century, and store the list under the century.
   */
  method AgeGroupedByCentury(groupings: seq<seq<int>>, groupedCenturies: seq<int>)
    returns (result: map<int, seq<int>>)
    requires Pairs(groupings)
    ensures result.Keys == set c | c in groupedCenturies
    ensures forall c :: c in result ==> result[c] == Collect(groupings, c)
  {
    result := map[];
    var i := 0;
    while i < |groupedCenturies|
      invariant 0 <= i <= |groupedCenturies|
      invariant result.Keys == set c | c in groupedCenturies[..i]
      invariant forall c :: c in result ==> result[c] == Collect(groupings, c)
    {
      var temp := [];
      var j := 0;
      while j < |groupings|
        invariant 0 <= j <= |groupings|
        invariant temp == Collect(groupings[..j], groupedCenturies[i])
      {
        assert groupings[..j + 1][..j] == groupings[..j];
        if groupings[j][0] == groupedCenturies[i] {
          temp := temp + [groupings[j][1]];
        }
        j := j + 1;
      }
      assert groupings[..j] == groupings;
      var currentCentury := groupedCenturies[i];
      result := result[currentCentury := temp];
      assert groupedCenturies[..i + 1] == groupedCenturies[..i] + [groupedCenturies[i]];
      i := i + 1;
    }
    assert groupedCenturies[..i] == groupedCenturies;
  }
}
