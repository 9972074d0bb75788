/**
 * The mother/child lookup of ch5-exercise2.js: a `byName` dictionary filled
 * by one pass over the people, a test for whether a person's mother is in
 * it, the difference between a person's birth year and their mother's, and
 * the filter/map pipeline whose result is averaged.
 */
module Mothers {
  import opened Wrappers
  import opened Ancestry

  /** The names of the people, as a set. */
  function Names(people: seq<Person>): set<string>
  {
    set k | 0 <= k < |people| :: people[k].name
  }

  /**
   * `byName` after the `forEach`: every person stored under their name, a
   * later person replacing an earlier one of the same name.
   */
  function ByName(people: seq<Person>): map<string, Person>
  {
    if |people| == 0 then map[]
    else
      var p := people[|people| - 1];
      ByName(people[..|people| - 1])[p.name := p]
  }

  /** The keys of `byName` are exactly the names seen. */
  lemma {:induction false} ByNameKeys(people: seq<Person>)
    ensures ByName(people).Keys == Names(people)
  {
    if |people| > 0 {
      var init := people[..|people| - 1];
      var p := people[|people| - 1];
      ByNameKeys(init);
      forall name | name in Names(people)
        ensures name in Names(init) + {p.name}
      {
        var k :| 0 <= k < |people| && people[k].name == name;
        if k < |init| {
          assert init[k].name == name;
        }
      }
      forall name | name in Names(init)
        ensures name in Names(people)
      {
        var k :| 0 <= k < |init| && init[k].name == name;
        assert people[k].name == name;
      }
    }
  }

  /** Each name in `byName` maps to the last person carrying it. */
  lemma {:induction false} ByNameLast(people: seq<Person>, name: string)
    requires name in ByName(people)
    ensures exists k :: (0 <= k < |people| && people[k] == ByName(people)[name] && people[k].name == name &&
      forall j :: k < j < |people| ==> people[j].name != name)
  {
    var init := people[..|people| - 1];
    var p := people[|people| - 1];
    if name == p.name {
      assert people[|people| - 1] == ByName(people)[name];
    } else {
      ByNameLast(init, name);
      var k :| 0 <= k < |init| && init[k] == ByName(init)[name] && init[k].name == name &&
        (forall j :: k < j < |init| ==> init[j].name != name);
      assert people[k] == ByName(people)[name];
      assert forall j :: k < j < |people| ==> people[j].name != name by {
        assert forall j :: k < j < |init| ==> init[j] == people[j];
      }
    }
  }

  /** `ancestry.forEach(person => byName[person.name] = person)`. */
  method BuildByName(people: seq<Person>) returns (byName: map<string, Person>)
    ensures byName == ByName(people)
  {
    byName := map[];
    var k := 0;
    while k < |people|
      invariant 0 <= k <= |people|
      invariant byName == ByName(people[..k])
    {
      assert people[..k + 1][..k] == people[..k];
      byName := byName[people[k].name := people[k]];
      k := k + 1;
    }
    assert people[..k] == people;
  }

  /** `hasKnownMother(person)`: the person's mother is recorded under her name. */
  predicate HasKnownMother(byName: map<string, Person>, person: Person)
  {
    person.mother.Some? && person.mother.value in byName
  }

  /** Over the dictionary of the whole data set, a mother is known exactly when someone carries her name. */
  lemma KnownMotherInData(people: seq<Person>, person: Person)
    ensures HasKnownMother(ByName(people), person) <==>
      person.mother.Some? && exists k :: 0 <= k < |people| && people[k].name == person.mother.value
  {
    ByNameKeys(people);
  }

  /** `difference(person)`: birth year minus the mother's birth year. */
  function Difference(byName: map<string, Person>, person: Person): (d: int)
    requires HasKnownMother(byName, person)
    ensures byName[person.mother.value].born + d == person.born
  {
    person.born - byName[person.mother.value].born
  }

  /**
   * Over the dictionary of the whole data set, the difference is taken
   * against the last person in the data carrying the mother's name.
   */
  lemma DifferenceInData(people: seq<Person>, person: Person)
    requires HasKnownMother(ByName(people), person)
    ensures exists k :: (0 <= k < |people| && people[k].name == person.mother.value &&
      (forall j :: k < j < |people| ==> people[j].name != person.mother.value) &&
      Difference(ByName(people), person) == person.born - people[k].born)
  {
    ByNameLast(people, person.mother.value);
  }

  /** `ancestry.filter(hasKnownMother)`. */
  function KnownMothers(byName: map<string, Person>, people: seq<Person>): (kept: seq<Person>)
    ensures |kept| <= |people|
    ensures forall p :: p in kept <==> p in people && HasKnownMother(byName, p)
  {
    if |people| == 0 then []
    else
      var init := KnownMothers(byName, people[..|people| - 1]);
      var p := people[|people| - 1];
      assert forall q :: q in people <==> q in people[..|people| - 1] || q == p by {
        assert people == people[..|people| - 1] + [p];
      }
      if HasKnownMother(byName, p) then init + [p] else init
  }

  /** The filter keeps data order: filtering two runs is filtering each, one after the other. */
  lemma {:induction false} KnownMothersAppend(byName: map<string, Person>, a: seq<Person>, b: seq<Person>)
    ensures KnownMothers(byName, a + b) == KnownMothers(byName, a) + KnownMothers(byName, b)
  {
    if |b| > 0 {
      assert (a + b)[..|a + b| - 1] == a + b[..|b| - 1];
      KnownMothersAppend(byName, a, b[..|b| - 1]);
    } else {
      assert a + b == a;
    }
  }

  /** `.map(difference)` over the kept people: one difference per person, in order. */
  function Differences(byName: map<string, Person>, kept: seq<Person>): (ds: seq<int>)
    requires forall k :: 0 <= k < |kept| ==> HasKnownMother(byName, kept[k])
    ensures |ds| == |kept|
    ensures forall k :: 0 <= k < |kept| ==>
      HasKnownMother(byName, kept[k]) && byName[kept[k].mother.value].born + ds[k] == kept[k].born
  {
    seq(|kept|, k requires 0 <= k < |kept| => Difference(byName, kept[k]))
  }

  /**
   * The list that ch5-exercise2.js averages: over the dictionary of the whole
   * data set, the difference of every person whose mother is known, in data
   * order.
   */
  function MotherAgeDifferences(people: seq<Person>): (ds: seq<int>)
    ensures |ds| == |KnownMothers(ByName(people), people)|
  {
    var byName := ByName(people);
    var kept := KnownMothers(byName, people);
    assert forall k :: 0 <= k < |kept| ==> kept[k] in kept;
    Differences(byName, kept)
  }
}
