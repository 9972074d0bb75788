/**
 * The two string built-ins the exercises lean on: `Array.prototype.join`
 * and `String.prototype.split` on a single separator character, with the
 * facts about them that the table renderer needs.
 */
module Strings {

  /** Sum of a sequence of integers. */
  function Sum(xs: seq<int>): int
  {
    if |xs| == 0 then 0 else xs[0] + Sum(xs[1..])
  }

  /** The lengths of the strings in `parts`, in order. */
  function Lengths(parts: seq<string>): (ls: seq<int>)
    ensures |ls| == |parts|
  {
    seq(|parts|, i requires 0 <= i < |parts| => |parts[i]|)
  }

  /** `parts.join(sep)`: the parts with `sep` between neighbours; `[].join(sep)` is "". */
  function Join(parts: seq<string>, sep: string): string
  {
    if |parts| == 0 then ""
    else if |parts| == 1 then parts[0]
    else parts[0] + sep + Join(parts[1..], sep)
  }

  /** `s.split(sep)`: the maximal runs of `s` between occurrences of `sep`. */
  function Split(s: string, sep: char): (parts: seq<string>)
    ensures |parts| >= 1
    ensures forall i :: 0 <= i < |parts| ==> sep !in parts[i]
  {
    if |s| == 0 then [""]
    else
      var rest := Split(s[1..], sep);
      if s[0] == sep then [""] + rest
      else [[s[0]] + rest[0]] + rest[1..]
  }

  /** The concatenation of a sequence of sequences of strings. */
  function Flatten(xss: seq<seq<string>>): seq<string>
  {
    if |xss| == 0 then [] else xss[0] + Flatten(xss[1..])
  }

  lemma {:induction false} JoinLength(parts: seq<string>, sep: string)
    requires |parts| >= 1
    ensures |Join(parts, sep)| == Sum(Lengths(parts)) + |sep| * (|parts| - 1)
  {
    if |parts| > 1 {
      JoinLength(parts[1..], sep);
      assert Lengths(parts[1..]) == Lengths(parts)[1..];
      assert |sep| * (|parts| - 1) == |sep| * (|parts| - 2) + |sep|;
    }
  }

  /** A character that neither the parts nor the separator contain is not in the join. */
  lemma {:induction false} JoinAvoids(parts: seq<string>, sep: string, c: char)
    requires forall i :: 0 <= i < |parts| ==> c !in parts[i]
    requires c !in sep
    ensures c !in Join(parts, sep)
  {
    if |parts| > 1 {
      JoinAvoids(parts[1..], sep, c);
    }
  }

  /** Joining two non-empty lists is joining their joins. */
  lemma {:induction false} JoinAppend(a: seq<string>, b: seq<string>, sep: string)
    requires |a| >= 1 && |b| >= 1
    ensures Join(a + b, sep) == Join(a, sep) + sep + Join(b, sep)
  {
    if |a| == 1 {
      assert (a + b)[1..] == b;
    } else {
      assert (a + b)[1..] == a[1..] + b;
      JoinAppend(a[1..], b, sep);
    }
  }

  /** Joining the joins of non-empty groups is joining all their members. */
  lemma {:induction false} JoinFlatten(xss: seq<seq<string>>, sep: string)
    requires |xss| >= 1
    requires forall i :: 0 <= i < |xss| ==> |xss[i]| >= 1
    ensures |Flatten(xss)| >= 1
    ensures Join(Flatten(xss), sep) == Join(seq(|xss|, i requires 0 <= i < |xss| => Join(xss[i], sep)), sep)
  {
    var joined := seq(|xss|, i requires 0 <= i < |xss| => Join(xss[i], sep));
    if |xss| == 1 {
      assert Flatten(xss[1..]) == [];
      assert Flatten(xss) == xss[0];
      assert joined == [Join(xss[0], sep)];
    } else {
      JoinFlatten(xss[1..], sep);
      var rest := seq(|xss[1..]|, i requires 0 <= i < |xss[1..]| => Join(xss[1..][i], sep));
      assert joined[1..] == rest;
      JoinAppend(xss[0], Flatten(xss[1..]), sep);
    }
  }

  /** Splitting a separator-free string gives that string alone. */
  lemma {:induction false} SplitWithoutSeparator(s: string, sep: char)
    requires sep !in s
    ensures Split(s, sep) == [s]
  {
    if |s| > 0 {
      SplitWithoutSeparator(s[1..], sep);
      assert [s[0]] + s[1..] == s;
    }
  }

  /** Splitting peels off a separator-free prefix up to the first separator. */
  lemma {:induction false} SplitAfterPrefix(a: string, b: string, sep: char)
    requires sep !in a
    ensures Split(a + [sep] + b, sep) == [a] + Split(b, sep)
  {
    var s := a + [sep] + b;
    if |a| == 0 {
      assert s[1..] == b;
    } else {
      assert s[1..] == a[1..] + [sep] + b;
      SplitAfterPrefix(a[1..], b, sep);
      assert [s[0]] + a[1..] == a;
    }
  }

  /** Splitting undoes joining, when no part holds the separator. */
  lemma {:induction false} SplitJoin(parts: seq<string>, sep: char)
    requires |parts| >= 1
    requires forall i :: 0 <= i < |parts| ==> sep !in parts[i]
    ensures Split(Join(parts, [sep]), sep) == parts
  {
    if |parts| == 1 {
      SplitWithoutSeparator(parts[0], sep);
    } else {
      SplitJoin(parts[1..], sep);
      SplitAfterPrefix(parts[0], Join(parts[1..], [sep]), sep);
      assert parts[0] + [sep] + Join(parts[1..], [sep]) == Join(parts, [sep]);
    }
  }

  /** Joining undoes splitting: the separators come back where they were. */
  lemma {:induction false} JoinSplit(s: string, sep: char)
    ensures Join(Split(s, sep), [sep]) == s
  {
    if |s| > 0 {
      JoinSplit(s[1..], sep);
      var rest := Split(s[1..], sep);
      if s[0] == sep {
        assert ([""] + rest)[1..] == rest;
      } else {
        var parts := [[s[0]] + rest[0]] + rest[1..];
        if |rest| > 1 {
          assert parts[1..] == rest[1..];
        }
      }
    }
  }

  /** A character that no member of any group contains is in no member of the concatenation. */
  lemma {:induction false} FlattenAvoids(xss: seq<seq<string>>, c: char)
    requires forall i, j :: 0 <= i < |xss| && 0 <= j < |xss[i]| ==> c !in xss[i][j]
    ensures forall j :: 0 <= j < |Flatten(xss)| ==> c !in Flatten(xss)[j]
  {
    if |xss| > 0 {
      FlattenAvoids(xss[1..], c);
      assert forall i, j :: 0 <= i < |xss[1..]| && 0 <= j < |xss[1..][i]| ==> xss[1..][i][j] == xss[i + 1][j];
    }
  }
}
