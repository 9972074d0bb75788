/**
 * The sequence interface of ch6-exercise3.js: an object that is advanced with
 * `next()`, which answers whether there was another element, and read with
 * `current()`. `ArraySeq` walks an array; `RangeSeq` counts through a range
 * of integers, both ends included. `logFive` prints the first five elements
 * of a sequence, or all of them when there are fewer.
 *
 * Both iterators mutate their own counter, so they are classes. Each has a
 * ghost `Remaining()`: the elements that the calls of `next()` still to come
 * will step onto, in order. Every method is specified by what it does to
 * `Remaining()`. Printing is modelled by returning the printed values.
 */
module Sequences {
  import opened Wrappers

  function Min(a: int, b: int): int
  {
    if a <= b then a else b
  }

  /** `new ArraySeq(array)`: a position into an array, starting before its first element. */
  class ArraySeq<T> {
    var pos: int
    const items: seq<T>

    /** The position is before the first element, or on one of them. */
    ghost predicate Valid()
      reads this
    {
      -1 <= pos < |items|
    }

    /** The elements after the current position. */
    ghost function Remaining(): seq<T>
      reads this
      requires Valid()
    {
      items[pos + 1..]
    }

    constructor(items: seq<T>)
      ensures Valid()
      ensures this.items == items && pos == -1
      ensures Remaining() == items
    {
      this.items := items;
      pos := -1;
    }

    /**
     * `next()`: step onto the following element if there is one; a sequence
     * at its last element stays there.
     */
    method Next() returns (advanced: bool)
      requires Valid()
      modifies this
      ensures Valid()
      ensures advanced <==> old(Remaining()) != []
      ensures pos == if advanced then old(pos) + 1 else old(pos)
      ensures advanced ==> Current() == Some(old(Remaining())[0]) && Remaining() == old(Remaining())[1..]
      ensures !advanced ==> Remaining() == []
    {
      if pos >= |items| - 1 {
        advanced := false;
      } else {
        pos := pos + 1;
        advanced := true;
      }
    }

    /**
     * `current()`: the element at the position. Before the first `next()`
     * the position is -1, where JavaScript reads `undefined`: `None` here.
     */
    function Current(): (value: Option<T>)
      reads this
      ensures value.Some? <==> 0 <= pos < |items|
      ensures value.Some? ==> value.value == items[pos]
    {
      if 0 <= pos < |items| then Some(items[pos]) else None
    }
  }

  /** `new RangeSeq(from, to)`: a counter that `next()` takes from `from` up to `to`. */
  class RangeSeq {
    var from: int
    const to: int

    /** The numbers after the counter, up to and including `to`. */
    ghost function Remaining(): seq<int>
      reads this
    {
      var counter, last := from, to;
      if counter < last then seq(last - counter, i => counter + 1 + i) else []
    }

    /** The counter starts one below `from`, so that the first `next()` lands on `from`. */
    constructor(from: int, to: int)
      ensures this.from == from - 1 && this.to == to
      ensures Remaining() == if from <= to then seq(to - from + 1, i => from + i) else []
    {
      this.from := from - 1;
      this.to := to;
    }

    /** `next()`: count one up unless the counter has reached `to`. */
    method Next() returns (advanced: bool)
      modifies this
      ensures advanced <==> old(Remaining()) != []
      ensures from == if advanced then old(from) + 1 else old(from)
      ensures advanced ==> Current() == old(Remaining())[0] && Remaining() == old(Remaining())[1..]
      ensures !advanced ==> Remaining() == []
    {
      if from >= to {
        advanced := false;
      } else {
        ghost var before := Remaining();
        from := from + 1;
        advanced := true;
        assert forall k :: 0 <= k < |Remaining()| ==> Remaining()[k] == before[1..][k];
      }
    }

    /** `current()`: the counter itself; one below `from` before the first `next()`. */
    function Current(): (value: int)
      reads this
      ensures value == from
    {
      from
    }
  }

  /**
   * `logFive(sequence)` on an ArraySeq: at most five turns, each stepping the
   * sequence on and printing its current element, stopping at the end. The
   * printed values are the first five remaining elements, or all of them, and
   * the sequence is left just after the last one printed.
   */
  method LogFiveArray<T>(sequence: ArraySeq<T>) returns (logged: seq<T>)
    requires sequence.Valid()
    modifies sequence
    ensures sequence.Valid()
    ensures var n := Min(5, |old(sequence.Remaining())|);
      logged == old(sequence.Remaining())[..n] && sequence.Remaining() == old(sequence.Remaining())[n..] &&
      sequence.pos == old(sequence.pos) + n
  {
    ghost var start := sequence.Remaining();
    ghost var p0 := sequence.pos;
    logged := [];
    var i := 0;
    while i < 5
      invariant 0 <= i <= 5 && |logged| == i <= |start|
      invariant sequence.Valid() && sequence.pos == p0 + i
      invariant logged == start[..i] && sequence.Remaining() == start[i..]
    {
      var advanced := sequence.Next();
      if !advanced {
        break;
      }
      logged := logged + [sequence.Current().value];
      i := i + 1;
    }
  }

  /** `logFive(sequence)` on a RangeSeq, with the same promise. */
  method LogFiveRange(sequence: RangeSeq) returns (logged: seq<int>)
    modifies sequence
    ensures var n := Min(5, |old(sequence.Remaining())|);
      logged == old(sequence.Remaining())[..n] && sequence.Remaining() == old(sequence.Remaining())[n..] &&
      sequence.from == old(sequence.from) + n
  {
    ghost var start := sequence.Remaining();
    ghost var f0 := sequence.from;
    logged := [];
    var i := 0;
    while i < 5
      invariant 0 <= i <= 5 && |logged| == i <= |start|
      invariant sequence.from == f0 + i
      invariant logged == start[..i] && sequence.Remaining() == start[i..]
    {
      var advanced := sequence.Next();
      if !advanced {
        break;
      }
      logged := logged + [sequence.Current()];
      i := i + 1;
    }
  }

  /**
   * A fresh ArraySeq driven to its end: `next()` until it answers false,
   * reading `current()` after every successful step. The reads are the
   * array's elements in order, and it takes one call per element plus the
   * final failing one.
   */
  method DrainArray<T>(items: seq<T>) returns (read: seq<T>, calls: nat)
    ensures read == items
    ensures calls == |items| + 1
  {
    var sequence := new ArraySeq(items);
    read, calls := [], 0;
    while true
      invariant sequence.Valid() && read + sequence.Remaining() == items
      invariant calls == |read|
      decreases |sequence.Remaining()|
    {
      var advanced := sequence.Next();
      calls := calls + 1;
      if !advanced {
        break;
      }
      read := read + [sequence.Current().value];
    }
  }

  /**
   * A fresh RangeSeq driven to its end in the same way: the reads are
   * `from, from + 1, …, to`, none when `from > to`.
   */
  method DrainRange(from: int, to: int) returns (read: seq<int>, calls: nat)
    ensures |read| == if from <= to then to - from + 1 else 0
    ensures forall i :: 0 <= i < |read| ==> read[i] == from + i
    ensures calls == |read| + 1
  {
    var sequence := new RangeSeq(from, to);
    ghost var range := sequence.Remaining();
    read, calls := [], 0;
    while true
      invariant read + sequence.Remaining() == range
      invariant calls == |read|
      decreases |sequence.Remaining()|
    {
      var advanced := sequence.Next();
      calls := calls + 1;
      if !advanced {
        break;
      }
      read := read + [sequence.Current()];
    }
    assert read == range;
  }

  /**
   * The two calls at the end of ch6-exercise3.js: `[1, 2]` prints both of its
   * elements, and the range from 100 to 1000 prints 100 to 104.
   */
  method LogFiveExamples() returns (fromArray: seq<int>, fromRange: seq<int>)
    ensures fromArray == [1, 2]
    ensures fromRange == [100, 101, 102, 103, 104]
  {
    var a := new ArraySeq([1, 2]);
    fromArray := LogFiveArray(a);
    var r := new RangeSeq(100, 1000);
    ghost var range := r.Remaining();
    assert range[..5] == [100, 101, 102, 103, 104];
    fromRange := LogFiveRange(r);
  }
}
