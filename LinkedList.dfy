/**
 * The list helpers of ch4-exercise3.js. A list is `null` or an object
 * `{value, next}`; here `Nil` or `Node(value, next)`. `Elements` reads a list
 * back as the sequence of its values, in node order, and is what every
 * helper is specified against.
 */
module LinkedList {
  datatype List<T> = Nil | Node(value: T, next: List<T>)

  /** The values of the list's nodes, first node first. */
  function Elements<T>(list: List<T>): seq<T>
  {
    match list
    case Nil => []
    case Node(value, next) => [value] + Elements(next)
  }

  /** The number of nodes. */
  function Length<T>(list: List<T>): (n: nat)
    ensures n == |Elements(list)|
  {
    match list
    case Nil => 0
    case Node(_, next) => 1 + Length(next)
  }

  /** Two lists with the same values are the same list: `Elements` loses nothing. */
  lemma {:induction false} ElementsInjective<T>(a: List<T>, b: List<T>)
    requires Elements(a) == Elements(b)
    ensures a == b
  {
    match a
    case Nil =>
    case Node(v, next) =>
      assert Elements(b) != [];
      assert b.Node? && b.value == Elements(b)[0] == Elements(a)[0] == v;
      assert Elements(next) == Elements(a)[1..] == Elements(b)[1..] == Elements(b.next);
      ElementsInjective(next, b.next);
  }

  /**
   * `arrayToList(array)`: nodes are built from the last element down to the
   * first, each in front of the list built so far.
   */
  method ArrayToList<T>(arr: seq<T>) returns (list: List<T>)
    ensures Elements(list) == arr
    ensures arr == [] <==> list == Nil
  {
    list := Nil;
    var i := |arr| - 1;
    while i >= 0
      invariant -1 <= i < |arr|
      invariant Elements(list) == arr[i + 1..]
    {
      list := Node(arr[i], list);
      i := i - 1;
    }
  }

  /** `listToArray(list)`: walk the nodes from the head, pushing each value. */
  method ListToArray<T>(list: List<T>) returns (arr: seq<T>)
    ensures arr == Elements(list)
    ensures |arr| == Length(list)
  {
    arr := [];
    var node := list;
    while node.Node?
      invariant arr + Elements(node) == Elements(list)
      decreases node
    {
      arr := arr + [node.value];
      node := node.next;
    }
  }

  /** `prepend(value, list)`: a new head node in front of the untouched list. */
  function Prepend<T>(value: T, list: List<T>): (r: List<T>)
    ensures Elements(r) == [value] + Elements(list)
    ensures Length(r) == Length(list) + 1
    ensures r.next == list
  {
    Node(value, list)
  }

  /**
   * `nth(list, n)`: follow `next` n times and read the value. The source
   * reaches `null.value` and throws for an `n` outside the list.
   */
  function Nth<T>(list: List<T>, n: int): (r: T)
    requires 0 <= n < Length(list)
    ensures r == Elements(list)[n]
  {
    if n == 0 then list.value else Nth(list.next, n - 1)
  }

  /** The calls at the end of ch4-exercise3.js, with the results its comments give. */
  method ListExamples() returns (built: List<int>, back: seq<int>, prepended: List<int>, second: int)
    ensures built == Node(10, Node(20, Nil))
    ensures back == [10, 20, 30]
    ensures prepended == Node(10, Node(20, Nil))
    ensures second == 20
  {
    built := ArrayToList([10, 20]);
    ElementsInjective(built, Node(10, Node(20, Nil)));
    var list := ArrayToList([10, 20, 30]);
    back := ListToArray(list);
    prepended := Prepend(10, Prepend(20, Nil));
    second := Nth(list, 1);
  }
}
