/**
 * The generics exercise: first/last element helpers, a generic
 * last-in-first-out `Stack`, and the first-match search over records that
 * carry a numeric identifier.
 */
module Generics {
  import opened Wrappers
  import opened Seqs

  /** The first element, or `None` for an empty sequence. */
  function GetFirst<T>(s: seq<T>): (r: Option<T>)
    ensures r.None? <==> |s| == 0
    ensures r.Some? ==> r.value == s[0]
  {
    if |s| > 0 then Some(s[0]) else None
  }

  /** The last element, or `None` for an empty sequence. */
  function GetLast<T>(s: seq<T>): (r: Option<T>)
    ensures r.None? <==> |s| == 0
    ensures r.Some? ==> r.value == s[|s| - 1]
  {
    if |s| > 0 then Some(s[|s| - 1]) else None
  }

  /** Appending an element makes it the last one, whatever came before. */
  lemma LastOfAppend<T>(s: seq<T>, x: T)
    ensures GetLast(s + [x]) == Some(x)
    ensures GetFirst(s + [x]) == if s == [] then Some(x) else GetFirst(s)
  {
  }

  /** A last-in-first-out container; the end of `items` is the top. */
  class Stack<T> {
    var items: seq<T>

    /** A new stack holds nothing. */
    constructor ()
      ensures items == []
      ensures IsEmpty()
    {
      items := [];
    }

    /** Places `item` on top of the stack. */
    method Push(item: T)
      modifies this
      ensures items == old(items) + [item]
      ensures Peek() == Some(item) && !IsEmpty()
    {
      LastOfAppend(items, item);
      items := items + [item];
    }

    /**
     * Removes and returns the top element. On an empty stack it returns
     * `None` and the stack stays empty.
     */
    method Pop() returns (r: Option<T>)
      modifies this
      ensures r == old(Peek())
      ensures old(items) == [] ==> items == []
      ensures old(items) != [] ==> items == old(items)[..|old(items)| - 1]
    {
      if |items| > 0 {
        r := Some(items[|items| - 1]);
        items := items[..|items| - 1];
      } else {
        r := None;
      }
    }

    /** The top element without removing it: the value `Pop` would return. */
    function Peek(): (r: Option<T>)
      reads this
      ensures r == GetLast(items)
      ensures r.None? <==> IsEmpty()
    {
      if |items| > 0 then Some(items[|items| - 1]) else None
    }

    /** True exactly when the stack holds no element. */
    function IsEmpty(): (b: bool)
      reads this
      ensures b <==> items == []
    {
      |items| == 0
    }
  }

  /**
   * Pushing every element of `xs` onto a fresh stack and then popping
   * `|xs|` times: every pop yields a value, the values come out in reverse
   * order, and the stack is empty after the last pop (last in, first out).
   */
  method PushAllThenPopAll<T>(xs: seq<T>) returns (popped: seq<Option<T>>, emptyAtEnd: bool)
    ensures |popped| == |xs|
    ensures forall k :: 0 <= k < |xs| ==> popped[k] == Some(Reversed(xs)[k])
    ensures emptyAtEnd
  {
    var stack := new Stack<T>();
    for i := 0 to |xs|
      invariant stack.items == xs[..i]
    {
      stack.Push(xs[i]);
    }
    assert xs[..|xs|] == xs;
    popped := [];
    ghost var values: seq<T> := [];
    for i := 0 to |xs|
      invariant |stack.items| == |xs| - i
      invariant |values| == |popped| == i
      invariant forall k :: 0 <= k < i ==> popped[k] == Some(values[k])
      invariant values + Reversed(stack.items) == Reversed(xs)
    {
      var top := stack.Pop();
      popped := popped + [top];
      values := values + [top.value];
    }
    emptyAtEnd := stack.IsEmpty();
  }

  /** The number-stack scenario: push 1, 2, 3; two pops give 3 then 2 and leave [1]. */
  method NumberStackScenario() returns (first: Option<int>, second: Option<int>, left: seq<int>)
    ensures first == Some(3) && second == Some(2) && left == [1]
  {
    var stack := new Stack<int>();
    stack.Push(1);
    stack.Push(2);
    stack.Push(3);
    assert stack.items == [1, 2, 3];
    first := stack.Pop();
    assert stack.items == [1, 2];
    second := stack.Pop();
    left := stack.items;
    assert left == [1];
  }

  /**
   * Draining a stack that holds only 1: peek gives 1 and leaves it in place,
   * pop gives 1, and a pop on the now empty stack gives `None`.
   */
  method DrainScenario() returns (top: Option<int>, last: Option<int>, afterEmpty: Option<int>, empty: bool)
    ensures top == Some(1) && last == Some(1) && afterEmpty == None && empty
  {
    var stack := new Stack<int>();
    stack.Push(1);
    top := stack.Peek();
    last := stack.Pop();
    afterEmpty := stack.Pop();
    empty := stack.IsEmpty();
  }

  /** The string-stack scenario: after pushing "hello" and "world", peek and pop both give "world". */
  method StringStackScenario() returns (peeked: Option<string>, popped: Option<string>, left: seq<string>)
    ensures peeked == Some("world") && popped == Some("world") && left == ["hello"]
  {
    var stack := new Stack<string>();
    stack.Push("hello");
    stack.Push("world");
    peeked := stack.Peek();
    popped := stack.Pop();
    left := stack.items;
    assert left == ["hello"];
  }

  /** Index `i` holds the first record of `s` whose identifier is `id`. */
  ghost predicate IsFirstMatch<T>(s: seq<T>, idOf: T -> int, id: int, i: int)
  {
    0 <= i < |s| && idOf(s[i]) == id &&
    forall j :: 0 <= j < i ==> idOf(s[j]) != id
  }

  /**
   * The first record of `s` whose identifier equals `id`, or `None` when no
   * record has it. `idOf` reads the identifier field that the `Identifiable`
   * constraint guarantees.
   */
  function FindById<T>(s: seq<T>, idOf: T -> int, id: int): (r: Option<T>)
    ensures r.None? <==> forall i :: 0 <= i < |s| ==> idOf(s[i]) != id
    ensures r.Some? ==> exists i :: IsFirstMatch(s, idOf, id, i) && s[i] == r.value
  {
    if s == [] then None
    else if idOf(s[0]) == id then
      assert IsFirstMatch(s, idOf, id, 0);
      Some(s[0])
    else
      var r := FindById(s[1..], idOf, id);
      assert r.Some? ==> exists i :: IsFirstMatch(s, idOf, id, i) && s[i] == r.value by {
        if r.Some? {
          var i :| IsFirstMatch(s[1..], idOf, id, i) && s[1..][i] == r.value;
          assert IsFirstMatch(s, idOf, id, i + 1);
        }
      }
      r
  }

  /** Searching a concatenation finds a match in the first part before looking at the second. */
  lemma {:induction false} FindByIdAppend<T>(a: seq<T>, b: seq<T>, idOf: T -> int, id: int)
    ensures FindById(a + b, idOf, id) ==
            if FindById(a, idOf, id).Some? then FindById(a, idOf, id) else FindById(b, idOf, id)
    decreases |a|
  {
    if a == [] {
      assert a + b == b;
    } else {
      assert (a + b)[1..] == a[1..] + b;
      FindByIdAppend(a[1..], b, idOf, id);
    }
  }

  /** A record with an identifier and a name, like the users and products of the exercise. */
  datatype Entry = Entry(id: int, name: string)

  function EntryId(e: Entry): int { e.id }

  /**
   * Identifiers [1, 2, 3]: asking for 2 finds the record with identifier 2,
   * asking for 99 finds nothing; with identifier 5 at positions 0 and 2 the
   * earlier record wins; the empty collection never matches.
   */
  lemma FindByIdExamples(id: int)
    ensures FindById([Entry(1, "a"), Entry(2, "b"), Entry(3, "c")], EntryId, 2) == Some(Entry(2, "b"))
    ensures FindById([Entry(1, "a"), Entry(2, "b"), Entry(3, "c")], EntryId, 99) == None
    ensures FindById([Entry(5, "x"), Entry(6, "y"), Entry(5, "z")], EntryId, 5) == Some(Entry(5, "x"))
    ensures FindById([], EntryId, id) == None
  {
  }
}
