/** The deferred-destruction stack (include/headers/garbage-collector.hpp):
    wrappers are pushed as instances are handed over and all terminated,
    most recent first, on clear. */
module GarbageCollector {

  /** GarbageCollector::Wrapper<T>: owns one instance; terminate() deletes
      the wrapper, whose destructor deletes the instance. */
  datatype Wrapper<T> = Wrapper(instance: T)

  /** The std::stack of wrappers; the top of the stack is the last element. */
  datatype Collector<T> = Collector(stack: seq<Wrapper<T>>)

  function Empty<T>(): (c: Collector<T>)
    ensures |c.stack| == 0
  {
    Collector([])
  }

  /** Wrapper::terminate: the instance the wrapper owned is the one deleted. */
  function Terminate<T>(w: Wrapper<T>): T {
    w.instance
  }

  /** insert: pushes exactly one wrapper around `x` and deletes nothing. */
  function Insert<T>(c: Collector<T>, x: T): (d: Collector<T>)
    ensures |d.stack| == |c.stack| + 1
    ensures d.stack[|c.stack|] == Wrapper(x)
    ensures d.stack[..|c.stack|] == c.stack
  {
    Collector(c.stack + [Wrapper(x)])
  }

  /** Hands over each instance of `xs` in turn. */
  function InsertAll<T>(c: Collector<T>, xs: seq<T>): (d: Collector<T>)
    ensures |d.stack| == |c.stack| + |xs|
    decreases |xs|
  {
    if xs == [] then c else InsertAll(Insert(c, xs[0]), xs[1..])
  }

  /** The instances of a stack, bottom to top. */
  function Instances<T>(stack: seq<Wrapper<T>>): (r: seq<T>)
    ensures |r| == |stack|
    ensures forall i :: 0 <= i < |r| ==> r[i] == stack[i].instance
  {
    if stack == [] then [] else Instances(stack[..|stack| - 1]) + [stack[|stack| - 1].instance]
  }

  /** A reference reversal: the last element first. */
  function Reverse<T>(s: seq<T>): (r: seq<T>)
    ensures |r| == |s|
    ensures forall i :: 0 <= i < |s| ==> r[i] == s[|s| - 1 - i]
  {
    if s == [] then [] else [s[|s| - 1]] + Reverse(s[..|s| - 1])
  }

  /** The order in which clear deletes the instances of `c`: pop the top,
      terminate it, repeat. */
  function DeletionOrder<T>(c: Collector<T>): seq<T>
    decreases |c.stack|
  {
    if c.stack == [] then []
    else [Terminate(c.stack[|c.stack| - 1])] + DeletionOrder(Collector(c.stack[..|c.stack| - 1]))
  }

  /** clear: terminates the top wrapper and pops it until the stack is
      empty; `deleted` lists the instances in the order they were deleted. */
  method Clear<T>(c: Collector<T>) returns (d: Collector<T>, deleted: seq<T>)
    ensures d.stack == []
    ensures |deleted| == |c.stack|
    ensures forall i :: 0 <= i < |deleted| ==> deleted[i] == c.stack[|c.stack| - 1 - i].instance
    ensures deleted == DeletionOrder(c)
  {
    d := c;
    deleted := [];
    while d.stack != []
      invariant |d.stack| + |deleted| == |c.stack|
      invariant d.stack == c.stack[..|d.stack|]
      invariant forall i :: 0 <= i < |deleted| ==> deleted[i] == c.stack[|c.stack| - 1 - i].instance
      decreases |d.stack|
    {
      var top := d.stack[|d.stack| - 1];
      deleted := deleted + [Terminate(top)];
      d := Collector(d.stack[..|d.stack| - 1]);
    }
    DeletionOrderIsLifo(c);
  }

  /** The deletion order is the insertion order reversed (last in, first
      out). */
  lemma {:induction false} DeletionOrderIsLifo<T>(c: Collector<T>)
    ensures DeletionOrder(c) == Reverse(Instances(c.stack))
    decreases |c.stack|
  {
    if c.stack != [] {
      var rest := Collector(c.stack[..|c.stack| - 1]);
      DeletionOrderIsLifo(rest);
      assert Instances(c.stack)[..|c.stack| - 1] == Instances(rest.stack);
    }
  }

  /** Clearing an empty collector deletes nothing. */
  lemma ClearEmptyIsNoOp<T>()
    ensures DeletionOrder(Empty<T>()) == []
  {
  }

  /** Handing over `xs` to an empty collector (as it is after a clear) and
      clearing deletes every instance of `xs` exactly as many times as it
      was handed over, the last one first. */
  lemma InsertedSinceClearDeletedOnce<T>(xs: seq<T>)
    ensures DeletionOrder(InsertAll(Empty(), xs)) == Reverse(xs)
    ensures multiset(DeletionOrder(InsertAll(Empty(), xs))) == multiset(xs)
  {
    InsertAllInstances(Empty(), xs);
    DeletionOrderIsLifo(InsertAll(Empty<T>(), xs));
    ReversePreservesMultiset(xs);
  }

  lemma {:induction false} InsertAllInstances<T>(c: Collector<T>, xs: seq<T>)
    ensures Instances(InsertAll(c, xs).stack) == Instances(c.stack) + xs
    decreases |xs|
  {
    if xs != [] {
      InsertAllInstances(Insert(c, xs[0]), xs[1..]);
      assert Instances(Insert(c, xs[0]).stack) == Instances(c.stack) + [xs[0]];
      assert Instances(c.stack) + [xs[0]] + xs[1..] == Instances(c.stack) + xs;
    }
  }

  lemma {:induction false} ReversePreservesMultiset<T>(s: seq<T>)
    ensures multiset(Reverse(s)) == multiset(s)
    decreases |s|
  {
    if s != [] {
      var init := s[..|s| - 1];
      ReversePreservesMultiset(init);
      assert s == init + [s[|s| - 1]];
      assert Reverse(s) == [s[|s| - 1]] + Reverse(init);
    }
  }
}
