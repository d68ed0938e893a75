/**
 * The three loop shapes that the dialectic runner (dialectic/dialectic.py) and its sampling
 * helpers (dialectic/src/dialectic/sampling.py) repeat, stated once over any item type:
 * - `Until` and `MapAll`: a loop that collects one result per item until the first exception.
 *   These are the conversation loop of `load_test_case` (dialectic.py:79-99) and the step loop
 *   of `run_test_case` (dialectic.py:261-271).
 * - `FilterMap`: a loop that appends a value for the items it accepts and skips the rest. These
 *   are the expected-tools loop (dialectic.py:84-92), the text-block loop of
 *   `_extract_response_text` (sampling.py:159-163) and the reminder loop of
 *   `_read_system_reminders` (sampling.py:188-191).
 * - `Keep`: a loop that keeps the items passing, or failing, a test. These are the
 *   required-phrase and forbidden-phrase loops (dialectic.py:180-194) and the unexpected-tools
 *   loop (dialectic.py:227-230) of `run_conversation_step`.
 */
module Gather {
  import opened Wrappers

  /** The results collected so far, and whether the loop reached its end. */
  datatype Run<T> = Run(done: seq<T>, complete: bool)

  /** The values of `xs` up to the first `None`: the results of a loop that raises at its first failing item
   *  (dialectic.py:79-99, 261-271). */
  function Until<T>(xs: seq<Option<T>>): (r: Run<T>)
    ensures |r.done| <= |xs|
    ensures r.complete ==> |r.done| == |xs|
  {
    if xs == [] then Run([], true)
    else
      var r := Until(xs[..|xs| - 1]);
      if !r.complete then r
      else match xs[|xs| - 1]
        case None => Run(r.done, false)
        case Some(x) => Run(r.done + [x], true)
  }

  /** Once a step raises, later steps add nothing. */
  lemma {:induction false} UntilStop<T>(xs: seq<Option<T>>, k: nat)
    requires k <= |xs|
    requires !Until(xs[..k]).complete
    ensures Until(xs) == Until(xs[..k])
    decreases |xs| - k
  {
    if k < |xs| {
      assert xs[..k + 1][..k] == xs[..k];
      UntilStop(xs, k + 1);
    } else {
      assert xs[..k] == xs;
    }
  }

  /** One more step of a loop that has not raised yet. */
  lemma UntilNext<T>(xs: seq<Option<T>>, k: nat)
    requires k < |xs|
    requires Until(xs[..k]).complete
    ensures Until(xs[..k + 1]) ==
      if xs[k].None? then Run(Until(xs[..k]).done, false) else Run(Until(xs[..k]).done + [xs[k].value], true)
  {
    assert xs[..k + 1][..k] == xs[..k];
  }

  /** The loop runs to its end iff no step raises, and then result `i` is the value of step `i`. */
  lemma {:induction false} UntilPointwise<T>(xs: seq<Option<T>>)
    ensures Until(xs).complete <==> forall i :: 0 <= i < |xs| ==> xs[i].Some?
    ensures Until(xs).complete ==>
      |Until(xs).done| == |xs| && forall i :: 0 <= i < |xs| ==> xs[i] == Some(Until(xs).done[i])
  {
    if xs != [] {
      var init := xs[..|xs| - 1];
      UntilPointwise(init);
      assert forall i :: 0 <= i < |init| ==> init[i] == xs[i];
    }
  }

  /** `f` applied to every item, before `Until` cuts at the first exception (dialectic.py:79-99). */
  function MapAll<A, B>(f: A -> Option<B>, xs: seq<A>): (r: seq<Option<B>>)
    ensures |r| == |xs|
  {
    if xs == [] then [] else [f(xs[0])] + MapAll(f, xs[1..])
  }

  lemma {:induction false} MapAllAt<A, B>(f: A -> Option<B>, xs: seq<A>, i: nat)
    requires i < |xs|
    ensures MapAll(f, xs)[i] == f(xs[i])
  {
    if i > 0 {
      MapAllAt(f, xs[1..], i - 1);
    }
  }

  /** The values of `f(x)` for the items `x` that `f` accepts, in order: a loop whose body appends
   *  under a condition (dialectic.py:84-92, sampling.py:159-163 and 188-191). */
  function FilterMap<A, B>(f: A -> Option<B>, xs: seq<A>): (r: seq<B>)
    ensures |r| <= |xs|
  {
    if xs == [] then []
    else FilterMap(f, xs[..|xs| - 1]) + (match f(xs[|xs| - 1]) case Some(y) => [y] case None => [])
  }

  lemma {:induction false} FilterMapConcat<A, B>(f: A -> Option<B>, xs: seq<A>, ys: seq<A>)
    ensures FilterMap(f, xs + ys) == FilterMap(f, xs) + FilterMap(f, ys)
    decreases |ys|
  {
    if ys != [] {
      var init := ys[..|ys| - 1];
      assert (xs + ys)[..|xs + ys| - 1] == xs + init;
      FilterMapConcat(f, xs, init);
    } else {
      assert xs + ys == xs;
    }
  }

  /** An item `f` rejects adds nothing, wherever it stands. */
  lemma FilterMapSkip<A, B>(f: A -> Option<B>, xs: seq<A>, x: A, ys: seq<A>)
    requires f(x).None?
    ensures FilterMap(f, xs + [x] + ys) == FilterMap(f, xs + ys)
  {
    FilterMapConcat(f, xs + [x], ys);
    FilterMapConcat(f, xs, ys);
    assert (xs + [x])[..|xs + [x]| - 1] == xs;
    assert FilterMap(f, xs + [x]) == FilterMap(f, xs) + [];
    assert FilterMap(f, xs) + [] == FilterMap(f, xs);
  }

  /** When `f` accepts every item, value `i` comes from item `i`. */
  lemma {:induction false} FilterMapPointwise<A, B>(f: A -> Option<B>, xs: seq<A>)
    requires forall i :: 0 <= i < |xs| ==> f(xs[i]).Some?
    ensures |FilterMap(f, xs)| == |xs|
    ensures forall i :: 0 <= i < |xs| ==> f(xs[i]) == Some(FilterMap(f, xs)[i])
  {
    if xs != [] {
      var init := xs[..|xs| - 1];
      assert forall i :: 0 <= i < |init| ==> init[i] == xs[i];
      FilterMapPointwise(f, init);
    }
  }

  /** When `f` accepts no item, nothing is kept. */
  lemma {:induction false} FilterMapNone<A, B>(f: A -> Option<B>, xs: seq<A>)
    requires forall i :: 0 <= i < |xs| ==> f(xs[i]).None?
    ensures FilterMap(f, xs) == []
  {
    if xs != [] {
      var init := xs[..|xs| - 1];
      assert forall i :: 0 <= i < |init| ==> init[i] == xs[i];
      FilterMapNone(f, init);
    }
  }

  /** A value is kept iff some item yields it. */
  lemma {:induction false} FilterMapMembers<A, B>(f: A -> Option<B>, xs: seq<A>, y: B)
    ensures y in FilterMap(f, xs) <==> exists i :: 0 <= i < |xs| && f(xs[i]) == Some(y)
  {
    if xs != [] {
      var init, last := xs[..|xs| - 1], xs[|xs| - 1];
      FilterMapMembers(f, init, y);
      assert forall i :: 0 <= i < |init| ==> init[i] == xs[i];
      var tail: seq<B> := match f(last) case Some(z) => [z] case None => [];
      assert FilterMap(f, xs) == FilterMap(f, init) + tail;
      assert y in tail <==> f(last) == Some(y);
    }
  }

  lemma MultisetSnoc<T>(xs: seq<T>)
    requires xs != []
    ensures multiset(xs) == multiset(xs[..|xs| - 1]) + multiset{xs[|xs| - 1]}
  {
    assert xs == xs[..|xs| - 1] + [xs[|xs| - 1]];
  }

  /** The items whose `test` is `outcome`, in order: a loop that appends an item to one list or
   *  another by a test (dialectic.py:180-194, 227-230). */
  function Keep<T>(test: T -> bool, xs: seq<T>, outcome: bool): (r: seq<T>)
    ensures |r| <= |xs|
    ensures forall i :: 0 <= i < |r| ==> test(r[i]) == outcome
  {
    if xs == [] then []
    else Keep(test, xs[..|xs| - 1], outcome) + (if test(xs[|xs| - 1]) == outcome then [xs[|xs| - 1]] else [])
  }

  lemma {:induction false} KeepMembers<T>(test: T -> bool, xs: seq<T>, outcome: bool)
    ensures forall x :: x in Keep(test, xs, outcome) <==> x in xs && test(x) == outcome
  {
    if xs != [] {
      var init := xs[..|xs| - 1];
      KeepMembers(test, init, outcome);
      assert xs == init + [xs[|xs| - 1]];
    }
  }

  /** The items kept for either outcome are, together, all the items. */
  lemma {:induction false} KeepSplits<T>(test: T -> bool, xs: seq<T>)
    ensures multiset(Keep(test, xs, true)) + multiset(Keep(test, xs, false)) == multiset(xs)
  {
    if xs != [] {
      var init := xs[..|xs| - 1];
      KeepSplits(test, init);
      MultisetSnoc(xs);
    }
  }

  /** Keeping respects input order: it distributes over concatenation. */
  lemma {:induction false} KeepConcat<T>(test: T -> bool, xs: seq<T>, ys: seq<T>, outcome: bool)
    ensures Keep(test, xs + ys, outcome) == Keep(test, xs, outcome) + Keep(test, ys, outcome)
    decreases |ys|
  {
    if ys != [] {
      var init := ys[..|ys| - 1];
      assert (xs + ys)[..|xs + ys| - 1] == xs + init;
      KeepConcat(test, xs, init, outcome);
    } else {
      assert xs + ys == xs;
    }
  }

  /** Nothing is kept for `outcome` iff every item has the other outcome. */
  lemma KeepEmpty<T>(test: T -> bool, xs: seq<T>, outcome: bool)
    ensures Keep(test, xs, outcome) == [] <==> forall x :: x in xs ==> test(x) != outcome
  {
    KeepMembers(test, xs, outcome);
    if Keep(test, xs, outcome) != [] {
      assert Keep(test, xs, outcome)[0] in Keep(test, xs, outcome);
    }
  }
}
