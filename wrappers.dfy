/** Optional values and error-or-value results, shared by every module. */
module Wrappers {

  /** A value that may be absent: a missing dictionary key, a None, a null. */
  datatype Option<+T> = None | Some(value: T) {
    /** The value, or `default` when absent (Python's `d.get(key, default)`). */
    function GetOr(default: T): T {
      match this
      case Some(v) => v
      case None => default
    }
  }

  /** Python's truth value of an optional string: present and non-empty. */
  predicate Truthy<T>(s: Option<seq<T>>) {
    s.Some? && s.value != []
  }

  /** A computation that either returns a value or raises an exception. */
  datatype Attempt<+T> = Returned(value: T) | Raised

  /**
   * A loop that applies `f` to each element in order and appends what it returns;
   * the first exception escapes the loop and nothing is returned.
   */
  function MapAttempt<A, B>(xs: seq<A>, f: A -> Attempt<B>): Attempt<seq<B>>
    decreases |xs|
  {
    if xs == [] then Returned([])
    else match MapAttempt(xs[..|xs| - 1], f)
      case Raised => Raised
      case Returned(init) =>
        match f(xs[|xs| - 1])
        case Raised => Raised
        case Returned(y) => Returned(init + [y])
  }

  /**
   * The loop returns exactly when no element raises, and then returns one result
   * per element, in order.
   */
  lemma {:induction false} MapAttemptMeaning<A, B>(xs: seq<A>, f: A -> Attempt<B>)
    ensures MapAttempt(xs, f).Returned? <==> forall k :: 0 <= k < |xs| ==> f(xs[k]).Returned?
    ensures MapAttempt(xs, f).Returned? ==>
      |MapAttempt(xs, f).value| == |xs| &&
      forall k :: 0 <= k < |xs| ==> MapAttempt(xs, f).value[k] == f(xs[k]).value
    decreases |xs|
  {
    if xs != [] {
      var init := xs[..|xs| - 1];
      MapAttemptMeaning(init, f);
      assert forall k :: 0 <= k < |init| ==> init[k] == xs[k];
    }
  }

  /** One more element: what the loop body does on top of the prefix. */
  lemma MapAttemptStep<A, B>(xs: seq<A>, f: A -> Attempt<B>, i: nat, done: seq<B>)
    requires i < |xs| && MapAttempt(xs[..i], f) == Returned(done)
    ensures MapAttempt(xs[..i + 1], f) ==
      match f(xs[i]) case Raised => Raised case Returned(y) => Returned(done + [y])
  {
    assert xs[..i + 1][..i] == xs[..i];
  }

  /** Once an element raises, the loop has raised whatever follows. */
  lemma {:induction false} MapAttemptRaisedExtends<A, B>(xs: seq<A>, f: A -> Attempt<B>, i: nat)
    requires i <= |xs| && MapAttempt(xs[..i], f).Raised?
    ensures MapAttempt(xs, f).Raised?
    decreases |xs| - i
  {
    if i < |xs| {
      assert xs[..i + 1][..i] == xs[..i];
      MapAttemptRaisedExtends(xs, f, i + 1);
    } else {
      assert xs[..i] == xs;
    }
  }
}
