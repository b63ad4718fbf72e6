/** Sequence helpers used by several modules: flattening a list of lists,
    and grouping a list by a string key held in a Go map. */
module Seqs {

  import opened Wrappers

  /** The concatenation of the inner sequences, in order. */
  function Concat<T>(xss: seq<seq<T>>): seq<T> {
    if xss == [] then [] else Concat(xss[..|xss| - 1]) + xss[|xss| - 1]
  }

  /** The sum of the inner lengths. */
  function TotalLength<T>(xss: seq<seq<T>>): nat {
    if xss == [] then 0 else TotalLength(xss[..|xss| - 1]) + |xss[|xss| - 1]|
  }

  lemma {:induction false} ConcatLength<T>(xss: seq<seq<T>>)
    ensures |Concat(xss)| == TotalLength(xss)
  {
    if xss != [] {
      ConcatLength(xss[..|xss| - 1]);
    }
  }

  /** Concatenation splits at any point: the flatten of a prefix is a prefix of
      the flatten of the whole. */
  lemma {:induction false} ConcatAppend<T>(xss: seq<seq<T>>, yss: seq<seq<T>>)
    ensures Concat(xss + yss) == Concat(xss) + Concat(yss)
  {
    if yss == [] {
      assert xss + yss == xss;
    } else {
      var init, last := yss[..|yss| - 1], yss[|yss| - 1];
      assert (xss + yss)[..|xss + yss| - 1] == xss + init;
      assert (xss + yss)[|xss + yss| - 1] == last;
      ConcatAppend(xss, init);
      calc {
        Concat(xss + yss);
        Concat(xss + init) + last;
        Concat(xss) + Concat(init) + last;
        Concat(xss) + (Concat(init) + last);
      }
    }
  }

  /** Every element of the flatten comes from some inner sequence, and every
      element of an inner sequence appears in the flatten. */
  lemma {:induction false} ConcatMembers<T>(xss: seq<seq<T>>, x: T)
    ensures x in Concat(xss) <==> exists i :: 0 <= i < |xss| && x in xss[i]
  {
    if xss != [] {
      var init := xss[..|xss| - 1];
      ConcatMembers(init, x);
      if x in Concat(init) {
        var i :| 0 <= i < |init| && x in init[i];
        assert xss[i] == init[i];
      }
      if exists i :: 0 <= i < |xss| && x in xss[i] {
        var i :| 0 <= i < |xss| && x in xss[i];
        if i < |init| {
          assert init[i] == xss[i];
        }
      }
    }
  }

  /** The Go loop `for _, x := range xs { r = append(r, x...) }` over the
      inner sequences, starting from an empty non-nil slice. */
  method Flatten<T>(xss: seq<seq<T>>) returns (r: seq<T>)
    ensures r == Concat(xss)
  {
    r := [];
    for i := 0 to |xss|
      invariant r == Concat(xss[..i])
    {
      assert xss[..i + 1][..i] == xss[..i];
      r := r + xss[i];
    }
    assert xss[..|xss|] == xss;
  }

  /** The elements of `xs`, in order, whose key is `key`; the empty key
      selects nothing (callers skip elements whose key could not be read). */
  function WithKey<T>(xs: seq<T>, keyOf: T -> string, key: string): seq<T> {
    if xs == [] then []
    else WithKey(xs[..|xs| - 1], keyOf, key)
         + (if key != "" && keyOf(xs[|xs| - 1]) == key then [xs[|xs| - 1]] else [])
  }

  lemma {:induction false} WithKeyMembers<T>(xs: seq<T>, keyOf: T -> string, key: string, x: T)
    ensures x in WithKey(xs, keyOf, key) <==> x in xs && key != "" && keyOf(x) == key
  {
    if xs != [] {
      WithKeyMembers(xs[..|xs| - 1], keyOf, key, x);
      assert xs == xs[..|xs| - 1] + [xs[|xs| - 1]];
    }
  }

  lemma {:induction false} WithEmptyKey<T>(xs: seq<T>, keyOf: T -> string)
    ensures WithKey(xs, keyOf, "") == []
  {
    if xs != [] {
      WithEmptyKey(xs[..|xs| - 1], keyOf);
    }
  }

  /** `groups` maps each non-empty key occurring in `xs` to its elements in
      order, and holds no other key. */
  ghost predicate IsGrouping<T>(groups: map<string, seq<T>>, xs: seq<T>, keyOf: T -> string) {
    (forall key :: key in groups ==> groups[key] == WithKey(xs, keyOf, key) != [])
    && (forall key :: key !in groups ==> WithKey(xs, keyOf, key) == [])
  }

  /** Appending `x` to its key's group (unless the key is empty) keeps a
      grouping of `xs` a grouping of `xs + [x]`. */
  lemma GroupingAppend<T>(groups: map<string, seq<T>>, xs: seq<T>, keyOf: T -> string, x: T)
    requires IsGrouping(groups, xs, keyOf)
    ensures IsGrouping(
              if keyOf(x) == "" then groups
              else groups[keyOf(x) := (if keyOf(x) in groups then groups[keyOf(x)] else []) + [x]],
              xs + [x], keyOf)
  {
    assert (xs + [x])[..|xs|] == xs;
  }

  /** Builds the Go map from each non-empty key to its elements, appending
      in input order. */
  method GroupByKey<T>(xs: seq<T>, keyOf: T -> string) returns (groups: map<string, seq<T>>)
    ensures IsGrouping(groups, xs, keyOf)
  {
    groups := map[];
    for k := 0 to |xs|
      invariant IsGrouping(groups, xs[..k], keyOf)
    {
      var x := xs[k];
      GroupingAppend(groups, xs[..k], keyOf, x);
      assert xs[..k] + [x] == xs[..k + 1];
      var key := keyOf(x);
      if key == "" {
        continue;
      }
      var group := if key in groups then groups[key] else [];
      groups := groups[key := group + [x]];
    }
    assert xs[..|xs|] == xs;
  }

  /** Flattening a list whose head is `x` puts `x` first. */
  lemma ConcatCons<T>(x: seq<T>, xss: seq<seq<T>>)
    ensures Concat([x] + xss) == x + Concat(xss)
  {
    ConcatAppend([x], xss);
    assert [x][..0] == [];
  }

  // ---- a sequence of calls that stops at the first error ----

  /** The result of calling `call` on each element, in order. */
  function Outcomes<T>(xs: seq<T>, call: T -> Option<string>): (r: seq<Option<string>>)
    ensures |r| == |xs|
  {
    if xs == [] then [] else [call(xs[0])] + Outcomes(xs[1..], call)
  }

  /** Outcome `k` is the call's result on element `k`. */
  lemma {:induction false} OutcomesAt<T>(xs: seq<T>, call: T -> Option<string>)
    ensures forall k :: 0 <= k < |xs| ==> Outcomes(xs, call)[k] == call(xs[k])
  {
    if xs != [] {
      OutcomesAt(xs[1..], call);
      assert forall k :: 1 <= k < |xs| ==> xs[1..][k - 1] == xs[k];
    }
  }

  /** The index of the first error, if any: every outcome before it is a
      success, and `None` means every outcome is a success. */
  function FirstError(outcomes: seq<Option<string>>): (r: Option<nat>)
    ensures r.Some? ==> r.value < |outcomes| && outcomes[r.value].Some?
    ensures r.Some? ==> forall j :: 0 <= j < r.value ==> outcomes[j].None?
    ensures r.None? <==> forall j :: 0 <= j < |outcomes| ==> outcomes[j].None?
  {
    if outcomes == [] then None
    else if outcomes[0].Some? then Some(0)
    else match FirstError(outcomes[1..])
      case Some(k) => Some(k + 1)
      case None => None
  }

  /** Calls that succeed up to `n - 1` and fail there first fail at `n - 1`. */
  lemma {:induction false} StoppedAt<T>(xs: seq<T>, call: T -> Option<string>, n: nat)
    requires 0 < n <= |xs|
    requires forall k :: 0 <= k < n - 1 ==> call(xs[k]).None?
    requires call(xs[n - 1]).Some?
    ensures FirstError(Outcomes(xs, call)) == Some(n - 1)
    ensures Outcomes(xs, call)[n - 1] == call(xs[n - 1])
  {
    if n > 1 {
      StoppedAt(xs[1..], call, n - 1);
    }
  }

  /** Calls that all succeed have no first error. */
  lemma {:induction false} NoneFailed<T>(xs: seq<T>, call: T -> Option<string>)
    requires forall k :: 0 <= k < |xs| ==> call(xs[k]).None?
    ensures FirstError(Outcomes(xs, call)) == None
  {
    if xs != [] {
      NoneFailed(xs[1..], call);
    }
  }
}
