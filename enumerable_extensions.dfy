/** `FirstOrNone` of EnumerableExtensions.cs, modelled as the LINQ chain it is written as:
    `Where(condition)`, `Select` through the implicit lift to `Option<T>`, `DefaultIfEmpty(None.Value)`
    and `First()`. The source sequence is a value here, so it cannot be modified. */
module EnumerableExtensions {
  import opened Options

  /** LINQ `Where`: the elements satisfying the condition, in their original order. */
  function Where<T>(s: seq<T>, condition: T -> bool): (r: seq<T>)
    ensures |r| <= |s|
    ensures forall i :: 0 <= i < |r| ==> condition(r[i])
    ensures forall x :: x in r ==> x in s
  {
    if s == [] then []
    else if condition(s[0]) then [s[0]] + Where(s[1..], condition)
    else Where(s[1..], condition)
  }

  /** LINQ `Select`: the function applied to every element. */
  function Select<T, U>(s: seq<T>, selector: T -> U): (r: seq<U>)
    ensures |r| == |s|
    ensures forall i :: 0 <= i < |s| ==> r[i] == selector(s[i])
  {
    seq(|s|, i requires 0 <= i < |s| => selector(s[i]))
  }

  /** LINQ `DefaultIfEmpty(d)`: the sequence itself, or `[d]` when it is empty. */
  function DefaultIfEmpty<T>(s: seq<T>, d: T): (r: seq<T>)
    ensures |r| > 0
    ensures s != [] ==> r == s
    ensures s == [] ==> r == [d]
  {
    if s == [] then [d] else s
  }

  /** LINQ `First()`. It throws on an empty sequence, but its one use follows `DefaultIfEmpty`, which
      never gives an empty sequence; the precondition states that. */
  function First<T>(s: seq<T>): (r: T)
    requires |s| > 0
    ensures r == s[0]
  {
    s[0]
  }

  /** `FirstOrNone(sequence, condition)`: `Some` of the element at the least index satisfying the
      condition, or `None` exactly when no element satisfies it (so always for an empty sequence). */
  function FirstOrNone<T>(sequence: seq<T>, condition: T -> bool): (r: Option<T>)
    ensures r == None <==> forall i :: 0 <= i < |sequence| ==> !condition(sequence[i])
    ensures r.Some? ==> exists i :: 0 <= i < |sequence| && sequence[i] == r.content
                                    && condition(sequence[i])
                                    && forall j :: 0 <= j < i ==> !condition(sequence[j])
  {
    WhereEmpty(sequence, condition);
    WhereHeadIsFirstMatch(sequence, condition);
    First(DefaultIfEmpty(Select(Where(sequence, condition), LiftValue), LiftNone(NoneValue())))
  }

  /** A non-empty `Where` starts with the element at the least index satisfying the condition. */
  lemma WhereHeadIsFirstMatch<T>(s: seq<T>, condition: T -> bool)
    ensures Where(s, condition) != [] ==>
              exists i :: 0 <= i < |s| && s[i] == Where(s, condition)[0]
                          && condition(s[i])
                          && forall j :: 0 <= j < i ==> !condition(s[j])
  {
    if Where(s, condition) != [] {
      WhereEmpty(s, condition);
      var i := FirstMatch(s, condition);
      WhereStartsAtFirstMatch(s, condition, i);
    }
  }

  /** The first element `Where` keeps is the element at the least index satisfying the condition. */
  lemma {:induction false} WhereStartsAtFirstMatch<T>(s: seq<T>, condition: T -> bool, i: nat)
    requires i < |s| && condition(s[i])
    requires forall j :: 0 <= j < i ==> !condition(s[j])
    ensures |Where(s, condition)| > 0 && Where(s, condition)[0] == s[i]
  {
    if i > 0 {
      assert !condition(s[0]);
      WhereStartsAtFirstMatch(s[1..], condition, i - 1);
    }
  }

  /** `Where` keeps nothing exactly when no element satisfies the condition. */
  lemma {:induction false} WhereEmpty<T>(s: seq<T>, condition: T -> bool)
    ensures Where(s, condition) == [] <==> forall i :: 0 <= i < |s| ==> !condition(s[i])
  {
    if s != [] {
      WhereEmpty(s[1..], condition);
      if !condition(s[0]) {
        forall i | 0 < i < |s| ensures condition(s[i]) == condition(s[1..][i - 1]) { }
      }
    }
  }

  /** If `s[i]` satisfies the condition and no earlier element does, the result is `Some(s[i])`. */
  lemma FirstOrNoneFindsFirstMatch<T>(sequence: seq<T>, condition: T -> bool, i: nat)
    requires i < |sequence| && condition(sequence[i])
    requires forall j :: 0 <= j < i ==> !condition(sequence[j])
    ensures FirstOrNone(sequence, condition) == Some(sequence[i])
  {
    WhereStartsAtFirstMatch(sequence, condition, i);
  }

  /** The least index whose element satisfies the condition, given that one exists. */
  lemma {:induction false} FirstMatch<T>(s: seq<T>, condition: T -> bool) returns (i: nat)
    requires exists k :: 0 <= k < |s| && condition(s[k])
    ensures i < |s| && condition(s[i])
    ensures forall j :: 0 <= j < i ==> !condition(s[j])
  {
    if condition(s[0]) {
      i := 0;
    } else {
      var k :| 0 <= k < |s| && condition(s[k]);
      assert condition(s[1..][k - 1]);
      var i' := FirstMatch(s[1..], condition);
      i := i' + 1;
      forall j | 0 < j < i ensures !condition(s[j]) {
        assert s[j] == s[1..][j - 1];
      }
    }
  }
}
