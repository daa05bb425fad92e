/** The Python list operations the game uses: `pop()`, `remove(x)` and
    repeated `pop()` from the end of a list. */
module Lists {

  /** `s[-1]` */
  function Last<T>(s: seq<T>): T
    requires s != []
  {
    s[|s| - 1]
  }

  /** `s` after `s.pop()` */
  function DropLast<T>(s: seq<T>): seq<T>
    requires s != []
  {
    s[..|s| - 1]
  }

  /** `s` after `s.remove(x)`: the first occurrence of `x` is dropped; a list
      without `x` is returned as it is (the model never removes a missing
      element). */
  function Removed<T(==)>(s: seq<T>, x: T): (r: seq<T>)
    ensures x !in s ==> r == s
  {
    if s == [] then []
    else if s[0] == x then s[1..]
    else [s[0]] + Removed(s[1..], x)
  }

  /** `remove` takes away exactly one occurrence of an element that is there. */
  lemma {:induction false} RemovedOne<T>(s: seq<T>, x: T)
    requires x in s
    ensures |Removed(s, x)| == |s| - 1
    ensures multiset(Removed(s, x)) == multiset(s) - multiset{x}
  {
    assert s == [s[0]] + s[1..];
    if s[0] != x {
      RemovedOne(s[1..], x);
    }
  }

  /** Removing an element whose first occurrence is at `i` cuts out position `i`. */
  lemma {:induction false} RemovedAt<T>(s: seq<T>, i: nat)
    requires i < |s|
    requires forall j :: 0 <= j < i ==> s[j] != s[i]
    ensures Removed(s, s[i]) == s[..i] + s[i + 1..]
  {
    var x := s[i];
    if i == 0 {
      assert s[..i] + s[i + 1..] == s[1..];
    } else {
      var t := s[1..];
      assert t[i - 1] == x && s[0] != x;
      assert Removed(s, x) == [s[0]] + Removed(t, x);
      forall j | 0 <= j < i - 1
        ensures t[j] != x
      {
        assert t[j] == s[j + 1];
      }
      RemovedAt(t, i - 1);
      assert s[..i] + s[i + 1..] == [s[0]] + (t[..i - 1] + t[i..]);
    }
  }

  /** The cards `n` successive `pop()`s return, in the order they return them. */
  function Popped<T>(s: seq<T>, n: nat): seq<T>
    requires n <= |s|
  {
    seq(n, k requires 0 <= k < n => s[|s| - 1 - k])
  }

  /** One more pop appends the next card from the end. */
  lemma PoppedStep<T>(s: seq<T>, n: nat)
    requires n < |s|
    ensures Popped(s, n + 1) == Popped(s, n) + [s[|s| - 1 - n]]
  {
  }

  /** Popping moves cards and never creates or loses one: the popped cards
      and what is left of the list are together the list. */
  lemma PoppedConserves<T>(s: seq<T>, n: nat)
    requires n <= |s|
    ensures multiset(Popped(s, n)) + multiset(s[..|s| - n]) == multiset(s)
  {
    PoppedSuffix(s, n);
    assert s == s[..|s| - n] + s[|s| - n..];
  }

  /** The popped cards are the last `n` cards of the list. */
  lemma {:induction false} PoppedSuffix<T>(s: seq<T>, n: nat)
    requires n <= |s|
    ensures multiset(Popped(s, n)) == multiset(s[|s| - n..])
  {
    if n > 0 {
      var t, x := DropLast(s), Last(s);
      PoppedSuffix(t, n - 1);
      assert s[|s| - n..] == t[|t| - (n - 1)..] + [x];
      assert Popped(s, n) == [x] + Popped(t, n - 1);
    }
  }
}
