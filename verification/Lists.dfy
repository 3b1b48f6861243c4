/**
  The kernel's linked lists as sequences: no entry twice, and list_del of one entry.
 */
module Lists {
  predicate Distinct(s: seq<nat>) {
    forall i, j :: 0 <= i < j < |s| ==> s[i] != s[j]
  }

  function Remove(s: seq<nat>, x: nat): seq<nat> {
    if s == [] then [] else if s[0] == x then s[1..] else [s[0]] + Remove(s[1..], x)
  }

  lemma TailOf(s: seq<nat>)
    requires s != []
    ensures forall x :: x in s <==> x == s[0] || x in s[1..]
  {
    assert s == [s[0]] + s[1..];
  }

  lemma Tail(s: seq<nat>)
    requires Distinct(s) && s != []
    ensures Distinct(s[1..]) && s[0] !in s[1..] && forall x :: x in s <==> x == s[0] || x in s[1..]
  {
    TailOf(s);
  }

  lemma Append(s: seq<nat>, x: nat)
    requires Distinct(s) && x !in s
    ensures Distinct(s + [x])
  {}

  lemma Prepend(x: nat, s: seq<nat>)
    requires Distinct(s) && x !in s
    ensures Distinct([x] + s)
  {
    var n := [x] + s;
    assert forall i :: 0 < i < |n| ==> n[i] == s[i - 1] && n[i] in s;
  }

  lemma {:induction false} RemoveFacts(s: seq<nat>, x: nat)
    requires Distinct(s)
    ensures Distinct(Remove(s, x)) && forall y :: y in Remove(s, x) <==> y in s && y != x
    decreases |s|
  {
    if s != [] {
      Tail(s);
      if s[0] != x {
        RemoveFacts(s[1..], x);
        Prepend(s[0], Remove(s[1..], x));
      }
    }
  }

  lemma {:induction false} RemoveLength(s: seq<nat>, x: nat)
    ensures |Remove(s, x)| == if x in s then |s| - 1 else |s|
    decreases |s|
  {
    if s != [] && s[0] != x {
      RemoveLength(s[1..], x);
    }
  }

  lemma {:induction false} RemoveAbsent(s: seq<nat>, x: nat)
    requires x !in s
    ensures Remove(s, x) == s
    decreases |s|
  {
    if s != [] {
      RemoveAbsent(s[1..], x);
    }
  }

  // A list with n given entries has at least n.
  lemma {:induction false} AllListed(s: seq<nat>, lo: nat, n: nat)
    requires forall p :: lo <= p < lo + n ==> p in s
    ensures |s| >= n
    decreases n
  {
    if n > 0 {
      var last := lo + n - 1;
      assert last in s;
      var i :| 0 <= i < |s| && s[i] == last;
      var rest := s[..i] + s[i + 1..];
      forall p | lo <= p < last ensures p in rest {
        assert p in s;
        var j :| 0 <= j < |s| && s[j] == p;
        assert rest[if j < i then j else j - 1] == p;
      }
      AllListed(rest, lo, n - 1);
    }
  }
}
