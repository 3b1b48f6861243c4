/**
  add_timer, del_timer and run_timer_list on the list itself.
 */
module TimerList {
  import opened Timers

  const LIMIT: nat := 0x1_0000_0000

  predicate Bounded(a: Agenda) {
    forall i :: 0 <= i < |a| ==> a[i].left < LIMIT
  }

  lemma {:induction false} AddStep(list: seq<Timer>, i: nat, t: Timer)
    requires i < |list| && t.expires >= list[i].expires
    ensures list[..i] + Add(list[i..], t) ==
              list[..i + 1] + Add(list[i + 1..], t.(expires := t.expires - list[i].expires))
  {
    assert list[i..][1..] == list[i + 1..];
    assert list[..i + 1] == list[..i] + [list[i]];
  }

  lemma {:induction false} AddStops(list: seq<Timer>, i: nat, t: Timer)
    requires i < |list| && t.expires < list[i].expires
    ensures var cut := list[i := list[i].(expires := list[i].expires - t.expires)];
            cut[..i] + [t] + cut[i..] == list[..i] + Add(list[i..], t)
  {}

  lemma AddLast(list: seq<Timer>, t: Timer)
    ensures list[..|list|] + [t] + list[|list|..] == list[..|list|] + Add(list[|list|..], t)
  {}

  lemma {:induction false} DeleteAt(list: seq<Timer>, i: nat, id: nat)
    requires i < |list| && list[i].id == id && forall j :: 0 <= j < i ==> list[j].id != id
    ensures i + 1 == |list| ==> Delete(list, id) == list[..i]
    ensures i + 1 < |list| ==>
              Delete(list, id) ==
                list[..i] + [list[i + 1].(expires := list[i + 1].expires + list[i].expires)] + list[i + 2..]
    decreases i
  {
    if i > 0 {
      DeleteAt(list[1..], i - 1, id);
      assert list[..i] == [list[0]] + list[1..][..i - 1];
      assert i + 1 < |list| ==> list[1..][i] == list[i + 1] && list[1..][i + 1..] == list[i + 2..];
    }
  }

  lemma {:induction false} DeleteAbsent(list: seq<Timer>, id: nat)
    requires forall j :: 0 <= j < |list| ==> list[j].id != id
    ensures Delete(list, id) == list
  {
    if list != [] {
      DeleteAbsent(list[1..], id);
    }
  }

  lemma {:induction false} SameIds(list: seq<Timer>, base: nat, i: nat)
    requires i < |list|
    ensures DuesAfter(list, base)[i].id == list[i].id && DuesAfter(list, base)[i].proc == list[i].proc
    ensures DuesAfter(list, base)[i].left >= list[i].expires
    ensures i + 1 < |list| ==> DuesAfter(list, base)[i + 1].left == DuesAfter(list, base)[i].left + list[i + 1].expires
    decreases |list|
  {
    if i > 0 {
      SameIds(list[1..], base + list[0].expires, i - 1);
    }
  }

  class TimerQueue {
    var list: seq<Timer>

    constructor ()
      ensures Ok() && Dues(list) == []
    {
      list := [];
    }

    // Every timer has between 1 and 2^32 - 1 ticks left, so the head's delta is not zero.
    predicate Ok()
      reads this
    {
      AgendaOk(Dues(list)) && Bounded(Dues(list))
    }

    method AddTimer(t: Timer)
      requires Ok() && 0 < t.expires < LIMIT && !Listed(Dues(list), t.id)
      modifies this
      ensures Ok() && Dues(list) == Insert(old(Dues(list)), Due(t.id, t.expires, t.proc))
    {
      hide Insert, Add, DuesAfter;
      ghost var a := Dues(list);
      AddRefines(list, 0, t);
      InsertOk(a, Due(t.id, t.expires, t.proc));
      ghost var k := InsertPosition(a, Due(t.id, t.expires, t.proc));
      Place(t);
    }

    // Walks past the timers that fire no later, keeping what is left of the ticks.
    method Place(t: Timer)
      modifies this
      ensures list == Add(old(list), t)
    {
      hide Add;
      ghost var before := list;
      var i: nat, rest: nat := 0, t.expires;
      assert before[..0] + Add(before[0..], t) == Add(before, t) by {
        assert before[0..] == before;
      }
      while i < |list|
        invariant i <= |list| && list == before && before[..i] + Add(before[i..], t.(expires := rest)) == Add(before, t)
      {
        if rest < list[i].expires {
          AddStops(list, i, t.(expires := rest));
          list := list[i := list[i].(expires := list[i].expires - rest)];
          break;
        }
        AddStep(list, i, t.(expires := rest));
        rest := rest - list[i].expires;
        i := i + 1;
      }
      AddLast(list, t.(expires := rest));
      list := list[..i] + [t.(expires := rest)] + list[i..];
    }

    // A timer that is not in the list is left alone; its successor takes over its delta without overflow.
    method DelTimer(id: nat)
      requires Ok()
      modifies this
      ensures Ok() && Dues(list) == Without(old(Dues(list)), id)
    {
      hide Insert, Without, DuesAfter;
      ghost var before := list;
      var i := 0;
      while i < |list| && list[i].id != id
        invariant i <= |list| && list == before && forall j :: 0 <= j < i ==> list[j].id != id
      {
        i := i + 1;
      }
      DeleteRefines(before, 0, id);
      WithoutOk(Dues(before), id);
      WithoutBounded(Dues(before), id);
      if i < |list| {
        DeleteAt(before, i, id);
        if list[i].expires != 0 && i + 1 < |list| {
          SumFits(list, i);
          list := list[i + 1 := list[i + 1].(expires := (list[i + 1].expires + list[i].expires) % LIMIT)];
        }
        list := list[..i] + list[i + 1..];
        assert list == Delete(before, id);
      } else {
        DeleteAbsent(before, id);
      }
    }

    // One tick: the timers whose time has come, in order.  The assertion on the head's delta holds because of Ok.
    method RunTimerList() returns (fired: seq<Timer>)
      requires Ok()
      modifies this
      ensures Ok() && Dues(list) == Ticked(old(Dues(list)))
      ensures |fired| == |FiredNow(old(Dues(list)))|
      ensures forall i :: 0 <= i < |fired| ==>
                fired[i].id == FiredNow(old(Dues(list)))[i].id && fired[i].proc == FiredNow(old(Dues(list)))[i].proc
    {
      hide DuesAfter, Ticked, FiredNow;
      fired := [];
      TickedIs(Dues(list));
      if list != [] {
        HeadDue(list);
        TickRefines(list);
        list := [list[0].(expires := list[0].expires - 1)] + list[1..];
        fired := PopExpired();
      }
    }

    // Drops the timers at the head that have no tick left.
    method PopExpired() returns (fired: seq<Timer>)
      requires Sorted(Dues(list))
      modifies this
      ensures var a := old(Dues(list)); |fired| == Fired(a) <= |a| && Dues(list) == a[Fired(a)..]
      ensures forall i :: 0 <= i < |fired| ==>
                fired[i].id == old(Dues(list))[i].id && fired[i].proc == old(Dues(list))[i].proc
    {
      hide DuesAfter;
      fired := [];
      ghost var a := Dues(list);
      FiredOk(a);
      assert a[0..] == a;
      while list != [] && list[0].expires == 0
        invariant |fired| <= |a| && Dues(list) == a[|fired|..] && Fired(a) == |fired| + Fired(Dues(list))
        invariant forall i :: 0 <= i < |fired| ==> fired[i].id == a[i].id && fired[i].proc == a[i].proc
        decreases |list|
      {
        PopRefines(list);
        assert a[|fired|..][1..] == a[|fired| + 1..];
        fired := fired + [list[0]];
        list := list[1..];
      }
      if list != [] {
        HeadDue(list);
      }
    }
  }

  lemma TickedIs(a: Agenda)
    requires AgendaOk(a) && Bounded(a)
    ensures var b := Lower(a);
            && Sorted(b) && Fired(b) <= |b| && Ticked(a) == b[Fired(b)..] && FiredNow(a) == b[..Fired(b)]
            && AgendaOk(Ticked(a)) && Bounded(Ticked(a)) && (a == [] ==> b == [])
  {
    FiredOk(Lower(a));
    hide Fired;
  }

  lemma WithoutBounded(a: Agenda, id: nat)
    requires AgendaOk(a) && Bounded(a)
    ensures Bounded(Without(a, id))
  {
    hide Without;
    if Listed(a, id) {
      var k :| 0 <= k < |a| && a[k].id == id;
      WithoutAt(a, k);
    } else {
      WithoutAbsent(a, id);
    }
  }

  lemma SumFits(list: seq<Timer>, i: nat)
    requires i + 1 < |list| && Bounded(Dues(list))
    ensures list[i + 1].expires + list[i].expires < LIMIT
  {
    SameIds(list, 0, i);
  }
}
