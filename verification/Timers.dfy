/**
  The timer list of ucore/kern/schedule/sched.c: each entry keeps the ticks
  after its predecessor.  It refines an agenda of ticks left per timer.
 */
module Timers {
  // A timer in the list: its ticks after the timer before it, and the process to wake.
  datatype Timer = Timer(id: nat, expires: nat, proc: nat)

  // The same timer with the ticks left until it fires.
  datatype Due = Due(id: nat, left: nat, proc: nat)

  type Agenda = seq<Due>

  function DuesAfter(list: seq<Timer>, base: nat): (a: Agenda)
    ensures |a| == |list| && forall i :: 0 <= i < |a| ==> a[i].left >= base
  {
    if list == [] then []
    else [Due(list[0].id, base + list[0].expires, list[0].proc)] + DuesAfter(list[1..], base + list[0].expires)
  }

  function Dues(list: seq<Timer>): Agenda {
    DuesAfter(list, 0)
  }

  // ---- the agenda

  // Before the first timer that fires later: timers of one tick stay in the order they were added.
  function Insert(a: Agenda, d: Due): Agenda {
    if a == [] || d.left < a[0].left then [d] + a else [a[0]] + Insert(a[1..], d)
  }

  function Without(a: Agenda, id: nat): Agenda {
    if a == [] then [] else if a[0].id == id then a[1..] else [a[0]] + Without(a[1..], id)
  }

  // One tick passes.
  function Lower(a: Agenda): (b: Agenda)
    requires forall i :: 0 <= i < |a| ==> a[i].left > 0
    ensures |b| == |a| && forall i :: 0 <= i < |a| ==> b[i] == a[i].(left := a[i].left - 1)
  {
    seq(|a|, i requires 0 <= i < |a| => a[i].(left := a[i].left - 1))
  }

  // The timers that have no tick left, at the head of the agenda.
  function Fired(a: Agenda): nat {
    if a == [] || a[0].left != 0 then 0 else 1 + Fired(a[1..])
  }

  predicate Sorted(a: Agenda) {
    forall i, j :: 0 <= i < j < |a| ==> a[i].left <= a[j].left && a[i].id != a[j].id
  }

  predicate Positive(a: Agenda) {
    forall i :: 0 <= i < |a| ==> a[i].left > 0
  }

  // Between operations every timer has ticks left.
  predicate AgendaOk(a: Agenda) {
    Sorted(a) && Positive(a)
  }

  predicate Listed(a: Agenda, id: nat) {
    exists i :: 0 <= i < |a| && a[i].id == id
  }

  // ---- the delta list

  function Add(list: seq<Timer>, t: Timer): seq<Timer> {
    if list == [] then [t]
    else if t.expires < list[0].expires then [t, list[0].(expires := list[0].expires - t.expires)] + list[1..]
    else [list[0]] + Add(list[1..], t.(expires := t.expires - list[0].expires))
  }

  function Delete(list: seq<Timer>, id: nat): seq<Timer> {
    if list == [] then []
    else if list[0].id == id then
      if list[1..] == [] then [] else [list[1].(expires := list[1].expires + list[0].expires)] + list[2..]
    else [list[0]] + Delete(list[1..], id)
  }

  lemma DuesCons(t: Timer, rest: seq<Timer>, base: nat)
    ensures DuesAfter([t] + rest, base) == [Due(t.id, base + t.expires, t.proc)] + DuesAfter(rest, base + t.expires)
  {
    assert ([t] + rest)[1..] == rest;
  }

  lemma InsertCons(h: Due, rest: Agenda, d: Due)
    ensures Insert([h] + rest, d) == if d.left < h.left then [d] + ([h] + rest) else [h] + Insert(rest, d)
  {
    assert ([h] + rest)[1..] == rest;
  }

  lemma {:induction false} AddRefines(list: seq<Timer>, base: nat, t: Timer)
    ensures DuesAfter(Add(list, t), base) == Insert(DuesAfter(list, base), Due(t.id, base + t.expires, t.proc))
    decreases |list|, 1
  {
    if list == [] {
      DuesCons(t, [], base);
    } else {
      AddRefinesCons(list[0], list[1..], base, t);
      assert list == [list[0]] + list[1..];
    }
  }

  // The new timer takes part of the head's delta, or goes on with what the head leaves of its ticks.
  lemma {:induction false} AddRefinesCons(h: Timer, rest: seq<Timer>, base: nat, t: Timer)
    ensures DuesAfter(Add([h] + rest, t), base) ==
              Insert(DuesAfter([h] + rest, base), Due(t.id, base + t.expires, t.proc))
    decreases |rest| + 1, 0
  {
    hide DuesAfter, Insert;
    var d := Due(t.id, base + t.expires, t.proc);
    assert ([h] + rest)[1..] == rest;
    DuesCons(h, rest, base);
    InsertCons(Due(h.id, base + h.expires, h.proc), DuesAfter(rest, base + h.expires), d);
    if t.expires < h.expires {
      var n := h.(expires := h.expires - t.expires);
      assert Add([h] + rest, t) == [t] + ([n] + rest);
      DuesCons(t, [n] + rest, base);
      DuesCons(n, rest, base + t.expires);
    } else {
      var u := t.(expires := t.expires - h.expires);
      assert Add([h] + rest, t) == [h] + Add(rest, u);
      hide Add;
      DuesCons(h, Add(rest, u), base);
      AddRefines(rest, base + h.expires, u);
    }
  }

  lemma {:induction false} DeleteRefines(list: seq<Timer>, base: nat, id: nat)
    ensures DuesAfter(Delete(list, id), base) == Without(DuesAfter(list, base), id)
    decreases |list|
  {
    if list == [] {
    } else if list[0].id == id {
      if list[1..] != [] {
        var n := Delete(list, id);
        assert n[1..] == list[2..] == list[1..][1..];
      }
    } else {
      DeleteRefines(list[1..], base + list[0].expires, id);
      assert Delete(list, id)[1..] == Delete(list[1..], id);
    }
  }

  // Ticks added to the head are added to every timer.
  lemma {:induction false} ShiftDues(list: seq<Timer>, base: nat, k: nat)
    ensures forall i :: 0 <= i < |list| ==>
              DuesAfter(list, base + k)[i] == DuesAfter(list, base)[i].(left := DuesAfter(list, base)[i].left + k)
    decreases |list|
  {
    if list != [] {
      ShiftDues(list[1..], base + list[0].expires, k);
    }
  }

  // A tick taken from the head is taken from every timer.
  lemma TickRefines(list: seq<Timer>)
    requires list != [] && list[0].expires > 0
    ensures Positive(Dues(list)) && Dues([list[0].(expires := list[0].expires - 1)] + list[1..]) == Lower(Dues(list))
  {
    var e: nat := list[0].expires - 1;
    var n := [list[0].(expires := e)] + list[1..];
    assert n[1..] == list[1..];
    ShiftDues(list[1..], e, 1);
    assert Dues(n) == [Due(list[0].id, e, list[0].proc)] + DuesAfter(list[1..], e);
    assert Dues(list) == [Due(list[0].id, e + 1, list[0].proc)] + DuesAfter(list[1..], e + 1);
  }

  // A timer without ticks left at the head can be dropped.
  lemma PopRefines(list: seq<Timer>)
    requires list != [] && list[0].expires == 0
    ensures Dues(list[1..]) == Dues(list)[1..] && Dues(list)[0] == Due(list[0].id, 0, list[0].proc)
  {}

  lemma HeadDue(list: seq<Timer>)
    requires list != []
    ensures Dues(list)[0] == Due(list[0].id, list[0].expires, list[0].proc)
  {}

  // ---- laws of the agenda

  // The new timer comes after all that fire no later and before all that fire later.
  predicate InsertedAt(a: Agenda, d: Due, k: nat) {
    && k <= |a| && Insert(a, d) == a[..k] + [d] + a[k..]
    && (forall i :: 0 <= i < k ==> a[i].left <= d.left) && (forall i :: k <= i < |a| ==> d.left < a[i].left)
  }

  lemma {:induction false} InsertPosition(a: Agenda, d: Due) returns (k: nat)
    requires Sorted(a)
    ensures InsertedAt(a, d, k)
    decreases |a|
  {
    if a == [] || d.left < a[0].left {
      k := 0;
    } else {
      k := InsertPosition(a[1..], d);
      assert a[..k + 1] == [a[0]] + a[1..][..k] && a[k + 1..] == a[1..][k..];
      assert forall i :: 0 < i < |a| ==> a[i] == a[1..][i - 1];
      k := k + 1;
    }
  }

  lemma InsertOk(a: Agenda, d: Due)
    requires AgendaOk(a) && d.left > 0 && !Listed(a, d.id)
    ensures AgendaOk(Insert(a, d))
  {
    hide Insert;
    var k := InsertPosition(a, d);
    assert forall i :: 0 <= i < |a| ==> a[i].id != d.id;
  }

  lemma {:induction false} WithoutAbsent(a: Agenda, id: nat)
    requires !Listed(a, id)
    ensures Without(a, id) == a
    decreases |a|
  {
    if a != [] {
      assert a[0].id != id && forall i :: 0 <= i < |a[1..]| ==> a[1..][i] == a[i + 1];
      WithoutAbsent(a[1..], id);
    }
  }

  lemma {:induction false} WithoutAt(a: Agenda, k: nat)
    requires Sorted(a) && k < |a|
    ensures Without(a, a[k].id) == a[..k] + a[k + 1..]
    decreases |a|
  {
    if k > 0 {
      WithoutAt(a[1..], k - 1);
      assert a[1..][k - 1] == a[k] && [a[0]] + a[1..][..k - 1] == a[..k] && a[1..][k..] == a[k + 1..];
    }
  }

  lemma WithoutOk(a: Agenda, id: nat)
    requires AgendaOk(a)
    ensures AgendaOk(Without(a, id)) && !Listed(Without(a, id), id)
  {
    hide Without;
    if Listed(a, id) {
      var k :| 0 <= k < |a| && a[k].id == id;
      WithoutAt(a, k);
      SkipOk(a, k);
    } else {
      WithoutAbsent(a, id);
    }
  }

  function Skip(i: nat, k: nat): nat {
    if i < k then i else i + 1
  }

  lemma SkipOk(a: Agenda, k: nat)
    requires AgendaOk(a) && k < |a|
    ensures AgendaOk(a[..k] + a[k + 1..]) && !Listed(a[..k] + a[k + 1..], a[k].id)
  {
    var b := a[..k] + a[k + 1..];
    assert forall i :: 0 <= i < |b| ==> Skip(i, k) < |a| && b[i] == a[Skip(i, k)];
    forall i, j | 0 <= i < j < |b| ensures b[i].left <= b[j].left && b[i].id != b[j].id {
      assert Skip(i, k) < Skip(j, k);
    }
    forall i | 0 <= i < |b| ensures b[i].left > 0 && b[i].id != a[k].id {
      assert a[Skip(i, k)].left > 0;
    }
  }

  // The timers that fire are exactly those with no tick left.
  lemma {:induction false} FiredOk(a: Agenda)
    requires Sorted(a)
    ensures Fired(a) <= |a| && AgendaOk(a[Fired(a)..])
    ensures forall i :: 0 <= i < |a| ==> (i < Fired(a) <==> a[i].left == 0)
    decreases |a|
  {
    if a != [] && a[0].left == 0 {
      assert forall i :: 0 <= i < |a[1..]| ==> a[1..][i] == a[i + 1];
      FiredOk(a[1..]);
      assert a[Fired(a)..] == a[1..][Fired(a[1..])..];
      forall i | 0 <= i < |a| ensures i < Fired(a) <==> a[i].left == 0 {
        assert i > 0 ==> a[1..][i - 1] == a[i];
      }
    }
  }

  // ---- runs

  datatype Event = AddEvent(due: Due) | DeleteEvent(id: nat) | TickEvent

  predicate EventOk(a: Agenda, e: Event) {
    e.AddEvent? ==> e.due.left > 0 && !Listed(a, e.due.id)
  }

  function Ticked(a: Agenda): Agenda
    requires AgendaOk(a)
  {
    FiredOk(Lower(a));
    Lower(a)[Fired(Lower(a))..]
  }

  function FiredNow(a: Agenda): Agenda
    requires AgendaOk(a)
  {
    FiredOk(Lower(a));
    Lower(a)[..Fired(Lower(a))]
  }

  function After(a: Agenda, e: Event): (b: Agenda)
    requires AgendaOk(a) && EventOk(a, e)
    ensures AgendaOk(b)
  {
    match e
    case AddEvent(d) => InsertOk(a, d); Insert(a, d)
    case DeleteEvent(id) => WithoutOk(a, id); Without(a, id)
    case TickEvent => FiredOk(Lower(a)); Ticked(a)
  }

  predicate EventsOk(a: Agenda, es: seq<Event>)
    requires AgendaOk(a)
    decreases |es|
  {
    es != [] ==> EventOk(a, es[0]) && EventsOk(After(a, es[0]), es[1..])
  }

  function AfterAll(a: Agenda, es: seq<Event>): (b: Agenda)
    requires AgendaOk(a) && EventsOk(a, es)
    ensures AgendaOk(b)
    decreases |es|
  {
    if es == [] then a else AfterAll(After(a, es[0]), es[1..])
  }

  function Ticks(es: seq<Event>): nat {
    if es == [] then 0 else (if es[0].TickEvent? then 1 else 0) + Ticks(es[1..])
  }

  // How often a timer has fired.
  function TimesFired(a: Agenda, es: seq<Event>, id: nat): nat
    requires AgendaOk(a) && EventsOk(a, es)
    decreases |es|
  {
    if es == [] then 0
    else (if es[0].TickEvent? && Listed(FiredNow(a), id) then 1 else 0) + TimesFired(After(a, es[0]), es[1..], id)
  }

  // No event of the run is about the timer.
  predicate LeftAlone(es: seq<Event>, id: nat) {
    forall k :: 0 <= k < |es| ==> es[k] != DeleteEvent(id) && !(es[k].AddEvent? && es[k].due.id == id)
  }

  // A timer has n ticks left.
  predicate HasLeft(a: Agenda, id: nat, n: nat) {
    exists i :: 0 <= i < |a| && a[i].id == id && a[i].left == n
  }

  // Where the entries of an agenda are after an insertion, a removal and a tick.
  lemma Inserted(a: Agenda, d: Due, k: nat, i: nat)
    requires k <= |a| && i < |a|
    ensures var b := a[..k] + [d] + a[k..]; |b| == |a| + 1 && b[k] == d && b[if i < k then i else i + 1] == a[i]
  {}

  lemma Removed(a: Agenda, k: nat, i: nat)
    requires k < |a| && i < |a| && i != k
    ensures var b := a[..k] + a[k + 1..]; |b| == |a| - 1 && b[if i < k then i else i - 1] == a[i]
  {}

  // What a removal leaves was there before, and is another timer.
  lemma WithoutFrom(a: Agenda, id: nat, i: nat) returns (j: nat)
    requires AgendaOk(a) && i < |Without(a, id)|
    ensures j < |a| && Without(a, id)[i] == a[j] && a[j].id != id
  {
    hide Without;
    if Listed(a, id) {
      var k :| 0 <= k < |a| && a[k].id == id;
      WithoutAt(a, k);
      j := Skip(i, k);
      Removed(a, k, j);
    } else {
      WithoutAbsent(a, id);
      j := i;
    }
  }

  lemma TickLengths(a: Agenda)
    requires AgendaOk(a)
    ensures |FiredNow(a)| + |Ticked(a)| == |a|
  {
    FiredOk(Lower(a));
    hide Fired;
  }

  lemma FiredAt(a: Agenda, i: nat)
    requires AgendaOk(a) && i < |FiredNow(a)|
    ensures i < |a| && FiredNow(a)[i].id == a[i].id && a[i].left == 1
  {
    FiredOk(Lower(a));
    hide Fired;
  }

  lemma TickedAt(a: Agenda, i: nat)
    requires AgendaOk(a) && |FiredNow(a)| <= i < |a|
    ensures var f := |FiredNow(a)|;
            i - f < |Ticked(a)| && a[i].left > 1 && Ticked(a)[i - f] == a[i].(left := a[i].left - 1)
  {
    FiredOk(Lower(a));
    hide Fired;
  }

  // An event about another timer leaves a timer's ticks alone.
  lemma OtherEvent(a: Agenda, e: Event, id: nat, n: nat)
    requires AgendaOk(a) && EventOk(a, e) && HasLeft(a, id, n) && !e.TickEvent? && e != DeleteEvent(id)
    ensures HasLeft(After(a, e), id, n)
  {
    hide Insert, Without;
    var i :| 0 <= i < |a| && a[i].id == id && a[i].left == n;
    match e {
      case AddEvent(d) =>
        var k := InsertPosition(a, d);
        Inserted(a, d, k, i);
      case DeleteEvent(other) =>
        if Listed(a, other) {
          var k :| 0 <= k < |a| && a[k].id == other;
          WithoutAt(a, k);
          Removed(a, k, i);
        } else {
          WithoutAbsent(a, other);
        }
    }
  }

  lemma TickCounts(a: Agenda, i: nat)
    requires AgendaOk(a) && i < |a| && a[i].left > 1
    ensures HasLeft(Ticked(a), a[i].id, a[i].left - 1) && !Listed(FiredNow(a), a[i].id)
  {
    hide Ticked, FiredNow;
    TickLengths(a);
    forall j | 0 <= j < |FiredNow(a)| ensures j != i && FiredNow(a)[j].id != a[i].id {
      FiredAt(a, j);
    }
    if i < |FiredNow(a)| {
      FiredAt(a, i);
    } else {
      TickedAt(a, i);
    }
  }

  lemma TickFires(a: Agenda, i: nat)
    requires AgendaOk(a) && i < |a| && a[i].left == 1
    ensures i < |FiredNow(a)| && Listed(FiredNow(a), a[i].id) && !Listed(Ticked(a), a[i].id)
  {
    hide Ticked, FiredNow;
    TickLengths(a);
    var f := |FiredNow(a)|;
    if i >= f {
      TickedAt(a, i);
    } else {
      FiredAt(a, i);
    }
    forall j | 0 <= j < |Ticked(a)| ensures Ticked(a)[j].id != a[i].id {
      TickedAt(a, j + f);
    }
  }

  // A tick counts a timer down, or fires it and removes it if it was its last.
  lemma TickEventLeft(a: Agenda, id: nat, n: nat)
    requires AgendaOk(a) && HasLeft(a, id, n)
    ensures n > 0 && (n > 1 ==> HasLeft(Ticked(a), id, n - 1) && !Listed(FiredNow(a), id))
    ensures n == 1 ==> Listed(FiredNow(a), id) && !Listed(Ticked(a), id)
  {
    hide Ticked, FiredNow, Listed;
    var i :| 0 <= i < |a| && a[i].id == id && a[i].left == n;
    if n > 1 {
      TickCounts(a, i);
    } else {
      TickFires(a, i);
    }
  }

  lemma LeftIsPositive(a: Agenda, id: nat, n: nat)
    requires AgendaOk(a) && HasLeft(a, id, n)
    ensures n > 0
  {}

  // Once gone, a timer stays gone and does not fire.
  lemma {:induction false} GoneStays(a: Agenda, es: seq<Event>, id: nat)
    requires AgendaOk(a) && EventsOk(a, es) && !Listed(a, id)
    requires forall k :: 0 <= k < |es| ==> !(es[k].AddEvent? && es[k].due.id == id)
    ensures !Listed(AfterAll(a, es), id) && TimesFired(a, es, id) == 0
    decreases |es|
  {
    hide After, Listed, AgendaOk, FiredNow;
    if es != [] {
      GoneStep(a, es[0], id);
      GoneStays(After(a, es[0]), es[1..], id);
    }
  }

  lemma InsertLists(a: Agenda, d: Due, id: nat)
    requires AgendaOk(a)
    ensures Listed(Insert(a, d), id) <==> id == d.id || Listed(a, id)
  {
    hide Insert;
    var k := InsertPosition(a, d);
    var b := a[..k] + [d] + a[k..];
    assert b[k] == d;
    if Listed(a, id) {
      var i :| 0 <= i < |a| && a[i].id == id;
      assert b[if i < k then i else i + 1] == a[i];
    }
  }

  lemma WithoutLists(a: Agenda, other: nat, id: nat)
    requires AgendaOk(a)
    ensures Listed(Without(a, other), id) ==> Listed(a, id)
  {
    hide Without;
    if Listed(a, other) {
      var k :| 0 <= k < |a| && a[k].id == other;
      WithoutAt(a, k);
      var b := a[..k] + a[k + 1..];
      assert forall i :: k <= i < |b| ==> b[i] == a[i + 1];
    } else {
      WithoutAbsent(a, other);
    }
  }

  lemma TickLists(a: Agenda, id: nat)
    requires AgendaOk(a)
    ensures Listed(Ticked(a), id) || Listed(FiredNow(a), id) ==> Listed(a, id)
  {
    hide Ticked, FiredNow, AgendaOk;
    TickLengths(a);
    if Listed(Ticked(a), id) {
      var i :| 0 <= i < |Ticked(a)| && Ticked(a)[i].id == id;
      TickedAt(a, i + |FiredNow(a)|);
    } else if Listed(FiredNow(a), id) {
      var i :| 0 <= i < |FiredNow(a)| && FiredNow(a)[i].id == id;
      FiredAt(a, i);
    }
  }

  lemma GoneStep(a: Agenda, e: Event, id: nat)
    requires AgendaOk(a) && EventOk(a, e) && !Listed(a, id) && !(e.AddEvent? && e.due.id == id)
    ensures !Listed(After(a, e), id) && (e.TickEvent? ==> !Listed(FiredNow(a), id))
  {
    hide Listed, Ticked, FiredNow, Insert, Without;
    match e {
      case AddEvent(d) => InsertLists(a, d, id);
      case DeleteEvent(other) => WithoutLists(a, other, id);
      case TickEvent => TickLists(a, id);
    }
  }

  /**
    A timer with n ticks left that is neither deleted nor added again has n - t left after t ticks,
    fires on the n-th tick, once, and is then gone; other timers coming and going change nothing.
   */
  lemma {:induction false} FiresOnTime(a: Agenda, es: seq<Event>, id: nat, n: nat)
    requires AgendaOk(a) && EventsOk(a, es) && HasLeft(a, id, n) && LeftAlone(es, id)
    ensures var t := Ticks(es);
            if t < n then HasLeft(AfterAll(a, es), id, n - t) && TimesFired(a, es, id) == 0
            else !Listed(AfterAll(a, es), id) && TimesFired(a, es, id) == 1
    decreases |es|
  {
    hide Ticked, FiredNow, Listed, HasLeft, Insert, Without, AgendaOk;
    if es == [] {
      LeftIsPositive(a, id, n);
    } else if !es[0].TickEvent? {
      OtherEvent(a, es[0], id, n);
      FiresOnTime(After(a, es[0]), es[1..], id, n);
    } else {
      TickEventLeft(a, id, n);
      if n > 1 {
        FiresOnTime(Ticked(a), es[1..], id, n - 1);
      } else {
        GoneStays(Ticked(a), es[1..], id);
      }
    }
  }

  // ---- ties

  // Timer x stands before timer y.
  predicate Ahead(a: Agenda, x: nat, y: nat) {
    exists i, j :: 0 <= i < j < |a| && a[i].id == x && a[j].id == y
  }

  // What each tick of a run fires.
  function Rounds(a: Agenda, es: seq<Event>): (r: seq<Agenda>)
    requires AgendaOk(a) && EventsOk(a, es)
    ensures |r| == Ticks(es)
    decreases |es|
  {
    if es == [] then []
    else (if es[0].TickEvent? then [FiredNow(a)] else []) + Rounds(After(a, es[0]), es[1..])
  }

  // A new timer goes behind every timer that fires no later.
  lemma AddedBehind(a: Agenda, d: Due, x: nat, n: nat)
    requires AgendaOk(a) && HasLeft(a, x, n) && n <= d.left
    ensures Ahead(Insert(a, d), x, d.id)
  {
    hide Insert;
    var k := InsertPosition(a, d);
    var i :| 0 <= i < |a| && a[i].id == x && a[i].left == n;
    Inserted(a, d, k, i);
  }

  lemma AddKeepsAhead(a: Agenda, d: Due, x: nat, y: nat)
    requires AgendaOk(a) && Ahead(a, x, y)
    ensures Ahead(Insert(a, d), x, y)
  {
    hide Insert;
    var k := InsertPosition(a, d);
    var i, j :| 0 <= i < j < |a| && a[i].id == x && a[j].id == y;
    hide AgendaOk;
    Inserted(a, d, k, i);
    Inserted(a, d, k, j);
  }

  lemma DeleteKeepsAhead(a: Agenda, id: nat, x: nat, y: nat)
    requires AgendaOk(a) && Ahead(a, x, y) && id != x && id != y
    ensures Ahead(Without(a, id), x, y)
  {
    hide Without;
    if Listed(a, id) {
      var k :| 0 <= k < |a| && a[k].id == id;
      WithoutAt(a, k);
      hide AgendaOk;
      var i, j :| 0 <= i < j < |a| && a[i].id == x && a[j].id == y;
      Removed(a, k, i);
      Removed(a, k, j);
      AheadAt(a[..k] + a[k + 1..], if i < k then i else i - 1, if j < k then j else j - 1);
    } else {
      WithoutAbsent(a, id);
    }
  }

  lemma AheadAt(a: Agenda, i: nat, j: nat)
    requires i < j < |a|
    ensures Ahead(a, a[i].id, a[j].id)
  {}

  // The two timers of a tie stay in order over a tick, or fire in order on it.
  lemma TickKeepsAhead(a: Agenda, x: nat, y: nat, n: nat)
    requires AgendaOk(a) && Ahead(a, x, y) && HasLeft(a, x, n) && HasLeft(a, y, n)
    ensures n > 1 ==> Ahead(Ticked(a), x, y)
    ensures n == 1 ==> Ahead(FiredNow(a), x, y)
  {
    hide Ticked, FiredNow;
    var i, j :| 0 <= i < j < |a| && a[i].id == x && a[j].id == y;
    SameTimer(a, x, n, i);
    SameTimer(a, y, n, j);
    TickLengths(a);
    hide AgendaOk, HasLeft;
    TieTicks(a, i, j);
  }

  lemma TieTicks(a: Agenda, i: nat, j: nat)
    requires AgendaOk(a) && i < j < |a| && a[i].left == a[j].left
    ensures a[i].left > 1 ==> Ahead(Ticked(a), a[i].id, a[j].id)
    ensures a[i].left == 1 ==> Ahead(FiredNow(a), a[i].id, a[j].id)
  {
    hide Ticked, FiredNow, Ahead;
    TickLengths(a);
    var f := |FiredNow(a)|;
    if a[i].left == 1 {
      TickFires(a, i);
      TickFires(a, j);
      FiredAt(a, i);
      FiredAt(a, j);
      AheadAt(FiredNow(a), i, j);
    } else if i >= f {
      TickedAt(a, i);
      TickedAt(a, j);
      AheadAt(Ticked(a), i - f, j - f);
    } else {
      FiredAt(a, i);
    }
  }

  lemma SameTimer(a: Agenda, id: nat, n: nat, i: nat)
    requires AgendaOk(a) && HasLeft(a, id, n) && i < |a| && a[i].id == id
    ensures a[i].left == n > 0
  {}

  lemma OtherKeepsAhead(a: Agenda, e: Event, x: nat, y: nat)
    requires AgendaOk(a) && EventOk(a, e) && Ahead(a, x, y) && !e.TickEvent? && e != DeleteEvent(x)
    requires e != DeleteEvent(y)
    ensures Ahead(After(a, e), x, y)
  {
    hide Ahead, AgendaOk, Insert, Without;
    match e {
      case AddEvent(d) => AddKeepsAhead(a, d, x, y);
      case DeleteEvent(id) => DeleteKeepsAhead(a, id, x, y);
    }
  }

  // Two timers with the same ticks left fire in the same round, in the order of the list.
  lemma {:induction false} TieKeepsOrder(a: Agenda, es: seq<Event>, x: nat, y: nat, n: nat)
    requires AgendaOk(a) && EventsOk(a, es) && LeftAlone(es, x) && LeftAlone(es, y)
    requires HasLeft(a, x, n) && HasLeft(a, y, n) && Ahead(a, x, y)
    ensures 0 < n <= Ticks(es) ==> Ahead(Rounds(a, es)[n - 1], x, y)
    decreases |es|
  {
    hide Ahead, HasLeft, Ticked, FiredNow, Insert, Without, AgendaOk;
    if es != [] {
      var e := es[0];
      if !e.TickEvent? {
        OtherEvent(a, e, x, n);
        OtherEvent(a, e, y, n);
        OtherKeepsAhead(a, e, x, y);
        TieKeepsOrder(After(a, e), es[1..], x, y, n);
      } else {
        TickKeepsAhead(a, x, y, n);
        if n > 1 {
          TickEventLeft(a, x, n);
          TickEventLeft(a, y, n);
          TieKeepsOrder(Ticked(a), es[1..], x, y, n - 1);
        }
      }
    }
  }

  /**
    Timers due on the same tick fire in the order they were added: if timer x has n ticks left when y is
    added with n, then over every later run that leaves both alone the n-th tick fires both, x before y.
   */
  lemma TiesFireInOrder(a: Agenda, y: Due, es: seq<Event>, x: nat)
    requires AgendaOk(a) && EventOk(a, AddEvent(y)) && HasLeft(a, x, y.left)
    requires EventsOk(After(a, AddEvent(y)), es) && LeftAlone(es, x) && LeftAlone(es, y.id)
    ensures y.left <= Ticks(es) ==> Ahead(Rounds(After(a, AddEvent(y)), es)[y.left - 1], x, y.id)
  {
    hide Ahead, AgendaOk, Insert;
    AddedBehind(a, y, x, y.left);
    AddedHasLeft(a, y);
    OtherEvent(a, AddEvent(y), x, y.left);
    TieKeepsOrder(After(a, AddEvent(y)), es, x, y.id, y.left);
  }

  lemma AddedHasLeft(a: Agenda, d: Due)
    requires AgendaOk(a)
    ensures HasLeft(Insert(a, d), d.id, d.left)
  {
    hide Insert;
    var k := InsertPosition(a, d);
    assert (a[..k] + [d] + a[k..])[k] == d;
  }
}
