/**
 The activity feed's days and groups: newest-first rows cut into calendar days,
 and each day into stretches that open one card without a long gap.
 */
module Feed {
  import opened Prelude

  const GROUP_GAP: int := 3 * 60 * 60 * 1000

  /** `time` is None when the timestamp does not parse; the day is then "". */
  datatype Row = Row(id: int, stamp: string, time: Option<int>, nav: int)

  datatype Group = Group(nav: int, rows: seq<Row>, first: string, last: string)
  datatype Day = Day(key: string, groups: seq<Group>, count: nat)

  function DayKey(dayOf: int -> string, r: Row): string {
    if r.time.None? then "" else dayOf(r.time.value)
  }

  ghost predicate NamesEveryDay(dayOf: int -> string) {
    forall t :: |dayOf(t)| > 0
  }

  function Abs(x: int): int {
    if x < 0 then -x else x
  }

  /** The two rows, adjacent on one day, belong to one group. */
  predicate Together(a: Row, b: Row) {
    a.nav == b.nav && (a.time.Some? && b.time.Some? ==> Abs(a.time.value - b.time.value) <= GROUP_GAP)
  }

  function FlatGroups(groups: seq<Group>): seq<Row> {
    if groups == [] then [] else FlatGroups(groups[..|groups| - 1]) + groups[|groups| - 1].rows
  }

  function Flat(days: seq<Day>): seq<Row> {
    if days == [] then [] else Flat(days[..|days| - 1]) + FlatGroups(days[|days| - 1].groups)
  }

  function Newest(g: Group): Row
    requires g.rows != []
  {
    g.rows[0]
  }

  function Oldest(g: Group): Row
    requires g.rows != []
  {
    g.rows[|g.rows| - 1]
  }

  /** One card, no gap, and the ends it says. */
  ghost predicate GroupOk(g: Group) {
    && g.rows != [] && g.first == Oldest(g).stamp && g.last == Newest(g).stamp
    && (forall k :: 0 <= k < |g.rows| ==> g.rows[k].nav == g.nav)
    && (forall k :: 0 < k < |g.rows| ==> Together(g.rows[k - 1], g.rows[k]))
  }

  /** Neighbouring groups could not have been one. */
  ghost predicate GroupsOk(groups: seq<Group>) {
    && groups != [] && (forall k :: 0 <= k < |groups| ==> GroupOk(groups[k]))
    && (forall k :: 0 < k < |groups| ==> !Together(Oldest(groups[k - 1]), Newest(groups[k])))
  }

  ghost predicate DayOk(dayOf: int -> string, d: Day) {
    && GroupsOk(d.groups) && d.count == |FlatGroups(d.groups)|
    && forall k :: 0 <= k < |d.groups| ==> AllOn(dayOf, d.key, d.groups[k].rows)
  }

  ghost predicate AllOn(dayOf: int -> string, key: string, rows: seq<Row>) {
    forall k :: 0 <= k < |rows| ==> DayKey(dayOf, rows[k]) == key
  }

  ghost predicate FeedOk(dayOf: int -> string, days: seq<Day>) {
    && (forall k :: 0 <= k < |days| ==> DayOk(dayOf, days[k]))
    && (forall k :: 0 < k < |days| ==> days[k - 1].key != days[k].key)
  }

  function LastRow(days: seq<Day>): Row
    requires days != [] && days[|days| - 1].groups != []
    requires days[|days| - 1].groups[|days[|days| - 1].groups| - 1].rows != []
  {
    var d := days[|days| - 1];
    Oldest(d.groups[|d.groups| - 1])
  }

  // ------------------------------------------------------------------- the steps

  function NewGroup(r: Row): Group {
    Group(r.nav, [r], r.stamp, r.stamp)
  }

  function Extend(g: Group, r: Row): Group {
    g.(rows := g.rows + [r], first := r.stamp)
  }

  function SetLast(days: seq<Day>, d: Day): seq<Day>
    requires days != []
  {
    days[..|days| - 1] + [d]
  }

  lemma {:induction false} FlatSetLast(days: seq<Day>, d: Day)
    requires days != []
    ensures Flat(SetLast(days, d)) == Flat(days[..|days| - 1]) + FlatGroups(d.groups)
  {
    assert SetLast(days, d)[..|days| - 1] == days[..|days| - 1];
  }

  lemma {:induction false} FlatPush(days: seq<Day>, d: Day)
    ensures Flat(days + [d]) == Flat(days) + FlatGroups(d.groups)
  {
    assert (days + [d])[..|days|] == days;
  }

  lemma {:induction false} FlatGroupPush(groups: seq<Group>, g: Group)
    ensures FlatGroups(groups + [g]) == FlatGroups(groups) + g.rows
  {
    assert (groups + [g])[..|groups|] == groups;
  }

  lemma {:induction false} OneGroup(dayOf: int -> string, r: Row)
    ensures DayOk(dayOf, Day(DayKey(dayOf, r), [NewGroup(r)], 1)) && FlatGroups([NewGroup(r)]) == [r]
  {
    FlatGroupPush([], NewGroup(r));
    assert [] + [NewGroup(r)] == [NewGroup(r)];
  }

  /** A row of another day. */
  lemma {:induction false} PushDay(dayOf: int -> string, days: seq<Day>, r: Row)
    requires FeedOk(dayOf, days) && (days != [] ==> days[|days| - 1].key != DayKey(dayOf, r))
    ensures var more := days + [Day(DayKey(dayOf, r), [NewGroup(r)], 1)];
      FeedOk(dayOf, more) && Flat(more) == Flat(days) + [r] && LastRow(more) == r
  {
    OneGroup(dayOf, r);
    hide DayOk, FlatGroups;
    FlatPush(days, Day(DayKey(dayOf, r), [NewGroup(r)], 1));
  }

  lemma {:induction false} SetLastOk(dayOf: int -> string, days: seq<Day>, d: Day)
    requires FeedOk(dayOf, days) && days != [] && DayOk(dayOf, d) && d.key == days[|days| - 1].key
    ensures FeedOk(dayOf, SetLast(days, d))
  {
    hide DayOk;
    var after := SetLast(days, d);
    assert forall k | 0 <= k < |days| - 1 :: after[k] == days[k];
  }

  /** The last day again, with one row more. */
  lemma {:induction false} ReplaceLast(dayOf: int -> string, days: seq<Day>, d: Day, r: Row)
    requires FeedOk(dayOf, days) && days != [] && DayOk(dayOf, d) && d.key == days[|days| - 1].key
    requires FlatGroups(d.groups) == FlatGroups(days[|days| - 1].groups) + [r] && Oldest(d.groups[|d.groups| - 1]) == r
    ensures var after := SetLast(days, d); FeedOk(dayOf, after) && Flat(after) == Flat(days) + [r] && LastRow(after) == r
  {
    SetLastOk(dayOf, days, d);
    FlatSetLast(days, d);
    hide FeedOk, FlatGroups;
    assert Flat(days) == Flat(days[..|days| - 1]) + FlatGroups(days[|days| - 1].groups);
    assert SetLast(days, d)[|days| - 1] == d;
  }

  function WithGroup(d: Day, r: Row): Day {
    d.(groups := d.groups + [NewGroup(r)], count := d.count + 1)
  }

  function WithRow(d: Day, r: Row): Day
    requires d.groups != []
  {
    var n := |d.groups| - 1;
    d.(groups := d.groups[..n] + [Extend(d.groups[n], r)], count := d.count + 1)
  }

  /** A row of the same day that starts a group. */
  lemma {:induction false} PushGroup(dayOf: int -> string, d: Day, r: Row)
    requires DayOk(dayOf, d) && d.key == DayKey(dayOf, r) && !Together(Oldest(d.groups[|d.groups| - 1]), r)
    ensures DayOk(dayOf, WithGroup(d, r)) && FlatGroups(WithGroup(d, r).groups) == FlatGroups(d.groups) + [r]
  {
    FlatGroupPush(d.groups, NewGroup(r));
    GroupsPush(d.groups, r);
    hide GroupsOk, FlatGroups, Together;
    assert forall k | 0 <= k < |d.groups| :: WithGroup(d, r).groups[k] == d.groups[k];
  }

  lemma {:induction false} GroupsPush(groups: seq<Group>, r: Row)
    requires GroupsOk(groups) && !Together(Oldest(groups[|groups| - 1]), r)
    ensures GroupsOk(groups + [NewGroup(r)])
  {
    var more := groups + [NewGroup(r)];
    assert forall k | 0 <= k < |groups| :: more[k] == groups[k];
  }

  /** A row that goes on with the last group. */
  lemma {:induction false} PushRow(dayOf: int -> string, d: Day, r: Row)
    requires DayOk(dayOf, d) && d.key == DayKey(dayOf, r) && Together(Oldest(d.groups[|d.groups| - 1]), r)
    ensures DayOk(dayOf, WithRow(d, r)) && FlatGroups(WithRow(d, r).groups) == FlatGroups(d.groups) + [r]
  {
    var n := |d.groups| - 1;
    ExtendOk(d.groups, r);
    FlatExtend(d.groups, r);
    ExtendOn(dayOf, d, r);
    hide GroupsOk, FlatGroups, Together, AllOn;
  }

  lemma {:induction false} FlatExtend(groups: seq<Group>, r: Row)
    requires groups != []
    ensures FlatGroups(groups[..|groups| - 1] + [Extend(groups[|groups| - 1], r)]) == FlatGroups(groups) + [r]
  {
    var n := |groups| - 1;
    FlatGroupPush(groups[..n], Extend(groups[n], r));
    assert FlatGroups(groups) == FlatGroups(groups[..n]) + groups[n].rows;
    hide FlatGroups;
    assert FlatGroups(groups[..n]) + (groups[n].rows + [r]) == (FlatGroups(groups[..n]) + groups[n].rows) + [r];
  }

  lemma {:induction false} ExtendOn(dayOf: int -> string, d: Day, r: Row)
    requires DayOk(dayOf, d) && DayKey(dayOf, r) == d.key
    ensures var n := |d.groups| - 1; var groups := d.groups[..n] + [Extend(d.groups[n], r)];
      forall k :: 0 <= k < |groups| ==> AllOn(dayOf, d.key, groups[k].rows)
  {
    var n := |d.groups| - 1;
    var groups := d.groups[..n] + [Extend(d.groups[n], r)];
    assert AllOn(dayOf, d.key, d.groups[n].rows);
    assert forall k | 0 <= k < n :: groups[k] == d.groups[k];
  }

  lemma {:induction false} ExtendOk(groups: seq<Group>, r: Row)
    requires GroupsOk(groups) && Together(Oldest(groups[|groups| - 1]), r)
    ensures GroupsOk(groups[..|groups| - 1] + [Extend(groups[|groups| - 1], r)])
  {
    var n := |groups| - 1;
    var g := Extend(groups[n], r);
    assert GroupOk(groups[n]);
    GroupExtend(groups[n], r);
    hide Together, GroupOk;
    var after := groups[..n] + [g];
    assert Newest(g) == Newest(groups[n]);
    assert forall k | 0 <= k < n :: after[k] == groups[k];
  }

  lemma {:induction false} GroupExtend(g: Group, r: Row)
    requires GroupOk(g) && Together(Oldest(g), r)
    ensures GroupOk(Extend(g, r)) && Newest(Extend(g, r)) == Newest(g)
  {
  }

  /** Nothing lost or reordered; every day and group is what it should be, and no
      two of them should have been one. */
  method BuildFeed(dayOf: int -> string, rows: seq<Row>) returns (days: seq<Day>)
    requires NamesEveryDay(dayOf)
    ensures Flat(days) == rows && FeedOk(dayOf, days)
  {
    hide FeedOk, Flat;
    days := [];
    var open := false;
    var tail := 0;
    EmptyFeed(dayOf);
    for i := 0 to |rows|
      invariant Flat(days) == rows[..i] && FeedOk(dayOf, days)
      invariant days == [] <==> i == 0
      invariant open <==> i > 0
      invariant i > 0 ==> DayOk(dayOf, days[|days| - 1]) && LastRow(days) == rows[i - 1]
      invariant i > 0 && rows[i - 1].time.Some? ==> tail == rows[i - 1].time.value
    {
      var r := rows[i];
      var key := DayKey(dayOf, r);
      assert rows[..i + 1] == rows[..i] + [r];
      if |days| == 0 || days[|days| - 1].key != key {
        PushDay(dayOf, days, r);
        days := days + [Day(key, [NewGroup(r)], 1)];
      } else {
        var d := days[|days| - 1];
        var g := d.groups[|d.groups| - 1];
        LastGroup(dayOf, days);
        SameKind(dayOf, days, r);
        if g.nav != r.nav || (r.time.Some? && Abs(tail - r.time.value) > GROUP_GAP) {
          PushGroup(dayOf, d, r);
          ReplaceLast(dayOf, days, WithGroup(d, r), r);
          days := SetLast(days, WithGroup(d, r));
        } else {
          PushRow(dayOf, d, r);
          ReplaceLast(dayOf, days, WithRow(d, r), r);
          days := SetLast(days, WithRow(d, r));
        }
      }
      LastDay(dayOf, days);
      open := true;
      if r.time.Some? { tail := r.time.value; }
    }
    assert rows[..|rows|] == rows;
  }

  lemma {:induction false} EmptyFeed(dayOf: int -> string)
    ensures Flat([]) == [] && FeedOk(dayOf, [])
  {
  }

  lemma {:induction false} LastDay(dayOf: int -> string, days: seq<Day>)
    requires FeedOk(dayOf, days) && days != []
    ensures DayOk(dayOf, days[|days| - 1])
  {
  }

  lemma {:induction false} LastGroup(dayOf: int -> string, days: seq<Day>)
    requires days != [] && DayOk(dayOf, days[|days| - 1])
    ensures var d := days[|days| - 1]; d.groups[|d.groups| - 1].nav == LastRow(days).nav
  {
    var d := days[|days| - 1];
    assert GroupOk(d.groups[|d.groups| - 1]);
  }

  lemma {:induction false} Named(dayOf: int -> string, t: int)
    requires NamesEveryDay(dayOf)
    ensures dayOf(t) != ""
  {
  }

  /** On one day either all timestamps parse or none does. */
  lemma {:induction false} SameKind(dayOf: int -> string, days: seq<Day>, r: Row)
    requires NamesEveryDay(dayOf) && days != [] && DayOk(dayOf, days[|days| - 1])
    requires days[|days| - 1].key == DayKey(dayOf, r)
    ensures LastRow(days).time.Some? <==> r.time.Some?
  {
    var d := days[|days| - 1];
    var g := d.groups[|d.groups| - 1];
    assert GroupOk(g) && AllOn(dayOf, d.key, g.rows);
    var last := g.rows[|g.rows| - 1];
    assert LastRow(days) == last && DayKey(dayOf, last) == DayKey(dayOf, r);
    if last.time.Some? { Named(dayOf, last.time.value); }
    if r.time.Some? { Named(dayOf, r.time.value); }
  }

  /** A feed in plain terms.  Next to each other in a group are rows of one card
      at most three hours apart; where one group ends and the next of the day
      begins, the card changes or more than three hours pass; a day holds the
      rows whose time falls on it, or those whose time cannot be read. */
  lemma FeedPlainly(dayOf: int -> string, days: seq<Day>, d: nat, g: nat)
    requires FeedOk(dayOf, days) && d < |days| && g < |days[d].groups|
    ensures var group := days[d].groups[g]; var rows := group.rows;
      && rows != [] && group.first == rows[|rows| - 1].stamp && group.last == rows[0].stamp
      && (forall k :: 0 <= k < |rows| ==> rows[k].nav == group.nav)
      && (forall k :: 0 <= k < |rows| ==> days[d].key == (if rows[k].time.None? then "" else dayOf(rows[k].time.value)))
      && (forall k :: 0 < k < |rows| && rows[k - 1].time.Some? && rows[k].time.Some? ==>
           -10_800_000 <= rows[k - 1].time.value - rows[k].time.value <= 10_800_000)
    ensures g > 0 ==>
      var above, below := days[d].groups[g - 1].rows, days[d].groups[g].rows;
      && above != [] && below != []
      && var a, b := above[|above| - 1], below[0];
         a.nav != b.nav || (a.time.Some? && b.time.Some? &&
           (a.time.value - b.time.value > 10_800_000 || b.time.value - a.time.value > 10_800_000))
  {
    assert DayOk(dayOf, days[d]);
    assert GroupOk(days[d].groups[g]) && AllOn(dayOf, days[d].key, days[d].groups[g].rows);
    if g > 0 { assert GroupOk(days[d].groups[g - 1]); }
  }
}
