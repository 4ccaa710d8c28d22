/**
 The roll-up loop, and what its result says of the rows that went in.
 */
module FeedRollup {
  import opened Prelude
  import opened FeedLines

  ghost predicate Inv(roll: Roll, rows: seq<Row>, fates: seq<Fate>) {
    |fates| == |rows| && AllSay(roll, rows, fates) && MapsOk(roll, rows, fates) && FatesOk(fates, |roll.lines|)
  }

  /** One row, by its kind. */
  function Step(roll: Roll, r: Row): Roll {
    match r.kind
    case Create => StepCreate(roll, r)
    case Event => Append(roll, NewLine(r, Happened, r.caption))
    case Comment => StepComment(roll, r)
    case CommentEdit => StepEdit(roll, r)
    case Attr => if r.hidden then roll else if PartOfCreation(roll, r) then StepAbsorb(roll, r) else StepAttr(roll, r)
    case Tag => if r.hidden then roll else if PartOfCreation(roll, r) then StepAbsorb(roll, r) else StepTags(roll, r)
  }

  function SetLine(roll: Roll, k: nat, l: Line): Roll {
    if k < |roll.lines| then roll.(lines := roll.lines[k := l]) else roll
  }

  function LineAt(roll: Roll, k: nat): Line {
    if k < |roll.lines| then roll.lines[k] else Line(Happened, 0, "", "", "", false, {}, {}, None, [], 0, 0, [], "")
  }

  function StepCreate(roll: Roll, r: Row): Roll {
    Append(roll, NewLine(r, Created, r.caption)).(creations := roll.creations[r.card := (|roll.lines|, r.at, r.actorId)])
  }

  function StepComment(roll: Roll, r: Row): Roll {
    Append(roll, CommentLine(r)).(comments := roll.comments[r.id := |roll.lines|])
  }

  function StepEdit(roll: Roll, r: Row): Roll {
    if r.target in roll.comments then
      SetLine(roll, roll.comments[r.target], FoldInto(LineAt(roll, roll.comments[r.target]), r))
    else Append(roll, CommentLine(r))
  }

  function StepAbsorb(roll: Roll, r: Row): Roll
    requires PartOfCreation(roll, r)
  {
    var k := roll.creations[r.card].0;
    SetLine(roll, k, AbsorbInto(LineAt(roll, k), r))
  }

  function StepAttr(roll: Roll, r: Row): Roll {
    var key := (r.card, r.attr);
    if key in roll.attrLines then SetLine(roll, roll.attrLines[key], AttrMore(LineAt(roll, roll.attrLines[key]), r))
    else Append(roll, AttrLine(r)).(attrLines := roll.attrLines[key := |roll.lines|])
  }

  function StepTags(roll: Roll, r: Row): Roll {
    if r.card in roll.tagLines then SetLine(roll, roll.tagLines[r.card], TagsMore(LineAt(roll, roll.tagLines[r.card]), r))
    else Append(roll, Netted(NewLine(r, Tags, "Tags"), r)).(tagLines := roll.tagLines[r.card := |roll.lines|])
  }

  // -------------------------------------------------------------- the invariant

  /** A line of another verb than attributes and tags: the maps stay as they
      are, but for the creation or comment it is entered as. */
  lemma {:induction false} MapsAppend(roll: Roll, rows: seq<Row>, fates: seq<Fate>, r: Row, l: Line, roll': Roll)
    requires Inv(roll, rows, fates) && l.verb != Changed && l.verb != Tags
    requires roll'.lines == roll.lines + [l] && roll'.attrLines == roll.attrLines && roll'.tagLines == roll.tagLines
    requires roll'.creations == roll.creations ||
      (l.verb == Created && roll'.creations == roll.creations[l.card := (|roll.lines|, r.at, r.actorId)])
    requires roll'.comments == roll.comments || (l.verb == Commented && roll'.comments == roll.comments[r.id := |roll.lines|])
    ensures MapsOk(roll', rows + [r], fates + [Counted(|roll.lines|)])
  {
    KeyStays(roll, rows, fates, r, Counted(|roll.lines|));
    hide AllSay, KeyOf, FatesOk;
    assert CardMapsOk(roll');
    hide CardMapsOk;
    AttrMapAppend(roll, rows, fates, r, l, roll');
  }

  lemma {:induction false} AttrMapAppend(roll: Roll, rows: seq<Row>, fates: seq<Fate>, r: Row, l: Line, roll': Roll)
    requires |fates| == |rows| && AttrMapOk(roll, rows, fates) && l.verb != Changed
    requires roll'.lines == roll.lines + [l] && roll'.attrLines == roll.attrLines
    requires var fates' := fates + [Counted(|roll.lines|)];
      forall k :: 0 <= k < |roll.lines| ==> KeyOf(rows + [r], fates', k) == KeyOf(rows, fates, k)
    ensures AttrMapOk(roll', rows + [r], fates + [Counted(|roll.lines|)])
  {
    hide KeyOf;
  }

  lemma {:induction false} AppendKeeps(roll: Roll, rows: seq<Row>, fates: seq<Fate>, r: Row, l: Line, roll': Roll)
    requires Inv(roll, rows, fates) && l.verb != Changed && l.verb != Tags && Says(l, [r], [])
    requires roll'.lines == roll.lines + [l] && roll'.attrLines == roll.attrLines && roll'.tagLines == roll.tagLines
    requires roll'.creations == roll.creations ||
      (l.verb == Created && roll'.creations == roll.creations[l.card := (|roll.lines|, r.at, r.actorId)])
    requires roll'.comments == roll.comments || (l.verb == Commented && roll'.comments == roll.comments[r.id := |roll.lines|])
    ensures Inv(roll', rows + [r], fates + [Counted(|roll.lines|)])
  {
    MapsAppend(roll, rows, fates, r, l, roll');
    AppendSays(roll, rows, fates, r, l);
    hide MapsOk, Says;
    SameLines(Append(roll, l), roll', rows + [r], fates + [Counted(|roll.lines|)]);
  }

  /** Only the lines matter for what they say. */
  lemma {:induction false} SameLines(a: Roll, b: Roll, rows: seq<Row>, fates: seq<Fate>)
    requires |fates| == |rows| && AllSay(a, rows, fates) && a.lines == b.lines
    ensures AllSay(b, rows, fates)
  {
    hide Says;
    forall k | 0 <= k < |b.lines| ensures LineSays(b, rows, fates, k) {
      assert LineSays(a, rows, fates, k);
    }
  }

  /** A line takes one row more and stays what it is. */
  lemma {:induction false} UpdateKeeps(roll: Roll, rows: seq<Row>, fates: seq<Fate>, r: Row, f: Fate, l: Line)
    requires Inv(roll, rows, fates) && !f.Hidden? && f.line < |roll.lines|
    requires l.verb == roll.lines[f.line].verb && l.card == roll.lines[f.line].card
    requires var m, extra := Rows(rows, fates, Counted(f.line)), Extra(rows, fates, f.line);
      if f.Counted? then Says(l, m + [r], extra) else Says(l, m, extra + [r])
    ensures Inv(SetLine(roll, f.line, l), rows + [r], fates + [f])
  {
    UpdateSays(roll, rows, fates, r, f, l);
    KeyStays(roll, rows, fates, r, f);
    hide AllSay, KeyOf, FatesOk, Says;
    MapsUpdate(roll, rows, fates, r, f, l);
  }

  lemma {:induction false} MapsUpdate(roll: Roll, rows: seq<Row>, fates: seq<Fate>, r: Row, f: Fate, l: Line)
    requires |fates| == |rows| && MapsOk(roll, rows, fates) && !f.Hidden? && f.line < |roll.lines|
    requires l.verb == roll.lines[f.line].verb && l.card == roll.lines[f.line].card
    requires forall k :: 0 <= k < |roll.lines| ==> KeyOf(rows + [r], fates + [f], k) == KeyOf(rows, fates, k)
    ensures MapsOk(SetLine(roll, f.line, l), rows + [r], fates + [f])
  {
    hide KeyOf;
    var after := SetLine(roll, f.line, l);
    assert forall k | 0 <= k < |roll.lines| ::
      after.lines[k].verb == roll.lines[k].verb && after.lines[k].card == roll.lines[k].card;
  }

  lemma {:induction false} HiddenKeeps(roll: Roll, rows: seq<Row>, fates: seq<Fate>, r: Row)
    requires Inv(roll, rows, fates)
    ensures Inv(roll, rows + [r], fates + [Hidden])
  {
    KeyStays(roll, rows, fates, r, Hidden);
    hide Says, KeyOf;
    forall k | 0 <= k < |roll.lines| ensures LineSays(roll, rows + [r], fates + [Hidden], k) {
      assert LineSays(roll, rows, fates, k);
      OtherLine(roll, rows, fates, r, Hidden, k, roll);
    }
  }

  lemma {:induction false} AbsorbKeeps(roll: Roll, rows: seq<Row>, fates: seq<Fate>, r: Row)
    requires Inv(roll, rows, fates) && PartOfCreation(roll, r)
    ensures Inv(StepAbsorb(roll, r), rows + [r], fates + [Absorbed(roll.creations[r.card].0)])
  {
    var k := roll.creations[r.card].0;
    assert IsLine(roll, k, Created, r.card) && LineSays(roll, rows, fates, k);
    hide Says, AllSay, MapsOk, Rows, Extra;
    AbsorbSays(roll.lines[k], Rows(rows, fates, Counted(k)), Extra(rows, fates, k), r);
    UpdateKeeps(roll, rows, fates, r, Absorbed(k), AbsorbInto(roll.lines[k], r));
  }

  lemma {:induction false} EditKeeps(roll: Roll, rows: seq<Row>, fates: seq<Fate>, r: Row)
    requires Inv(roll, rows, fates) && r.kind == CommentEdit
    ensures Inv(StepEdit(roll, r), rows + [r], fates + [FateOf(roll, r)])
  {
    if r.target in roll.comments {
      var k := roll.comments[r.target];
      assert LineSays(roll, rows, fates, k);
      hide Says, AllSay, MapsOk, Rows, Extra;
      FoldSays(roll.lines[k], Rows(rows, fates, Counted(k)), Extra(rows, fates, k), r);
      UpdateKeeps(roll, rows, fates, r, Folded(k), FoldInto(roll.lines[k], r));
    } else {
      SingleSays(r);
      hide Says, Inv;
      AppendKeeps(roll, rows, fates, r, CommentLine(r), StepEdit(roll, r));
    }
  }

  lemma {:induction false} AttrKeeps(roll: Roll, rows: seq<Row>, fates: seq<Fate>, r: Row)
    requires Inv(roll, rows, fates) && r.kind == Attr && !r.hidden && !PartOfCreation(roll, r)
    ensures Inv(StepAttr(roll, r), rows + [r], fates + [FateOf(roll, r)])
  {
    var key := (r.card, r.attr);
    if key in roll.attrLines {
      var k := roll.attrLines[key];
      assert IsAttrLine(roll, rows, fates, k, key) && LineSays(roll, rows, fates, k);
      hide AllSay, MapsOk, Rows, Extra;
      AttrSaysMore(roll.lines[k], Rows(rows, fates, Counted(k)), r);
      hide Says;
      assert Extra(rows, fates, k) == [];
      UpdateKeeps(roll, rows, fates, r, Counted(k), AttrMore(roll.lines[k], r));
    } else {
      AttrSaysNew(r);
      NewAttrLine(roll, rows, fates, r);
    }
  }

  lemma {:induction false} NewAttrLine(roll: Roll, rows: seq<Row>, fates: seq<Fate>, r: Row)
    requires Inv(roll, rows, fates) && (r.card, r.attr) !in roll.attrLines && Says(AttrLine(r), [r], [])
    ensures Inv(StepAttr(roll, r), rows + [r], fates + [Counted(|roll.lines|)])
  {
    hide Says;
    var n := |roll.lines|;
    AppendSays(roll, rows, fates, r, AttrLine(r));
    KeyStays(roll, rows, fates, r, Counted(n));
    SameLines(Append(roll, AttrLine(r)), StepAttr(roll, r), rows + [r], fates + [Counted(n)]);
    hide AllSay, KeyOf, MapsOk, FatesOk;
    NewAttrMaps(roll, rows, fates, r);
  }

  lemma {:induction false} NewAttrMaps(roll: Roll, rows: seq<Row>, fates: seq<Fate>, r: Row)
    requires |fates| == |rows| && MapsOk(roll, rows, fates) && (r.card, r.attr) !in roll.attrLines
    requires var fates' := fates + [Counted(|roll.lines|)];
      && KeyOf(rows + [r], fates', |roll.lines|) == (r.card, r.attr)
      && forall k :: 0 <= k < |roll.lines| ==> KeyOf(rows + [r], fates', k) == KeyOf(rows, fates, k)
    ensures MapsOk(StepAttr(roll, r), rows + [r], fates + [Counted(|roll.lines|)])
  {
    hide KeyOf;
  }

  lemma {:induction false} TagsKeep(roll: Roll, rows: seq<Row>, fates: seq<Fate>, r: Row)
    requires Inv(roll, rows, fates) && r.kind == Tag && !r.hidden && !PartOfCreation(roll, r)
    ensures Inv(StepTags(roll, r), rows + [r], fates + [FateOf(roll, r)])
  {
    if r.card in roll.tagLines {
      var k := roll.tagLines[r.card];
      assert IsLine(roll, k, Tags, r.card) && LineSays(roll, rows, fates, k);
      hide AllSay, MapsOk, Rows, Extra;
      TagsSaysMore(roll.lines[k], Rows(rows, fates, Counted(k)), r);
      assert Extra(rows, fates, k) == [];
      hide Says;
      UpdateKeeps(roll, rows, fates, r, Counted(k), TagsMore(roll.lines[k], r));
    } else {
      TagsSaysNew(r);
      NewTagLine(roll, rows, fates, r);
    }
  }

  lemma {:induction false} NewTagLine(roll: Roll, rows: seq<Row>, fates: seq<Fate>, r: Row)
    requires Inv(roll, rows, fates) && r.card !in roll.tagLines && Says(Netted(NewLine(r, Tags, "Tags"), r), [r], [])
    ensures Inv(StepTags(roll, r), rows + [r], fates + [Counted(|roll.lines|)])
  {
    hide Says;
    var n := |roll.lines|;
    AppendSays(roll, rows, fates, r, Netted(NewLine(r, Tags, "Tags"), r));
    KeyStays(roll, rows, fates, r, Counted(n));
    SameLines(Append(roll, Netted(NewLine(r, Tags, "Tags"), r)), StepTags(roll, r), rows + [r], fates + [Counted(n)]);
    hide AllSay, KeyOf, MapsOk, FatesOk;
    NewTagMaps(roll, rows, fates, r);
  }

  lemma {:induction false} NewTagMaps(roll: Roll, rows: seq<Row>, fates: seq<Fate>, r: Row)
    requires |fates| == |rows| && MapsOk(roll, rows, fates) && r.card !in roll.tagLines
    requires forall k :: 0 <= k < |roll.lines| ==>
      KeyOf(rows + [r], fates + [Counted(|roll.lines|)], k) == KeyOf(rows, fates, k)
    ensures MapsOk(StepTags(roll, r), rows + [r], fates + [Counted(|roll.lines|)])
  {
    hide KeyOf, NetAdd, NetRemove;
  }

  lemma {:induction false} StepKeeps(roll: Roll, rows: seq<Row>, fates: seq<Fate>, r: Row)
    requires Inv(roll, rows, fates)
    ensures Inv(Step(roll, r), rows + [r], fates + [FateOf(roll, r)])
  {
    SingleSays(r);
    hide Inv, Says;
    match r.kind
    case Create => AppendKeeps(roll, rows, fates, r, NewLine(r, Created, r.caption), StepCreate(roll, r));
    case Event => AppendKeeps(roll, rows, fates, r, NewLine(r, Happened, r.caption), Step(roll, r));
    case Comment => AppendKeeps(roll, rows, fates, r, CommentLine(r), StepComment(roll, r));
    case CommentEdit => EditKeeps(roll, rows, fates, r);
    case Attr =>
      if r.hidden { HiddenKeeps(roll, rows, fates, r); }
      else if PartOfCreation(roll, r) { AbsorbKeeps(roll, rows, fates, r); }
      else { AttrKeeps(roll, rows, fates, r); }
    case Tag =>
      if r.hidden { HiddenKeeps(roll, rows, fates, r); }
      else if PartOfCreation(roll, r) { AbsorbKeeps(roll, rows, fates, r); }
      else { TagsKeep(roll, rows, fates, r); }
  }

  // ------------------------------------------------------------------ the loops

  function Reversed(rows: seq<Row>): (r: seq<Row>)
    ensures |r| == |rows| && forall k :: 0 <= k < |r| ==> r[k] == rows[|rows| - 1 - k]
  {
    if rows == [] then [] else Reversed(rows[1..]) + [rows[0]]
  }

  /** The tags a row adds and takes away, against what the line has so far. */
  method NetTags(added0: set<string>, removed0: set<string>, r: Row) returns (added: set<string>, removed: set<string>)
    ensures (added, removed) == NetRemove(NetAdd((added0, removed0), r.added), r.removed)
  {
    added, removed := added0, removed0;
    for i := 0 to |r.added|
      invariant (added, removed) == NetAdd((added0, removed0), r.added[..i])
    {
      assert r.added[..i + 1][..i] == r.added[..i];
      if r.added[i] in removed { removed := removed - {r.added[i]}; } else { added := added + {r.added[i]}; }
    }
    assert r.added[..|r.added|] == r.added;
    ghost var mid := (added, removed);
    for i := 0 to |r.removed|
      invariant (added, removed) == NetRemove(mid, r.removed[..i])
    {
      assert r.removed[..i + 1][..i] == r.removed[..i];
      if r.removed[i] in added { added := added - {r.removed[i]}; } else { removed := removed + {r.removed[i]}; }
    }
    assert r.removed[..|r.removed|] == r.removed;
  }

  /** A value set while its card was made: a detail, an excerpt, or nothing. */
  method Absorb(l: Line, r: Row) returns (after: Line)
    ensures after == AbsorbInto(l, r)
  {
    after := l;
    if r.nameAttr || r.emptyNew || r.jsonNew { return; }
    if r.longNew {
      if after.body.None? { after := after.(body := Some(r.clipped)); }
    } else {
      after := after.(details := after.details + [(r.caption, r.shownNew)]);
    }
  }

  method RollAttr(roll: Roll, r: Row) returns (next: Roll)
    requires r.kind == Attr && !r.hidden && !PartOfCreation(roll, r)
    ensures next == Step(roll, r)
  {
    var key := (r.card, r.attr);
    if key in roll.attrLines {
      var k := roll.attrLines[key];
      var l := LineAt(roll, k);
      l := l.(after := r.shownNew, edited := l.edited || r.edited, count := l.count + 1, at := r.at,
              actors := AddActor(l.actors, r.actor));
      next := SetLine(roll, k, l);
    } else {
      var l := NewLine(r, Changed, r.caption);
      l := l.(before := r.shownOld, after := r.shownNew);
      if r.edited { l := l.(edited := true); }
      next := Append(roll, l).(attrLines := roll.attrLines[key := |roll.lines|]);
    }
  }

  method RollTags(roll: Roll, r: Row) returns (next: Roll)
    requires r.kind == Tag && !r.hidden && !PartOfCreation(roll, r)
    ensures next == Step(roll, r)
  {
    hide NetAdd, NetRemove;
    var k, l := |roll.lines|, NewLine(r, Tags, "Tags");
    var known := r.card in roll.tagLines;
    if known {
      k := roll.tagLines[r.card];
      l := LineAt(roll, k);
      l := l.(count := l.count + 1, at := r.at, actors := AddActor(l.actors, r.actor));
    }
    var added, removed := NetTags(l.added, l.removed, r);
    l := l.(added := added, removed := removed);
    next := if known then SetLine(roll, k, l) else Append(roll, l).(tagLines := roll.tagLines[r.card := k]);
  }

  method RollRow(roll: Roll, r: Row) returns (next: Roll)
    ensures next == Step(roll, r)
  {
    match r.kind {
      case Create =>
        next := Append(roll, NewLine(r, Created, r.caption));
        next := next.(creations := roll.creations[r.card := (|roll.lines|, r.at, r.actorId)]);
      case Event =>
        next := Append(roll, NewLine(r, Happened, r.caption));
      case Comment =>
        next := Append(roll, CommentLine(r));
        next := next.(comments := roll.comments[r.id := |roll.lines|]);
      case CommentEdit =>
        if r.target in roll.comments {
          var k := roll.comments[r.target];
          next := SetLine(roll, k, FoldInto(LineAt(roll, k), r));
        } else {
          next := Append(roll, CommentLine(r));
        }
      case _ =>
        if r.hidden { return roll; }
        if PartOfCreation(roll, r) {
          var k := roll.creations[r.card].0;
          var l := Absorb(LineAt(roll, k), r);
          return SetLine(roll, k, l);
        }
        if r.kind == Attr { next := RollAttr(roll, r); } else { next := RollTags(roll, r); }
    }
  }

  predicate Shown(l: Line) {
    l.verb != Tags || |l.added| + |l.removed| > 0
  }

  function Filter(lines: seq<Line>): seq<Line> {
    if lines == [] then []
    else Filter(lines[..|lines| - 1]) + (if Shown(lines[|lines| - 1]) then [lines[|lines| - 1]] else [])
  }

  const EMPTY := Roll([], map[], map[], map[], map[])

  /** The roll-up of rows, oldest first, and what became of each. */
  function Rolled(rows: seq<Row>): Roll {
    if rows == [] then EMPTY else Step(Rolled(rows[..|rows| - 1]), rows[|rows| - 1])
  }

  function Fates(rows: seq<Row>): (fates: seq<Fate>)
    ensures |fates| == |rows|
  {
    if rows == [] then []
    else Fates(rows[..|rows| - 1]) + [FateOf(Rolled(rows[..|rows| - 1]), rows[|rows| - 1])]
  }

  /** Every line says what its rows were, whatever the rows. */
  lemma {:induction false} LinesSay(rows: seq<Row>)
    ensures Inv(Rolled(rows), rows, Fates(rows))
  {
    if rows == [] {
      EmptyInv();
    } else {
      hide Inv, Step, FateOf;
      var init, last := rows[..|rows| - 1], rows[|rows| - 1];
      LinesSay(init);
      StepKeeps(Rolled(init), init, Fates(init), last);
      assert init + [last] == rows;
    }
  }

  /** A group's rows, newest first, as lines, oldest first; tag lines that came
      to nothing are dropped. */
  method BuildLines(rows: seq<Row>) returns (lines: seq<Line>)
    ensures lines == Filter(Rolled(Reversed(rows)).lines)
  {
    hide Step;
    var roll := EMPTY;
    for i := |rows| downto 0
      invariant roll == Rolled(Reversed(rows[i..]))
    {
      assert rows[i..][1..] == rows[i + 1..];
      assert Reversed(rows[i..])[..|rows| - 1 - i] == Reversed(rows[i + 1..]);
      roll := RollRow(roll, rows[i]);
    }
    assert rows[0..] == rows;
    lines := [];
    for k := 0 to |roll.lines|
      invariant lines == Filter(roll.lines[..k])
    {
      assert roll.lines[..k + 1][..k] == roll.lines[..k];
      if Shown(roll.lines[k]) { lines := lines + [roll.lines[k]]; }
    }
    assert roll.lines[..|roll.lines|] == roll.lines;
  }

  lemma {:induction false} EmptyInv()
    ensures Inv(EMPTY, [], [])
  {
  }

  // ------------------------------------------------------------------ accounting

  function CountFates(fates: seq<Fate>, what: Fate -> bool): nat {
    if fates == [] then 0
    else CountFates(fates[..|fates| - 1], what) + (if what(fates[|fates| - 1]) then 1 else 0)
  }

  function IsCounted(): Fate -> bool { (f: Fate) => f.Counted? }
  function IsHidden(): Fate -> bool { (f: Fate) => f.Hidden? }
  function IsAbsorbed(): Fate -> bool { (f: Fate) => f.Absorbed? }
  function IsFolded(): Fate -> bool { (f: Fate) => f.Folded? }

  function Total(lines: seq<Line>): nat {
    if lines == [] then 0 else Total(lines[..|lines| - 1]) + lines[|lines| - 1].count
  }

  /** Rows counted in the first n lines. */
  function CountedBelow(fates: seq<Fate>, n: nat): nat {
    CountFates(fates, (f: Fate) => f.Counted? && f.line < n)
  }

  lemma {:induction false} CountedInOne(rows: seq<Row>, fates: seq<Fate>, n: nat)
    requires |fates| == |rows|
    ensures CountedBelow(fates, n + 1) == CountedBelow(fates, n) + |Rows(rows, fates, Counted(n))|
  {
    if rows != [] { CountedInOne(rows[..|rows| - 1], fates[..|fates| - 1], n); }
  }

  lemma {:induction false} CountedInNone(fates: seq<Fate>)
    ensures CountedBelow(fates, 0) == 0
  {
    if fates != [] { CountedInNone(fates[..|fates| - 1]); }
  }

  lemma {:induction false} CountedInAll(fates: seq<Fate>, n: nat)
    requires FatesOk(fates, n)
    ensures CountedBelow(fates, n) == CountFates(fates, IsCounted())
  {
    if fates != [] {
      var init := fates[..|fates| - 1];
      assert forall i | 0 <= i < |init| :: init[i] == fates[i];
      CountedInAll(init, n);
    }
  }

  lemma {:induction false} TotalCounts(roll: Roll, rows: seq<Row>, fates: seq<Fate>, n: nat)
    requires Inv(roll, rows, fates) && n <= |roll.lines|
    ensures Total(roll.lines[..n]) == CountedBelow(fates, n)
  {
    if n == 0 {
      CountedInNone(fates);
    } else {
      TotalCounts(roll, rows, fates, n - 1);
      CountedInOne(rows, fates, n - 1);
      assert roll.lines[..n][..n - 1] == roll.lines[..n - 1];
      assert LineSays(roll, rows, fates, n - 1);
    }
  }

  lemma {:induction false} FatesAddUp(fates: seq<Fate>)
    ensures |fates| == CountFates(fates, IsCounted()) + CountFates(fates, IsHidden()) +
      CountFates(fates, IsAbsorbed()) + CountFates(fates, IsFolded())
  {
    if fates != [] { FatesAddUp(fates[..|fates| - 1]); }
  }

  /** Every row is in exactly one place: left out, absorbed, folded, or counted
      once in one line. */
  lemma EveryRowOnce(rows: seq<Row>)
    ensures |rows| == Total(Rolled(rows).lines) + CountFates(Fates(rows), IsHidden()) +
      CountFates(Fates(rows), IsAbsorbed()) + CountFates(Fates(rows), IsFolded())
  {
    hide Rolled, Fates;
    var roll, fates := Rolled(rows), Fates(rows);
    LinesSay(rows);
    TotalCounts(roll, rows, fates, |roll.lines|);
    assert roll.lines[..|roll.lines|] == roll.lines;
    CountedInAll(fates, |roll.lines|);
    FatesAddUp(fates);
  }

  /** A line for an attribute says first old, last new, how many, and whether a
      long text was among them. */
  lemma AttributeLine(rows: seq<Row>, k: nat)
    requires k < |Rolled(rows).lines| && Rolled(rows).lines[k].verb == Changed
    ensures var m := Rows(rows, Fates(rows), Counted(k)); var l := Rolled(rows).lines[k];
      && m != [] && l.before == m[0].shownOld && l.after == m[|m| - 1].shownNew && l.count == |m|
      && (l.edited <==> exists i :: 0 <= i < |m| && m[i].edited)
      && forall i :: 0 <= i < |m| ==> (m[i].card, m[i].attr) == KeyOf(rows, Fates(rows), k)
  {
    hide Rolled, Fates;
    LinesSay(rows);
    assert LineSays(Rolled(rows), rows, Fates(rows), k);
    hide AllSay, MapsOk, Rows, Extra, Actors;
  }

  /** There is one line for an attribute of a card, and one for a card's tags. */
  lemma OneLineEach(rows: seq<Row>, j: nat, k: nat)
    requires j < |Rolled(rows).lines| && k < |Rolled(rows).lines|
    requires Rolled(rows).lines[j].verb == Rolled(rows).lines[k].verb
    ensures Rolled(rows).lines[k].verb == Changed && KeyOf(rows, Fates(rows), j) == KeyOf(rows, Fates(rows), k) ==> j == k
    ensures Rolled(rows).lines[k].verb == Tags && Rolled(rows).lines[j].card == Rolled(rows).lines[k].card ==> j == k
  {
    hide Rolled, Fates, AllSay, KeyOf;
    LinesSay(rows);
  }

  // ------------------------------------------------------------------ net of tags

  /** A tag row as a change from one set to another. */
  ghost predicate Changes(r: Row, from: set<string>, to: set<string>) {
    Distinct(r.added) && Distinct(r.removed) && Names(r.added) == to - from && Names(r.removed) == from - to
  }

  function Names(s: seq<string>): set<string> {
    set k | 0 <= k < |s| :: s[k]
  }

  ghost predicate Distinct(s: seq<string>) {
    forall j, k :: 0 <= j < k < |s| ==> s[j] != s[k]
  }

  lemma {:induction false} NamesSnoc(s: seq<string>)
    requires s != []
    ensures Names(s) == Names(s[..|s| - 1]) + {s[|s| - 1]}
    ensures Distinct(s) ==> Distinct(s[..|s| - 1]) && s[|s| - 1] !in Names(s[..|s| - 1])
  {
    var init := s[..|s| - 1];
    assert forall k | 0 <= k < |init| :: init[k] == s[k];
  }

  lemma {:induction false} NetAddAll(net: (set<string>, set<string>), s: seq<string>)
    requires Distinct(s)
    ensures NetAdd(net, s) == (net.0 + (Names(s) - net.1), net.1 - Names(s))
  {
    if s == [] {
      assert net.0 + (Names(s) - net.1) == net.0 && net.1 - Names(s) == net.1;
    } else {
      NamesSnoc(s);
      NetAddAll(net, s[..|s| - 1]);
      AddOne(net.0, net.1, Names(s[..|s| - 1]), s[|s| - 1]);
    }
  }

  lemma {:induction false} AddOne(a: set<string>, r: set<string>, names: set<string>, x: string)
    requires x !in names
    ensures x in r ==> a + (names - r) == a + (names + {x} - r) && (r - names) - {x} == r - (names + {x})
    ensures x !in r ==> (a + (names - r)) + {x} == a + (names + {x} - r) && r - names == r - (names + {x})
  {
  }

  lemma {:induction false} NetRemoveAll(net: (set<string>, set<string>), s: seq<string>)
    requires Distinct(s)
    ensures NetRemove(net, s) == (net.0 - Names(s), net.1 + (Names(s) - net.0))
  {
    if s == [] {
      assert net.1 + (Names(s) - net.0) == net.1 && net.0 - Names(s) == net.0;
    } else {
      NamesSnoc(s);
      NetRemoveAll(net, s[..|s| - 1]);
      AddOne(net.1, net.0, Names(s[..|s| - 1]), s[|s| - 1]);
    }
  }

  /** `states[k]` is the card's tags before the k-th row, the last one after all. */
  ghost predicate History(rows: seq<Row>, states: seq<set<string>>) {
    |states| == |rows| + 1 && forall k :: 0 <= k < |rows| ==> Changes(rows[k], states[k], states[k + 1])
  }

  /** Over a consistent history the net is final minus initial and initial minus final. */
  lemma {:induction false} NetIsDifference(rows: seq<Row>, states: seq<set<string>>)
    requires History(rows, states)
    ensures Net(rows) == (states[|rows|] - states[0], states[0] - states[|rows|])
  {
    if rows != [] {
      var n := |rows| - 1;
      var init, r := rows[..n], rows[n];
      assert forall k | 0 <= k < n :: init[k] == rows[k] && Changes(rows[k], states[k], states[k + 1]);
      NetIsDifference(init, states[..n + 1]);
      assert Changes(r, states[n], states[n + 1]);
      hide Distinct, Net;
      NetAddAll((states[n] - states[0], states[0] - states[n]), r.added);
      NetRemoveAll(NetAdd((states[n] - states[0], states[0] - states[n]), r.added), r.removed);
      OneChange(states[0], states[n], states[n + 1]);
    } else {
      assert states[0] - states[0] == {};
    }
  }

  lemma {:induction false} OneChange(s: set<string>, a: set<string>, b: set<string>)
    ensures var added, removed := (a - s) + ((b - a) - (s - a)), (s - a) - (b - a);
      (added - (a - b), removed + ((a - b) - added)) == (b - s, s - b)
  {
    var added, removed := (a - s) + ((b - a) - (s - a)), (s - a) - (b - a);
    assert added - (a - b) == b - s;
    assert removed + ((a - b) - added) == s - b;
  }

  /** Over a consistent history a tag line says what came and what went; it is
      dropped exactly when nothing did. */
  lemma TagLine(rows: seq<Row>, k: nat, states: seq<set<string>>)
    requires k < |Rolled(rows).lines| && Rolled(rows).lines[k].verb == Tags
    requires History(Rows(rows, Fates(rows), Counted(k)), states)
    ensures var l := Rolled(rows).lines[k]; var last := states[|states| - 1];
      && l.added == last - states[0] && l.removed == states[0] - last && l.added !! l.removed
      && (Shown(l) <==> last != states[0])
  {
    hide Rolled, Fates;
    LinesSay(rows);
    assert LineSays(Rolled(rows), rows, Fates(rows), k);
    NetIsDifference(Rows(rows, Fates(rows), Counted(k)), states);
    hide AllSay, MapsOk, Rows, Extra, Actors, Net;
    var l, last := Rolled(rows).lines[k], states[|states| - 1];
    if last == states[0] { assert l.added == {} && l.removed == {}; }
    if |l.added| + |l.removed| == 0 { assert l.added == {} && l.removed == {} && last == states[0]; }
  }
}
