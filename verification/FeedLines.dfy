/**
 Rolling a group's rows up into lines: what each row becomes, and what a line
 says of the rows it stands for.
 */
module FeedLines {
  import opened Prelude

  datatype Kind = Create | Attr | Tag | Comment | CommentEdit | Event

  /** A row with what the feed shows of it.  Kind Tag is a tag row or a change
      of the tags attribute, Comment a comment or an approval vote. */
  datatype Row = Row(
    id: int, card: int, actor: string, actorId: int, at: string,
    kind: Kind, attr: string, hidden: bool,
    nameAttr: bool, emptyNew: bool, jsonNew: bool, longNew: bool, clipped: string,
    caption: string, shownOld: string, shownNew: string, edited: bool,
    added: seq<string>, removed: seq<string>,
    text: string, target: int)

  datatype Verb = Created | Changed | Tags | Commented | Happened

  datatype Line = Line(
    verb: Verb, card: int, caption: string, before: string, after: string, edited: bool,
    added: set<string>, removed: set<string>, body: Option<string>,
    details: seq<(string, string)>, edits: nat, count: nat, actors: seq<string>, at: string)

  /** What became of a row: left out, part of a creation, an edit of a comment
      already there, or counted in a line. */
  datatype Fate = Hidden | Absorbed(line: nat) | Folded(line: nat) | Counted(line: nat)

  /** The lines so far and who they are for; the maps hold line numbers. */
  datatype Roll = Roll(
    lines: seq<Line>,
    attrLines: map<(int, string), nat>,
    tagLines: map<int, nat>,
    creations: map<int, (nat, string, int)>,
    comments: map<int, nat>)

  function AddActor(actors: seq<string>, actor: string): seq<string> {
    if actor in actors then actors else actors + [actor]
  }

  function NewLine(r: Row, verb: Verb, caption: string): Line {
    Line(verb, r.card, caption, "", "", false, {}, {}, None, [], 0, 1, [r.actor], r.at)
  }

  /** A value set by the transaction that made the card. */
  predicate PartOfCreation(roll: Roll, r: Row) {
    r.card in roll.creations && roll.creations[r.card].1 == r.at && roll.creations[r.card].2 == r.actorId
  }

  function FateOf(roll: Roll, r: Row): Fate {
    match r.kind
    case Create => Counted(|roll.lines|)
    case Event => Counted(|roll.lines|)
    case Comment => Counted(|roll.lines|)
    case CommentEdit => if r.target in roll.comments then Folded(roll.comments[r.target]) else Counted(|roll.lines|)
    case Attr =>
      if r.hidden then Hidden
      else if PartOfCreation(roll, r) then Absorbed(roll.creations[r.card].0)
      else if (r.card, r.attr) in roll.attrLines then Counted(roll.attrLines[(r.card, r.attr)])
      else Counted(|roll.lines|)
    case Tag =>
      if r.hidden then Hidden
      else if PartOfCreation(roll, r) then Absorbed(roll.creations[r.card].0)
      else if r.card in roll.tagLines then Counted(roll.tagLines[r.card])
      else Counted(|roll.lines|)
  }

  // ------------------------------------------------------- what a line must say

  /** The rows of one fate, in order. */
  function Rows(rows: seq<Row>, fates: seq<Fate>, fate: Fate): seq<Row>
    requires |fates| == |rows|
  {
    if rows == [] then []
    else Rows(rows[..|rows| - 1], fates[..|rows| - 1], fate) +
         (if fates[|rows| - 1] == fate then [rows[|rows| - 1]] else [])
  }

  function Actors(rows: seq<Row>): seq<string> {
    if rows == [] then [] else AddActor(Actors(rows[..|rows| - 1]), rows[|rows| - 1].actor)
  }

  /** Tags added and not taken away again, and the other way round. */
  function NetAdd(net: (set<string>, set<string>), names: seq<string>): (set<string>, set<string>) {
    if names == [] then net
    else
      var before, a := NetAdd(net, names[..|names| - 1]), names[|names| - 1];
      if a in before.1 then (before.0, before.1 - {a}) else (before.0 + {a}, before.1)
  }

  function NetRemove(net: (set<string>, set<string>), names: seq<string>): (set<string>, set<string>) {
    if names == [] then net
    else
      var before, a := NetRemove(net, names[..|names| - 1]), names[|names| - 1];
      if a in before.0 then (before.0 - {a}, before.1) else (before.0, before.1 + {a})
  }

  function Net(rows: seq<Row>): (set<string>, set<string>) {
    if rows == [] then ({}, {})
    else NetRemove(NetAdd(Net(rows[..|rows| - 1]), rows[|rows| - 1].added), rows[|rows| - 1].removed)
  }

  /** A creation's details: the short values it came with. */
  predicate Detail(r: Row) {
    !r.nameAttr && !r.emptyNew && !r.jsonNew && !r.longNew
  }

  predicate Excerpt(r: Row) {
    !r.nameAttr && !r.emptyNew && !r.jsonNew && r.longNew
  }

  function Details(rows: seq<Row>): seq<(string, string)> {
    if rows == [] then []
    else
      var r := rows[|rows| - 1];
      Details(rows[..|rows| - 1]) + (if Detail(r) then [(r.caption, r.shownNew)] else [])
  }

  function FirstExcerpt(rows: seq<Row>): Option<string> {
    if rows == [] then None
    else if FirstExcerpt(rows[..|rows| - 1]).Some? then FirstExcerpt(rows[..|rows| - 1])
    else if Excerpt(rows[|rows| - 1]) then Some(rows[|rows| - 1].clipped)
    else None
  }

  /** The text of the last row that has one, if any. */
  function LastText(first: Option<string>, rows: seq<Row>): Option<string> {
    if rows == [] then first
    else if rows[|rows| - 1].text != "" then Some(rows[|rows| - 1].text)
    else LastText(first, rows[..|rows| - 1])
  }

  function TextOf(r: Row): Option<string> {
    if r.text == "" then None else Some(r.text)
  }

  predicate AnyEdited(rows: seq<Row>) {
    exists k :: 0 <= k < |rows| && rows[k].edited
  }

  /** `m` are the rows counted in the line, `extra` those absorbed or folded into it. */
  ghost predicate Says(l: Line, m: seq<Row>, extra: seq<Row>) {
    && m != [] && l.count == |m|
    && (forall k :: 0 <= k < |m| ==> m[k].card == l.card)
    && l.caption == (if l.verb == Tags then "Tags" else m[0].caption)
    && match l.verb
       case Changed => SaysAttr(l, m) && extra == []
       case Tags => SaysTags(l, m) && extra == []
       case Created => |m| == 1 && m[0].kind == Create && SaysOnce(l, m[0]) && l.details == Details(extra) &&
         l.body == FirstExcerpt(extra)
       case Commented => |m| == 1 && (m[0].kind == Comment || m[0].kind == CommentEdit) && SaysComment(l, m[0], extra)
       case Happened => |m| == 1 && m[0].kind == Event && SaysOnce(l, m[0]) && extra == []
  }

  ghost predicate SaysOnce(l: Line, r: Row) {
    l.at == r.at && l.actors == [r.actor]
  }

  /** The moment is that of the last edit, the actors are all who wrote. */
  ghost predicate SaysComment(l: Line, r: Row, edits: seq<Row>) {
    && l.edits == |edits| && l.body == LastText(TextOf(r), edits)
    && l.at == (if edits == [] then r.at else edits[|edits| - 1].at) && l.actors == Actors([r] + edits)
  }

  ghost predicate SaysAttr(l: Line, m: seq<Row>)
    requires m != []
  {
    && (forall k :: 0 <= k < |m| ==> m[k].kind == Attr && m[k].attr == m[0].attr)
    && l.before == m[0].shownOld && l.after == m[|m| - 1].shownNew && (l.edited <==> AnyEdited(m))
    && l.at == m[|m| - 1].at && l.actors == Actors(m)
  }

  ghost predicate SaysTags(l: Line, m: seq<Row>)
    requires m != []
  {
    && (forall k :: 0 <= k < |m| ==> m[k].kind == Tag) && (l.added, l.removed) == Net(m)
    && l.at == m[|m| - 1].at && l.actors == Actors(m)
  }

  function Extra(rows: seq<Row>, fates: seq<Fate>, k: nat): seq<Row>
    requires |fates| == |rows|
  {
    if rows == [] then []
    else Extra(rows[..|rows| - 1], fates[..|rows| - 1], k) +
         (if fates[|rows| - 1] == Absorbed(k) || fates[|rows| - 1] == Folded(k) then [rows[|rows| - 1]] else [])
  }

  ghost predicate LineSays(roll: Roll, rows: seq<Row>, fates: seq<Fate>, k: nat)
    requires |fates| == |rows| && k < |roll.lines|
  {
    Says(roll.lines[k], Rows(rows, fates, Counted(k)), Extra(rows, fates, k))
  }

  ghost predicate AllSay(roll: Roll, rows: seq<Row>, fates: seq<Fate>)
    requires |fates| == |rows|
  {
    forall k :: 0 <= k < |roll.lines| ==> LineSays(roll, rows, fates, k)
  }

  /** The attribute a line of the feed is about. */
  function KeyOf(rows: seq<Row>, fates: seq<Fate>, k: nat): (int, string)
    requires |fates| == |rows|
  {
    var m := Rows(rows, fates, Counted(k));
    if m == [] then (0, "") else (m[0].card, m[0].attr)
  }

  /** The maps name the one line of their kind for a card (and attribute). */
  ghost predicate MapsOk(roll: Roll, rows: seq<Row>, fates: seq<Fate>)
    requires |fates| == |rows|
  {
    AttrMapOk(roll, rows, fates) && CardMapsOk(roll)
  }

  ghost predicate AttrMapOk(roll: Roll, rows: seq<Row>, fates: seq<Fate>)
    requires |fates| == |rows|
  {
    && (forall key :: key in roll.attrLines ==> IsAttrLine(roll, rows, fates, roll.attrLines[key], key))
    && (forall k :: 0 <= k < |roll.lines| && roll.lines[k].verb == Changed ==>
         KeyOf(rows, fates, k) in roll.attrLines && roll.attrLines[KeyOf(rows, fates, k)] == k)
  }

  ghost predicate CardMapsOk(roll: Roll) {
    && (forall card :: card in roll.tagLines ==> IsLine(roll, roll.tagLines[card], Tags, card))
    && (forall k :: 0 <= k < |roll.lines| && roll.lines[k].verb == Tags ==>
         roll.lines[k].card in roll.tagLines && roll.tagLines[roll.lines[k].card] == k)
    && (forall card :: card in roll.creations ==> IsLine(roll, roll.creations[card].0, Created, card))
    && (forall id :: id in roll.comments ==> roll.comments[id] < |roll.lines| && roll.lines[roll.comments[id]].verb == Commented)
  }

  ghost predicate IsLine(roll: Roll, k: nat, verb: Verb, card: int) {
    k < |roll.lines| && roll.lines[k].verb == verb && roll.lines[k].card == card
  }

  ghost predicate IsAttrLine(roll: Roll, rows: seq<Row>, fates: seq<Fate>, k: nat, key: (int, string))
    requires |fates| == |rows|
  {
    IsLine(roll, k, Changed, key.0) && KeyOf(rows, fates, k) == key
  }

  /** Every fate names a line that is there. */
  ghost predicate FatesOk(fates: seq<Fate>, n: nat) {
    forall i :: 0 <= i < |fates| && !fates[i].Hidden? ==> fates[i].line < n
  }

  // -------------------------------------------------------------------- one row

  function Append(roll: Roll, l: Line): Roll {
    roll.(lines := roll.lines + [l])
  }

  function AttrMore(l: Line, r: Row): Line {
    l.(after := r.shownNew, edited := l.edited || r.edited, count := l.count + 1, at := r.at, actors := AddActor(l.actors, r.actor))
  }

  function AttrLine(r: Row): Line {
    NewLine(r, Changed, r.caption).(before := r.shownOld, after := r.shownNew, edited := r.edited)
  }

  function Netted(l: Line, r: Row): Line {
    var net := NetRemove(NetAdd((l.added, l.removed), r.added), r.removed);
    l.(added := net.0, removed := net.1)
  }

  function TagsMore(l: Line, r: Row): Line {
    Netted(l.(count := l.count + 1, at := r.at, actors := AddActor(l.actors, r.actor)), r)
  }

  function AbsorbInto(l: Line, r: Row): Line {
    if Excerpt(r) then l.(body := if l.body.Some? then l.body else Some(r.clipped))
    else if Detail(r) then l.(details := l.details + [(r.caption, r.shownNew)])
    else l
  }

  function CommentLine(r: Row): Line {
    NewLine(r, Commented, r.caption).(body := TextOf(r))
  }

  function FoldInto(l: Line, r: Row): Line {
    l.(edits := l.edits + 1, body := if r.text != "" then Some(r.text) else l.body, at := r.at,
       actors := AddActor(l.actors, r.actor))
  }

  // ------------------------------------------------------------------ the proof

  lemma {:induction false} RowsSnoc(rows: seq<Row>, fates: seq<Fate>, r: Row, f: Fate, fate: Fate)
    requires |fates| == |rows|
    ensures Rows(rows + [r], fates + [f], fate) == Rows(rows, fates, fate) + (if f == fate then [r] else [])
  {
    assert (rows + [r])[..|rows|] == rows && (fates + [f])[..|rows|] == fates;
  }

  lemma {:induction false} ExtraSnoc(rows: seq<Row>, fates: seq<Fate>, r: Row, f: Fate, k: nat)
    requires |fates| == |rows|
    ensures Extra(rows + [r], fates + [f], k) ==
      Extra(rows, fates, k) + (if f == Absorbed(k) || f == Folded(k) then [r] else [])
  {
    assert (rows + [r])[..|rows|] == rows && (fates + [f])[..|rows|] == fates;
  }

  /** Nothing has gone into a line that is not there. */
  lemma {:induction false} NoneBeyond(rows: seq<Row>, fates: seq<Fate>, k: nat)
    requires |fates| == |rows| && FatesOk(fates, k)
    ensures Rows(rows, fates, Counted(k)) == [] && Extra(rows, fates, k) == []
  {
    if rows != [] {
      assert forall i | 0 <= i < |rows| - 1 :: fates[..|rows| - 1][i] == fates[i];
      NoneBeyond(rows[..|rows| - 1], fates[..|rows| - 1], k);
    }
  }

  lemma {:induction false} OtherLine(roll: Roll, rows: seq<Row>, fates: seq<Fate>, r: Row, f: Fate, k: nat, roll': Roll)
    requires |fates| == |rows| && k < |roll.lines| && k < |roll'.lines| && roll'.lines[k] == roll.lines[k]
    requires LineSays(roll, rows, fates, k) && (f.Hidden? || f.line != k)
    ensures LineSays(roll', rows + [r], fates + [f], k)
    ensures KeyOf(rows + [r], fates + [f], k) == KeyOf(rows, fates, k)
  {
    hide Says;
    RowsSnoc(rows, fates, r, f, Counted(k));
    ExtraSnoc(rows, fates, r, f, k);
    assert Rows(rows, fates, Counted(k)) + [] == Rows(rows, fates, Counted(k));
    assert Extra(rows, fates, k) + [] == Extra(rows, fates, k);
  }

  lemma {:induction false} AppendSays(roll: Roll, rows: seq<Row>, fates: seq<Fate>, r: Row, l: Line)
    requires |fates| == |rows| && AllSay(roll, rows, fates) && FatesOk(fates, |roll.lines|) && Says(l, [r], [])
    ensures AllSay(Append(roll, l), rows + [r], fates + [Counted(|roll.lines|)])
    ensures FatesOk(fates + [Counted(|roll.lines|)], |roll.lines| + 1)
    ensures KeyOf(rows + [r], fates + [Counted(|roll.lines|)], |roll.lines|) == (r.card, r.attr)
  {
    hide Says;
    var n, f := |roll.lines|, Counted(|roll.lines|);
    NoneBeyond(rows, fates, n);
    RowsSnoc(rows, fates, r, f, f);
    ExtraSnoc(rows, fates, r, f, n);
    assert [] + [r] == [r] && [] + [] == Extra(rows, fates, n);
    hide Rows, Extra;
    forall k | 0 <= k < n + 1 ensures LineSays(Append(roll, l), rows + [r], fates + [f], k) {
      if k < n {
        assert LineSays(roll, rows, fates, k);
        OtherLine(roll, rows, fates, r, f, k, Append(roll, l));
      }
    }
  }

  lemma {:induction false} UpdateSays(roll: Roll, rows: seq<Row>, fates: seq<Fate>, r: Row, f: Fate, l: Line)
    requires |fates| == |rows| && AllSay(roll, rows, fates) && FatesOk(fates, |roll.lines|)
    requires !f.Hidden? && f.line < |roll.lines|
    requires var m, extra := Rows(rows, fates, Counted(f.line)), Extra(rows, fates, f.line);
      if f.Counted? then Says(l, m + [r], extra) else Says(l, m, extra + [r])
    ensures AllSay(roll.(lines := roll.lines[f.line := l]), rows + [r], fates + [f])
    ensures FatesOk(fates + [f], |roll.lines|)
  {
    hide Says;
    var k, after := f.line, roll.(lines := roll.lines[f.line := l]);
    RowsSnoc(rows, fates, r, f, Counted(k));
    ExtraSnoc(rows, fates, r, f, k);
    assert Rows(rows, fates, Counted(k)) + [] == Rows(rows, fates, Counted(k));
    assert Extra(rows, fates, k) + [] == Extra(rows, fates, k);
    hide Rows, Extra;
    forall j | 0 <= j < |roll.lines| ensures LineSays(after, rows + [r], fates + [f], j) {
      if j != k {
        assert LineSays(roll, rows, fates, j);
        OtherLine(roll, rows, fates, r, f, j, after);
      }
    }
  }

  /** A line keeps its key while rows come in. */
  lemma {:induction false} KeyStays(roll: Roll, rows: seq<Row>, fates: seq<Fate>, r: Row, f: Fate)
    requires |fates| == |rows| && AllSay(roll, rows, fates)
    ensures forall k :: 0 <= k < |roll.lines| ==> KeyOf(rows + [r], fates + [f], k) == KeyOf(rows, fates, k)
  {
    forall k | 0 <= k < |roll.lines| ensures KeyOf(rows + [r], fates + [f], k) == KeyOf(rows, fates, k) {
      assert LineSays(roll, rows, fates, k);
      RowsSnoc(rows, fates, r, f, Counted(k));
    }
  }

  // ------------------------------------------------------------ each kind of row

  lemma {:induction false} AttrSaysMore(l: Line, m: seq<Row>, r: Row)
    requires Says(l, m, []) && l.verb == Changed && r.kind == Attr && (r.card, r.attr) == (m[0].card, m[0].attr)
    ensures Says(AttrMore(l, r), m + [r], [])
  {
    var more := m + [r];
    assert more[..|m|] == m && more[|m|] == r;
    assert forall k | 0 <= k < |m| :: more[k] == m[k];
    if AnyEdited(m) {
      var k :| 0 <= k < |m| && m[k].edited;
      assert more[k].edited;
    }
    if r.edited { assert more[|m|].edited; }
    if AnyEdited(more) && !r.edited {
      var k :| 0 <= k < |more| && more[k].edited;
      assert m[k].edited;
    }
  }

  lemma {:induction false} AttrSaysNew(r: Row)
    requires r.kind == Attr
    ensures Says(AttrLine(r), [r], [])
  {
    assert [r][..0] == [] && Actors([]) == [];
    if AnyEdited([r]) { var k :| 0 <= k < 1 && [r][k].edited; }
    if r.edited { assert [r][0].edited; }
  }

  lemma {:induction false} TagsSaysMore(l: Line, m: seq<Row>, r: Row)
    requires Says(l, m, []) && l.verb == Tags && r.kind == Tag && r.card == l.card
    ensures Says(TagsMore(l, r), m + [r], [])
  {
    hide NetAdd, NetRemove, AddActor;
    var more := m + [r];
    assert more[..|m|] == m && more[|m|] == r;
    assert forall k | 0 <= k < |m| :: more[k] == m[k];
  }

  lemma {:induction false} TagsSaysNew(r: Row)
    requires r.kind == Tag
    ensures Says(Netted(NewLine(r, Tags, "Tags"), r), [r], [])
  {
    hide NetAdd, NetRemove;
    assert [r][..0] == [] && Actors([]) == [] && Net([]) == ({}, {});
  }

  lemma {:induction false} AbsorbSays(l: Line, m: seq<Row>, extra: seq<Row>, r: Row)
    requires Says(l, m, extra) && l.verb == Created
    ensures Says(AbsorbInto(l, r), m, extra + [r])
  {
    assert (extra + [r])[..|extra|] == extra;
  }

  lemma {:induction false} FoldSays(l: Line, m: seq<Row>, extra: seq<Row>, r: Row)
    requires Says(l, m, extra) && l.verb == Commented
    ensures Says(FoldInto(l, r), m, extra + [r])
  {
    assert (extra + [r])[..|extra|] == extra;
    assert ([m[0]] + (extra + [r]))[..|extra| + 1] == [m[0]] + extra;
  }

  lemma {:induction false} SingleSays(r: Row)
    ensures r.kind == Create ==> Says(NewLine(r, Created, r.caption), [r], [])
    ensures r.kind == Comment || r.kind == CommentEdit ==> Says(CommentLine(r), [r], [])
    ensures r.kind == Event ==> Says(NewLine(r, Happened, r.caption), [r], [])
  {
  }
}
