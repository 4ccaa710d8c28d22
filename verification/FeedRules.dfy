/**
 Which rows go where and what a line shows of them, told from the rows alone:
 by their place, their moment, their actor and what they carry.
 */
module FeedRules {
  import opened Prelude
  import opened FeedLines
  import opened FeedRollup

  // ---------------------------------------------------------------- where a row goes

  /** A creation is known by its card, a comment or vote by its own id. */
  predicate Marks(r: Row, kind: Kind, key: int) {
    r.kind == kind && (if kind == Create then r.card else r.id) == key
  }

  /** Row j is the last before n that made that card, or is that comment. */
  ghost predicate LastAt(rows: seq<Row>, n: int, kind: Kind, key: int, j: int) {
    0 <= j < n <= |rows| && Marks(rows[j], kind, key) && forall i :: j < i < n ==> !Marks(rows[i], kind, key)
  }

  /** Row i is a visible change made in the same moment and by the same actor as
      row j, the card's last creation before it. */
  ghost predicate SetAtCreation(rows: seq<Row>, i: int, j: int) {
    && 0 <= i < |rows| && (rows[i].kind == Attr || rows[i].kind == Tag) && !rows[i].hidden
    && LastAt(rows, i, Create, rows[i].card, j) && rows[j].at == rows[i].at && rows[j].actorId == rows[i].actorId
  }

  /** Row i edits the comment (or vote) j that came before it. */
  ghost predicate Edits(rows: seq<Row>, i: int, j: int) {
    0 <= i < |rows| && rows[i].kind == CommentEdit && LastAt(rows, i, Comment, rows[i].target, j)
  }

  function Latest(rows: seq<Row>, kind: Kind, key: int): (j: int)
    ensures -1 <= j < |rows|
  {
    if rows == [] then -1
    else if Marks(rows[|rows| - 1], kind, key) then |rows| - 1
    else Latest(rows[..|rows| - 1], kind, key)
  }

  lemma {:induction false} LatestIsLast(rows: seq<Row>, n: nat, kind: Kind, key: int)
    requires n <= |rows|
    ensures var j := Latest(rows[..n], kind, key);
      if j < 0 then forall i :: !LastAt(rows, n, kind, key, i) else LastAt(rows, n, kind, key, j)
    ensures forall i :: LastAt(rows, n, kind, key, i) ==> i == Latest(rows[..n], kind, key)
  {
    if n > 0 {
      LatestIsLast(rows, n - 1, kind, key);
      assert rows[..n][..n - 1] == rows[..n - 1];
      if !Marks(rows[n - 1], kind, key) {
        assert forall i :: LastAt(rows, n, kind, key, i) <==> LastAt(rows, n - 1, kind, key, i);
      }
    }
  }

  lemma MapsOfStep(roll: Roll, r: Row)
    ensures Step(roll, r).creations ==
      if r.kind == Create then roll.creations[r.card := (|roll.lines|, r.at, r.actorId)] else roll.creations
    ensures Step(roll, r).comments == if r.kind == Comment then roll.comments[r.id := |roll.lines|] else roll.comments
  {
    hide NetAdd, NetRemove, AddActor, FoldInto, AbsorbInto, AttrMore, AttrLine, TagsMore, CommentLine;
  }

  /** The map of creations has each card's last one, and the line it opened. */
  lemma {:induction false} CreationIs(rows: seq<Row>, card: int)
    ensures var j, made := Latest(rows, Create, card), Rolled(rows).creations;
      && (card in made <==> j >= 0)
      && (j >= 0 ==> Fates(rows)[j] == Counted(made[card].0) && made[card].1 == rows[j].at && made[card].2 == rows[j].actorId)
  {
    if rows != [] {
      var init, r := rows[..|rows| - 1], rows[|rows| - 1];
      CreationIs(init, card);
      hide Step;
      MapsOfStep(Rolled(init), r);
    }
  }

  lemma {:induction false} CommentIs(rows: seq<Row>, id: int)
    ensures var j, said := Latest(rows, Comment, id), Rolled(rows).comments;
      (id in said <==> j >= 0) && (j >= 0 ==> Fates(rows)[j] == Counted(said[id]))
  {
    if rows != [] {
      var init, r := rows[..|rows| - 1], rows[|rows| - 1];
      CommentIs(init, id);
      hide Step;
      MapsOfStep(Rolled(init), r);
    }
  }

  lemma {:induction false} FateAt(rows: seq<Row>, n: nat, i: nat)
    requires i < n <= |rows|
    ensures Fates(rows[..n])[i] == FateOf(Rolled(rows[..i]), rows[i])
  {
    assert rows[..n][..n - 1] == rows[..n - 1];
    if i < n - 1 { FateAt(rows, n - 1, i); }
  }

  lemma FatesBefore(rows: seq<Row>, i: nat, j: nat)
    requires j < i <= |rows|
    ensures Fates(rows[..i])[j] == Fates(rows)[j]
  {
    FateAt(rows, i, j);
    FateAt(rows, |rows|, j);
    assert rows[..|rows|] == rows;
  }

  lemma MadeBefore(rows: seq<Row>, i: nat, card: int) returns (j: int)
    requires i <= |rows|
    ensures var made := Rolled(rows[..i]).creations;
      && (card in made <==> j >= 0)
      && (j >= 0 ==> LastAt(rows, i, Create, card, j) && Fates(rows)[j] == Counted(made[card].0))
      && (j >= 0 ==> made[card].1 == rows[j].at && made[card].2 == rows[j].actorId)
    ensures forall k :: LastAt(rows, i, Create, card, k) ==> k == j
  {
    j := Latest(rows[..i], Create, card);
    CreationIs(rows[..i], card);
    LatestIsLast(rows, i, Create, card);
    if j >= 0 { FatesBefore(rows, i, j); }
  }

  lemma SaidBefore(rows: seq<Row>, i: nat, id: int) returns (j: int)
    requires i <= |rows|
    ensures var said := Rolled(rows[..i]).comments;
      (id in said <==> j >= 0) && (j >= 0 ==> LastAt(rows, i, Comment, id, j) && Fates(rows)[j] == Counted(said[id]))
    ensures forall k :: LastAt(rows, i, Comment, id, k) ==> k == j
  {
    j := Latest(rows[..i], Comment, id);
    CommentIs(rows[..i], id);
    LatestIsLast(rows, i, Comment, id);
    if j >= 0 { FatesBefore(rows, i, j); }
  }

  lemma AbsorbedIs(rows: seq<Row>, i: nat)
    requires i < |rows|
    ensures var fates := Fates(rows); var f := fates[i];
      && (f.Absorbed? ==> exists j :: SetAtCreation(rows, i, j))
      && (forall j :: SetAtCreation(rows, i, j) ==> f.Absorbed? && fates[j] == Counted(f.line))
  {
    hide LastAt, Fates, Rolled;
    FateAt(rows, |rows|, i);
    assert rows[..|rows|] == rows;
    var made := MadeBefore(rows, i, rows[i].card);
    InRows(rows, i);
    assert Fates(rows)[i].Absorbed? ==> SetAtCreation(rows, i, made);
  }

  lemma FoldedIs(rows: seq<Row>, i: nat)
    requires i < |rows|
    ensures var fates := Fates(rows); var f := fates[i];
      && (f.Folded? ==> exists j :: Edits(rows, i, j))
      && (forall j :: Edits(rows, i, j) ==> f.Folded? && fates[j] == Counted(f.line))
  {
    hide LastAt, Fates, Rolled, PartOfCreation;
    FateAt(rows, |rows|, i);
    assert rows[..|rows|] == rows;
    var said := SaidBefore(rows, i, rows[i].target);
    InRows(rows, i);
    assert Fates(rows)[i].Folded? ==> Edits(rows, i, said);
  }

  /** What becomes of a row.  It is left out if and only if it is hidden; joins
      the line of its card's creation if and only if it was made in the same
      moment by the same actor; is folded, if and only if it edits a comment
      before it, into that comment's line; and is counted otherwise. */
  lemma FateIs(rows: seq<Row>, i: nat)
    requires i < |rows|
    ensures var fates := Fates(rows); var f, r := fates[i], rows[i];
      && (f.Hidden? <==> (r.kind == Attr || r.kind == Tag) && r.hidden)
      && (f.Absorbed? <==> exists j :: SetAtCreation(rows, i, j))
      && (f.Folded? <==> exists j :: Edits(rows, i, j))
      && (forall j :: SetAtCreation(rows, i, j) ==> f.Absorbed? && fates[j] == Counted(f.line))
      && (forall j :: Edits(rows, i, j) ==> f.Folded? && fates[j] == Counted(f.line))
  {
    hide SetAtCreation, Edits, Fates, Rolled;
    HiddenIs(rows, i);
    AbsorbedIs(rows, i);
    FoldedIs(rows, i);
  }

  lemma HiddenIs(rows: seq<Row>, i: nat)
    requires i < |rows|
    ensures Fates(rows)[i].Hidden? <==> (rows[i].kind == Attr || rows[i].kind == Tag) && rows[i].hidden
  {
    hide PartOfCreation, Fates, Rolled;
    FateAt(rows, |rows|, i);
    assert rows[..|rows|] == rows;
  }

  lemma InRows(rows: seq<Row>, n: int)
    ensures forall kind, key, j :: LastAt(rows, n, kind, key, j) ==> 0 <= j < n <= |rows|
  {
  }

  // ------------------------------------------------------------- who shares a line

  /** Two changes of one attribute of a card, or two of a card's tags. */
  predicate Alike(a: Row, b: Row) {
    a.kind == b.kind && a.card == b.card && ((a.kind == Attr && a.attr == b.attr) || a.kind == Tag)
  }

  lemma {:induction false} RowsHas(rows: seq<Row>, fates: seq<Fate>, i: nat) returns (p: nat)
    requires |fates| == |rows| && i < |rows|
    ensures p < |Rows(rows, fates, fates[i])| && Rows(rows, fates, fates[i])[p] == rows[i]
  {
    var n := |rows| - 1;
    if i == n {
      p := |Rows(rows[..n], fates[..n], fates[i])|;
    } else {
      p := RowsHas(rows[..n], fates[..n], i);
    }
  }

  lemma {:induction false} RowsHasBoth(rows: seq<Row>, fates: seq<Fate>, i: nat, j: nat)
    requires |fates| == |rows| && i < j < |rows| && fates[i] == fates[j]
    ensures |Rows(rows, fates, fates[i])| >= 2
  {
    var n := |rows| - 1;
    if j == n {
      var p := RowsHas(rows[..n], fates[..n], i);
    } else {
      RowsHasBoth(rows[..n], fates[..n], i, j);
    }
  }

  /** The row's line is of its kind, and is the one the maps name for it. */
  lemma LineOfRow(roll: Roll, rows: seq<Row>, fates: seq<Fate>, i: nat)
    requires Inv(roll, rows, fates) && i < |rows| && fates[i].Counted?
    ensures var k, r := fates[i].line, rows[i];
      && k < |roll.lines| && roll.lines[k].card == r.card
      && (roll.lines[k].verb == Changed <==> r.kind == Attr) && (roll.lines[k].verb == Tags <==> r.kind == Tag)
      && (r.kind == Attr ==> KeyOf(rows, fates, k) == (r.card, r.attr))
      && (r.kind != Attr && r.kind != Tag ==> |Rows(rows, fates, Counted(k))| == 1)
  {
    var k := fates[i].line;
    assert LineSays(roll, rows, fates, k);
    var p := RowsHas(rows, fates, i);
    hide AllSay, MapsOk, Rows, Extra, Actors, Net, Details, FirstExcerpt, SaysComment, SaysOnce;
  }

  /** Two counted rows are in one line if and only if they change the same
      attribute of a card or the same card's tags. */
  lemma SharesALine(rows: seq<Row>, i: nat, j: nat)
    requires i < j < |rows| && Fates(rows)[i].Counted? && Fates(rows)[j].Counted?
    ensures Fates(rows)[i] == Fates(rows)[j] <==> Alike(rows[i], rows[j])
  {
    hide Fates, Rolled;
    var roll, fates := Rolled(rows), Fates(rows);
    LinesSay(rows);
    LineOfRow(roll, rows, fates, i);
    LineOfRow(roll, rows, fates, j);
    if fates[i] == fates[j] { RowsHasBoth(rows, fates, i, j); }
    hide AllSay, KeyOf, Rows;
  }

  // ------------------------------------------------------------- what a line shows

  ghost predicate Ascending(at: seq<int>, n: int) {
    forall k :: 0 <= k < |at| ==> 0 <= at[k] < n && (k > 0 ==> at[k - 1] < at[k])
  }

  lemma {:induction false} DetailsAre(m: seq<Row>) returns (at: seq<int>)
    ensures Ascending(at, |m|) && |at| == |Details(m)|
    ensures forall k :: 0 <= k < |at| ==> Details(m)[k] == (m[at[k]].caption, m[at[k]].shownNew)
    ensures forall i :: 0 <= i < |m| ==>
      (i in at <==> !m[i].nameAttr && !m[i].emptyNew && !m[i].jsonNew && !m[i].longNew)
  {
    at := [];
    if m != [] {
      var n := |m| - 1;
      assert forall i | 0 <= i < n :: m[..n][i] == m[i];
      at := DetailsAre(m[..n]);
      if !m[n].nameAttr && !m[n].emptyNew && !m[n].jsonNew && !m[n].longNew { at := at + [n]; }
    }
  }

  lemma {:induction false} ExcerptIs(m: seq<Row>)
    ensures var b := FirstExcerpt(m);
      && (b.None? <==> forall i :: 0 <= i < |m| ==> m[i].nameAttr || m[i].emptyNew || m[i].jsonNew || !m[i].longNew)
      && (b.Some? ==> exists i :: FirstLong(m, i) && b.value == m[i].clipped)
  {
    if m != [] {
      var n := |m| - 1;
      ExcerptIs(m[..n]);
      assert forall i | 0 <= i < n :: m[..n][i] == m[i];
      if FirstExcerpt(m[..n]).Some? {
        var i :| FirstLong(m[..n], i) && FirstExcerpt(m).value == m[..n][i].clipped;
        assert FirstLong(m, i);
      } else if FirstExcerpt(m).Some? {
        assert FirstLong(m, n);
      }
    }
  }

  /** The first of the rows that set a long text. */
  ghost predicate FirstLong(m: seq<Row>, i: int) {
    && 0 <= i < |m| && !m[i].nameAttr && !m[i].emptyNew && !m[i].jsonNew && m[i].longNew
    && forall j :: 0 <= j < i ==> m[j].nameAttr || m[j].emptyNew || m[j].jsonNew || !m[j].longNew
  }

  /** The line of a creation shows, of the rows that joined it, the short values
      in order and the first long text; names, empty values and structures not. */
  lemma CreationShows(rows: seq<Row>, k: nat) returns (at: seq<int>)
    requires k < |Rolled(rows).lines| && Rolled(rows).lines[k].verb == Created
    ensures var l, m := Rolled(rows).lines[k], Extra(rows, Fates(rows), k);
      && Ascending(at, |m|) && |l.details| == |at|
      && (forall p :: 0 <= p < |at| ==> l.details[p] == (m[at[p]].caption, m[at[p]].shownNew))
      && (forall i :: 0 <= i < |m| ==>
           (i in at <==> !m[i].nameAttr && !m[i].emptyNew && !m[i].jsonNew && !m[i].longNew))
      && (l.body.None? <==> forall i :: 0 <= i < |m| ==> m[i].nameAttr || m[i].emptyNew || m[i].jsonNew || !m[i].longNew)
      && (l.body.Some? ==> exists i :: FirstLong(m, i) && l.body.value == m[i].clipped)
  {
    hide Rolled, Fates, Details, FirstExcerpt;
    LinesSay(rows);
    assert LineSays(Rolled(rows), rows, Fates(rows), k);
    hide AllSay, MapsOk, Rows, Extra, Actors, Net;
    at := DetailsAre(Extra(rows, Fates(rows), k));
    ExcerptIs(Extra(rows, Fates(rows), k));
  }

  /** The last of the rows that has a text. */
  ghost predicate LastWithText(m: seq<Row>, i: int) {
    0 <= i < |m| && m[i].text != "" && forall j :: i < j < |m| ==> m[j].text == ""
  }

  lemma {:induction false} TextIs(r: Row, m: seq<Row>)
    ensures var b, all := LastText(TextOf(r), m), [r] + m;
      && (b.None? <==> forall i :: 0 <= i < |all| ==> all[i].text == "")
      && (b.Some? ==> exists i :: LastWithText(all, i) && b.value == all[i].text)
  {
    var all := [r] + m;
    if m == [] {
      if r.text != "" { assert LastWithText(all, 0); }
    } else if m[|m| - 1].text != "" {
      assert LastWithText(all, |m|);
    } else {
      var init := [r] + m[..|m| - 1];
      TextIs(r, m[..|m| - 1]);
      assert all[..|m|] == init && forall i | 0 <= i < |m| :: all[i] == init[i];
      if b :| LastWithText(init, b) && LastText(TextOf(r), m) == Some(init[b].text) { assert LastWithText(all, b); }
    }
  }

  /** The names in order of first appearance, each once. */
  ghost predicate NamesOnce(names: seq<string>, m: seq<Row>) {
    && (forall p, q :: 0 <= p < q < |names| ==> names[p] != names[q])
    && (forall i :: 0 <= i < |m| ==> m[i].actor in names)
    && (forall p :: 0 <= p < |names| ==> Appears(m, names, p))
  }

  ghost predicate Appears(m: seq<Row>, names: seq<string>, p: int) {
    exists i :: FirstOfName(m, names, p, i)
  }

  /** Row i is where the p-th name first appears; all before it are earlier names. */
  ghost predicate FirstOfName(m: seq<Row>, names: seq<string>, p: int, i: int) {
    0 <= i < |m| && 0 <= p < |names| && m[i].actor == names[p] && forall j :: 0 <= j < i ==> m[j].actor in names[..p]
  }

  lemma {:induction false} ActorsAre(m: seq<Row>)
    ensures NamesOnce(Actors(m), m)
  {
    if m != [] {
      var n := |m| - 1;
      var names, all := Actors(m[..n]), Actors(m);
      ActorsAre(m[..n]);
      assert all == if m[n].actor in names then names else names + [m[n].actor];
      hide Actors;
      assert forall i | 0 <= i < n :: m[..n][i] == m[i];
      forall p | 0 <= p < |all| ensures Appears(m, all, p) {
        if p < |names| {
          assert Appears(m[..n], names, p);
          var i :| FirstOfName(m[..n], names, p, i);
          assert all[..p] == names[..p] && FirstOfName(m, all, p, i);
        } else {
          assert all[..p] == names && FirstOfName(m, all, p, n);
        }
      }
    }
  }

  /** A comment's line shows the last text there is, how often it was edited,
      the moment of the last edit and everyone who wrote. */
  lemma CommentShows(rows: seq<Row>, k: nat)
    requires k < |Rolled(rows).lines| && Rolled(rows).lines[k].verb == Commented
    ensures var fates, l := Fates(rows), Rolled(rows).lines[k];
      var said, edits := Rows(rows, fates, Counted(k)), Extra(rows, fates, k);
      var all := said + edits;
      && |said| == 1 && l.edits == |edits| && l.at == all[|edits|].at && l.caption == said[0].caption
      && NamesOnce(l.actors, all)
      && (l.body.None? <==> forall i :: 0 <= i < |all| ==> all[i].text == "")
      && (l.body.Some? ==> exists i :: LastWithText(all, i) && l.body.value == all[i].text)
  {
    hide Rolled, Fates, LastText, Rows, Extra;
    var said, edits := Rows(rows, Fates(rows), Counted(k)), Extra(rows, Fates(rows), k);
    LinesSay(rows);
    assert LineSays(Rolled(rows), rows, Fates(rows), k);
    hide AllSay, MapsOk, Actors, Net, LastWithText, NamesOnce;
    assert [said[0]] == said;
    TextIs(said[0], edits);
    ActorsAre(said + edits);
  }

  /** A line of an attribute or of tags names everyone who changed it. */
  lemma ChangeShows(rows: seq<Row>, k: nat)
    requires k < |Rolled(rows).lines| && (Rolled(rows).lines[k].verb == Changed || Rolled(rows).lines[k].verb == Tags)
    ensures var l, m := Rolled(rows).lines[k], Rows(rows, Fates(rows), Counted(k));
      m != [] && NamesOnce(l.actors, m) && l.at == m[|m| - 1].at && l.count == |m|
  {
    hide Rolled, Fates, Rows, Extra;
    LinesSay(rows);
    assert LineSays(Rolled(rows), rows, Fates(rows), k);
    hide AllSay, MapsOk, Actors, Net, NamesOnce;
    ActorsAre(Rows(rows, Fates(rows), Counted(k)));
  }

  // -------------------------------------------------------------- what is left out

  /** Of the lines only those about tags with nothing added or removed go. */
  lemma {:induction false} FilterIs(lines: seq<Line>) returns (at: seq<int>)
    ensures Ascending(at, |lines|) && |at| == |Filter(lines)|
    ensures forall p :: 0 <= p < |at| ==> Filter(lines)[p] == lines[at[p]]
    ensures forall i :: 0 <= i < |lines| ==>
      (i !in at <==> lines[i].verb == Tags && lines[i].added == {} && lines[i].removed == {})
  {
    at := [];
    if lines != [] {
      var n := |lines| - 1;
      assert forall i | 0 <= i < n :: lines[..n][i] == lines[i];
      at := FilterIs(lines[..n]);
      if Shown(lines[n]) { at := at + [n]; }
      assert |lines[n].added| + |lines[n].removed| == 0 <==> lines[n].added == {} && lines[n].removed == {};
    }
  }
}
