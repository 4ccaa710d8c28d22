/**
 What a reader makes of one line of escaped text: the inline rules of the
 markdown-it the web client renders with (backslash escapes, entity references
 and strikethrough), and exactly which texts the inline escaper gets through.
 */
module InlineText {
  import opened Prelude
  import opened CodeSpan

  /** The references with a name, and which characters are white space or
      punctuation. */
  datatype Reader = Reader(names: set<string>, space: char -> bool, punct: char -> bool) {
    ghost predicate Valid() {
      forall c :: Punctuation(c) ==> punct(c) && !space(c)
    }
  }

  // ------------------------------------------------------------ entity references

  predicate Digit(c: char) {
    '0' <= c <= '9'
  }

  predicate HexDigit(c: char) {
    Digit(c) || 'a' <= c <= 'f' || 'A' <= c <= 'F'
  }

  predicate InReference(c: char) {
    Digit(c) || 'a' <= c <= 'z' || 'A' <= c <= 'Z' || c == '#'
  }

  /** What stands before the first ';', if nothing but a reference can. */
  function Body(s: string): (b: Option<string>)
    ensures b.Some? ==> |b.value| < |s|
  {
    if s == "" then None
    else if s[0] == ';' then Some("")
    else if !InReference(s[0]) then None
    else
      match Body(s[1..])
      case None => None
      case Some(rest) => Some([s[0]] + rest)
  }

  /** #123, #x1F600, or a name there is. */
  predicate IsReference(r: Reader, body: string) {
    body in r.names ||
    (2 <= |body| <= 8 && body[0] == '#' && forall k :: 1 <= k < |body| ==> Digit(body[k])) ||
    (3 <= |body| <= 8 && body[0] == '#' && body[1] in "xX" && forall k :: 2 <= k < |body| ==> HexDigit(body[k]))
  }

  /** The text starts with an entity reference. */
  predicate Refers(r: Reader, s: string) {
    s != "" && s[0] == '&' && Body(s[1..]).Some? && IsReference(r, Body(s[1..]).value)
  }

  // --------------------------------------------------------------- strikethrough

  function Tildes(s: string): (n: nat)
    ensures n <= |s| && (forall k :: 0 <= k < n ==> s[k] == '~') && (n < |s| ==> s[n] != '~')
  {
    if s == "" || s[0] != '~' then 0 else 1 + Tildes(s[1..])
  }

  /** A run of two tildes or more between these characters can open or close. */
  predicate CanOpen(r: Reader, before: char, after: char) {
    !r.space(after) && (!r.punct(after) || r.space(before) || r.punct(before))
  }

  predicate CanClose(r: Reader, before: char, after: char) {
    !r.space(before) && (!r.punct(before) || r.space(after) || r.punct(after))
  }

  function First(s: string): char {
    if s == "" then ' ' else s[0]
  }

  predicate Escapes(s: string) {
    |s| > 1 && s[0] == '\\' && Punctuation(s[1])
  }

  /** Reading on behind `before`, with a run seen that can open or not: some run
      closes an earlier one. */
  predicate Strikes(r: Reader, before: char, s: string, ready: bool)
    decreases |s|
  {
    if s == "" then false
    else if Escapes(s) then Strikes(r, s[1], s[2..], ready)
    else if s[0] != '~' then Strikes(r, s[0], s[1..], ready)
    else
      var n, after := Tildes(s), First(s[Tildes(s)..]);
      (n >= 2 && ready && CanClose(r, before, after)) ||
      Strikes(r, '~', s[n..], ready || (n >= 2 && CanOpen(r, before, after)))
  }

  // ---------------------------------------------------------------------- reading

  /** What starts, or could start, a code span, emphasis, a link or a tag. */
  predicate Marks(c: char) {
    c == '`' || c == '*' || c == '_' || c == '[' || c == ']' || c == '<'
  }

  /** The characters shown, if all that is there is characters. */
  function Shows(r: Reader, s: string): Option<string>
    decreases |s|
  {
    if s == "" then Some("")
    else if Escapes(s) then Prefixed(s[1], Shows(r, s[2..]))
    else if Marks(s[0]) || Converted(s[0]) || Refers(r, s) then None
    else Prefixed(s[0], Shows(r, s[1..]))
  }

  function Prefixed(c: char, rest: Option<string>): Option<string> {
    if rest.None? then None else Some([c] + rest.value)
  }

  /** One line as a reader takes it: None when it is more than its characters. */
  function ReadLine(r: Reader, s: string): Option<string> {
    if Strikes(r, ' ', s, false) then None else Shows(r, s)
  }

  // ------------------------------------------------- what comes through, on the text

  predicate IsRun(s: string, i: int, j: int) {
    && 0 <= i < j <= |s| && (forall k :: i <= k < j ==> s[k] == '~')
    && (i > 0 ==> s[i - 1] != '~') && (j < |s| ==> s[j] != '~')
  }

  function Before(s: string, i: int): char {
    if 0 < i <= |s| then s[i - 1] else ' '
  }

  function After(s: string, j: int): char {
    if 0 <= j < |s| then s[j] else ' '
  }

  predicate OpensAt(r: Reader, s: string, i: int, j: int) {
    IsRun(s, i, j) && j - i >= 2 && CanOpen(r, Before(s, i), After(s, j))
  }

  predicate ClosesAt(r: Reader, s: string, i: int, j: int) {
    IsRun(s, i, j) && j - i >= 2 && CanClose(r, Before(s, i), After(s, j))
  }

  /** Two runs of tildes, the first able to open and the second to close. */
  ghost predicate Struck(r: Reader, s: string) {
    exists i, j, k, l :: OpensAt(r, s, i, j) && ClosesAt(r, s, k, l) && j <= k
  }

  ghost predicate Refs(r: Reader, s: string) {
    exists k :: 0 <= k < |s| && Refers(r, s[k..])
  }

  /** Escaping what precedes does not show in what a reference is. */
  lemma {:induction false} SameBody(s: string)
    ensures Body(Escape(s)) == Body(s)
  {
    if s != "" {
      SameBody(s[1..]);
      if !Special(s[0]) { assert Escape(s)[1..] == Escape(s[1..]); }
    }
  }

  lemma SameRefers(r: Reader, s: string)
    requires s != "" && !Special(s[0])
    ensures Refers(r, Escape(s)) <==> Refers(r, s)
  {
    SameBody(s[1..]);
    assert Escape(s)[0] == s[0] && Escape(s)[1..] == Escape(s[1..]);
  }

  lemma EscapedSpecial(s: string)
    requires s != "" && Special(s[0])
    ensures Escapes(Escape(s)) && Escape(s)[1] == s[0] && Escape(s)[2..] == Escape(s[1..])
  {
  }

  lemma EscapedPlain(s: string)
    requires s != "" && !Special(s[0])
    ensures !Escapes(Escape(s)) && Escape(s)[0] == s[0] && Escape(s)[1..] == Escape(s[1..])
  {
  }

  /** The escaped text shows its characters exactly when none is converted and no
      entity reference is among them. */
  lemma {:induction false} EscapedShows(r: Reader, s: string)
    ensures Shows(r, Escape(s)) == if (forall c :: c in s ==> !Converted(c)) && !Refs(r, s) then Some(s) else None
  {
    if s == "" {
    } else {
      var rest := s[1..];
      EscapedShows(r, rest);
      RefsSplit(r, s);
      assert s == [s[0]] + rest && forall c :: c in s <==> c == s[0] || c in rest;
      hide Refers, Refs;
      if Special(s[0]) {
        EscapedSpecial(s);
        NoReference(r, s);
      } else {
        EscapedPlain(s);
        SameRefers(r, s);
      }
    }
  }

  lemma NoReference(r: Reader, s: string)
    requires s != "" && Special(s[0])
    ensures !Refers(r, s)
  {
  }

  lemma RefsSplit(r: Reader, s: string)
    requires s != ""
    ensures Refs(r, s) <==> Refers(r, s) || Refs(r, s[1..])
  {
    hide Refers;
    assert s[0..] == s;
    if k :| 0 <= k < |s| && Refers(r, s[k..]) {
      if k > 0 { assert s[1..][k - 1..] == s[k..]; }
    }
    if k :| 0 <= k < |s[1..]| && Refers(r, s[1..][k..]) { assert s[1..][k..] == s[k + 1..]; }
  }

  // ---------------------------------------------------------- runs, as escaped and not

  /** The same reading without escapes. */
  predicate Bare(r: Reader, before: char, s: string, ready: bool)
    decreases |s|
  {
    if s == "" then false
    else if s[0] != '~' then Bare(r, s[0], s[1..], ready)
    else
      var n, after := Tildes(s), First(s[Tildes(s)..]);
      (n >= 2 && ready && CanClose(r, before, after)) ||
      Bare(r, '~', s[n..], ready || (n >= 2 && CanOpen(r, before, after)))
  }

  lemma {:induction false} EscapedTildes(s: string)
    ensures Tildes(Escape(s)) == Tildes(s) && Escape(s)[Tildes(s)..] == Escape(s[Tildes(s)..])
  {
    if s != "" && s[0] == '~' {
      EscapedPlain(s);
      EscapedTildes(s[1..]);
      var e, n := Escape(s), Tildes(s[1..]);
      assert e[n + 1..] == e[1..][n..] && s[n + 1..] == s[1..][n..];
    } else if s != "" {
      assert Escape(s)[0..] == Escape(s) && s[0..] == s;
    }
  }

  /** An escaped character and its backslash are both punctuation. */
  lemma SameFlanks(r: Reader, before: char, s: string)
    requires r.Valid()
    ensures CanOpen(r, before, First(Escape(s))) == CanOpen(r, before, First(s))
    ensures CanClose(r, before, First(Escape(s))) == CanClose(r, before, First(s))
  {
    if s != "" && Special(s[0]) {
      EscapedSpecial(s);
      assert Punctuation(s[0]) && Punctuation('\\');
    }
  }

  lemma {:induction false} EscapedStrikes(r: Reader, before: char, s: string, ready: bool)
    requires r.Valid()
    ensures Strikes(r, before, Escape(s), ready) == Bare(r, before, s, ready)
    decreases |s|
  {
    hide CanOpen, CanClose;
    if s == "" {
    } else if Special(s[0]) {
      EscapedSpecial(s);
      EscapedStrikes(r, s[0], s[1..], ready);
    } else if s[0] != '~' {
      EscapedPlain(s);
      EscapedStrikes(r, s[0], s[1..], ready);
    } else {
      EscapedPlain(s);
      EscapedTildes(s);
      var n, after := Tildes(s), First(s[Tildes(s)..]);
      SameFlanks(r, before, s[n..]);
      EscapedStrikes(r, '~', s[n..], ready || (n >= 2 && CanOpen(r, before, after)));
    }
  }

  /** From some place on: a run closes, after one that ready before or there. */
  ghost predicate StruckFrom(r: Reader, s: string, from: nat, ready: bool) {
    exists k, l :: from <= k && ClosesAt(r, s, k, l) && (ready || OpensBetween(r, s, from, k))
  }

  ghost predicate OpensBetween(r: Reader, s: string, from: nat, k: int) {
    exists i, j :: from <= i && OpensAt(r, s, i, j) && j <= k
  }

  /** Reading on finds exactly the runs there are. */
  lemma {:induction false} BareIsStruck(r: Reader, s: string, from: nat, ready: bool)
    requires from <= |s| && (from > 0 && s[from - 1] == '~' ==> After(s, from) != '~')
    ensures Bare(r, Before(s, from), s[from..], ready) <==> StruckFrom(r, s, from, ready)
    decreases |s| - from
  {
    hide CanOpen, CanClose, OpensAt, ClosesAt, StruckFrom, IsRun;
    var rest := s[from..];
    if from == |s| {
      NothingStruck(r, s, ready);
    } else if s[from] != '~' {
      assert rest[1..] == s[from + 1..];
      BareIsStruck(r, s, from + 1, ready);
      NoRunAt(r, s, from, ready);
    } else {
      var n := Tildes(rest);
      RunAt(r, s, from);
      assert rest[n..] == s[from + n..];
      BareIsStruck(r, s, from + n, ready || OpensAt(r, s, from, from + n));
      OverRun(r, s, from, from + n, ready);
    }
  }

  lemma NothingStruck(r: Reader, s: string, ready: bool)
    ensures !StruckFrom(r, s, |s|, ready)
  {
    hide CanOpen, CanClose;
  }

  lemma RunAt(r: Reader, s: string, from: nat)
    requires from < |s| && s[from] == '~' && (from > 0 ==> s[from - 1] != '~')
    ensures var n := Tildes(s[from..]);
      && 0 < n <= |s| - from && IsRun(s, from, from + n) && s[from + n - 1] == '~' && After(s, from + n) != '~'
      && First(s[from..][n..]) == After(s, from + n)
      && (OpensAt(r, s, from, from + n) <==> n >= 2 && CanOpen(r, Before(s, from), After(s, from + n)))
      && (ClosesAt(r, s, from, from + n) <==> n >= 2 && CanClose(r, Before(s, from), After(s, from + n)))
  {
    hide CanOpen, CanClose;
    var n := Tildes(s[from..]);
    forall k | from <= k < from + n ensures s[k] == '~' { assert s[from..][k - from] == s[k]; }
  }

  lemma NoRunAt(r: Reader, s: string, from: nat, ready: bool)
    requires from < |s| && s[from] != '~'
    ensures StruckFrom(r, s, from, ready) <==> StruckFrom(r, s, from + 1, ready)
  {
    hide CanOpen, CanClose;
    if k, l :| from <= k && ClosesAt(r, s, k, l) && (ready || OpensBetween(r, s, from, k)) {
      if !ready {
        var i, j :| from <= i && OpensAt(r, s, i, j) && j <= k;
        assert OpensBetween(r, s, from + 1, k);
      }
    }
    if k, l :| from + 1 <= k && ClosesAt(r, s, k, l) && (ready || OpensBetween(r, s, from + 1, k)) {
      if !ready {
        var i, j :| from + 1 <= i && OpensAt(r, s, i, j) && j <= k;
        assert OpensBetween(r, s, from, k);
      }
    }
  }

  /** The run at `from` ends at `to`: it closes, or may open for what follows. */
  lemma OverRun(r: Reader, s: string, from: nat, to: nat, ready: bool)
    requires IsRun(s, from, to)
    ensures StruckFrom(r, s, from, ready) <==>
      (ready && ClosesAt(r, s, from, to)) || StruckFrom(r, s, to, ready || OpensAt(r, s, from, to))
  {
    hide CanOpen, CanClose;
    forall i, j | from <= i < to && IsRun(s, i, j) ensures i == from && j == to { OneRun(s, from, to, i, j); }
    if k, l :| from <= k && ClosesAt(r, s, k, l) && (ready || OpensBetween(r, s, from, k)) {
      if !ready {
        var i, j :| from <= i && OpensAt(r, s, i, j) && j <= k;
        if i >= to { assert OpensBetween(r, s, to, k); }
      }
    }
    if k, l :| to <= k && ClosesAt(r, s, k, l) && (ready || OpensAt(r, s, from, to) || OpensBetween(r, s, to, k)) {
      if !ready && OpensAt(r, s, from, to) { assert OpensBetween(r, s, from, k); }
      if !ready && OpensBetween(r, s, to, k) {
        var i, j :| to <= i && OpensAt(r, s, i, j) && j <= k;
        assert OpensBetween(r, s, from, k);
      }
    }
  }

  lemma OneRun(s: string, from: nat, to: nat, i: int, j: int)
    requires IsRun(s, from, to) && from <= i < to && IsRun(s, i, j)
    ensures i == from && j == to
  {
  }

  /** The inline escaper's text reads back as written exactly when the text has no
      line ending or NUL, no entity reference, and no two runs of tildes of which
      the first can open and the second close: '&' and '~' go unescaped. */
  lemma EscapedReadsBack(r: Reader, s: string)
    requires r.Valid()
    ensures ReadLine(r, Escape(s)) == Some(s) <==>
      (forall c :: c in s ==> !Converted(c)) && !Refs(r, s) && !Struck(r, s)
  {
    hide OpensAt, ClosesAt;
    EscapedShows(r, s);
    EscapedStrikes(r, ' ', s, false);
    assert s[0..] == s;
    BareIsStruck(r, s, 0, false);
    if i, j, k, l :| OpensAt(r, s, i, j) && ClosesAt(r, s, k, l) && j <= k {
      StruckAnywhere(r, s, i, j, k, l);
    }
  }

  lemma StruckAnywhere(r: Reader, s: string, i: int, j: int, k: int, l: int)
    requires OpensAt(r, s, i, j) && ClosesAt(r, s, k, l) && j <= k
    ensures StruckFrom(r, s, 0, false)
  {
    assert OpensBetween(r, s, 0, k);
  }

  /** So escaping is not enough for these two. */
  lemma NotAllReadsBack(r: Reader)
    requires r.Valid() && "lt" in r.names && !r.space('a') && !r.punct('a')
    ensures ReadLine(r, Escape("&lt;")) != Some("&lt;") && ReadLine(r, Escape("~~a~~")) != Some("~~a~~")
  {
    var entity, struck := "&lt;", "~~a~~";
    EscapedReadsBack(r, entity);
    assert entity[0..] == entity && entity[1..] == "lt;" && Body("lt;") == Some("lt") by {
      assert "lt;"[1..] == "t;" && "t;"[1..] == ";" && "lt" == ['l'] + (['t'] + "");
    }
    assert Refers(r, entity[0..]);
    EscapedReadsBack(r, struck);
    assert OpensAt(r, struck, 0, 2) && ClosesAt(r, struck, 3, 5);
  }
}
