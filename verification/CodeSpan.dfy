/**
 Literal text in Markdown: code spans, fences and escapes, and the reader's
 rules they are written for (CommonMark sections 2.4, 4.5 and 6.1).
 */
module CodeSpan {
  import opened Prelude

  function Ticks(n: nat): (s: string)
    ensures |s| == n && forall k :: 0 <= k < n ==> s[k] == '`'
  {
    seq(n, i => '`')
  }

  /** Backticks at the end, at the front, and the longest run anywhere. */
  function Trail(s: string): (n: nat)
    ensures n <= |s|
  {
    if s == "" || s[|s| - 1] != '`' then 0 else 1 + Trail(s[..|s| - 1])
  }

  function Lead(s: string): (n: nat)
    ensures n <= |s|
    ensures forall k :: 0 <= k < n ==> s[k] == '`'
    ensures n < |s| ==> s[n] != '`'
  {
    if s == "" || s[0] != '`' then 0 else 1 + Lead(s[1..])
  }

  function Longest(s: string): nat {
    if s == "" then 0
    else
      var before := Longest(s[..|s| - 1]);
      if Trail(s) > before then Trail(s) else before
  }

  method LongestRun(s: string) returns (best: nat)
    ensures best == Longest(s)
  {
    best := 0;
    var cur := 0;
    for i := 0 to |s|
      invariant best == Longest(s[..i]) && cur == Trail(s[..i])
    {
      assert s[..i + 1][..i] == s[..i];
      if s[i] == '`' {
        cur := cur + 1;
        if cur > best { best := cur; }
      } else {
        cur := 0;
      }
    }
    assert s[..|s|] == s;
  }

  ghost predicate TicksAt(s: string, i: int, n: int) {
    0 <= i && 0 <= n && i + n <= |s| && forall k :: i <= k < i + n ==> s[k] == '`'
  }

  lemma {:induction false} TrailIsLast(s: string, i: nat)
    requires i <= |s| && TicksAt(s, i, |s| - i)
    ensures |s| - i <= Trail(s)
  {
    if i < |s| { TrailIsLast(s[..|s| - 1], i); }
  }

  lemma {:induction false} TrailIsTicks(s: string)
    ensures TicksAt(s, |s| - Trail(s), Trail(s))
  {
    if s != "" && s[|s| - 1] == '`' {
      var init := s[..|s| - 1];
      TrailIsTicks(init);
      forall k | |s| - Trail(s) <= k < |s| ensures s[k] == '`' {
        if k < |s| - 1 { assert s[k] == init[k]; }
      }
    }
  }

  /** The true maximum: some run is that long, and none is longer. */
  lemma {:induction false} LongestIsMax(s: string)
    ensures forall i, n :: TicksAt(s, i, n) ==> n <= Longest(s)
    ensures exists i :: TicksAt(s, i, Longest(s))
  {
    if s == "" {
      assert TicksAt(s, 0, 0);
    } else {
      var init := s[..|s| - 1];
      LongestIsMax(init);
      forall i, n | TicksAt(s, i, n) ensures n <= Longest(s) {
        if i + n == |s| { TrailIsLast(s, i); } else { assert TicksAt(init, i, n); }
      }
      if Longest(s) == Trail(s) {
        TrailIsTicks(s);
      } else {
        var i :| TicksAt(init, i, Longest(init));
        assert TicksAt(s, i, Longest(s));
      }
    }
  }

  // ------------------------------------------------------------------ code spans

  /** Edge backticks need a space between them and the delimiter. */
  function Padded(t: string): string {
    if t != "" && (t[0] == '`' || t[|t| - 1] == '`') then " " + t + " " else t
  }

  function InlineCode(t: string): string {
    if t == "" then ""
    else Ticks(Longest(t) + 1) + Padded(t) + Ticks(Longest(t) + 1)
  }

  /** Where the first run of exactly n backticks starts. */
  function Close(s: string, n: nat): (i: Option<nat>)
    ensures i.Some? ==> i.value <= |s|
    decreases |s|
  {
    if s == "" then None
    else
      var m := Lead(s);
      if m == 0 then Shift(Close(s[1..], n), 1)
      else if m == n then Some(0)
      else Shift(Close(s[m..], n), m)
  }

  function Shift(i: Option<nat>, off: nat): Option<nat> {
    if i.Some? then Some(i.value + off) else None
  }

  /** A line ending is "\n", "\r" or the two together, and reads as a space; a NUL
      reads as a replacement character (CommonMark sections 2.1, 2.3 and 6.1). */
  function Spaced(s: string): string {
    if s == "" then ""
    else if s[0] == '\r' && |s| > 1 && s[1] == '\n' then " " + Spaced(s[2..])
    else [if s[0] == '\n' || s[0] == '\r' then ' ' else if s[0] == '\0' then '\U{FFFD}' else s[0]] + Spaced(s[1..])
  }

  /** A space at both ends, and something else between. */
  predicate Strippable(s: string) {
    |s| > 2 && s[0] == ' ' && s[|s| - 1] == ' ' && exists k :: 0 <= k < |s| && s[k] != ' '
  }

  /** What a reader shows for a code span's contents. */
  function Shown(content: string): string {
    var s := Spaced(content);
    if Strippable(s) then s[1..|s| - 1] else s
  }

  /** Reading a text that starts with a code span: its contents, and what follows. */
  function ReadSpan(s: string): Option<(string, string)> {
    var n := Lead(s);
    var i := Close(s[n..], n);
    if n == 0 || i.None? || n + i.value + n > |s| then None
    else Some((Shown(s[n..n + i.value]), s[n + i.value + n..]))
  }

  lemma {:induction false} LeadIs(s: string, n: nat)
    requires n <= |s| && (forall k :: 0 <= k < n ==> s[k] == '`') && (n < |s| ==> s[n] != '`')
    ensures Lead(s) == n
  {
    if n > 0 { LeadIs(s[1..], n - 1); }
  }

  lemma {:induction false} LeadOfTicks(n: nat, rest: string)
    requires rest == "" || rest[0] != '`'
    ensures Lead(Ticks(n) + rest) == n
  {
    LeadIs(Ticks(n) + rest, n);
  }

  /** Short runs do not close; the first that does is the delimiter's. */
  lemma {:induction false} ClosesAtTheEnd(body: string, n: nat)
    requires n > 0 && (body != "" ==> body[|body| - 1] != '`')
    requires forall i, m :: TicksAt(body, i, m) ==> m < n
    ensures Close(body + Ticks(n), n) == Some(|body|)
    decreases |body|
  {
    var s := body + Ticks(n);
    if body == "" {
      LeadOfTicks(n, "");
      assert s == Ticks(n) + "" && s == Ticks(n);
    } else {
      var m := if body[0] == '`' then Lead(body) else 1;
      assert body[|body| - 1] != '`' && Lead(body) < |body|;
      SameLead(body, Ticks(n));
      assert TicksAt(body, 0, Lead(body));
      assert s[m..] == body[m..] + Ticks(n);
      forall i, k | TicksAt(body[m..], i, k) ensures k < n {
        assert TicksAt(body, i + m, k);
      }
      ClosesAtTheEnd(body[m..], n);
    }
  }

  lemma {:induction false} SameLead(a: string, b: string)
    requires Lead(a) < |a|
    ensures Lead(a + b) == Lead(a)
  {
    LeadIs(a + b, Lead(a));
  }

  lemma PaddedHasNoLongRun(t: string, i: int, m: int)
    requires t != "" && TicksAt(Padded(t), i, m)
    ensures m <= Longest(t)
  {
    LongestIsMax(t);
    if Padded(t) != t && m > 0 {
      var p := Padded(t);
      assert p[i] == '`' && p[i + m - 1] == '`' && p[0] == ' ' && p[|p| - 1] == ' ';
      forall k | i - 1 <= k < i - 1 + m ensures t[k] == '`' { assert p[k + 1] == t[k]; }
      assert TicksAt(t, i - 1, m);
    }
  }

  lemma TakeApart(n: nat, p: string)
    ensures var s := Ticks(n) + p + Ticks(n);
      && s == Ticks(n) + (p + Ticks(n)) && s[n..] == p + Ticks(n) && |s| == n + |p| + n
      && s[n..n + |p|] == p && s[n + |p| + n..] == ""
  {
  }

  lemma PaddedEdges(t: string)
    requires t != ""
    ensures var p := Padded(t); p != "" && p[0] != '`' && p[|p| - 1] != '`'
  {
  }

  /** What is written for t is one code span, and nothing of t ends it early. */
  lemma SpanIsWhole(t: string)
    requires t != ""
    ensures ReadSpan(InlineCode(t)) == Some((Shown(Padded(t)), ""))
  {
    hide Longest, Close, Lead, Padded, Shown, ReadSpan;
    var n, p := Longest(t) + 1, Padded(t);
    PaddedEdges(t);
    TakeApart(n, p);
    LeadOfTicks(n, p + Ticks(n));
    forall i, m | TicksAt(p, i, m) ensures m < n { PaddedHasNoLongRun(t, i, m); }
    ClosesAtTheEnd(p, n);
    ReadsAs(Ticks(n) + p + Ticks(n), n, p, "");
  }

  lemma ReadsAs(s: string, n: nat, content: string, rest: string)
    requires Lead(s) == n > 0 && Close(s[n..], n) == Some(|content|) && n + |content| + n <= |s|
    requires s[n..n + |content|] == content && s[n + |content| + n..] == rest
    ensures ReadSpan(s) == Some((Shown(content), rest))
  {
    hide Close, Lead, Shown;
  }

  predicate Converted(c: char) {
    c == '\n' || c == '\r' || c == '\0'
  }

  /** The reader gets t back exactly when t has no line ending and no NUL in it and
      is not framed by spaces: those a reader takes off, and the code does not
      guard them. */
  lemma CodeRoundTrip(t: string)
    requires t != ""
    ensures ReadSpan(InlineCode(t)) == Some((t, "")) <==> (forall c :: c in t ==> !Converted(c)) && !Strippable(t)
  {
    SpanIsWhole(t);
    if c :| c in t && Converted(c) {
      NoneLeft(Padded(t));
      assert c !in Shown(Padded(t));
    } else {
      NoneConverted(t);
    }
  }

  lemma {:induction false} NoneLeft(p: string)
    ensures forall c :: c in Spaced(p) ==> !Converted(c)
  {
    if p != "" {
      NoneLeft(p[1..]);
      if p[0] == '\r' && |p| > 1 && p[1] == '\n' { NoneLeft(p[2..]); }
    }
  }

  lemma {:induction false} SpacedSame(s: string)
    requires forall c :: c in s ==> !Converted(c)
    ensures Spaced(s) == s
  {
    if s != "" {
      assert s[0] in s && forall c :: c in s[1..] ==> c in s;
      SpacedSame(s[1..]);
    }
  }

  lemma NoneConverted(t: string)
    requires t != "" && forall c :: c in t ==> !Converted(c)
    ensures Shown(Padded(t)) == t <==> !Strippable(t)
  {
    var p := Padded(t);
    SpacedSame(t);
    SpacedSame(p);
    if p != t {
      assert p[1..|p| - 1] == t;
      var edge := if t[0] == '`' then 1 else |t|;
      assert p[edge] != ' ';
    } else if Strippable(t) {
      assert |t[1..|t| - 1]| < |t|;
    }
  }

  // ---------------------------------------------------------------------- fences

  function Fence(content: string): string {
    Ticks(if Longest(content) + 1 < 3 then 3 else Longest(content) + 1)
  }

  /** A line that ends a block opened with n backticks. */
  ghost predicate Ends(line: string, n: nat) {
    exists indent, m :: EndsAt(line, n, indent, m)
  }

  ghost predicate EndsAt(line: string, n: nat, indent: int, m: int) {
    && 0 <= indent <= 3 && m >= n && TicksAt(line, indent, m)
    && (forall k :: 0 <= k < indent ==> line[k] == ' ')
    && (forall k :: indent + m <= k < |line| ==> line[k] == ' ' || line[k] == '\t')
  }

  /** No stretch of the content can end the block; the fence itself does. */
  lemma NothingInsideEnds(content: string, i: nat, j: nat)
    requires i <= j <= |content|
    ensures !Ends(content[i..j], |Fence(content)|) && Ends(Fence(content), |Fence(content)|) && |Fence(content)| >= 3
  {
    LongestIsMax(content);
    var line, n := content[i..j], |Fence(content)|;
    forall indent, m | TicksAt(line, indent, m) ensures m < n {
      forall k | i + indent <= k < i + indent + m ensures content[k] == '`' { assert line[k - i] == content[k]; }
      assert TicksAt(content, i + indent, m);
    }
    assert EndsAt(Fence(content), n, 0, n);
  }

  ghost predicate HasRun(t: string, n: nat) {
    exists i :: TicksAt(t, i, n)
  }

  /** The span is n backticks, the text, and n backticks again; a space keeps a
      backtick at either end of the text apart. */
  predicate DelimitedBy(t: string, n: nat) {
    t != "" && InlineCode(t) ==
      (if t[0] == '`' || t[|t| - 1] == '`' then Ticks(n) + (" " + t + " ") + Ticks(n) else Ticks(n) + t + Ticks(n))
  }

  /** No delimiter is longer than it must be: a fence is three backticks, or one
      more than some run in the content; a code span's is one more than some run. */
  lemma NoLongerThanNeeded(t: string)
    ensures |Fence(t)| == 3 || (|Fence(t)| > 3 && HasRun(t, |Fence(t)| - 1))
    ensures t == "" ==> InlineCode(t) == ""
    ensures t != "" ==> exists n: nat :: HasRun(t, n) && DelimitedBy(t, n + 1)
  {
    LongestIsMax(t);
    assert HasRun(t, Longest(t));
    hide Longest;
    assert t != "" ==> DelimitedBy(t, Longest(t) + 1);
  }

  // --------------------------------------------------------------------- escapes

  predicate Special(c: char) {
    c == '\\' || c == '`' || c == '*' || c == '_' || c == '[' || c == ']' || c == '<'
  }

  predicate Punctuation(c: char) {
    '!' <= c <= '/' || ':' <= c <= '@' || '[' <= c <= '`' || '{' <= c <= '~'
  }

  function Escape(s: string): string {
    if s == "" then "" else (if Special(s[0]) then ['\\', s[0]] else [s[0]]) + Escape(s[1..])
  }

  /** Escaping puts a backslash before each of these seven and nothing else, */
  lemma EscapeOne(c: char)
    ensures Escape([c]) == if c in "\\`*_[]<" then ['\\', c] else [c]
  {
    assert [c][1..] == "" && Escape("") == "";
    assert ['\\', c] + "" == ['\\', c] && [c] + "" == [c];
  }

  lemma Regroup(a: string, b: string, c: string)
    ensures a + (b + c) == a + b + c
  {
  }

  /** character by character. */
  lemma {:induction false} EscapeJoins(a: string, b: string)
    ensures Escape(a + b) == Escape(a) + Escape(b)
  {
    hide Special;
    if a == "" {
      assert a + b == b;
    } else {
      EscapeJoins(a[1..], b);
      var first := if Special(a[0]) then ['\\', a[0]] else [a[0]];
      assert (a + b)[1..] == a[1..] + b;
      assert Escape(a + b) == first + Escape(a[1..] + b) && Escape(a) == first + Escape(a[1..]);
      hide Escape;
      Regroup(first, Escape(a[1..]), Escape(b));
    }
  }

  function Unescape(s: string): string {
    if s == "" then ""
    else if s[0] == '\\' && |s| > 1 && Punctuation(s[1]) then [s[1]] + Unescape(s[2..])
    else [s[0]] + Unescape(s[1..])
  }

  /** Backslash unescaping undoes the escaping, for every text. */
  lemma {:induction false} EscapeRoundTrip(s: string)
    ensures Unescape(Escape(s)) == s
  {
    if s != "" {
      EscapeRoundTrip(s[1..]);
      var e, rest := Escape(s), Escape(s[1..]);
      if Special(s[0]) {
        assert e[0] == '\\' && e[1] == s[0] && e[2..] == rest;
      } else {
        assert e[0] == s[0] && e[1..] == rest;
      }
    }
  }
}
