/**
 Which characters of the SQL are slots, told by position: the regions a slot
 cannot be in are given by their delimiters, left to right.
 */
module NamedPlaces {
  import opened Named
  import opened NamedLaws

  // --------------------------------------------------------------------- regions

  predicate Letter(c: char) {
    'A' <= c <= 'Z' || 'a' <= c <= 'z' || c == '_'
  }

  predicate NameChar(c: char) {
    Letter(c) || '0' <= c <= '9'
  }

  /** Every quote in it is one of a pair. */
  predicate Doubled(s: string) {
    || s == ""
    || (s[0] != '\'' && Doubled(s[1..]))
    || (|s| > 1 && s[0] == '\'' && s[1] == '\'' && Doubled(s[2..]))
  }

  /** '...', to a quote that is not doubled, or to the end of the text. */
  ghost predicate Literal(sql: string, a: int, b: int) {
    && 0 <= a < b <= |sql| && sql[a] == '\''
    && ((b >= a + 2 && sql[b - 1] == '\'' && Doubled(sql[a + 1..b - 1]) && (b < |sql| ==> sql[b] != '\''))
        || (b == |sql| && Doubled(sql[a + 1..b])))
  }

  /** "...", to the next double quote or the end. */
  ghost predicate Quoted(sql: string, a: int, b: int) {
    && 0 <= a < b <= |sql| && sql[a] == '"' && (forall k :: a < k < b - 1 ==> sql[k] != '"')
    && (b == |sql| || (b >= a + 2 && sql[b - 1] == '"'))
  }

  /** --..., to the end of the line. */
  ghost predicate Line(sql: string, a: int, b: int) {
    && 0 <= a && a + 2 <= b <= |sql| && sql[a] == '-' && sql[a + 1] == '-'
    && (forall k :: a <= k < b ==> sql[k] != '\n') && (b == |sql| || sql[b] == '\n')
  }

  ghost predicate Closer(sql: string, k: int) {
    0 <= k && k + 1 < |sql| && sql[k] == '*' && sql[k + 1] == '/'
  }

  /** /*...*/, to the first closing pair behind the opening one, or the end. */
  ghost predicate Block(sql: string, a: int, b: int) {
    && 0 <= a && a + 2 <= b <= |sql| && sql[a] == '/' && sql[a + 1] == '*'
    && (forall k :: a + 2 <= k < b - 2 ==> !Closer(sql, k))
    && (b == |sql| || (b >= a + 4 && Closer(sql, b - 2)))
  }

  /** The two colons of a cast. */
  ghost predicate Cast(sql: string, a: int, b: int) {
    0 <= a && b == a + 2 <= |sql| && sql[a] == ':' && sql[a + 1] == ':'
  }

  /** A colon and a whole identifier. */
  ghost predicate NameAt(sql: string, a: int, b: int) {
    && 0 <= a && a + 2 <= b <= |sql| && sql[a] == ':' && Letter(sql[a + 1])
    && (forall k :: a < k < b ==> NameChar(sql[k])) && (b < |sql| ==> !NameChar(sql[b]))
  }

  ghost predicate Region(sql: string, a: int, b: int) {
    Literal(sql, a, b) || Quoted(sql, a, b) || Line(sql, a, b) || Block(sql, a, b) || Cast(sql, a, b)
  }

  /** A single character that opens none of these. */
  predicate Plain(sql: string, a: int) {
    && 0 <= a < |sql| && sql[a] != '\'' && sql[a] != '"'
    && (a + 1 < |sql| ==>
         && !(sql[a] == '-' && sql[a + 1] == '-') && !(sql[a] == '/' && sql[a + 1] == '*')
         && !(sql[a] == ':' && sql[a + 1] == ':') && !(sql[a] == ':' && Letter(sql[a + 1])))
  }

  ghost predicate Unit(sql: string, a: int, b: int) {
    Region(sql, a, b) || NameAt(sql, a, b) || (Plain(sql, a) && b == a + 1)
  }

  /** Reading comes to i: it is where a region, a name or a character read ends. */
  ghost predicate Code(sql: string, i: int)
    decreases i
  {
    i == 0 || exists a :: 0 <= a < i && Code(sql, a) && Unit(sql, a, i)
  }

  /** `$$`, or `$tag$`. */
  ghost predicate DollarAt(sql: string, i: int) {
    && 0 <= i && i + 1 < |sql| && sql[i] == '$'
    && (sql[i + 1] == '$' ||
        (Letter(sql[i + 1]) && exists j :: i < j < |sql| && sql[j] == '$' && forall k :: i < k < j ==> NameChar(sql[k])))
  }

  // --------------------------------------------------- a region is as long as it is

  ghost predicate EndsLiteral(t: string, e: int) {
    && 0 <= e <= |t|
    && ((e >= 1 && t[e - 1] == '\'' && Doubled(t[..e - 1]) && (e < |t| ==> t[e] != '\'')) || (e == |t| && Doubled(t)))
  }

  lemma {:induction false} LiteralEnds(t: string, e: int)
    ensures EndsLiteral(t, e) <==> e == LiteralLen(t)
    decreases |t|
  {
    if t == "" {
    } else if t[0] != '\'' {
      LiteralEnds(t[1..], e - 1);
      if 1 < e <= |t| { assert t[..e - 1][1..] == t[1..][..e - 2]; }
    } else if |t| > 1 && t[1] == '\'' {
      LiteralEnds(t[2..], e - 2);
      if 2 < e <= |t| { assert t[..e - 1][2..] == t[2..][..e - 3]; }
      if e == 2 { assert t[..1] == ['\'']; }
    } else {
      OneQuote(t, e);
    }
  }

  lemma OneQuote(t: string, e: int)
    requires t != "" && t[0] == '\'' && (|t| > 1 ==> t[1] != '\'')
    ensures EndsLiteral(t, e) <==> e == 1
  {
    assert !Doubled(t);
    if e == 1 { assert t[..0] == ""; }
    if 2 <= e <= |t| { assert t[..e - 1][0] == '\'' && (e > 2 ==> t[..e - 1][1] == t[1]); }
  }

  lemma LiteralIs(sql: string, a: int, b: int)
    requires 0 <= a < |sql| && sql[a] == '\''
    ensures Literal(sql, a, b) <==> b == a + 1 + LiteralLen(sql[a + 1..])
  {
    var t := sql[a + 1..];
    LiteralEnds(t, b - a - 1);
    if a < b <= |sql| {
      if b >= a + 2 { assert t[..b - a - 2] == sql[a + 1..b - 1]; }
      if b == |sql| { assert sql[a + 1..b] == t; }
    }
  }

  lemma {:induction false} QuotedEnds(t: string)
    ensures var n := QuotedLen(t);
      (forall k :: 0 <= k < n - 1 ==> t[k] != '"') && (n == |t| || (n >= 1 && t[n - 1] == '"'))
  {
    if t != "" && t[0] != '"' {
      QuotedEnds(t[1..]);
      forall k | 0 <= k < QuotedLen(t) - 1 ensures t[k] != '"' { if k > 0 { assert t[k] == t[1..][k - 1]; } }
    }
  }

  lemma QuotedIs(sql: string, a: int, b: int)
    requires 0 <= a < |sql| && sql[a] == '"'
    ensures Quoted(sql, a, b) <==> b == a + 1 + QuotedLen(sql[a + 1..])
  {
    var t := sql[a + 1..];
    var n := QuotedLen(t);
    QuotedEnds(t);
    var e := a + 1 + n;
    forall k | a < k < e - 1 ensures sql[k] != '"' { assert t[k - a - 1] == sql[k]; }
    if n >= 1 { assert t[n - 1] == sql[e - 1]; }
    assert Quoted(sql, a, e);
    if Quoted(sql, a, b) { OneQuoted(sql, a, b, e); }
  }

  lemma OneQuoted(sql: string, a: int, b: int, e: int)
    requires Quoted(sql, a, b) && Quoted(sql, a, e)
    ensures b == e
  {
  }

  lemma {:induction false} LineEnds(t: string)
    ensures var n := LineLen(t); (forall k :: 0 <= k < n ==> t[k] != '\n') && (n < |t| ==> t[n] == '\n')
  {
    if t != "" && t[0] != '\n' {
      LineEnds(t[1..]);
      forall k | 0 <= k < LineLen(t) ensures t[k] != '\n' { if k > 0 { assert t[k] == t[1..][k - 1]; } }
    }
  }

  lemma LineIs(sql: string, a: int, b: int)
    requires 0 <= a && a + 1 < |sql| && sql[a] == '-' && sql[a + 1] == '-'
    ensures Line(sql, a, b) <==> b == a + 1 + LineLen(sql[a + 1..])
  {
    var t := sql[a + 1..];
    var e := a + 1 + LineLen(t);
    LineEnds(t);
    forall k | a < k < e ensures sql[k] != '\n' { assert t[k - a - 1] == sql[k]; }
    if e < |sql| { assert t[e - a - 1] == sql[e]; }
    assert t[0] == '-';
    assert Line(sql, a, e);
    if Line(sql, a, b) { OneLine(sql, a, b, e); }
  }

  lemma OneLine(sql: string, a: int, b: int, e: int)
    requires Line(sql, a, b) && Line(sql, a, e)
    ensures b == e
  {
  }

  lemma {:induction false} BlockEnds(t: string)
    ensures var n := BlockLen(t); (forall k :: 0 <= k < n - 2 ==> !Closer(t, k)) && (n == |t| || (n >= 2 && Closer(t, n - 2)))
  {
    if t != "" && !(t[0] == '*' && |t| > 1 && t[1] == '/') {
      BlockEnds(t[1..]);
      forall k | 0 <= k < BlockLen(t) - 2 ensures !Closer(t, k) {
        if k > 0 { assert Closer(t, k) <==> Closer(t[1..], k - 1); }
      }
      var n := BlockLen(t[1..]);
      if n < |t[1..]| { assert Closer(t[1..], n - 2) && Closer(t, n - 1); }
    }
  }

  lemma BlockIs(sql: string, a: int, b: int)
    requires 0 <= a && a + 1 < |sql| && sql[a] == '/' && sql[a + 1] == '*'
    ensures Block(sql, a, b) <==> b == a + 2 + BlockLen(sql[a + 2..])
  {
    var t := sql[a + 2..];
    var e := a + 2 + BlockLen(t);
    BlockEnds(t);
    forall k | a + 2 <= k ensures Closer(sql, k) <==> Closer(t, k - a - 2) { }
    assert Block(sql, a, e);
    if Block(sql, a, b) { OneBlock(sql, a, b, e); }
  }

  lemma OneBlock(sql: string, a: int, b: int, e: int)
    requires Block(sql, a, b) && Block(sql, a, e)
    ensures b == e
  {
  }

  lemma NameIs(sql: string, a: int, b: int)
    requires 0 <= a && a + 1 < |sql| && sql[a] == ':' && IsIdentStart(sql[a + 1])
    ensures NameAt(sql, a, b) <==> b == a + 1 + IdentLen(sql[a + 1..])
  {
    var t := sql[a + 1..];
    var e := a + 1 + IdentLen(t);
    forall k | a < k < e ensures IsIdentCont(sql[k]) { assert t[k - a - 1] == sql[k]; }
    if e < |sql| { assert t[e - a - 1] == sql[e]; }
    assert IsIdentCont(t[0]) && NameAt(sql, a, e);
    if NameAt(sql, a, b) { OneNameAt(sql, a, b, e); }
  }

  lemma OneNameAt(sql: string, a: int, b: int, e: int)
    requires NameAt(sql, a, b) && NameAt(sql, a, e)
    ensures b == e
  {
  }

  /** What stands at a is exactly one of these, and one length. */
  lemma UnitIs(sql: string, a: int, b: int)
    requires 0 <= a < |sql|
    ensures Unit(sql, a, b) <==> b == a + TokenLen(sql[a..])
  {
    var s := sql[a..];
    assert s[0] == sql[a] && (a + 1 < |sql| ==> s[1] == sql[a + 1]) && s[1..] == sql[a + 1..];
    hide LiteralLen, QuotedLen, LineLen, BlockLen, IdentLen;
    if sql[a] == '\'' {
      LiteralIs(sql, a, b);
    } else if sql[a] == '"' {
      QuotedIs(sql, a, b);
    } else if a + 1 < |sql| && sql[a] == '-' && sql[a + 1] == '-' {
      LineIs(sql, a, b);
    } else if a + 1 < |sql| && sql[a] == '/' && sql[a + 1] == '*' {
      assert s[2..] == sql[a + 2..];
      BlockIs(sql, a, b);
    } else if a + 1 < |sql| && sql[a] == ':' && IsIdentStart(sql[a + 1]) {
      NameIs(sql, a, b);
    }
  }

  // ---------------------------------------------------------------- token by token

  lemma {:induction false} SourcesSnoc(ts: seq<Token>, k: nat)
    requires k < |ts|
    ensures Sources(ts[..k + 1]) == Sources(ts[..k]) + Source(ts[k])
  {
    if k == 0 {
      assert ts[..1][1..] == [] && ts[..0] == [];
    } else {
      SourcesSnoc(ts[1..], k - 1);
      assert ts[..k + 1][1..] == ts[1..][..k] && ts[..k][1..] == ts[1..][..k - 1];
      assert Source(ts[0]) + (Sources(ts[1..][..k - 1]) + Source(ts[k])) == (Source(ts[0]) + Sources(ts[1..][..k - 1])) + Source(ts[k]);
    }
  }

  /** Where the k-th token starts. */
  function Place(ts: seq<Token>, k: nat): nat
    requires k <= |ts|
  {
    |Sources(ts[..k])|
  }

  lemma SourceLen(s: string)
    requires s != ""
    ensures |Source(TokenOf(s))| == TokenLen(s)
  {
  }

  lemma {:induction false} TokenAtPlace(sql: string, k: nat)
    requires k <= |Tokens(sql)|
    ensures var p := Place(Tokens(sql), k);
      && p <= |sql| && Tokens(sql[p..]) == Tokens(sql)[k..]
      && (k < |Tokens(sql)| ==> p < |sql| && Tokens(sql)[k] == TokenOf(sql[p..]) && Place(Tokens(sql), k + 1) == p + TokenLen(sql[p..]))
  {
    hide Tokens, TokenOf, TokenLen, Source, Sources;
    var ts := Tokens(sql);
    if k == 0 {
      NothingBefore(ts);
      assert sql[0..] == sql && ts[0..] == ts;
    } else {
      TokenAtPlace(sql, k - 1);
      var q := Place(ts, k - 1);
      TokensUnfold(sql[q..]);
      assert ts[k - 1..][1..] == ts[k..];
      assert sql[q..][TokenLen(sql[q..])..] == sql[q + TokenLen(sql[q..])..];
    }
    if k < |ts| { TokenHere(sql, ts, k, Place(ts, k)); }
  }

  lemma NothingBefore(ts: seq<Token>)
    ensures Place(ts, 0) == 0
  {
    assert ts[..0] == [];
  }

  lemma TokensUnfold(s: string)
    ensures s == "" ==> Tokens(s) == []
    ensures s != "" ==> Tokens(s) != [] && Tokens(s)[0] == TokenOf(s) && Tokens(s)[1..] == Tokens(s[TokenLen(s)..])
  {
    hide TokenOf, TokenLen;
  }

  lemma TokenHere(sql: string, ts: seq<Token>, k: nat, p: nat)
    requires k < |ts| && p == Place(ts, k) && p <= |sql| && Tokens(sql[p..]) == ts[k..]
    ensures p < |sql| && ts[k] == TokenOf(sql[p..]) && Place(ts, k + 1) == p + TokenLen(sql[p..])
  {
    hide Tokens, TokenOf, TokenLen, Source, Sources;
    TokensUnfold(sql[p..]);
    assert ts[k..][0] == ts[k];
    SourcesSnoc(ts, k);
    SourceLen(sql[p..]);
  }

  lemma {:induction false} PlaceIsCode(sql: string, k: nat)
    requires k <= |Tokens(sql)|
    ensures Code(sql, Place(Tokens(sql), k))
  {
    if k == 0 {
      assert Tokens(sql)[..0] == [];
    } else {
      PlaceIsCode(sql, k - 1);
      TokenAtPlace(sql, k - 1);
      UnitIs(sql, Place(Tokens(sql), k - 1), Place(Tokens(sql), k));
      hide Unit, Tokens, Place, TokenLen;
    }
  }

  lemma {:induction false} CodeIsPlace(sql: string, i: int) returns (k: nat)
    requires 0 <= i <= |sql| && Code(sql, i)
    ensures k <= |Tokens(sql)| && Place(Tokens(sql), k) == i
    decreases i
  {
    if i == 0 {
      k := 0;
      assert Tokens(sql)[..0] == [];
    } else {
      var a :| 0 <= a < i && Code(sql, a) && Unit(sql, a, i);
      k := CodeIsPlace(sql, a);
      TokenAtPlace(sql, k);
      UnitIs(sql, a, i);
      hide Unit, Code, TokenLen, Place;
      NoTokens(sql, a);
      k := k + 1;
    }
  }

  /** The k-th token is a slot of that name and starts at i. */
  ghost predicate SlotToken(sql: string, i: int, name: string) {
    exists k :: 0 <= k < |Tokens(sql)| && Place(Tokens(sql), k) == i && Tokens(sql)[k] == Slot(name)
  }

  ghost predicate DollarToken(sql: string, i: int) {
    exists k :: 0 <= k < |Tokens(sql)| && Place(Tokens(sql), k) == i && Tokens(sql)[k] == DollarQuote
  }

  lemma DollarIs(sql: string, i: int)
    requires 0 <= i < |sql| && sql[i] == '$'
    ensures DollarOpener(sql[i + 1..]) <==> DollarAt(sql, i)
  {
    var t := sql[i + 1..];
    var n := IdentLen(t);
    if t != "" && IsIdentStart(t[0]) {
      forall k | i < k < i + 1 + n ensures IsIdentCont(sql[k]) { assert t[k - i - 1] == sql[k]; }
      if i + 1 + n < |sql| { assert t[n] == sql[i + 1 + n] && t[n..][0] == t[n]; }
      if DollarAt(sql, i) && sql[i + 1] != '$' {
        var j :| i < j < |sql| && sql[j] == '$' && forall k :: i < k < j ==> IsIdentCont(sql[k]);
        assert j == i + 1 + n;
      }
    }
  }

  /** A slot starts at i, named so, exactly where reading comes to a colon with
      that identifier behind it. */
  lemma SlotsAre(sql: string, i: int, name: string)
    ensures SlotToken(sql, i, name) <==>
      && 0 <= i < |sql| && Code(sql, i) && NameAt(sql, i, i + 1 + |name|) && name == sql[i + 1..i + 1 + |name|]
  {
    hide Code, Place, Tokens;
    if k :| 0 <= k < |Tokens(sql)| && Place(Tokens(sql), k) == i && Tokens(sql)[k] == Slot(name) {
      TokenAtPlace(sql, k);
      PlaceIsCode(sql, k);
      SlotHere(sql, i, name);
    }
    if 0 <= i < |sql| && Code(sql, i) && NameAt(sql, i, i + 1 + |name|) && name == sql[i + 1..i + 1 + |name|] {
      var k := CodeIsPlace(sql, i);
      TokenAtPlace(sql, k);
      SlotHere(sql, i, name);
      if k == |Tokens(sql)| { NoTokens(sql, i); }
    }
  }

  lemma NoTokens(sql: string, i: int)
    requires 0 <= i < |sql|
    ensures Tokens(sql[i..]) != []
  {
  }

  lemma SlotHere(sql: string, i: int, name: string)
    requires 0 <= i < |sql|
    ensures TokenOf(sql[i..]) == Slot(name) <==> NameAt(sql, i, i + 1 + |name|) && name == sql[i + 1..i + 1 + |name|]
  {
    var s := sql[i..];
    assert s[0] == sql[i] && (i + 1 < |sql| ==> s[1] == sql[i + 1]) && s[1..] == sql[i + 1..];
    if i + 1 < |sql| && sql[i] == ':' && IsIdentStart(sql[i + 1]) {
      var n := IdentLen(sql[i + 1..]);
      NameIs(sql, i, i + 1 + |name|);
      assert TokenLen(s) == 1 + n && s[1..1 + n] == sql[i + 1..i + 1 + n];
    }
  }

  /** And a dollar quote is refused exactly where reading comes to its opener. */
  lemma DollarsAre(sql: string, i: int)
    ensures DollarToken(sql, i) <==> 0 <= i < |sql| && Code(sql, i) && DollarAt(sql, i)
  {
    hide Code, Place, Tokens;
    if k :| 0 <= k < |Tokens(sql)| && Place(Tokens(sql), k) == i && Tokens(sql)[k] == DollarQuote {
      TokenAtPlace(sql, k);
      PlaceIsCode(sql, k);
      DollarHere(sql, i);
    }
    if 0 <= i < |sql| && Code(sql, i) && DollarAt(sql, i) {
      var k := CodeIsPlace(sql, i);
      TokenAtPlace(sql, k);
      DollarHere(sql, i);
      if k == |Tokens(sql)| { NoTokens(sql, i); }
    }
  }

  lemma DollarHere(sql: string, i: int)
    requires 0 <= i < |sql|
    ensures TokenOf(sql[i..]) == DollarQuote <==> DollarAt(sql, i)
  {
    var s := sql[i..];
    assert s[0] == sql[i] && s[1..] == sql[i + 1..];
    if sql[i] == '$' { DollarIs(sql, i); }
  }

  // ------------------------------------------------------------- outside everything

  lemma {:induction false} PlacesGrow(sql: string, j: nat, k: nat)
    requires j < k <= |Tokens(sql)|
    ensures Place(Tokens(sql), j) < Place(Tokens(sql), k)
  {
    TokenAtPlace(sql, k - 1);
    if j < k - 1 { PlacesGrow(sql, j, k - 1); }
  }

  /** Of two places the earlier one's token ends by the later. */
  lemma NoneAcross(sql: string, a: int, b: int, i: int)
    requires 0 <= a < |sql| && Code(sql, a) && Unit(sql, a, b) && 0 <= i <= |sql| && Code(sql, i)
    ensures !(a < i < b)
  {
    hide Unit, Code, TokenLen, Place, Tokens;
    var k := CodeIsPlace(sql, a);
    var j := CodeIsPlace(sql, i);
    TokenAtPlace(sql, k);
    UnitIs(sql, a, b);
    NoTokens(sql, a);
    if j < k { PlacesGrow(sql, j, k); }
    if k + 1 < j { PlacesGrow(sql, k + 1, j); }
  }

  /** Every character is at a place or inside the unit that starts at one. */
  lemma {:induction false} SomeUnit(sql: string, i: int, k: nat) returns (a: int, b: int)
    requires 0 <= i < |sql| && k <= |Tokens(sql)| && Place(Tokens(sql), k) <= i
    ensures 0 <= a <= i < b <= |sql| && Code(sql, a) && Unit(sql, a, b)
    decreases |Tokens(sql)| - k
  {
    TokenAtPlace(sql, k);
    var p := Place(Tokens(sql), k);
    if k == |Tokens(sql)| {
      NoTokens(sql, p);
      assert false;
    }
    if i < p + TokenLen(sql[p..]) {
      PlaceIsCode(sql, k);
      a, b := p, p + TokenLen(sql[p..]);
      UnitIs(sql, a, b);
    } else {
      a, b := SomeUnit(sql, i, k + 1);
    }
  }

  lemma RegionInside(sql: string, a: int, b: int, i: int)
    requires Unit(sql, a, b) && a < i < b && sql[i] == ':'
    ensures Region(sql, a, b)
  {
    assert !IsIdentCont(':');
  }

  /** The law of slots: a colon with an identifier start behind it starts one if
      and only if it is not inside a literal, a quoted identifier or a comment
      that reading came to, and not the second colon of a cast. */
  lemma SlotLaw(sql: string, i: int)
    requires 0 <= i && i + 1 < |sql| && sql[i] == ':' && Letter(sql[i + 1])
    ensures (exists name :: SlotToken(sql, i, name)) <==>
      forall a, b :: 0 <= a < |sql| && Code(sql, a) && Region(sql, a, b) ==> !(a < i < b)
  {
    hide Code, Region, NameAt, SlotToken, Tokens, IdentLen;
    SlotIsCode(sql, i);
    if Code(sql, i) {
      forall a, b | 0 <= a < |sql| && Code(sql, a) && Region(sql, a, b) ensures !(a < i < b) { NoneAcross(sql, a, b, i); }
    }
    if forall a, b :: 0 <= a < |sql| && Code(sql, a) && Region(sql, a, b) ==> !(a < i < b) { OutsideIsCode(sql, i); }
  }

  lemma SlotIsCode(sql: string, i: int)
    requires 0 <= i && i + 1 < |sql| && sql[i] == ':' && Letter(sql[i + 1])
    ensures (exists name :: SlotToken(sql, i, name)) <==> Code(sql, i)
  {
    var n := IdentLen(sql[i + 1..]);
    var name := sql[i + 1..i + 1 + n];
    NameIs(sql, i, i + 1 + n);
    SlotsAre(sql, i, name);
    hide Code, SlotToken, NameAt;
    if other :| SlotToken(sql, i, other) { SlotsAre(sql, i, other); }
  }

  lemma OutsideIsCode(sql: string, i: int)
    requires 0 <= i < |sql| && sql[i] == ':'
    requires forall a, b :: 0 <= a < |sql| && Code(sql, a) && Region(sql, a, b) ==> !(a < i < b)
    ensures Code(sql, i)
  {
    hide Code, Region;
    assert Tokens(sql)[..0] == [];
    var a, b := SomeUnit(sql, i, 0);
    if a < i { RegionInside(sql, a, b, i); }
  }

  /** Compiling works exactly when every slot is bound and no dollar quote opens. */
  lemma CompilesExactly(sql: string, bound: set<string>)
    ensures CompileTokens(Tokens(sql), [], bound).Ok? <==>
      && (forall i, b :: 0 <= i < |sql| && Code(sql, i) && NameAt(sql, i, b) ==> sql[i + 1..b] in bound)
      && (forall i :: 0 <= i < |sql| && Code(sql, i) ==> !DollarAt(sql, i))
  {
    var ts := Tokens(sql);
    FailsAtFirstBad(ts, [], bound);
    hide Code, NameAt, DollarAt, Place, CompileTokens, Tokens;
    if forall k :: 0 <= k < |ts| ==> !Bad(ts[k], bound) {
      forall i, b | 0 <= i < |sql| && Code(sql, i) && NameAt(sql, i, b) ensures sql[i + 1..b] in bound { SlotBound(sql, i, b, bound); }
      forall i | 0 <= i < |sql| && Code(sql, i) ensures !DollarAt(sql, i) { DollarsAre(sql, i); }
    }
    if (forall i, b :: 0 <= i < |sql| && Code(sql, i) && NameAt(sql, i, b) ==> sql[i + 1..b] in bound) &&
       (forall i :: 0 <= i < |sql| && Code(sql, i) ==> !DollarAt(sql, i)) {
      forall k | 0 <= k < |ts| ensures !Bad(ts[k], bound) { NotBad(sql, k, bound); }
    }
  }

  lemma SlotBound(sql: string, i: int, b: int, bound: set<string>)
    requires 0 <= i < |sql| && Code(sql, i) && NameAt(sql, i, b)
    requires forall k :: 0 <= k < |Tokens(sql)| ==> !Bad(Tokens(sql)[k], bound)
    ensures sql[i + 1..b] in bound
  {
    assert b == i + 1 + |sql[i + 1..b]|;
    SlotsAre(sql, i, sql[i + 1..b]);
    hide Code, NameAt, Tokens, Place;
  }

  lemma NotBad(sql: string, k: nat, bound: set<string>)
    requires k < |Tokens(sql)|
    requires forall i, b :: 0 <= i < |sql| && Code(sql, i) && NameAt(sql, i, b) ==> sql[i + 1..b] in bound
    requires forall i :: 0 <= i < |sql| && Code(sql, i) ==> !DollarAt(sql, i)
    ensures !Bad(Tokens(sql)[k], bound)
  {
    var t, p := Tokens(sql)[k], Place(Tokens(sql), k);
    hide Code, NameAt, DollarAt, Tokens, Place;
    if t.Slot? {
      assert SlotToken(sql, p, t.name);
      SlotsAre(sql, p, t.name);
    }
    if t.DollarQuote? {
      assert DollarToken(sql, p);
      DollarsAre(sql, p);
    }
  }
}
