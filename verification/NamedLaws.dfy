/** What compiling keeps: the text, the numbering, and the way back. */
module NamedLaws {
  import opened DecimalDigits
  import opened Named

  // ------------------------------------------------------------ nothing is lost

  function Source(t: Token): string {
    match t
    case Text(text) => text
    case Slot(name) => ":" + name
    case DollarQuote => "$"
  }

  function Sources(ts: seq<Token>): string {
    if ts == [] then "" else Source(ts[0]) + Sources(ts[1..])
  }

  /** The tokens are the text, cut up. */
  lemma {:induction false} TokensCover(s: string)
    ensures Sources(Tokens(s)) == s
  {
    if s != "" {
      TokensCover(s[TokenLen(s)..]);
      assert s == s[..TokenLen(s)] + s[TokenLen(s)..];
      assert Tokens(s)[1..] == Tokens(s[TokenLen(s)..]);
      if TokenOf(s).Slot? { assert s[..TokenLen(s)] == ":" + s[1..TokenLen(s)]; }
    }
  }

  // --------------------------------------------------------------- when it fails

  predicate Bad(t: Token, bound: set<string>) {
    t.DollarQuote? || (t.Slot? && t.name !in bound)
  }

  function Blame(t: Token): Error
    requires !t.Text?
  {
    if t.Slot? then Unbound(t.name) else DollarQuoted
  }

  /** Compiling fails exactly when some token is refused, and names the first. */
  lemma {:induction false} FailsAtFirstBad(ts: seq<Token>, order: seq<string>, bound: set<string>)
    requires forall n :: n in order ==> n in bound
    ensures CompileTokens(ts, order, bound).Ok? <==> forall k :: 0 <= k < |ts| ==> !Bad(ts[k], bound)
    ensures forall k :: 0 <= k < |ts| && Bad(ts[k], bound) && (forall j :: 0 <= j < k ==> !Bad(ts[j], bound)) ==>
      CompileTokens(ts, order, bound) == Err(Blame(ts[k]))
  {
    if ts != [] && !Bad(ts[0], bound) {
      var more := if ts[0].Slot? then Number(order, ts[0].name) else order;
      FailsAtFirstBad(ts[1..], more, bound);
      assert forall k | 1 <= k < |ts| :: ts[k] == ts[1..][k - 1];
      forall k | 0 <= k < |ts| && Bad(ts[k], bound) && (forall j :: 0 <= j < k ==> !Bad(ts[j], bound))
        ensures CompileTokens(ts, order, bound) == Err(Blame(ts[k]))
      {
        assert forall j :: 0 <= j < k - 1 ==> ts[1..][j] == ts[j + 1];
      }
    }
  }

  // ------------------------------------------------------------------- numbering

  /** The names met so far, in order. */
  function Order(ts: seq<Token>): seq<string> {
    if ts == [] then []
    else
      var before, last := Order(ts[..|ts| - 1]), ts[|ts| - 1];
      if last.Slot? then Number(before, last.name) else before
  }

  predicate FirstAt(ts: seq<Token>, name: string, k: nat) {
    k < |ts| && ts[k] == Slot(name) && forall j :: 0 <= j < k ==> ts[j] != Slot(name)
  }

  /** `Order` is the distinct slot names by first appearance: each once, none
      that is not used, earlier names first. */
  lemma {:induction false} OrderIsByFirstAppearance(ts: seq<Token>)
    ensures forall n :: n in Order(ts) <==> Slot(n) in ts
    ensures forall a, b :: 0 <= a < b < |Order(ts)| ==> Order(ts)[a] != Order(ts)[b]
    ensures forall a, b, i, j ::
      0 <= a < b < |Order(ts)| && FirstAt(ts, Order(ts)[a], i) && FirstAt(ts, Order(ts)[b], j) ==> i < j
  {
    if ts != [] {
      var init, last := ts[..|ts| - 1], ts[|ts| - 1];
      OrderIsByFirstAppearance(init);
      assert ts == init + [last];
      assert forall n :: Slot(n) in ts <==> Slot(n) in init || last == Slot(n);
      forall a, b, i, j | 0 <= a < b < |Order(ts)| && FirstAt(ts, Order(ts)[a], i) && FirstAt(ts, Order(ts)[b], j)
        ensures i < j
      {
        assert Order(ts)[a] == Order(init)[a];
        assert Slot(Order(init)[a]) in init;
        assert FirstAt(init, Order(init)[a], i);
        if b < |Order(init)| {
          assert Slot(Order(init)[b]) in init;
          assert FirstAt(init, Order(init)[b], j);
        }
      }
    }
  }

  /** A piece of the output: copied, or the number the final order gives. */
  function Piece(t: Token, order: seq<string>): string
    requires t.Slot? ==> t.name in order
  {
    match t
    case Text(text) => text
    case Slot(name) => Placeholder(IndexOf(order, name) + 1)
    case DollarQuote => "$"
  }

  function Render(ts: seq<Token>, order: seq<string>): string
    requires forall n :: Slot(n) in ts ==> n in order
  {
    if ts == [] then "" else Piece(ts[0], order) + Render(ts[1..], order)
  }

  /** The final order only grows the one so far. */
  lemma {:induction false} OrderGrows(done: seq<Token>, ts: seq<Token>, bound: set<string>)
    requires CompileTokens(ts, Order(done), bound).Ok?
    ensures var c := CompileTokens(ts, Order(done), bound);
      && c.order == Order(done + ts)
      && (forall n :: n in Order(done) ==> n in c.order && IndexOf(c.order, n) == IndexOf(Order(done), n))
    decreases |ts|
  {
    hide IndexOf, Placeholder;
    if ts == [] {
      assert done + ts == done;
    } else {
      var more := done + [ts[0]];
      assert more[..|done|] == done;
      assert Order(more) == if ts[0].Slot? then Number(Order(done), ts[0].name) else Order(done);
      OrderGrows(more, ts[1..], bound);
      assert more + ts[1..] == done + ts;
      if ts[0].Slot? && ts[0].name !in Order(done) { IndexOfPush(Order(done), ts[0].name); }
    }
  }

  lemma {:induction false} OrderContinues(done: seq<Token>, ts: seq<Token>, bound: set<string>)
    requires CompileTokens(ts, Order(done), bound).Ok?
    ensures var c := CompileTokens(ts, Order(done), bound);
      (forall n :: Slot(n) in ts ==> n in c.order) && c.sql == Render(ts, c.order)
    decreases |ts|
  {
    if ts != [] {
      var more := done + [ts[0]];
      assert more[..|done|] == done;
      assert Order(more) == if ts[0].Slot? then Number(Order(done), ts[0].name) else Order(done);
      OrderContinues(more, ts[1..], bound);
      OrderGrows(more, ts[1..], bound);
      assert forall n :: Slot(n) in ts <==> ts[0] == Slot(n) || Slot(n) in ts[1..];
    }
  }

  /** What a successful compile is: every token copied or numbered in place, the
      numbers going to the distinct names by first appearance. */
  lemma CompileRenders(sql: string, bound: set<string>)
    requires CompileTokens(Tokens(sql), [], bound).Ok?
    ensures var c, ts := CompileTokens(Tokens(sql), [], bound), Tokens(sql);
      c.order == Order(ts) && (forall n :: Slot(n) in ts ==> n in c.order) && c.sql == Render(ts, c.order)
  {
    OrderContinues([], Tokens(sql), bound);
    OrderGrows([], Tokens(sql), bound);
    assert [] + Tokens(sql) == Tokens(sql);
  }

  // ---------------------------------------------------------------- the way back

  lemma {:induction false} DecimalParses(n: nat)
    ensures Decimal(n) != "" && (forall k :: 0 <= k < |Decimal(n)| ==> IsDigit(Decimal(n)[k]))
    ensures Parse(Decimal(n)) == n
  {
    if n >= 10 {
      DecimalParses(n / 10);
      assert Decimal(n)[..|Decimal(n)| - 1] == Decimal(n / 10);
    } else {
      assert Decimal(n)[..0] == "";
    }
  }

  /** The number a text starts with. */
  function Leading(s: string): nat {
    Parse(s[..DigitLen(s)])
  }

  predicate Refers(s: string, names: nat) {
    DigitLen(s) > 0 && 1 <= Leading(s) <= names
  }

  /** What the front of compiled SQL stands for, and how much of it that is. */
  function Meant(s: string, order: seq<string>): string
    requires s != ""
  {
    if s[0] == '$' && Refers(s[1..], |order|) then ":" + order[Leading(s[1..]) - 1] else s[..TokenLen(s)]
  }

  function Read(s: string, names: nat): (n: nat)
    requires s != ""
    ensures 1 <= n <= |s|
  {
    if s[0] == '$' && Refers(s[1..], names) then 1 + DigitLen(s[1..]) else TokenLen(s)
  }

  /** Reading compiled SQL: `$k` stands for the k-th name, the rest for itself. */
  function Restore(s: string, order: seq<string>): string {
    if s == "" then "" else Meant(s, order) + Restore(s[Read(s, |order|)..], order)
  }

  lemma RestoreFirst(s: string, order: seq<string>, piece: string, rest: string)
    requires s != "" && Meant(s, order) == piece && s[Read(s, |order|)..] == rest
    ensures Restore(s, order) == piece + Restore(rest, order)
  {
    hide Meant, Read;
  }

  /** No `$` outside quotes and comments already names one of the arguments. */
  predicate NoBareReference(s: string, names: nat) {
    s == "" || (!(s[0] == '$' && Refers(s[1..], names)) && NoBareReference(s[TokenLen(s)..], names))
  }

  /** x stands for `rest` as far as the next character goes. */
  predicate SameHead(rest: string, x: string) {
    && (rest == "" <==> x == "")
    && (rest != "" ==> x[0] == rest[0] || (rest[0] == ':' && x[0] == '$'))
  }

  lemma {:induction false} LiteralLocal(b: string, x: string)
    requires SameHead(b[LiteralLen(b)..], x)
    ensures LiteralLen(b[..LiteralLen(b)] + x) == LiteralLen(b)
  {
    var m := LiteralLen(b);
    if m == |b| && x == "" {
      assert b[..m] + x == b;
    } else if b[0] != '\'' {
      assert b[1..][m - 1..] == b[m..];
      LiteralLocal(b[1..], x);
      assert (b[..m] + x)[1..] == b[1..][..m - 1] + x;
    } else if |b| > 1 && b[1] == '\'' {
      assert b[2..][m - 2..] == b[m..];
      LiteralLocal(b[2..], x);
      assert (b[..m] + x)[2..] == b[2..][..m - 2] + x;
    }
  }

  lemma {:induction false} QuotedLocal(b: string, x: string)
    requires SameHead(b[QuotedLen(b)..], x)
    ensures QuotedLen(b[..QuotedLen(b)] + x) == QuotedLen(b)
  {
    var m := QuotedLen(b);
    if m == |b| && x == "" {
      assert b[..m] + x == b;
    } else if b[0] != '"' {
      assert b[1..][m - 1..] == b[m..];
      QuotedLocal(b[1..], x);
      assert (b[..m] + x)[1..] == b[1..][..m - 1] + x;
    }
  }

  lemma {:induction false} LineLocal(b: string, x: string)
    requires SameHead(b[LineLen(b)..], x)
    ensures LineLen(b[..LineLen(b)] + x) == LineLen(b)
  {
    var m := LineLen(b);
    if m == 0 {
      assert b[..m] + x == x;
    } else {
      assert b[1..][m - 1..] == b[m..];
      LineLocal(b[1..], x);
      assert (b[..m] + x)[1..] == b[1..][..m - 1] + x;
    }
  }

  lemma {:induction false} BlockLocal(b: string, x: string)
    requires SameHead(b[BlockLen(b)..], x)
    ensures BlockLen(b[..BlockLen(b)] + x) == BlockLen(b)
  {
    var m := BlockLen(b);
    if m == |b| && x == "" {
      assert b[..m] + x == b;
    } else if !(b[0] == '*' && |b| > 1 && b[1] == '/') {
      assert b[1..][m - 1..] == b[m..];
      BlockLocal(b[1..], x);
      assert (b[..m] + x)[1..] == b[1..][..m - 1] + x;
    }
  }

  /** Cutting the front off a text with another ending. */
  lemma CutFront(s: string, k: nat, n: nat, x: string)
    requires k <= n <= |s|
    ensures (s[..n] + x)[k..] == s[k..][..n - k] + x && s[k..][n - k..] == s[n..]
    ensures forall j :: 0 <= j < n ==> (s[..n] + x)[j] == s[j]
  {
  }

  lemma QuotedTokenLocal(s: string, x: string)
    requires s != "" && (s[0] == '\'' || s[0] == '"') && SameHead(s[TokenLen(s)..], x)
    ensures TokenLen(s[..TokenLen(s)] + x) == TokenLen(s)
  {
    hide LiteralLen, QuotedLen, SameHead;
    CutFront(s, 1, TokenLen(s), x);
    if s[0] == '\'' { LiteralLocal(s[1..], x); } else { QuotedLocal(s[1..], x); }
  }

  lemma LineTokenLocal(s: string, x: string)
    requires |s| > 1 && s[0] == '-' && s[1] == '-' && SameHead(s[1..][LineLen(s[1..])..], x)
    ensures TokenLen(s) > 1 && TokenLen(s[..TokenLen(s)] + x) == TokenLen(s)
  {
    hide SameHead;
    assert LineLen(s[1..]) >= 1 && TokenLen(s) == 1 + LineLen(s[1..]);
    CutFront(s, 1, TokenLen(s), x);
    LineLocal(s[1..], x);
  }

  lemma BlockTokenLocal(s: string, x: string)
    requires |s| > 1 && s[0] == '/' && s[1] == '*' && SameHead(s[2..][BlockLen(s[2..])..], x)
    ensures TokenLen(s[..TokenLen(s)] + x) == TokenLen(s)
  {
    hide BlockLen, SameHead;
    assert TokenLen(s) == 2 + BlockLen(s[2..]);
    CutFront(s, 2, TokenLen(s), x);
    BlockLocal(s[2..], x);
  }

  /** Where a copied token ends does not depend on what compiling makes of the rest. */
  lemma TokenLocal(s: string, x: string)
    requires s != "" && TokenOf(s).Text? && SameHead(s[TokenLen(s)..], x)
    ensures TokenLen(s[..TokenLen(s)] + x) == TokenLen(s)
  {
    if s[0] == '\'' || s[0] == '"' {
      QuotedTokenLocal(s, x);
    } else if s[0] == '-' && Starts(s[1..], '-') {
      assert s[1..][LineLen(s[1..])..] == s[TokenLen(s)..];
      LineTokenLocal(s, x);
    } else if s[0] == '/' && Starts(s[1..], '*') {
      assert s[2..][BlockLen(s[2..])..] == s[TokenLen(s)..];
      BlockTokenLocal(s, x);
    } else {
      var t := s[..TokenLen(s)] + x;
      assert t[0] == s[0];
      assert |t| > 1 && TokenLen(s) == 1 ==> t[1] == x[0] && s[1..][0] == s[1];
    }
  }

  /** Every token of s compiles, its names numbered by `order`. */
  predicate Compiles(s: string, order: seq<string>) {
    s == "" || (!TokenOf(s).DollarQuote? && (TokenOf(s).Slot? ==> TokenOf(s).name in order)
                && Compiles(s[TokenLen(s)..], order))
  }

  function RenderText(s: string, order: seq<string>): string
    requires Compiles(s, order)
  {
    if s == "" then "" else Piece(TokenOf(s), order) + RenderText(s[TokenLen(s)..], order)
  }

  lemma {:induction false} RenderTextRenders(s: string, order: seq<string>)
    requires (forall n :: Slot(n) in Tokens(s) ==> n in order) && DollarQuote !in Tokens(s)
    ensures Compiles(s, order) && RenderText(s, order) == Render(Tokens(s), order)
  {
    if s != "" {
      var after := Tokens(s[TokenLen(s)..]);
      assert Tokens(s)[0] == TokenOf(s) && Tokens(s)[1..] == after;
      assert forall t :: t in after ==> t in Tokens(s);
      RenderTextRenders(s[TokenLen(s)..], order);
    }
  }

  /** The rest of the text starts the same after compiling, a slot with `$`. */
  lemma HeadOfRender(s: string, order: seq<string>)
    requires Compiles(s, order)
    ensures SameHead(s, RenderText(s, order))
    ensures s != "" && TokenOf(s).Text? ==> RenderText(s, order)[0] == s[0]
  {
  }

  lemma DigitToken(s: string, order: seq<string>)
    requires s != "" && IsDigit(s[0]) && Compiles(s, order)
    ensures TokenLen(s) == 1 && Compiles(s[1..], order) && RenderText(s, order) == [s[0]] + RenderText(s[1..], order)
  {
    assert s[..1] == [s[0]];
  }

  /** Leading digits are copied, and nothing is put behind them. */
  lemma {:induction false} DigitsSurvive(s: string, order: seq<string>)
    requires Compiles(s, order)
    ensures var r := RenderText(s, order);
      DigitLen(r) == DigitLen(s) && r[..DigitLen(s)] == s[..DigitLen(s)]
  {
    if s == "" || !IsDigit(s[0]) {
      HeadOfRender(s, order);
    } else {
      DigitToken(s, order);
      DigitsSurvive(s[1..], order);
      DigitPrefix(s[0], RenderText(s[1..], order), s[1..]);
      assert s == [s[0]] + s[1..];
    }
  }

  lemma DigitPrefix(d: char, a: string, b: string)
    requires IsDigit(d) && DigitLen(a) == DigitLen(b) && a[..DigitLen(b)] == b[..DigitLen(b)]
    ensures DigitLen([d] + a) == DigitLen([d] + b)
    ensures ([d] + a)[..DigitLen([d] + b)] == ([d] + b)[..DigitLen([d] + b)]
  {
    assert ([d] + a)[1..] == a && ([d] + b)[1..] == b;
    assert ([d] + a)[..1 + DigitLen(b)] == [d] + a[..DigitLen(b)];
    assert ([d] + b)[..1 + DigitLen(b)] == [d] + b[..DigitLen(b)];
  }

  lemma {:induction false} DigitsThen(d: string, x: string)
    requires (forall k :: 0 <= k < |d| ==> IsDigit(d[k])) && (x == "" || !IsDigit(x[0]))
    ensures DigitLen(d + x) == |d|
  {
    if d == "" { assert d + x == x; } else {
      assert (d + x)[1..] == d[1..] + x;
      DigitsThen(d[1..], x);
    }
  }

  lemma AfterDollar(d: string, x: string)
    ensures var s := "$" + d + x; s != "" && s[0] == '$' && s[1..] == d + x && s[1 + |d|..] == x
  {
  }

  lemma MeantReference(s: string, k: nat, order: seq<string>)
    requires 1 <= k <= |order| && s != "" && s[0] == '$' && DigitLen(s[1..]) > 0 && Leading(s[1..]) == k
    ensures Meant(s, order) == ":" + order[k - 1] && Read(s, |order|) == 1 + DigitLen(s[1..])
  {
    hide Leading, DigitLen, TokenLen;
  }

  /** What reading a reference at the front gives. */
  lemma RestoreReference(d: string, k: nat, x: string, order: seq<string>)
    requires 1 <= k <= |order| && DigitLen(d + x) == |d| > 0 && Leading(d + x) == k
    ensures Restore("$" + d + x, order) == ":" + order[k - 1] + Restore(x, order)
  {
    hide Leading, DigitLen, Restore, TokenLen, Meant, Read;
    AfterDollar(d, x);
    MeantReference("$" + d + x, k, order);
    RestoreFirst("$" + d + x, order, Meant("$" + d + x, order), x);
  }

  lemma LeadingDigits(d: string, x: string)
    requires d != "" && (forall k :: 0 <= k < |d| ==> IsDigit(d[k])) && (x == "" || !IsDigit(x[0]))
    ensures DigitLen(d + x) == |d| && Leading(d + x) == Parse(d)
  {
    hide Parse, DigitLen;
    DigitsThen(d, x);
    assert (d + x)[..|d|] == d;
  }

  /** A placeholder in front of a non-digit reads back as its name. */
  lemma PlaceholderRestores(k: nat, x: string, order: seq<string>)
    requires 1 <= k <= |order| && (x == "" || !IsDigit(x[0]))
    ensures Restore(Placeholder(k) + x, order) == ":" + order[k - 1] + Restore(x, order)
  {
    hide Restore, Parse, Decimal, DigitLen, Leading;
    DecimalParses(k);
    LeadingDigits(Decimal(k), x);
    RestoreReference(Decimal(k), k, x, order);
  }

  /** After a slot comes no digit. */
  lemma AfterSlot(s: string, order: seq<string>)
    requires s != "" && TokenOf(s).Slot? && Compiles(s, order)
    ensures var x := RenderText(s[TokenLen(s)..], order); x == "" || !IsDigit(x[0])
    ensures s[..TokenLen(s)] == ":" + TokenOf(s).name
  {
    var rest := s[TokenLen(s)..];
    HeadOfRender(rest, order);
    assert rest != "" ==> s[1..][IdentLen(s[1..])] == rest[0];
  }

  lemma Glue(s: string, n: nat, x: string)
    requires 0 < n <= |s|
    ensures var r := s[..n] + x; r != "" && r[0] == s[0] && r[n..] == x && r[..n] == s[..n]
  {
  }

  lemma SameReference(a: string, b: string, names: nat)
    requires DigitLen(a) == DigitLen(b) && a[..DigitLen(b)] == b[..DigitLen(b)]
    ensures Refers(a, names) == Refers(b, names)
  {
  }

  /** Text in front that is no reference of its own reads back as itself. */
  lemma TextRestores(s: string, order: seq<string>)
    requires s != "" && TokenOf(s).Text? && Compiles(s, order)
    ensures var x := RenderText(s[TokenLen(s)..], order);
      if s[0] == '$' && Refers(s[1..], |order|) then Restore(RenderText(s, order), order)[..1] == ":"
      else Restore(RenderText(s, order), order) == s[..TokenLen(s)] + Restore(x, order)
  {
    var n := TokenLen(s);
    var rest := s[n..];
    var x := RenderText(rest, order);
    assert RenderText(s, order) == s[..n] + x;
    HeadOfRender(rest, order);
    TokenLocal(s, x);
    Glue(s, n, x);
    if s[0] == '$' {
      DigitsSurvive(rest, order);
      SameReference(x, rest, |order|);
    }
    TextReads(s, n, x, order);
  }

  lemma TextReads(s: string, n: nat, x: string, order: seq<string>)
    requires 0 < n <= |s| && TokenLen(s[..n] + x) == n
    requires s[0] == '$' ==> n == 1 && Refers(x, |order|) == Refers(s[1..], |order|)
    ensures
      if s[0] == '$' && Refers(s[1..], |order|) then Restore(s[..n] + x, order)[..1] == ":"
      else Restore(s[..n] + x, order) == s[..n] + Restore(x, order)
  {
    hide Refers, TokenLen, Restore;
    Glue(s, n, x);
    if s[0] == '$' && Refers(s[1..], |order|) {
      RestoreFirst(s[..n] + x, order, Meant(s[..n] + x, order), (s[..n] + x)[Read(s[..n] + x, |order|)..]);
    } else {
      RestoreFirst(s[..n] + x, order, s[..n], x);
    }
  }

  lemma SamePrefix(s: string, n: nat, r: string, back: string)
    requires n <= |s| && r == s[..n] + back
    ensures r == s <==> back == s[n..]
  {
    assert s == s[..n] + s[n..];
    assert back == r[n..];
  }

  lemma SlotRestores(s: string, order: seq<string>)
    requires s != "" && TokenOf(s).Slot? && Compiles(s, order)
    ensures s[0] == ':'
    ensures Restore(RenderText(s, order), order) ==
      s[..TokenLen(s)] + Restore(RenderText(s[TokenLen(s)..], order), order)
  {
    hide Restore, TokenLen, IndexOf, Placeholder;
    AfterSlot(s, order);
    PlaceholderRestores(IndexOf(order, TokenOf(s).name) + 1, RenderText(s[TokenLen(s)..], order), order);
  }

  /** Reading the placeholders back gives the SQL that was compiled, exactly
      when that SQL had no reference of its own. */
  lemma {:induction false} RestoreInvertsRender(s: string, order: seq<string>)
    requires Compiles(s, order)
    ensures Restore(RenderText(s, order), order) == s <==> NoBareReference(s, |order|)
  {
    if s == "" { return; }
    hide Restore, TokenLen, TokenOf, Piece, Refers;
    var n := TokenLen(s);
    var back := Restore(RenderText(s[n..], order), order);
    RestoreInvertsRender(s[n..], order);
    if TokenOf(s).Slot? { SlotRestores(s, order); } else { TextRestores(s, order); }
    if s[0] == '$' && Refers(s[1..], |order|) {
      assert Restore(RenderText(s, order), order) != s;
    } else {
      SamePrefix(s, n, Restore(RenderText(s, order), order), back);
    }
  }

  /** The round trip of Compile. */
  lemma CompileRoundTrip(sql: string, bound: set<string>)
    requires CompileTokens(Tokens(sql), [], bound).Ok?
    ensures var c := CompileTokens(Tokens(sql), [], bound);
      Restore(c.sql, c.order) == sql <==> NoBareReference(sql, |c.order|)
  {
    var order := CompileTokens(Tokens(sql), [], bound).order;
    CompileRenders(sql, bound);
    FailsAtFirstBad(Tokens(sql), [], bound);
    assert DollarQuote !in Tokens(sql);
    RenderTextRenders(sql, order);
    RestoreInvertsRender(sql, order);
  }

  /** Bind's names are identifiers, and no two of them are the same. */
  lemma BindNames(a: nat, b: nat)
    ensures IsIdent("_b" + Decimal(a))
    ensures "_b" + Decimal(a) == "_b" + Decimal(b) ==> a == b
  {
    DecimalParses(a);
    DecimalParses(b);
    assert ("_b" + Decimal(a))[2..] == Decimal(a) && ("_b" + Decimal(b))[2..] == Decimal(b);
    assert forall k :: 2 <= k < |"_b" + Decimal(a)| ==> ("_b" + Decimal(a))[k] == Decimal(a)[k - 2];
  }
}
