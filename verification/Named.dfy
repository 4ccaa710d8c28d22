/**
 SQL text as tokens: what `Compile` must copy, what it must number, and what it
 must refuse.  Scanners look at the text that is left; the cursor loops over
 the whole text are in NamedBuilder.
 */
module Named {
  import opened DecimalDigits

  predicate IsIdentStart(c: char) {
    c == '_' || 'a' <= c <= 'z' || 'A' <= c <= 'Z'
  }

  predicate IsIdentCont(c: char) {
    IsIdentStart(c) || IsDigit(c)
  }

  predicate IsIdent(s: string) {
    s != "" && IsIdentStart(s[0]) && forall k :: 1 <= k < |s| ==> IsIdentCont(s[k])
  }

  // ------------------------------------------------------------------ scanners

  /** Characters of a string literal left after its opening quote; a doubled
      quote stays inside. */
  function LiteralLen(s: string): (n: nat)
    ensures n <= |s|
  {
    if s == "" then 0
    else if s[0] != '\'' then 1 + LiteralLen(s[1..])
    else if |s| > 1 && s[1] == '\'' then 2 + LiteralLen(s[2..])
    else 1
  }

  /** Characters left of a quoted identifier after its opening quote. */
  function QuotedLen(s: string): (n: nat)
    ensures n <= |s|
  {
    if s == "" then 0 else if s[0] == '"' then 1 else 1 + QuotedLen(s[1..])
  }

  /** Characters before the end of the line. */
  function LineLen(s: string): (n: nat)
    ensures n <= |s|
  {
    if s == "" || s[0] == '\n' then 0 else 1 + LineLen(s[1..])
  }

  /** Characters left of a block comment after its opening. */
  function BlockLen(s: string): (n: nat)
    ensures n <= |s|
  {
    if s == "" then 0
    else if s[0] == '*' && |s| > 1 && s[1] == '/' then 2
    else 1 + BlockLen(s[1..])
  }

  function IdentLen(s: string): (n: nat)
    ensures n <= |s|
    ensures forall k :: 0 <= k < n ==> IsIdentCont(s[k])
    ensures n < |s| ==> !IsIdentCont(s[n])
  {
    if s == "" || !IsIdentCont(s[0]) then 0 else 1 + IdentLen(s[1..])
  }

  function DigitLen(s: string): (n: nat)
    ensures n <= |s|
    ensures forall k :: 0 <= k < n ==> IsDigit(s[k])
    ensures n < |s| ==> !IsDigit(s[n])
  {
    if s == "" || !IsDigit(s[0]) then 0 else 1 + DigitLen(s[1..])
  }

  predicate Starts(s: string, c: char) {
    s != "" && s[0] == c
  }

  /** `$$` or `$tag$`, with s the text after the first `$`. */
  predicate DollarOpener(s: string) {
    || Starts(s, '$')
    || (s != "" && IsIdentStart(s[0]) && Starts(s[IdentLen(s)..], '$'))
  }

  // -------------------------------------------------------------------- tokens

  datatype Token = Text(text: string) | Slot(name: string) | DollarQuote

  function TokenLen(s: string): (n: nat)
    requires s != ""
    ensures 1 <= n <= |s|
  {
    var rest := s[1..];
    if s[0] == '\'' then 1 + LiteralLen(rest)
    else if s[0] == '"' then 1 + QuotedLen(rest)
    else if s[0] == '-' && Starts(rest, '-') then 1 + LineLen(rest)
    else if s[0] == '/' && Starts(rest, '*') then 2 + BlockLen(s[2..])
    else if s[0] == ':' && Starts(rest, ':') then 2
    else if s[0] == ':' && rest != "" && IsIdentStart(rest[0]) then 1 + IdentLen(rest)
    else 1
  }

  function TokenOf(s: string): Token
    requires s != ""
  {
    if s[0] == '$' && DollarOpener(s[1..]) then DollarQuote
    else if s[0] == ':' && |s| > 1 && IsIdentStart(s[1]) then Slot(s[1..TokenLen(s)])
    else Text(s[..TokenLen(s)])
  }

  function Tokens(s: string): seq<Token> {
    if s == "" then [] else [TokenOf(s)] + Tokens(s[TokenLen(s)..])
  }

  // -------------------------------------------------------- what Compile gives

  datatype Error = Unbound(name: string) | DollarQuoted
  datatype Compiled = Ok(sql: string, order: seq<string>) | Err(error: Error)

  function Prepend(text: string, c: Compiled): Compiled {
    if c.Ok? then c.(sql := text + c.sql) else c
  }

  /** Position of a name that is there. */
  function IndexOf(order: seq<string>, name: string): (k: nat)
    requires name in order
    ensures k < |order| && order[k] == name
    ensures forall j :: 0 <= j < k ==> order[j] != name
  {
    if order[0] == name then 0 else 1 + IndexOf(order[1..], name)
  }

  function Digit(d: nat): char
    requires d < 10
  {
    "0123456789"[d]
  }

  function Decimal(n: nat): string {
    if n < 10 then [Digit(n)] else Decimal(n / 10) + [Digit(n % 10)]
  }

  function Placeholder(k: nat): string {
    "$" + Decimal(k)
  }

  function Number(order: seq<string>, name: string): seq<string> {
    if name in order then order else order + [name]
  }

  /** Left to right: a name takes the next number the first time it is met. */
  function CompileTokens(ts: seq<Token>, order: seq<string>, bound: set<string>): Compiled {
    if ts == [] then Ok("", order)
    else
      match ts[0]
      case Text(text) => Prepend(text, CompileTokens(ts[1..], order, bound))
      case DollarQuote => Err(DollarQuoted)
      case Slot(name) =>
        if name !in order && name !in bound then Err(Unbound(name))
        else Prepend(Placeholder(IndexOf(Number(order, name), name) + 1),
                     CompileTokens(ts[1..], Number(order, name), bound))
  }

  /** A new name goes last; the others keep their places. */
  lemma {:induction false} IndexOfPush(order: seq<string>, name: string)
    requires name !in order
    ensures IndexOf(order + [name], name) == |order|
    ensures forall n :: n in order ==> IndexOf(order + [name], n) == IndexOf(order, n)
  {
    var longer := order + [name];
    assert longer[|order|] == name;
    assert forall k | 0 <= k < |order| :: longer[k] == order[k];
    forall n | n in order ensures IndexOf(longer, n) == IndexOf(order, n) {
      assert longer[IndexOf(order, n)] == n;
    }
  }

  /** One token further: what is written, and the order from there on. */
  lemma CompileStep(whole: Compiled, out: string, rest: string, order: seq<string>, bound: set<string>)
    requires rest != "" && whole == Prepend(out, CompileTokens(Tokens(rest), order, bound))
    ensures TokenOf(rest).Text? ==>
      whole == Prepend(out + TokenOf(rest).text, CompileTokens(Tokens(rest[TokenLen(rest)..]), order, bound))
    ensures TokenOf(rest).DollarQuote? ==> whole == Err(DollarQuoted)
    ensures TokenOf(rest).Slot? ==>
      var name := TokenOf(rest).name;
      if name !in order && name !in bound then whole == Err(Unbound(name))
      else whole == Prepend(out + Placeholder(IndexOf(Number(order, name), name) + 1),
                            CompileTokens(Tokens(rest[TokenLen(rest)..]), Number(order, name), bound))
  {
    var after := Tokens(rest[TokenLen(rest)..]);
    assert Tokens(rest)[1..] == after;
    if TokenOf(rest).Text? {
      PrependTwice(out, TokenOf(rest).text, CompileTokens(after, order, bound));
    } else if TokenOf(rest).Slot? {
      var name := TokenOf(rest).name;
      PrependTwice(out, Placeholder(IndexOf(Number(order, name), name) + 1),
                   CompileTokens(after, Number(order, name), bound));
    }
  }

  lemma PrependTwice(a: string, b: string, c: Compiled)
    ensures Prepend(a, Prepend(b, c)) == Prepend(a + b, c)
  {
    if c.Ok? { assert a + (b + c.sql) == (a + b) + c.sql; }
  }
}
