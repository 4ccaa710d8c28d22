/** The Builder: bindings, and the one-pass cursor over the SQL text. */
module NamedBuilder {
  import opened Named
  import opened NamedPlaces

  /** Copies a literal from the cursor on: the text copied and the new cursor. */
  method CopyLiteral(sql: string, start: nat) returns (text: string, i: nat)
    requires start < |sql| && sql[start] == '\''
    ensures i == start + 1 + LiteralLen(sql[start + 1..]) && text == sql[start..i]
  {
    text, i := [sql[start]], start + 1;
    while i < |sql|
      invariant start < i <= |sql| && text == sql[start..i]
      invariant i + LiteralLen(sql[i..]) == start + 1 + LiteralLen(sql[start + 1..])
    {
      assert sql[i..][1..] == sql[i + 1..];
      if sql[i] == '\'' {
        text := text + [sql[i]];
        i := i + 1;
        if i < |sql| && sql[i] == '\'' {
          assert sql[i - 1..][2..] == sql[i + 1..];
          text := text + [sql[i]];
          i := i + 1;
          continue;
        }
        return;
      }
      text := text + [sql[i]];
      i := i + 1;
    }
  }

  method CopyQuoted(sql: string, start: nat) returns (text: string, i: nat)
    requires start < |sql| && sql[start] == '"'
    ensures i == start + 1 + QuotedLen(sql[start + 1..]) && text == sql[start..i]
  {
    text, i := [sql[start]], start + 1;
    while i < |sql| && sql[i] != '"'
      invariant start < i <= |sql| && text == sql[start..i]
      invariant i + QuotedLen(sql[i..]) == start + 1 + QuotedLen(sql[start + 1..])
    {
      assert sql[i..][1..] == sql[i + 1..];
      text := text + [sql[i]];
      i := i + 1;
    }
    if i < |sql| {
      text := text + [sql[i]];
      i := i + 1;
    }
  }

  method CopyLine(sql: string, start: nat) returns (text: string, i: nat)
    requires start < |sql|
    ensures i == start + LineLen(sql[start..]) && text == sql[start..i]
  {
    text, i := "", start;
    while i < |sql| && sql[i] != '\n'
      invariant start <= i <= |sql| && text == sql[start..i]
      invariant i + LineLen(sql[i..]) == start + LineLen(sql[start..])
    {
      assert sql[i..][1..] == sql[i + 1..];
      text := text + [sql[i]];
      i := i + 1;
    }
  }

  method CopyBlock(sql: string, start: nat) returns (text: string, i: nat)
    requires start + 1 < |sql|
    ensures i == start + 2 + BlockLen(sql[start + 2..]) && text == sql[start..i]
  {
    text, i := [sql[start], sql[start + 1]], start + 2;
    while i < |sql|
      invariant start + 2 <= i <= |sql| && text == sql[start..i]
      invariant i + BlockLen(sql[i..]) == start + 2 + BlockLen(sql[start + 2..])
    {
      assert sql[i..][1..] == sql[i + 1..];
      if sql[i] == '*' && i + 1 < |sql| && sql[i + 1] == '/' {
        text := text + [sql[i], sql[i + 1]];
        i := i + 2;
        return;
      }
      text := text + [sql[i]];
      i := i + 1;
    }
  }

  method SkipIdent(sql: string, start: nat) returns (j: nat)
    requires start <= |sql|
    ensures j == start + IdentLen(sql[start..])
  {
    j := start;
    while j < |sql| && IsIdentCont(sql[j])
      invariant start <= j <= |sql|
      invariant j + IdentLen(sql[j..]) == start + IdentLen(sql[start..])
    {
      assert sql[j..][1..] == sql[j + 1..];
      j := j + 1;
    }
  }

  method IsDollarQuoteOpener(sql: string, i: nat) returns (opener: bool)
    requires i < |sql| && sql[i] == '$'
    ensures opener == DollarOpener(sql[i + 1..])
  {
    var j := i + 1;
    if j < |sql| && sql[j] == '$' { return true; }
    if j >= |sql| || !IsIdentStart(sql[j]) { return false; }
    j := SkipIdent(sql, j);
    assert sql[i + 1..][IdentLen(sql[i + 1..])..] == sql[j..];
    return j < |sql| && sql[j] == '$';
  }

  /** A dollar, a cast, a slot, or one ordinary character. */
  method ReadMark(sql: string, i: nat) returns (token: Token, next: nat)
    requires i < |sql| && sql[i] != '\'' && sql[i] != '"'
    requires !(sql[i] == '-' && Starts(sql[i + 1..], '-')) && !(sql[i] == '/' && Starts(sql[i + 1..], '*'))
    ensures token == TokenOf(sql[i..]) && next == i + TokenLen(sql[i..])
    ensures i < next <= |sql|
  {
    var c := sql[i];
    assert sql[i..][1..] == sql[i + 1..];
    if c == '$' {
      var opener := IsDollarQuoteOpener(sql, i);
      return if opener then DollarQuote else Text([c]), i + 1;
    }
    if c == ':' && i + 1 < |sql| && sql[i + 1] == ':' {
      return Text([sql[i], sql[i + 1]]), i + 2;
    }
    if c == ':' && i + 1 < |sql| && IsIdentStart(sql[i + 1]) {
      next := SkipIdent(sql, i + 1);
      assert sql[i..][1..TokenLen(sql[i..])] == sql[i + 1..next];
      return Slot(sql[i + 1..next]), next;
    }
    return Text([c]), i + 1;
  }

  /** What stands at the cursor, and where the cursor goes. */
  method ReadToken(sql: string, i: nat) returns (token: Token, next: nat)
    requires i < |sql|
    ensures token == TokenOf(sql[i..]) && next == i + TokenLen(sql[i..])
    ensures i < next <= |sql|
  {
    var c := sql[i];
    assert sql[i..][1..] == sql[i + 1..];
    var text: string;
    if c == '\'' {
      text, next := CopyLiteral(sql, i);
      return Text(text), next;
    }
    if c == '"' {
      text, next := CopyQuoted(sql, i);
      return Text(text), next;
    }
    if c == '-' && i + 1 < |sql| && sql[i + 1] == '-' {
      text, next := CopyLine(sql, i);
      return Text(text), next;
    }
    if c == '/' && i + 1 < |sql| && sql[i + 1] == '*' {
      assert sql[i..][2..] == sql[i + 2..];
      text, next := CopyBlock(sql, i);
      return Text(text), next;
    }
    token, next := ReadMark(sql, i);
  }

  /** `seen` has each name's number. */
  ghost predicate Numbered(seen: map<string, nat>, order: seq<string>) {
    && (forall n :: n in seen <==> n in order)
    && (forall n :: n in order ==> seen[n] == IndexOf(order, n) + 1)
  }

  /** The number of a name, a new one when it has none yet. */
  method Assign(seen: map<string, nat>, order: seq<string>, name: string)
    returns (seen': map<string, nat>, order': seq<string>, k: nat)
    requires Numbered(seen, order)
    ensures order' == Number(order, name) && Numbered(seen', order')
    ensures k == IndexOf(order', name) + 1
  {
    seen', order' := seen, order;
    if name !in seen {
      IndexOfPush(order, name);
      order' := order + [name];
      seen' := seen[name := |order'|];
    }
    k := seen'[name];
  }

  lemma CompileNothing(order: seq<string>, bound: set<string>)
    ensures CompileTokens(Tokens(""), order, bound) == Ok("", order)
  {
  }

  class Builder<V> {
    var counter: nat
    var vals: map<string, V>

    constructor ()
      ensures counter == 0 && vals == map[]
    {
      counter, vals := 0, map[];
    }

    /** The source panics on a name that is not an identifier. */
    method Set(name: string, value: V) returns (slot: string)
      requires IsIdent(name)
      modifies this`vals
      ensures vals == old(vals)[name := value]
      ensures slot == ":" + name
    {
      vals := vals[name := value];
      slot := ":" + name;
    }

    method Bind(value: V) returns (slot: string)
      modifies this
      ensures counter == old(counter) + 1
      ensures vals == old(vals)["_b" + Decimal(counter) := value]
      ensures slot == ":_b" + Decimal(counter)
    {
      counter := counter + 1;
      var name := "_b" + Decimal(counter);
      vals := vals[name := value];
      slot := ":" + name;
    }

    /** One pass over the text: what it returns is what its tokens compile to,
        with each number's argument. */
    method Compile(sql: string) returns (c: Compiled, args: seq<V>)
      ensures c == CompileTokens(Tokens(sql), [], vals.Keys)
      ensures c.Ok? <==>
        && (forall i, b :: 0 <= i < |sql| && Code(sql, i) && NameAt(sql, i, b) ==> sql[i + 1..b] in vals)
        && (forall i :: 0 <= i < |sql| && Code(sql, i) ==> !DollarAt(sql, i))
      ensures c.Ok? ==> |args| == |c.order| && forall k :: 0 <= k < |args| ==> c.order[k] in vals && args[k] == vals[c.order[k]]
    {
      hide TokenLen, TokenOf, CompileTokens, Tokens, IndexOf, Decimal, Code, NameAt, DollarAt;
      CompilesExactly(sql, vals.Keys);
      var out, order, seen := "", [], map[];
      var i := 0;
      ghost var whole := CompileTokens(Tokens(sql), [], vals.Keys);
      assert sql[0..] == sql;
      while i < |sql|
        invariant 0 <= i <= |sql|
        invariant whole == Prepend(out, CompileTokens(Tokens(sql[i..]), order, vals.Keys))
        invariant Numbered(seen, order)
        invariant forall n :: n in order ==> n in vals
      {
        CompileStep(whole, out, sql[i..], order, vals.Keys);
        var token, next := ReadToken(sql, i);
        assert sql[i..][TokenLen(sql[i..])..] == sql[next..];
        match token {
          case Text(text) => out := out + text;
          case DollarQuote => return Err(DollarQuoted), [];
          case Slot(name) =>
            if name !in seen && name !in vals { return Err(Unbound(name)), []; }
            var k;
            seen, order, k := Assign(seen, order, name);
            out := out + Placeholder(k);
        }
        i := next;
      }
      assert sql[i..] == "";
      CompileNothing(order, vals.Keys);
      args := [];
      for k := 0 to |order|
        invariant |args| == k && forall j :: 0 <= j < k ==> order[j] in vals && args[j] == vals[order[j]]
      {
        args := args + [vals[order[k]]];
      }
      c := Ok(out, order);
    }
  }
}
