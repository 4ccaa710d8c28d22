/**
 Reading through the chain of backends.  A backend writes chunk by chunk and may
 have written some before it reports one missing; the chain then asks the next
 backend, over the same writer.
 */
module CasChain {
  import opened Prelude

  datatype Error = NotFound | Unreadable

  /** What a backend holds, and the addresses whose read fails otherwise. */
  datatype Backend = Backend(chunks: map<string, string>, unreadable: set<string>)

  class Writer {
    var written: string

    constructor ()
      ensures written == ""
    {
      written := "";
    }

    method Write(data: string)
      modifies this
      ensures written == old(written) + data
    {
      written := written + data;
    }
  }

  /** How a backend's read ends. */
  function Ending(b: Backend, addresses: seq<string>): Option<Error> {
    if addresses == [] then None
    else if addresses[0] in b.unreadable then Some(Unreadable)
    else if addresses[0] !in b.chunks then Some(NotFound)
    else Ending(b, addresses[1..])
  }

  /** How many chunks it writes first. */
  function Reach(b: Backend, addresses: seq<string>): (n: nat)
    ensures n <= |addresses|
    ensures forall k :: 0 <= k < n ==> addresses[k] in b.chunks
    ensures n == |addresses| <==> Ending(b, addresses) == None
  {
    if addresses == [] || addresses[0] in b.unreadable || addresses[0] !in b.chunks then 0
    else 1 + Reach(b, addresses[1..])
  }

  /** The bytes asked for, when b has them all. */
  function Content(b: Backend, addresses: seq<string>): string
    requires forall k :: 0 <= k < |addresses| ==> addresses[k] in b.chunks
  {
    if addresses == [] then ""
    else Content(b, addresses[..|addresses| - 1]) + b.chunks[addresses[|addresses| - 1]]
  }

  function Wrote(b: Backend, addresses: seq<string>): string {
    Content(b, addresses[..Reach(b, addresses)])
  }

  lemma {:induction false} ReachAt(b: Backend, addresses: seq<string>, i: nat)
    requires i <= |addresses|
    requires forall k :: 0 <= k < i ==> addresses[k] in b.chunks && addresses[k] !in b.unreadable
    ensures Reach(b, addresses) == i + Reach(b, addresses[i..]) && Ending(b, addresses) == Ending(b, addresses[i..])
  {
    if i > 0 {
      ReachAt(b, addresses[1..], i - 1);
      assert addresses[1..][i - 1..] == addresses[i..];
    }
  }

  /** A read goes on to the first address it cannot read or does not hold, and
      says which of the two it was; it works if and only if there is none. */
  lemma {:induction false} StopsAtFirst(b: Backend, addresses: seq<string>)
    ensures var n, end := Reach(b, addresses), Ending(b, addresses);
      && (forall k :: 0 <= k < n ==> addresses[k] in b.chunks && addresses[k] !in b.unreadable)
      && (n == |addresses| <==> end == None)
      && (end == Some(Unreadable) ==> n < |addresses| && addresses[n] in b.unreadable)
      && (end == Some(NotFound) ==> n < |addresses| && addresses[n] !in b.unreadable && addresses[n] !in b.chunks)
  {
    if addresses != [] {
      var rest := addresses[1..];
      StopsAtFirst(b, rest);
      assert forall k | 0 < k < |addresses| :: addresses[k] == rest[k - 1];
    }
  }

  /** PgBackend.GetAll. */
  method ReadOne(b: Backend, addresses: seq<string>, w: Writer) returns (err: Option<Error>)
    modifies w
    ensures err == Ending(b, addresses) && w.written == old(w.written) + Wrote(b, addresses)
  {
    var i := 0;
    while i < |addresses|
      invariant 0 <= i <= |addresses|
      invariant forall k :: 0 <= k < i ==> addresses[k] in b.chunks && addresses[k] !in b.unreadable
      invariant w.written == old(w.written) + Content(b, addresses[..i])
    {
      var a := addresses[i];
      ReachAt(b, addresses, i);
      if a in b.unreadable { return Some(Unreadable); }
      if a !in b.chunks { return Some(NotFound); }
      w.Write(b.chunks[a]);
      assert addresses[..i + 1][..i] == addresses[..i];
      i := i + 1;
    }
    ReachAt(b, addresses, i);
    return None;
  }

  /** The first backend whose read does not end in NotFound. */
  function Server(chain: seq<Backend>, addresses: seq<string>): (k: nat)
    ensures k <= |chain|
    ensures forall j :: 0 <= j < k ==> Ending(chain[j], addresses) == Some(NotFound)
    ensures k < |chain| ==> Ending(chain[k], addresses) != Some(NotFound)
  {
    if chain == [] || Ending(chain[0], addresses) != Some(NotFound) then 0 else 1 + Server(chain[1..], addresses)
  }

  /** What the first k backends wrote. */
  function Spilled(chain: seq<Backend>, k: nat, addresses: seq<string>): string
    requires k <= |chain|
  {
    if k == 0 then "" else Spilled(chain, k - 1, addresses) + Wrote(chain[k - 1], addresses)
  }

  /** Storage.GetAll. */
  method GetAll(chain: seq<Backend>, addresses: seq<string>, w: Writer) returns (err: Option<Error>)
    modifies w
    ensures var k := Server(chain, addresses);
      && err == (if chain != [] && addresses == [] then None
                 else if k < |chain| then Ending(chain[k], addresses) else Some(NotFound))
      && w.written == old(w.written) + (if addresses == [] then ""
           else Spilled(chain, if k < |chain| then k + 1 else k, addresses))
  {
    hide Ending, Reach, Content, Wrote;
    if |chain| == 0 { return Some(NotFound); }
    if |addresses| == 0 { return None; }
    var i := 0;
    while i < |chain|
      invariant 0 <= i <= |chain| && i <= Server(chain, addresses)
      invariant w.written == old(w.written) + Spilled(chain, i, addresses)
    {
      err := ReadOne(chain[i], addresses, w);
      i := i + 1;
      if err != Some(NotFound) {
        assert Server(chain, addresses) == i - 1;
        return;
      }
    }
    return Some(NotFound);
  }

  /** Every backend that holds an address holds the same bytes under it. */
  ghost predicate ContentAddressed(chain: seq<Backend>) {
    forall i, j, a :: 0 <= i < |chain| && 0 <= j < |chain| && a in chain[i].chunks && a in chain[j].chunks ==>
      chain[i].chunks[a] == chain[j].chunks[a]
  }

  lemma {:induction false} SpilledNothing(chain: seq<Backend>, k: nat, addresses: seq<string>)
    requires k <= |chain|
    ensures Spilled(chain, k, addresses) == "" <==> forall j :: 0 <= j < k ==> Wrote(chain[j], addresses) == ""
  {
    if k > 0 { SpilledNothing(chain, k - 1, addresses); }
  }

  lemma {:induction false} ContentEmpty(b: Backend, addresses: seq<string>)
    requires forall k :: 0 <= k < |addresses| ==> addresses[k] in b.chunks
    ensures Content(b, addresses) == "" <==> forall k :: 0 <= k < |addresses| ==> b.chunks[addresses[k]] == ""
  {
    if addresses != [] { ContentEmpty(b, addresses[..|addresses| - 1]); }
  }

  /** b holds nothing but empty chunks before the first address it lacks. */
  ghost predicate SilentBefore(b: Backend, addresses: seq<string>) {
    forall k :: 0 <= k < Reach(b, addresses) ==> b.chunks[addresses[k]] == ""
  }

  /** The bytes asked for. */
  function Asked(b: Backend, addresses: seq<string>): string
    requires Ending(b, addresses) == None
  {
    assert Reach(b, addresses) == |addresses|;
    Content(b, addresses)
  }

  lemma ServedLast(chain: seq<Backend>, addresses: seq<string>)
    requires var k := Server(chain, addresses); k < |chain| && Ending(chain[k], addresses) == None
    ensures var k := Server(chain, addresses);
      Spilled(chain, k + 1, addresses) == Spilled(chain, k, addresses) + Asked(chain[k], addresses)
  {
    hide Content, Ending, Server;
    var k := Server(chain, addresses);
    assert Reach(chain[k], addresses) == |addresses| && addresses[..|addresses|] == addresses;
  }

  lemma SilentWrites(b: Backend, addresses: seq<string>)
    ensures Wrote(b, addresses) == "" <==> SilentBefore(b, addresses)
  {
    ContentEmpty(b, addresses[..Reach(b, addresses)]);
  }

  /** A read the chain answers gives the bytes asked for exactly when no backend
      before the one that answered had a non-empty chunk to write first. */
  lemma ReadIsExact(chain: seq<Backend>, addresses: seq<string>)
    requires var k := Server(chain, addresses); k < |chain| && Ending(chain[k], addresses) == None
    ensures var k := Server(chain, addresses);
      Spilled(chain, k + 1, addresses) == Asked(chain[k], addresses) <==>
      forall j :: 0 <= j < k ==> SilentBefore(chain[j], addresses)
  {
    hide Asked, Spilled, Wrote, Server, Ending, SilentBefore;
    var k := Server(chain, addresses);
    ServedLast(chain, addresses);
    SpilledNothing(chain, k, addresses);
    forall j | 0 <= j < k ensures Wrote(chain[j], addresses) == "" <==> SilentBefore(chain[j], addresses) {
      SilentWrites(chain[j], addresses);
    }
  }

  /** For one address that always holds. */
  lemma OneChunkIsExact(chain: seq<Backend>, address: string)
    requires var k := Server(chain, [address]); k < |chain| && Ending(chain[k], [address]) == None
    ensures var k := Server(chain, [address]); Spilled(chain, k + 1, [address]) == Asked(chain[k], [address])
  {
    hide Asked, Spilled, Wrote, Server, Content;
    var k := Server(chain, [address]);
    ReadIsExact(chain, [address]);
    forall j | 0 <= j < k ensures SilentBefore(chain[j], [address]) {
      assert Reach(chain[j], [address]) < 1;
    }
  }

  /** A chain that answers without an error and repeats the first chunk. */
  lemma SpillRepeats()
    ensures var chain := [Backend(map["a" := "x"], {}), Backend(map["a" := "x", "b" := "y"], {})];
      && ContentAddressed(chain) && Server(chain, ["a", "b"]) == 1 && Ending(chain[1], ["a", "b"]) == None
      && Spilled(chain, 2, ["a", "b"]) == "xxy"
  {
    var first, second := Backend(map["a" := "x"], {}), Backend(map["a" := "x", "b" := "y"], {});
    var chain, both := [first, second], ["a", "b"];
    assert both[1..] == ["b"] && ["b"][1..] == [];
    assert Ending(first, ["b"]) == Some(NotFound) && Ending(second, ["b"]) == Ending(second, []) == None;
    assert Reach(first, ["b"]) == 0 && Reach(second, ["b"]) == 1;
    assert chain[1..] == [second] && Server(chain[1..], both) == 0;
    assert both[..1] == ["a"] && both[..2] == both && ["a"][..0] == [] && both[..2][..1] == ["a"];
    assert Content(first, ["a"]) == Content(first, []) + "x" == "x";
    assert Content(second, ["a"]) == Content(second, []) + "x" == "x";
    assert Content(second, both) == Content(second, both[..1]) + "y" == "xy";
    assert Wrote(first, both) == "x" && Wrote(second, both) == "xy";
    assert Spilled(chain, 0, both) == "" && Spilled(chain, 1, both) == "" + "x";
    assert Spilled(chain, 2, both) == Spilled(chain, 1, both) + "xy";
  }
}
