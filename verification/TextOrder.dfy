/** Texts in order, and sorting them. */
module TextOrder {
  /** Text order, character by character. */
  predicate TextBefore(a: string, b: string) {
    if a == "" then b != "" else if b == "" then false
    else a[0] < b[0] || (a[0] == b[0] && TextBefore(a[1..], b[1..]))
  }

  predicate InOrder(s: seq<string>) {
    forall i, j :: 0 <= i < j < |s| ==> !TextBefore(s[j], s[i])
  }

  function Insert(t: string, s: seq<string>): seq<string> {
    if s == [] || !TextBefore(s[0], t) then [t] + s else [s[0]] + Insert(t, s[1..])
  }

  function Sorted(s: seq<string>): seq<string> {
    if s == [] then [] else Insert(s[0], Sorted(s[1..]))
  }

  lemma {:induction false} OneWay(a: string, b: string)
    ensures !(TextBefore(a, b) && TextBefore(b, a))
    decreases |a|
  {
    if a != "" && b != "" { OneWay(a[1..], b[1..]); }
  }

  lemma {:induction false} Through(a: string, b: string, c: string)
    requires !TextBefore(b, a) && !TextBefore(c, b)
    ensures !TextBefore(c, a)
    decreases |a|
  {
    if a != "" && b != "" && c != "" && a[0] == b[0] == c[0] { Through(a[1..], b[1..], c[1..]); }
  }

  lemma {:induction false} InsertKeeps(t: string, s: seq<string>)
    requires InOrder(s)
    ensures InOrder(Insert(t, s)) && multiset(Insert(t, s)) == multiset(s) + multiset{t}
  {
    hide TextBefore;
    if s == [] {
    } else if !TextBefore(s[0], t) {
      forall j | 0 <= j < |s| ensures !TextBefore(s[j], t) {
        if j > 0 { Through(t, s[0], s[j]); }
      }
    } else {
      var rest := Insert(t, s[1..]);
      assert s == [s[0]] + s[1..];
      InsertKeeps(t, s[1..]);
      OneWay(s[0], t);
      forall j | 0 <= j < |rest| ensures !TextBefore(rest[j], s[0]) {
        assert rest[j] in multiset(rest);
        if rest[j] != t {
          assert rest[j] in multiset(s[1..]);
          var k :| 0 <= k < |s[1..]| && s[1..][k] == rest[j];
          assert s[k + 1] == rest[j];
        }
      }
    }
  }

  /** The same texts, in order. */
  lemma {:induction false} SortedIsSorted(s: seq<string>)
    ensures InOrder(Sorted(s)) && multiset(Sorted(s)) == multiset(s)
  {
    if s != [] {
      SortedIsSorted(s[1..]);
      InsertKeeps(s[0], Sorted(s[1..]));
      assert s == [s[0]] + s[1..];
    }
  }
}
