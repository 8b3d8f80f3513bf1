/**
 * ORDER BY name for the listing queries: SQLite's default BINARY collation compares names
 * character by character, and a proper prefix sorts first.
 */
module Ordering {

  /** A listed row: its id and the name it is ordered by. */
  datatype Entry = Entry(id: nat, name: string)

  /** a sorts no later than b under the BINARY collation. */
  predicate NameLe(a: string, b: string)
  {
    if a == [] then true
    else if b == [] then false
    else if a[0] != b[0] then a[0] < b[0]
    else NameLe(a[1..], b[1..])
  }

  lemma {:induction false} NameLeTotal(a: string, b: string)
    ensures NameLe(a, b) || NameLe(b, a)
  {
    if a != [] && b != [] && a[0] == b[0] {
      NameLeTotal(a[1..], b[1..]);
    }
  }

  lemma {:induction false} NameLeTransitive(a: string, b: string, c: string)
    requires NameLe(a, b) && NameLe(b, c)
    ensures NameLe(a, c)
  {
    if a != [] && b != [] && c != [] && a[0] == b[0] && b[0] == c[0] {
      NameLeTransitive(a[1..], b[1..], c[1..]);
    }
  }

  predicate SortedByName(entries: seq<Entry>)
  {
    forall i, j :: 0 <= i < j < |entries| ==> NameLe(entries[i].name, entries[j].name)
  }

  /** Places e after every entry whose name sorts no later than it, so equal names keep their order. */
  function InsertByName(entries: seq<Entry>, e: Entry): (r: seq<Entry>)
    requires SortedByName(entries)
    ensures SortedByName(r)
    ensures multiset(r) == multiset(entries) + multiset{e}
  {
    if entries == [] then [e]
    else if NameLe(entries[0].name, e.name) then
      var rest := InsertByName(entries[1..], e);
      assert entries == [entries[0]] + entries[1..];
      assert forall x :: x in multiset(rest) ==> x in multiset(entries[1..]) || x == e;
      InsertAfterHead(entries[0], rest, e, entries[1..]);
      [entries[0]] + rest
    else
      NameLeTotal(entries[0].name, e.name);
      InsertBeforeHead(entries, e);
      [e] + entries
  }

  lemma InsertAfterHead(head: Entry, rest: seq<Entry>, e: Entry, tail: seq<Entry>)
    requires SortedByName(rest) && SortedByName([head] + tail)
    requires NameLe(head.name, e.name)
    requires forall x :: x in multiset(rest) ==> x in multiset(tail) || x == e
    ensures SortedByName([head] + rest)
  {
    forall j | 0 < j < |[head] + rest|
      ensures NameLe(head.name, ([head] + rest)[j].name)
    {
      var x := rest[j - 1];
      assert x in multiset(rest);
      if x != e {
        assert x in tail;
        var k :| 0 <= k < |tail| && tail[k] == x;
        assert ([head] + tail)[0] == head && ([head] + tail)[k + 1] == x;
      }
    }
  }

  lemma InsertBeforeHead(entries: seq<Entry>, e: Entry)
    requires SortedByName(entries) && entries != []
    requires NameLe(e.name, entries[0].name)
    ensures SortedByName([e] + entries)
  {
    forall j | 0 < j < |[e] + entries|
      ensures NameLe(e.name, ([e] + entries)[j].name)
    {
      if j > 1 {
        NameLeTransitive(e.name, entries[0].name, entries[j - 1].name);
      }
    }
  }

  /** Sorts a listing by name: the result is ordered and holds exactly the same entries. */
  method SortByName(entries: seq<Entry>) returns (sorted: seq<Entry>)
    ensures SortedByName(sorted)
    ensures multiset(sorted) == multiset(entries)
  {
    sorted := [];
    var i := 0;
    while i < |entries|
      invariant 0 <= i <= |entries|
      invariant SortedByName(sorted)
      invariant multiset(sorted) == multiset(entries[..i])
    {
      assert entries[..i + 1] == entries[..i] + [entries[i]];
      sorted := InsertByName(sorted, entries[i]);
      i := i + 1;
    }
    assert entries[..i] == entries;
  }
}
