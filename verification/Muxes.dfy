/** The command multiplexer: registration in length order and longest-prefix matching. */
module Muxes {
  import opened Bytes

  type Handler = nat

  datatype Entry = Entry(pattern: string, handler: Handler)

  datatype Panic = InvalidPattern | NilHandler | MultipleRegistrations

  type Table = map<string, Entry>

  predicate IsTree(pattern: string) {
    pattern != "" && pattern[|pattern| - 1] == '/'
  }

  // ---- longest-prefix lookup, on the table alone ---------------------------

  /** The longest registered tree pattern among the prefixes of path of at most n characters. */
  function LongestPrefix(table: Table, path: string, n: nat): Option<Entry>
    requires n <= |path|
  {
    if path[..n] in table && IsTree(path[..n]) then Some(table[path[..n]])
    else if n == 0 then None
    else LongestPrefix(table, path, n - 1)
  }

  function Lookup(table: Table, path: string): Option<Entry> {
    if path in table then Some(table[path]) else LongestPrefix(table, path, |path|)
  }

  ghost predicate WellKeyed(table: Table) {
    forall p <- table :: table[p].pattern == p && p != ""
  }

  /** The result is a tree pattern that path starts with, and every other one is shorter. */
  lemma {:induction false} LookupIsLongest(table: Table, path: string, n: nat)
    requires WellKeyed(table) && n <= |path|
    ensures match LongestPrefix(table, path, n)
            case None => forall p <- table :: IsTree(p) && p <= path ==> |p| > n
            case Some(e) =>
              && e.pattern in table && table[e.pattern] == e && IsTree(e.pattern) && e.pattern <= path
              && forall p <- table :: IsTree(p) && p <= path && |p| <= n ==> p == e.pattern || |p| < |e.pattern|
  {
    forall p <- table | IsTree(p) && p <= path && |p| == n ensures p == path[..n] {
    }
    if !(path[..n] in table && IsTree(path[..n])) && n > 0 {
      LookupIsLongest(table, path, n - 1);
    }
  }

  /** Without an exact entry: nothing, or the entry of the longest registered pattern that ends in a slash
      and that path starts with. */
  lemma {:induction false} BestMeans(table: Table, path: string)
    requires WellKeyed(table)
    ensures match LongestPrefix(table, path, |path|)
            case None => forall p <- table :: p != "" && p <= path ==> p[|p| - 1] != '/'
            case Some(e) =>
              var best := e.pattern;
              && best in table && table[best] == e && best <= path && best != "" && path[|best| - 1] == '/'
              && forall p <- table :: p != "" && p <= path && p[|p| - 1] == '/' ==> p == best || |p| < |best|
  {
    hide LongestPrefix;
    LookupIsLongest(table, path, |path|);
  }

  /** The first of a list sorted by decreasing length that path starts with. */
  function FirstMatch(entries: seq<Entry>, path: string): Option<Entry>
    decreases |entries|
  {
    if entries == [] then None
    else if entries[0].pattern <= path then Some(entries[0])
    else FirstMatch(entries[1..], path)
  }

  ghost predicate Sorted(entries: seq<Entry>) {
    forall i, j | 0 <= i < j < |entries| :: |entries[i].pattern| >= |entries[j].pattern|
  }

  ghost predicate Once(entries: seq<Entry>) {
    forall i, j | 0 <= i < j < |entries| :: entries[i] != entries[j]
  }

  /** The array holds exactly the tree patterns of the table. */
  ghost predicate Holds(entries: seq<Entry>, table: Table) {
    forall e: Entry :: e in entries <==> e.pattern in table && table[e.pattern] == e && IsTree(e.pattern)
  }

  lemma {:induction false} FirstIsAt(entries: seq<Entry>, path: string)
    ensures match FirstMatch(entries, path)
            case None => forall e <- entries :: !(e.pattern <= path)
            case Some(e) => exists i :: 0 <= i < |entries| && entries[i] == e && e.pattern <= path
                                        && forall j | 0 <= j < i :: !(entries[j].pattern <= path)
    decreases |entries|
  {
    if entries != [] {
      var e := entries[0];
      assert entries == [e] + entries[1..];
      if e.pattern <= path {
        assert entries[0] == e;
      } else {
        FirstIsAt(entries[1..], path);
        var r := FirstMatch(entries[1..], path);
        if r.Some? {
          var i :| 0 <= i < |entries[1..]| && entries[1..][i] == r.value
                   && forall j | 0 <= j < i :: !(entries[1..][j].pattern <= path);
          assert entries[i + 1] == r.value;
          forall j | 0 <= j < i + 1 ensures !(entries[j].pattern <= path) {
            if j > 0 {
              assert entries[j] == entries[1..][j - 1];
            }
          }
        }
      }
    }
  }

  /** Scanning the sorted list finds the longest prefix. */
  lemma {:induction false} ScanIsLongest(entries: seq<Entry>, table: Table, path: string)
    requires WellKeyed(table) && Sorted(entries) && Holds(entries, table)
    ensures FirstMatch(entries, path) == LongestPrefix(table, path, |path|)
  {
    hide FirstMatch, LongestPrefix;
    LookupIsLongest(table, path, |path|);
    FirstIsAt(entries, path);
    var found, best := FirstMatch(entries, path), LongestPrefix(table, path, |path|);
    if found.Some? && best.Some? {
      var i :| 0 <= i < |entries| && entries[i] == found.value
               && forall j | 0 <= j < i :: !(entries[j].pattern <= path);
      var k :| 0 <= k < |entries| && entries[k] == best.value;
      assert found.value.pattern in table;
      assert i <= k;
    }
  }

  /** Where the first shorter pattern is. */
  function Position(entries: seq<Entry>, e: Entry): (i: nat)
    ensures i <= |entries|
    decreases |entries|
  {
    if entries == [] || |entries[0].pattern| < |e.pattern| then 0 else 1 + Position(entries[1..], e)
  }

  /** Insertion behind all patterns that are at least as long. */
  function Inserted(entries: seq<Entry>, e: Entry): seq<Entry> {
    var i := Position(entries, e);
    entries[..i] + [e] + entries[i..]
  }

  ghost predicate Splits(entries: seq<Entry>, e: Entry, i: nat) {
    && i <= |entries|
    && (forall j | 0 <= j < i :: |entries[j].pattern| >= |e.pattern|)
    && (forall j | i <= j < |entries| :: |entries[j].pattern| < |e.pattern|)
  }

  /** Only one place splits the list. */
  lemma {:induction false} SplitsAt(entries: seq<Entry>, e: Entry, i: nat)
    requires Splits(entries, e, i)
    ensures Position(entries, e) == i
    decreases |entries|
  {
    if i > 0 {
      SplitsAt(entries[1..], e, i - 1);
    }
  }

  lemma {:induction false} PositionSplits(entries: seq<Entry>, e: Entry)
    requires Sorted(entries)
    ensures Splits(entries, e, Position(entries, e))
    decreases |entries|
  {
    if entries != [] {
      assert entries == [entries[0]] + entries[1..];
      PositionSplits(entries[1..], e);
    }
  }

  lemma {:induction false} InsertSorted(entries: seq<Entry>, e: Entry)
    requires Sorted(entries)
    ensures Sorted(Inserted(entries, e))
  {
    PositionSplits(entries, e);
  }

  lemma {:induction false} InsertHolds(entries: seq<Entry>, table: Table, e: Entry)
    requires Holds(entries, table) && e.pattern !in table && IsTree(e.pattern)
    ensures Holds(Inserted(entries, e), table[e.pattern := e]) && e !in entries
  {
    hide Inserted;
    InsertedMembers(entries, e);
  }

  lemma {:induction false} InsertedMembers(entries: seq<Entry>, e: Entry)
    ensures forall x: Entry :: x in Inserted(entries, e) <==> x == e || x in entries
  {
    var i := Position(entries, e);
    assert entries == entries[..i] + entries[i..];
  }

  lemma {:induction false} InsertOnce(entries: seq<Entry>, e: Entry)
    requires Once(entries) && e !in entries
    ensures Once(Inserted(entries, e))
  {
    var i, a := Position(entries, e), Inserted(entries, e);
    forall x, y | 0 <= x < y < |a| ensures a[x] != a[y] {
      var x', y' := if x < i then x else x - 1, if y < i then y else y - 1;
      assert x != i ==> a[x] == entries[x'];
      assert y != i ==> a[y] == entries[y'];
    }
  }

  /** A pattern that is not a tree does not belong in the array. */
  lemma {:induction false} OtherHolds(entries: seq<Entry>, table: Table, e: Entry)
    requires Holds(entries, table) && e.pattern !in table && !IsTree(e.pattern)
    ensures Holds(entries, table[e.pattern := e])
  {
  }

  class Mux {
    var table: Table
    var entries: seq<Entry>

    ghost predicate Valid()
      reads this
    {
      WellKeyed(table) && Sorted(entries) && Once(entries) && Holds(entries, table)
    }

    constructor ()
      ensures Valid() && table == map[]
    {
      table, entries := map[], [];
    }

    /** sort.Search for the first entry with a shorter pattern, then insertion there. */
    static method AppendOnSort(entries: seq<Entry>, e: Entry) returns (r: seq<Entry>)
      requires Sorted(entries)
      ensures r == Inserted(entries, e)
    {
      var n := |entries|;
      var i, j := 0, n;
      while i < j
        invariant 0 <= i <= j <= n
        invariant forall k | 0 <= k < i :: |entries[k].pattern| >= |e.pattern|
        invariant forall k | j <= k < n :: |entries[k].pattern| < |e.pattern|
      {
        var h := (i + j) / 2;
        if |entries[h].pattern| < |e.pattern| {
          j := h;
        } else {
          i := h + 1;
        }
      }
      SplitsAt(entries, e, i);
      r := entries[..i] + [e] + entries[i..];
    }

    /** Handle; a panic leaves everything as it was. */
    method Handle(pattern: string, handler: Option<Handler>) returns (panic: Option<Panic>)
      requires Valid()
      modifies this
      ensures Valid()
      ensures panic == if pattern == "" then Some(InvalidPattern)
                       else if handler == None then Some(NilHandler)
                       else if pattern in old(table) then Some(MultipleRegistrations)
                       else None
      ensures table == if panic == None then old(table)[pattern := Entry(pattern, handler.value)] else old(table)
    {
      if pattern == "" {
        return Some(InvalidPattern);
      }
      if handler == None {
        return Some(NilHandler);
      }
      if pattern in table {
        return Some(MultipleRegistrations);
      }
      var e := Entry(pattern, handler.value);
      hide Sorted, Once, Holds, Inserted;
      if pattern[|pattern| - 1] == '/' {
        InsertSorted(entries, e);
        InsertHolds(entries, table, e);
        InsertOnce(entries, e);
        entries := AppendOnSort(entries, e);
      } else {
        OtherHolds(entries, table, e);
      }
      table := table[pattern := e];
      return None;
    }

    /** match: the exact entry, or the first tree pattern of the array that path starts with. */
    method Match(path: string) returns (r: Option<Entry>)
      requires Valid()
      ensures r == Lookup(table, path)
      ensures path in table ==> r == Some(table[path])
      ensures path !in table && r == None ==> forall p <- table :: p != "" && p <= path ==> p[|p| - 1] != '/'
      ensures path !in table && r.Some? ==>
                && r.value.pattern in table && table[r.value.pattern] == r.value
                && r.value.pattern <= path && r.value.pattern != "" && path[|r.value.pattern| - 1] == '/'
                && forall p <- table :: p != "" && p <= path && p[|p| - 1] == '/'
                                        ==> p == r.value.pattern || |p| < |r.value.pattern|
    {
      hide Sorted, Once, Holds, LongestPrefix;
      if path in table {
        return Some(table[path]);
      }
      ScanIsLongest(entries, table, path);
      BestMeans(table, path);
      var i := 0;
      assert entries[0..] == entries;
      while i < |entries|
        invariant i <= |entries|
        invariant FirstMatch(entries[i..], path) == FirstMatch(entries, path)
      {
        assert entries[i..][1..] == entries[i + 1..];
        if entries[i].pattern <= path {
          return Some(entries[i]);
        }
        i := i + 1;
      }
      return None;
    }
  }

  // ---- registration order --------------------------------------------------

  /** The table after successful registrations. */
  function Registered(es: seq<Entry>): Table
    decreases |es|
  {
    if es == [] then map[] else Registered(es[..|es| - 1])[es[|es| - 1].pattern := es[|es| - 1]]
  }

  ghost predicate Distinct(es: seq<Entry>) {
    forall i, j | 0 <= i < j < |es| :: es[i].pattern != es[j].pattern
  }

  lemma {:induction false} RegisteredIs(es: seq<Entry>)
    requires Distinct(es)
    ensures forall p :: p in Registered(es) <==> exists e <- es :: e.pattern == p
    ensures forall e <- es :: Registered(es)[e.pattern] == e
    decreases |es|
  {
    if es != [] {
      var n := |es| - 1;
      assert es == es[..n] + [es[n]];
      RegisteredIs(es[..n]);
    }
  }

  /** The order of registration does not matter to any lookup. */
  lemma {:induction false} OrderIndependent(a: seq<Entry>, b: seq<Entry>, path: string)
    requires Distinct(a) && Distinct(b) && multiset(a) == multiset(b)
    ensures Lookup(Registered(a), path) == Lookup(Registered(b), path)
  {
    RegisteredIs(a);
    RegisteredIs(b);
    SameMembers(a, b);
    hide Registered, Distinct;
    assert Registered(a) == Registered(b);
  }

  lemma {:induction false} SameMembers(a: seq<Entry>, b: seq<Entry>)
    requires multiset(a) == multiset(b)
    ensures forall e :: e in a <==> e in b
  {
    forall e: Entry ensures e in a <==> e in b {
      assert e in a <==> e in multiset(a);
      assert e in b <==> e in multiset(b);
    }
  }
}
