/** The ordered list and the key table that an object or ECMA array keeps side by side. */
module AmfObject {
  import opened Bytes
  import opened AmfValue

  /** The last value of each key. */
  function LastByKey(list: seq<Value>): map<seq<byte>, Value>
    decreases |list|
  {
    if list == [] then map[]
    else
      var n := |list| - 1;
      LastByKey(list[..n])[list[n].key := list[n]]
  }

  /** The position of the last element with key k, or -1. */
  function LastIndex(list: seq<Value>, k: seq<byte>): (i: int)
    ensures -1 <= i < |list|
    decreases |list|
  {
    if list == [] then -1
    else
      var n := |list| - 1;
      if list[n].key == k then n else LastIndex(list[..n], k)
  }

  /** The table answers a key with the last list element that has it, and no other key. */
  lemma {:induction false} LastByKeyIsLast(list: seq<Value>, k: seq<byte>)
    ensures var i := LastIndex(list, k);
            && (forall j | i < j < |list| :: list[j].key != k)
            && (k in LastByKey(list) <==> i >= 0)
            && (i >= 0 ==> list[i].key == k && LastByKey(list)[k] == list[i])
    decreases |list|
  {
    if list != [] {
      LastByKeyIsLast(list[..|list| - 1], k);
    }
  }

  lemma {:induction false} LastByKeyAppend(list: seq<Value>, v: Value)
    ensures LastByKey(list + [v]) == LastByKey(list)[v.key := v]
  {
    assert (list + [v])[..|list|] == list;
  }

  /** A later list overrides the table of an earlier one. */
  lemma {:induction false} LastByKeyConcat(a: seq<Value>, b: seq<Value>)
    ensures LastByKey(a + b) == LastByKey(a) + LastByKey(b)
    decreases |b|
  {
    if b == [] {
      assert a + b == a;
    } else {
      var n := |b| - 1;
      assert a + b == (a + b[..n]) + [b[n]];
      LastByKeyAppend(a + b[..n], b[n]);
      LastByKeyConcat(a, b[..n]);
    }
  }

  /** The list without its first element of key k. */
  function RemoveFirst(list: seq<Value>, k: seq<byte>): seq<Value>
    decreases |list|
  {
    if list == [] then []
    else if list[0].key == k then list[1..]
    else [list[0]] + RemoveFirst(list[1..], k)
  }

  function Occurrences(list: seq<Value>, k: seq<byte>): nat
    decreases |list|
  {
    if list == [] then 0 else (if list[0].key == k then 1 else 0) + Occurrences(list[1..], k)
  }

  /** The table from the front: later elements override the first. */
  lemma {:induction false} LastByKeyCons(list: seq<Value>)
    requires list != []
    ensures LastByKey(list) == map[list[0].key := list[0]] + LastByKey(list[1..])
  {
    var v := list[0];
    assert list == [v] + list[1..] && [v][..0] == [];
    LastByKeyConcat([v], list[1..]);
  }

  lemma {:induction false} NoOccurrence(list: seq<Value>, k: seq<byte>)
    ensures Occurrences(list, k) == 0 <==> k !in LastByKey(list)
    decreases |list|
  {
    if list != [] {
      LastByKeyCons(list);
      NoOccurrence(list[1..], k);
    }
  }

  /** Overriding one key of a table. */
  lemma {:induction false} Override(v: Value, m: map<seq<byte>, Value>, n: map<seq<byte>, Value>, k: seq<byte>)
    requires v.key != k && m - {k} == n - {k}
    ensures (map[v.key := v] + m) - {k} == (map[v.key := v] + n) - {k}
  {
    var one := map[v.key := v];
    assert (one + m) - {k} == one + (m - {k});
    assert (one + n) - {k} == one + (n - {k});
  }

  /** An element with another key in front changes nothing for k. */
  lemma {:induction false} RemoveLater(v: Value, rest: seq<Value>, k: seq<byte>)
    requires v.key != k
    requires LastByKey(RemoveFirst(rest, k)) - {k} == LastByKey(rest) - {k}
    requires Occurrences(rest, k) >= 2 <==> k in LastByKey(RemoveFirst(rest, k))
    ensures LastByKey(RemoveFirst([v] + rest, k)) - {k} == LastByKey([v] + rest) - {k}
    ensures Occurrences([v] + rest, k) >= 2 <==> k in LastByKey(RemoveFirst([v] + rest, k))
  {
    hide LastByKey;
    var r := RemoveFirst(rest, k);
    assert ([v] + rest)[1..] == rest && ([v] + r)[1..] == r;
    LastByKeyCons([v] + rest);
    LastByKeyCons([v] + r);
    Override(v, LastByKey(r), LastByKey(rest), k);
  }

  /** The element itself in front: it goes. */
  lemma {:induction false} RemoveNow(v: Value, rest: seq<Value>)
    ensures RemoveFirst([v] + rest, v.key) == rest
    ensures LastByKey(rest) - {v.key} == LastByKey([v] + rest) - {v.key}
    ensures Occurrences([v] + rest, v.key) >= 2 <==> v.key in LastByKey(rest)
  {
    hide LastByKey;
    assert ([v] + rest)[1..] == rest;
    LastByKeyCons([v] + rest);
    NoOccurrence(rest, v.key);
  }

  lemma {:induction false} RemoveFirstKeepsOthers(list: seq<Value>, k: seq<byte>)
    ensures LastByKey(RemoveFirst(list, k)) - {k} == LastByKey(list) - {k}
    ensures Occurrences(list, k) >= 2 <==> k in LastByKey(RemoveFirst(list, k))
    decreases |list|
  {
    if list != [] {
      var v, rest := list[0], list[1..];
      assert list == [v] + rest;
      hide LastByKey, RemoveFirst, Occurrences;
      if v.key == k {
        RemoveNow(v, rest);
      } else {
        RemoveFirstKeepsOthers(rest, k);
        RemoveLater(v, rest, k);
      }
    }
  }

  /** Removing the first element of a key takes the key out of the last-value table exactly when
      it occurred at most once; otherwise the list still has what the table has lost. */
  lemma {:induction false} RemoveFirstTable(list: seq<Value>, k: seq<byte>)
    ensures LastByKey(RemoveFirst(list, k)) == LastByKey(list) - {k} <==> Occurrences(list, k) <= 1
  {
    RemoveFirstKeepsOthers(list, k);
    var after := LastByKey(RemoveFirst(list, k));
    if k !in after {
      assert after - {k} == after;
    }
  }

  /** Leaving out a later element leaves it out of the rest. */
  lemma {:induction false} DropAt<T>(s: seq<T>, e: nat)
    requires 0 < e <= |s|
    ensures [s[0]] + s[1..] == s
    ensures e < |s| ==> s[..e] + s[e + 1..] == [s[0]] + (s[1..][..e - 1] + s[1..][e..])
  {
  }

  /** Removing at the first position of a key. */
  lemma {:induction false} RemoveFirstAt(list: seq<Value>, e: nat, k: seq<byte>)
    requires e <= |list| && (e < |list| ==> list[e].key == k) && forall j | 0 <= j < e :: list[j].key != k
    ensures RemoveFirst(list, k) == if e < |list| then list[..e] + list[e + 1..] else list
    ensures Occurrences(list, k) == 0 <==> e == |list|
    decreases |list|
  {
    if list != [] && e > 0 {
      var rest := list[1..];
      assert forall j | 0 <= j < e - 1 :: rest[j] == list[j + 1];
      RemoveFirstAt(rest, e - 1, k);
      DropAt(list, e);
    }
  }

  /** The first element with a key. */
  ghost predicate FirstAt(list: seq<Value>, e: nat, k: seq<byte>) {
    e < |list| && list[e].key == k && forall j | 0 <= j < e :: list[j].key != k
  }

  /** Old entries survive an update unless the update mentions their keys. */
  lemma {:induction false} Overridden<K, V>(before: map<K, V>, update: map<K, V>)
    ensures before + update == update <==> before.Keys <= update.Keys
  {
    if before + update == update {
      assert before.Keys <= (before + update).Keys;
    }
  }

  /** An object or ECMA array. */
  class ObjectValue {
    var list: seq<Value>
    var table: map<seq<byte>, Value>

    constructor ()
      ensures list == [] && table == map[]
    {
      list, table := [], map[];
    }

    /** The table answers as a search of the list from its end would. */
    ghost predicate Consistent()
      reads this
    {
      table == LastByKey(list)
    }

    method Get(key: seq<byte>) returns (v: Option<Value>)
      ensures v.Some? <==> key in table
      ensures v.Some? ==> v.value == table[key]
      ensures Consistent() ==> var i := LastIndex(list, key); v == if i >= 0 then Some(list[i]) else None
    {
      LastByKeyIsLast(list, key);
      v := if key in table then Some(table[key]) else None;
    }

    method Add(v: Value)
      modifies this
      ensures list == old(list) + [v] && table == old(table)[v.key := v]
      ensures old(Consistent()) ==> Consistent()
    {
      LastByKeyAppend(list, v);
      table := table[v.key := v];
      list := list + [v];
    }

    /** Set with a list replaces the list but keeps the old table entries it does not mention. */
    method SetList(l: seq<Value>)
      modifies this
      ensures list == l && table == old(table) + LastByKey(l)
      ensures Consistent() <==> old(table).Keys <= LastByKey(l).Keys
    {
      var e := 0;
      while e < |l|
        invariant e <= |l| && table == old(table) + LastByKey(l[..e])
      {
        assert l[..e + 1] == l[..e] + [l[e]];
        LastByKeyAppend(l[..e], l[e]);
        table := table[l[e].key := l[e]];
        e := e + 1;
      }
      assert l[..e] == l;
      list := l;
      Overridden(old(table), LastByKey(l));
    }

    /** Del drops the table entry and the first list element of the key. */
    method Del(key: seq<byte>) returns (v: Option<Value>)
      modifies this
      ensures list == RemoveFirst(old(list), key) && table == old(table) - {key}
      ensures v.Some? ==>
                exists e: nat :: FirstAt(old(list), e, key) && v.value == old(list)[e]
                                 && list == old(list)[..e] + old(list)[e + 1..]
      ensures v == None <==> Occurrences(old(list), key) == 0
      ensures old(Consistent()) ==> (Consistent() <==> Occurrences(old(list), key) <= 1)
    {
      RemoveFirstTable(list, key);
      table := table - {key};
      var e := 0;
      while e < |list| && list[e].key != key
        invariant e <= |list| && forall j | 0 <= j < e :: list[j].key != key
      {
        e := e + 1;
      }
      RemoveFirstAt(list, e, key);
      if e == |list| {
        return None;
      }
      assert FirstAt(list, e, key);
      v := Some(list[e]);
      hide RemoveFirst, Occurrences, LastByKey;
      list := list[..e] + list[e + 1..];
    }
  }
}
