/**
 * The in-memory payroll sheet both payroll screens build: the Python dict
 * `itens`, keyed by the person's id, whose iteration order is the order in
 * which keys were first inserted. `order` is that iteration order, `itens`
 * the dict's contents.
 */
module Sheets {

  /** No value occurs twice. */
  predicate Distinct(s: seq<int>) {
    forall i, j :: 0 <= i < j < |s| ==> s[i] != s[j]
  }

  /** Every key of the order has an entry. */
  predicate Covers<T>(order: seq<int>, itens: map<int, T>) {
    forall j :: 0 <= j < |order| ==> order[j] in itens
  }

  /** The keys of a list of (key, value) pairs, in order. */
  function Ids<T>(entries: seq<(int, T)>): (ids: seq<int>)
    ensures |ids| == |entries|
    ensures forall j :: 0 <= j < |entries| ==> ids[j] == entries[j].0
  {
    if entries == [] then [] else Ids(entries[..|entries| - 1]) + [entries[|entries| - 1].0]
  }

  /** Entry `j` is the last one with its key. */
  predicate LastWithKey<T>(entries: seq<(int, T)>, j: int)
    requires 0 <= j < |entries|
  {
    forall j' :: j < j' < |entries| ==> entries[j'].0 != entries[j].0
  }

  /**
   * The dict comprehension `{k: v for (k, v) in entries}`: every key once,
   * in the order of its first occurrence (see `CollectContents` for the
   * values).
   */
  function Collect<T>(entries: seq<(int, T)>): (r: (seq<int>, map<int, T>))
    ensures Distinct(r.0)
    ensures forall k :: k in r.1 <==> k in r.0
  {
    if entries == [] then ([], map[])
    else
      var (order, itens) := Collect(entries[..|entries| - 1]);
      var (k, v) := entries[|entries| - 1];
      (if k in itens then order else order + [k], itens[k := v])
  }

  /** The dict holds exactly the listed keys, each with the value of its last occurrence. */
  lemma {:induction false} CollectContents<T>(entries: seq<(int, T)>)
    ensures forall k :: k in Collect(entries).0 <==> k in Ids(entries)
    ensures forall j :: 0 <= j < |entries| && LastWithKey(entries, j) ==>
              Collect(entries).1[entries[j].0] == entries[j].1
  {
    if entries != [] {
      var prefix := entries[..|entries| - 1];
      CollectContents(prefix);
      assert Ids(entries) == Ids(prefix) + [entries[|entries| - 1].0];
      forall j | 0 <= j < |entries| && LastWithKey(entries, j)
        ensures Collect(entries).1[entries[j].0] == entries[j].1
      {
        if j < |prefix| {
          assert prefix[j] == entries[j];
          assert LastWithKey(prefix, j);
        }
      }
    }
  }

  /** With no repeated key the dict iterates in the listed order. */
  lemma {:induction false} CollectOfDistinct<T>(entries: seq<(int, T)>)
    requires Distinct(Ids(entries))
    ensures Collect(entries).0 == Ids(entries)
  {
    if entries != [] {
      var prefix := entries[..|entries| - 1];
      var k := entries[|entries| - 1].0;
      assert Ids(entries) == Ids(prefix) + [k];
      assert Distinct(Ids(prefix)) by {
        forall i, j | 0 <= i < j < |Ids(prefix)|
          ensures Ids(prefix)[i] != Ids(prefix)[j]
        {
          assert Ids(prefix)[i] == Ids(entries)[i] && Ids(prefix)[j] == Ids(entries)[j];
        }
      }
      CollectOfDistinct(prefix);
      CollectContents(prefix);
      assert k !in Ids(prefix) by {
        forall j | 0 <= j < |prefix|
          ensures Ids(prefix)[j] != k
        {
          assert Ids(entries)[j] == Ids(prefix)[j];
        }
      }
    }
  }

  /** The value of a key that occurs once is the value listed with it. */
  lemma CollectAt<T>(entries: seq<(int, T)>, j: int)
    requires 0 <= j < |entries| && LastWithKey(entries, j)
    ensures entries[j].0 in Collect(entries).1 && Collect(entries).1[entries[j].0] == entries[j].1
  {
    CollectContents(entries);
    assert Ids(entries)[j] == entries[j].0;
  }

  /** With no repeated key every entry is the last with its key. */
  lemma DistinctIdsAreLast<T>(entries: seq<(int, T)>, j: int)
    requires Distinct(Ids(entries)) && 0 <= j < |entries|
    ensures LastWithKey(entries, j)
  {
    DistinctAfter(Ids(entries), j);
  }

  lemma DistinctAfter(s: seq<int>, j: int)
    requires Distinct(s) && 0 <= j < |s|
    ensures forall j' :: j < j' < |s| ==> s[j'] != s[j]
  {
  }

  /** The payroll dict: its iteration order and its contents. */
  class Sheet<T> {
    var order: seq<int>
    var itens: map<int, T>

    ghost predicate Valid()
      reads this
    {
      Distinct(order) && forall k :: k in itens <==> k in order
    }

    /** Builds the dict from the fetched (id, initial item) pairs. */
    constructor (entries: seq<(int, T)>)
      ensures Valid()
      ensures (order, itens) == Collect(entries)
    {
      var c := Collect(entries);
      order := c.0;
      itens := c.1;
    }

    /** `itens[id] = v` for a key already present: the order is kept. */
    method Put(id: int, v: T)
      requires Valid() && id in itens
      modifies this
      ensures Valid()
      ensures order == old(order) && itens == old(itens)[id := v]
    {
      itens := itens[id := v];
    }
  }
}
