/**
 A Python dict written as a literal `{k0: v0, k1: v1, ...}`: the entries are
 inserted from left to right, so when a key repeats, the later value wins.
 */
module Dict {

  /**
   The dict a literal builds. Its keys are exactly the literal's keys, and
   every key holds a value written beside it in the literal.
   */
  function DictOf<K, V>(entries: seq<(K, V)>): (d: map<K, V>)
    ensures forall i :: 0 <= i < |entries| ==> entries[i].0 in d
    ensures forall k :: k in d ==> exists i :: 0 <= i < |entries| && entries[i] == (k, d[k])
    decreases |entries|
  {
    if entries == [] then map[]
    else
      var init := entries[..|entries| - 1];
      var last := entries[|entries| - 1];
      var d := DictOf(init)[last.0 := last.1];
      assert forall i :: 0 <= i < |init| ==> init[i] == entries[i];
      d
  }

  predicate DistinctKeys<K(==), V>(entries: seq<(K, V)>) {
    forall i, j :: 0 <= i < j < |entries| ==> entries[i].0 != entries[j].0
  }

  /** A key takes the value of its last occurrence in the literal. */
  lemma {:induction false} DictOfLastWins<K, V>(entries: seq<(K, V)>, i: int)
    requires 0 <= i < |entries|
    requires forall j :: i < j < |entries| ==> entries[j].0 != entries[i].0
    ensures entries[i].0 in DictOf(entries)
    ensures DictOf(entries)[entries[i].0] == entries[i].1
    decreases |entries|
  {
    if i < |entries| - 1 {
      var init := entries[..|entries| - 1];
      assert init[i] == entries[i];
      forall j | i < j < |init| ensures init[j].0 != init[i].0 {
        assert init[j] == entries[j];
      }
      DictOfLastWins(init, i);
    }
  }

  /** With pairwise distinct keys, no entry of the literal is overwritten. */
  lemma DictOfLookup<K, V>(entries: seq<(K, V)>)
    requires DistinctKeys(entries)
    ensures forall i :: 0 <= i < |entries| ==> DictOf(entries)[entries[i].0] == entries[i].1
  {
    forall i | 0 <= i < |entries| ensures DictOf(entries)[entries[i].0] == entries[i].1 {
      DictOfLastWins(entries, i);
    }
  }

  /** With pairwise distinct keys, the dict has one entry per literal entry. */
  lemma {:induction false} DictOfSize<K, V>(entries: seq<(K, V)>)
    requires DistinctKeys(entries)
    ensures |DictOf(entries)| == |entries|
    decreases |entries|
  {
    if entries != [] {
      var init := entries[..|entries| - 1];
      assert DistinctKeys(init) by {
        forall i, j | 0 <= i < j < |init| ensures init[i].0 != init[j].0 {
          assert init[i] == entries[i] && init[j] == entries[j];
        }
      }
      DictOfSize(init);
    }
  }
}
