/** The meaning of both tries: a map from key sequences to values, searched for the longest
    stored prefix of a key. */
module PrefixMap {
  import opened Prelude

  function Longest<K(==), V>(m: map<seq<K>, V>, key: seq<K>): Option<V>
    decreases |key|
  {
    if key in m then Some(m[key])
    else if key == [] then None
    else Longest(m, key[..|key| - 1])
  }

  /** `n` is the length of the longest prefix of the key that is stored. */
  ghost predicate IsLongest<K, V>(m: map<seq<K>, V>, key: seq<K>, n: int) {
    0 <= n <= |key| && key[..n] in m && forall k | n < k <= |key| :: key[..k] !in m
  }

  lemma {:induction false} LongestFinds<K, V>(m: map<seq<K>, V>, key: seq<K>) returns (n: nat)
    ensures Longest(m, key).Some? ==> IsLongest(m, key, n) && Longest(m, key).value == m[key[..n]]
    ensures Longest(m, key).None? ==> forall k | 0 <= k <= |key| :: key[..k] !in m
    decreases |key|
  {
    assert key[..|key|] == key;
    n := |key|;
    if key !in m && key != [] {
      var shorter := key[..|key| - 1];
      n := LongestFinds(m, shorter);
      assert forall k | 0 <= k <= |shorter| :: shorter[..k] == key[..k];
    }
  }

  /** Exactly one answer: the value at a stored prefix longer than all others, if there is one. */
  lemma LongestIsLongest<K, V>(m: map<seq<K>, V>, key: seq<K>, v: V)
    ensures Longest(m, key) == Some(v) <==> exists n :: IsLongest(m, key, n) && m[key[..n]] == v
  {
    var n := LongestFinds(m, key);
    forall k | IsLongest(m, key, k) ensures Longest(m, key).Some? && k == n {
      assert key[..k] in m;
    }
  }

  /** No stored prefix beyond `i`: the walk may stop there. */
  lemma {:induction false} LongestStops<K, V>(m: map<seq<K>, V>, key: seq<K>, i: nat)
    requires i <= |key| && forall k | i < k <= |key| :: key[..k] !in m
    ensures Longest(m, key) == Longest(m, key[..i])
    decreases |key|
  {
    assert key[..|key|] == key;
    if i < |key| {
      var shorter := key[..|key| - 1];
      assert forall k | 0 <= k <= |shorter| :: shorter[..k] == key[..k];
      LongestStops(m, shorter, i);
    }
  }

  /** The length of the longest stored prefix. */
  function LongestAt<K(==), V>(m: map<seq<K>, V>, key: seq<K>): (n: Option<nat>)
    ensures n.Some? ==> n.value <= |key| && key[..n.value] in m && Longest(m, key) == Some(m[key[..n.value]])
    ensures n.None? ==> Longest(m, key) == None
    decreases |key|
  {
    assert key[..|key|] == key;
    if key in m then Some(|key|)
    else if key == [] then None
    else
      var n := LongestAt(m, key[..|key| - 1]);
      assert n.Some? ==> key[..|key| - 1][..n.value] == key[..n.value];
      n
  }

  /** Keys that are not prefixes are invisible: a lookup depends on the stored prefixes alone. */
  lemma {:induction false} LongestIgnoresOthers<K, V>(m: map<seq<K>, V>, key: seq<K>, other: seq<K>, v: V)
    requires !(other <= key)
    ensures LongestAt(m[other := v], key) == LongestAt(m, key) && Longest(m[other := v], key) == Longest(m, key)
    decreases |key|
  {
    if key !in m && key != [] {
      LongestIgnoresOthers(m, key[..|key| - 1], other, v);
    }
  }

  /** A new prefix of the key becomes the answer unless a longer one is stored. */
  lemma {:induction false} LongestAfterStore<K, V>(m: map<seq<K>, V>, key: seq<K>, stored: seq<K>, v: V)
    requires stored <= key
    ensures var n := LongestAt(m, key);
            var after := m[stored := v];
            if n.Some? && n.value > |stored| then LongestAt(after, key) == n && Longest(after, key) == Longest(m, key)
            else LongestAt(after, key) == Some(|stored|) && Longest(after, key) == Some(v)
    decreases |key|
  {
    if stored != key {
      assert key != [];
      var shorter := key[..|key| - 1];
      assert stored <= shorter;
      LongestAfterStore(m, shorter, stored, v);
    }
  }

  // ---------- Tables filled by writes ----------

  /** What a list of writes leaves: the last value written under each key. */
  function Stored<K(==), V>(writes: seq<(seq<K>, V)>): map<seq<K>, V> {
    if writes == [] then map[]
    else
      var last := writes[|writes| - 1];
      Stored(writes[..|writes| - 1])[last.0 := last.1]
  }

  /** Write `i` decides a lookup: its key is the longest written prefix, and it is the last write of that length. */
  ghost predicate Decides<K, V>(writes: seq<(seq<K>, V)>, key: seq<K>, i: nat) {
    && i < |writes| && writes[i].0 <= key
    && forall j | 0 <= j < |writes| && j != i && writes[j].0 <= key ::
         |writes[j].0| < |writes[i].0| || (|writes[j].0| == |writes[i].0| && j < i)
  }

  lemma {:induction false} LongestOfWrites<K, V>(writes: seq<(seq<K>, V)>, key: seq<K>) returns (i: nat)
    ensures LongestAt(Stored(writes), key).None? ==> forall j | 0 <= j < |writes| :: !(writes[j].0 <= key)
    ensures LongestAt(Stored(writes), key).Some? ==>
              && Decides(writes, key, i) && LongestAt(Stored(writes), key) == Some(|writes[i].0|)
              && Longest(Stored(writes), key) == Some(writes[i].1)
    decreases |writes|
  {
    i := 0;
    if writes == [] {
      NothingStored<K, V>(key);
    } else {
      var front, last := writes[..|writes| - 1], writes[|writes| - 1];
      i := LongestOfWrites(front, key);
      assert forall j | 0 <= j < |front| :: front[j] == writes[j];
      var n := LongestAt(Stored(front), key);
      hide Longest, LongestAt;
      if last.0 <= key {
        LongestAfterStore(Stored(front), key, last.0, last.1);
        i := if n.Some? && n.value > |last.0| then i else |writes| - 1;
      } else {
        LongestIgnoresOthers(Stored(front), key, last.0, last.1);
      }
    }
  }

  /** Lookup is longest-prefix match over the last value written per key. */
  lemma LookupIsDecided<K, V>(writes: seq<(seq<K>, V)>, key: seq<K>, v: V)
    ensures Longest(Stored(writes), key) == Some(v) <==> exists i: nat :: Decides(writes, key, i) && writes[i].1 == v
  {
    var i := LongestOfWrites(writes, key);
    hide Stored, Longest, LongestAt;
    if j: nat :| Decides(writes, key, j) && writes[j].1 == v {
      assert writes[j].0 <= key;
    }
  }

  lemma {:induction false} NothingStored<K, V>(key: seq<K>)
    ensures Longest<K, V>(map[], key) == None && LongestAt<K, V>(map[], key) == None
    decreases |key|
  {
    if key != [] {
      NothingStored<K, V>(key[..|key| - 1]);
    }
  }
}
