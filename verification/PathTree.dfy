/** Trees seen from outside: the map from every path of keys to the node at its end. */
module PathTree {
  ghost predicate ParentIn<K(!new), N>(at: map<seq<K>, N>, p: seq<K>) {
    p == [] || p[..|p| - 1] in at
  }

  /** One path leads to a node, and every path but the empty one extends another. */
  ghost predicate Paths<K(!new), N>(at: map<seq<K>, N>, root: N) {
    && [] in at && at[[]] == root
    && (forall p, q | p in at && q in at && at[p] == at[q] :: p == q)
    && (forall p {:trigger ParentIn(at, p)} | p in at :: ParentIn(at, p))
  }

  lemma OnePath<K(!new), N>(at: map<seq<K>, N>, root: N, p: seq<K>, q: seq<K>)
    requires Paths(at, root) && p in at && q in at
    ensures at[p] == at[q] ==> p == q
  {
  }

  lemma NoPathBeyond<K(!new), N>(at: map<seq<K>, N>, root: N, p: seq<K>, k: K)
    requires Paths(at, root) && p !in at
    ensures p + [k] !in at && p + [k] != p
  {
    assert (p + [k])[..|p + [k]| - 1] == p;
    assert p + [k] in at ==> ParentIn(at, p + [k]);
  }

  /** A path that is not in the tree has no extension in it. */
  lemma {:induction false} PathsArePrefixClosed<K(!new), N>(at: map<seq<K>, N>, root: N, key: seq<K>, i: nat, n: nat)
    requires Paths(at, root) && i <= n <= |key| && key[..i] !in at
    ensures key[..n] !in at
    decreases n
  {
    if n > i {
      PathsArePrefixClosed(at, root, key, i, n - 1);
      assert key[..n] == key[..n - 1] + [key[n - 1]];
      NoPathBeyond(at, root, key[..n - 1], key[n - 1]);
    }
  }

  lemma StepsAreUnique<K>(p: seq<K>, l: K, q: seq<K>, k: K)
    requires p + [l] == q + [k]
    ensures p == q && l == k
  {
    assert p == (p + [l])[..|p|] && q == (q + [k])[..|q|];
    assert l == (p + [l])[|p|];
  }

  lemma GrowKeepsPaths<K(!new), N>(at: map<seq<K>, N>, root: N, path: seq<K>, k: K, node: N)
    requires Paths(at, root) && path in at && path + [k] !in at && node !in at.Values
    ensures Paths(at[path + [k] := node], root)
  {
    var grown := path + [k];
    var after := at[grown := node];
    forall p | p in after ensures ParentIn(after, p) {
      if p == grown {
        assert grown[..|grown| - 1] == path;
      } else {
        assert ParentIn(at, p);
      }
    }
  }
}
