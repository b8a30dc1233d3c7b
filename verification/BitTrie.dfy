/** The binary longest-prefix-match trie: a tree of heap nodes, each owned by its parent. */
module BitTrie {
  import opened Prelude
  import opened PrefixMap
  import opened PathTree

  type Bit = b: nat | b < 2

  class BitNode<T> {
    var zero: BitNode?<T>
    var one: BitNode?<T>
    var leaf: Option<T>

    constructor ()
      ensures zero == null && one == null && leaf == None
    {
      zero, one, leaf := null, null, None;
    }

    function Child(b: Bit): BitNode?<T>
      reads this
    {
      if b == 0 then zero else one
    }
  }

  class BitTrie<T> {
    var root: BitNode<T>
    /** The node at the end of every path of bits in the tree. */
    ghost var at: map<seq<Bit>, BitNode<T>>

    ghost predicate Fits(p: seq<Bit>, b: Bit)
      requires p in at
      reads this, at.Values
    {
      && (p + [b] in at <==> at[p].Child(b) != null)
      && (p + [b] in at ==> at[p].Child(b) == at[p + [b]])
    }

    ghost predicate Valid()
      reads this, at.Values
    {
      Paths(at, root) && forall p, b {:trigger Fits(p, b)} | p in at :: Fits(p, b)
    }

    ghost function Contents(): map<seq<Bit>, T>
      reads this, at.Values
    {
      map p | p in at && at[p].leaf.Some? :: at[p].leaf.value
    }

    constructor ()
      ensures Valid() && Contents() == map[] && fresh(at.Values)
    {
      root := new BitNode<T>();
      at := map[[] := root];
    }

    /** Hangs a new leafless node below an existing one. */
    method Grow(ghost path: seq<Bit>, node: BitNode<T>, b: Bit) returns (next: BitNode<T>)
      requires Valid() && path in at && at[path] == node && node.Child(b) == null
      modifies this`at, node
      ensures Valid() && at == old(at)[path + [b] := next] && fresh(next)
      ensures Contents() == old(Contents())
    {
      hide Paths;
      ghost var grown := path + [b];
      next := new BitNode<T>();
      assert Fits(path, b);
      GrowKeepsPaths(at, root, path, b, next);
      label before:
      if b == 0 {
        node.zero := next;
      } else {
        node.one := next;
      }
      at := at[grown := next];
      forall p, c: Bit {:trigger Fits(p, c)} | p in at ensures Fits(p, c) {
        if p == grown {
          NoPathBeyond(old(at), root, grown, c);
        } else {
          assert old@before(Fits(p, c));
          OnePath(old(at), root, p, path);
          if p + [c] == grown {
            StepsAreUnique(p, c, path, b);
          }
        }
      }
    }

    /** Stores a value for the first `prefix` bits; every other prefix keeps its value. */
    method Insert(bits: seq<Bit>, prefix: nat, leaf: T)
      requires Valid()
      modifies this, at.Values
      ensures Valid() && fresh(at.Values - old(at.Values))
      ensures Contents() == old(Contents())[bits[..Min(prefix, |bits|)] := leaf]
    {
      var n := Min(prefix, |bits|);
      var node := root;
      var i := 0;
      while i < n
        invariant 0 <= i <= n
        invariant Valid() && bits[..i] in at && at[bits[..i]] == node
        invariant fresh(at.Values - old(at.Values)) && root == old(root)
        invariant Contents() == old(Contents())
      {
        assert bits[..i + 1] == bits[..i] + [bits[i]];
        assert Fits(bits[..i], bits[i]);
        var next := node.Child(bits[i]);
        if next == null {
          next := Grow(bits[..i], node, bits[i]);
        }
        node := next;
        i := i + 1;
      }
      label before:
      node.leaf := Some(leaf);
      forall p, b {:trigger Fits(p, b)} | p in at ensures Fits(p, b) {
        assert old@before(Fits(p, b));
      }
    }

    /** Longest-prefix match. */
    method Lookup(bits: seq<Bit>) returns (best: Option<T>)
      requires Valid()
      ensures best == Longest(Contents(), bits)
    {
      var node := root;
      best := node.leaf;
      var i := 0;
      ghost var m := Contents();
      assert bits[..0] == [];
      while i < |bits|
        invariant 0 <= i <= |bits|
        invariant bits[..i] in at && at[bits[..i]] == node
        invariant best == Longest(m, bits[..i])
      {
        assert bits[..i + 1] == bits[..i] + [bits[i]];
        assert Fits(bits[..i], bits[i]);
        var next := node.Child(bits[i]);
        if next == null {
          forall k | i < k <= |bits| ensures bits[..k] !in m {
            PathsArePrefixClosed(at, root, bits, i + 1, k);
          }
          LongestStops(m, bits, i);
          return;
        }
        node := next;
        if node.leaf.Some? {
          best := node.leaf;
        }
        i := i + 1;
      }
      assert bits[..|bits|] == bits;
    }
  }

  function Min(a: nat, b: nat): nat {
    if a <= b then a else b
  }
}
