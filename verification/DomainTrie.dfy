/** The domain-suffix trie: an arena of nodes whose edges carry labels, walked from the last
    label of a name to the first. */
module DomainTrie {
  import opened Prelude
  import opened PrefixMap
  import opened DomainLabels
  import opened PathTree

  datatype LabelNode<V> = LabelNode(children: map<string, nat>, leaf: Option<V>)

  ghost predicate InArena(at: map<seq<string>, nat>, size: nat) {
    forall p | p in at :: at[p] < size
  }

  /** The edges of the arena are exactly the steps between paths, and lead to later nodes. */
  ghost predicate Edges<V(!new)>(nodes: seq<LabelNode<V>>, at: map<seq<string>, nat>)
    requires Paths(at, 0) && InArena(at, |nodes|)
  {
    forall p, l {:trigger EdgeFits(nodes, at, p, l)} | p in at :: EdgeFits(nodes, at, p, l)
  }

  ghost predicate EdgeFits<V(!new)>(nodes: seq<LabelNode<V>>, at: map<seq<string>, nat>, p: seq<string>, l: string)
    requires Paths(at, 0) && InArena(at, |nodes|) && p in at
  {
    var children := nodes[at[p]].children;
    && (p + [l] in at <==> l in children)
    && (l in children ==> children[l] == at[p + [l]] && at[p] < children[l])
  }

  ghost predicate Shape<V(!new)>(nodes: seq<LabelNode<V>>, at: map<seq<string>, nat>) {
    Paths(at, 0) && InArena(at, |nodes|) && Edges(nodes, at)
  }

  ghost function ContentsOf<V(!new)>(nodes: seq<LabelNode<V>>, at: map<seq<string>, nat>): map<seq<string>, V>
    requires Shape(nodes, at)
  {
    map p | p in at && nodes[at[p]].leaf.Some? :: nodes[at[p]].leaf.value
  }

  lemma GrowKeepsEdge<V(!new)>(nodes: seq<LabelNode<V>>, at: map<seq<string>, nat>, path: seq<string>, edge: string,
                               p: seq<string>, l: string)
    requires Shape(nodes, at) && path in at && edge !in nodes[at[path]].children
    requires Paths(at[path + [edge] := |nodes|], 0)
    requires p in at || p == path + [edge]
    ensures EdgeFits(Grow(nodes, at[path], edge), at[path + [edge] := |nodes|], p, l)
  {
    var grown := path + [edge];
    assert EdgeFits(nodes, at, path, edge);
    if p == grown {
      NoPathBeyond(at, 0, grown, l);
    } else {
      assert EdgeFits(nodes, at, p, l);
      if p + [l] == grown {
        StepsAreUnique(p, l, path, edge);
      }
    }
  }

  /** The arena with a new leafless node hung under `cur`. */
  function Grow<V(!new)>(nodes: seq<LabelNode<V>>, cur: nat, edge: string): seq<LabelNode<V>>
    requires cur < |nodes|
  {
    nodes[cur := nodes[cur].(children := nodes[cur].children[edge := |nodes|])] + [LabelNode(map[], None)]
  }

  lemma GrowKeepsShape<V(!new)>(nodes: seq<LabelNode<V>>, at: map<seq<string>, nat>, path: seq<string>, edge: string)
    requires Shape(nodes, at) && path in at && edge !in nodes[at[path]].children
    ensures Shape(Grow(nodes, at[path], edge), at[path + [edge] := |nodes|])
    ensures ContentsOf(Grow(nodes, at[path], edge), at[path + [edge] := |nodes|]) == ContentsOf(nodes, at)
  {
    assert EdgeFits(nodes, at, path, edge);
    GrowKeepsPaths<string, nat>(at, 0, path, edge, |nodes|);
    var after := Grow(nodes, at[path], edge);
    forall p, l {:trigger EdgeFits(after, at[path + [edge] := |nodes|], p, l)} | p in at[path + [edge] := |nodes|]
      ensures EdgeFits(after, at[path + [edge] := |nodes|], p, l)
    {
      GrowKeepsEdge(nodes, at, path, edge, p, l);
    }
    hide EdgeFits;
    assert forall p | p in at :: after[at[p]].leaf == nodes[at[p]].leaf;
  }

  lemma LeafKeepsShape<V(!new)>(nodes: seq<LabelNode<V>>, at: map<seq<string>, nat>, path: seq<string>, v: V)
    requires Shape(nodes, at) && path in at
    ensures Shape(nodes[at[path] := nodes[at[path]].(leaf := Some(v))], at)
    ensures ContentsOf(nodes[at[path] := nodes[at[path]].(leaf := Some(v))], at) == ContentsOf(nodes, at)[path := v]
  {
    var after := nodes[at[path] := nodes[at[path]].(leaf := Some(v))];
    forall p, l {:trigger EdgeFits(after, at, p, l)} | p in at ensures EdgeFits(after, at, p, l) {
      assert EdgeFits(nodes, at, p, l);
    }
    hide EdgeFits;
    assert forall p | p in at && p != path :: after[at[p]] == nodes[at[p]];
  }

  class DomainTrie<V(!new)> {
    var nodes: seq<LabelNode<V>>
    ghost var at: map<seq<string>, nat>

    ghost predicate Valid()
      reads this
    {
      Shape(nodes, at)
    }

    ghost function Contents(): map<seq<string>, V>
      requires Valid()
      reads this
    {
      ContentsOf(nodes, at)
    }

    constructor ()
      ensures Valid() && Contents() == map[]
    {
      nodes := [LabelNode(map[], None)];
      at := map[[] := 0];
    }

    /** Follows the edge for one label, growing the arena by one node if there is none. */
    method Child(ghost path: seq<string>, cur: nat, edge: string) returns (next: nat)
      requires Valid() && path in at && at[path] == cur
      modifies this
      ensures Valid() && path + [edge] in at && at[path + [edge]] == next
      ensures Contents() == old(Contents())
    {
      var node := nodes[cur];
      if edge in node.children {
        next := node.children[edge];
      } else {
        next := |nodes|;
        GrowKeepsShape(nodes, at, path, edge);
        nodes := nodes[cur := node.(children := node.children[edge := next])] + [LabelNode(map[], None)];
        at := at[path + [edge] := next];
      }
      assert EdgeFits(nodes, at, path, edge);
    }

    /** Stores a value for a suffix; every other suffix keeps its value. */
    method Insert(suffix: string, v: V)
      requires Valid()
      modifies this
      ensures Valid() && Contents() == old(Contents())[Labels(suffix) := v]
    {
      var labels := Labels(suffix);
      var cur := 0;
      var i := 0;
      while i < |labels|
        invariant 0 <= i <= |labels|
        invariant Valid() && labels[..i] in at && at[labels[..i]] == cur
        invariant Contents() == old(Contents())
      {
        assert labels[..i + 1] == labels[..i] + [labels[i]];
        cur := Child(labels[..i], cur, labels[i]);
        i := i + 1;
      }
      assert labels[..|labels|] == labels;
      LeafKeepsShape(nodes, at, labels, v);
      nodes := nodes[cur := nodes[cur].(leaf := Some(v))];
    }

    /** Longest-suffix match, on label boundaries only. */
    method Lookup(name: string) returns (best: Option<V>)
      requires Valid()
      ensures best == Longest(Contents(), Labels(name))
    {
      var labels := Labels(name);
      var cur := 0;
      best := nodes[0].leaf;
      var i := 0;
      ghost var m := Contents();
      assert labels[..0] == [];
      while i < |labels|
        invariant 0 <= i <= |labels|
        invariant labels[..i] in at && at[labels[..i]] == cur
        invariant best == Longest(m, labels[..i])
      {
        assert labels[..i + 1] == labels[..i] + [labels[i]];
        assert EdgeFits(nodes, at, labels[..i], labels[i]);
        if labels[i] !in nodes[cur].children {
          forall k | i < k <= |labels| ensures labels[..k] !in m {
            PathsArePrefixClosed(at, 0, labels, i + 1, k);
          }
          LongestStops(m, labels, i);
          return;
        }
        cur := nodes[cur].children[labels[i]];
        if nodes[cur].leaf.Some? {
          best := nodes[cur].leaf;
        }
        i := i + 1;
      }
      assert labels[..|labels|] == labels;
    }
  }
}
