/** The alias trie: a mutable tree of nodes that must always answer like a plain set of
    (alias, entity) pairs. The ghost map from path to node is what makes the tree a tree. */
module AliasTrie {
  import opened Sequences
  import opened Text

  class Node {
    var children: map<char, Node>
    var entityIds: set<string>

    constructor ()
      ensures children == map[] && entityIds == {}
    {
      children, entityIds := map[], {};
    }
  }

  datatype Operation = Insertion(alias: string, entityId: string) | Removal(alias: string, entityId: string)

  datatype InsertOutcome = Inserted | EmptyAlias | BlankEntityId

  /** What an operation does to the set of pairs. */
  function Applied(pairs: set<(string, string)>, op: Operation): set<(string, string)> {
    match op
    case Insertion(alias, id) => if alias == "" || Blank(id) then pairs else pairs + {(alias, id)}
    case Removal(alias, id) => pairs - {(alias, id)}
  }

  function AppliedAll(pairs: set<(string, string)>, ops: seq<Operation>): set<(string, string)> {
    if ops == [] then pairs else Applied(AppliedAll(pairs, ops[..|ops| - 1]), ops[|ops| - 1])
  }

  /** Some operation inserts the pair and no later one removes it. */
  ghost predicate InsertedLast(ops: seq<Operation>, alias: string, id: string) {
    exists k :: 0 <= k < |ops| && ops[k] == Insertion(alias, id) && forall j :: k < j < |ops| ==> ops[j] != Removal(alias, id)
  }

  lemma InsertedLastStep(ops: seq<Operation>, last: Operation, alias: string, id: string)
    ensures InsertedLast(ops + [last], alias, id)
       <==> last == Insertion(alias, id) || (InsertedLast(ops, alias, id) && last != Removal(alias, id))
  {
    var all := ops + [last];
    assert all[|ops|] == last;
    if k :| 0 <= k < |ops| && ops[k] == Insertion(alias, id) && forall j :: k < j < |ops| ==> ops[j] != Removal(alias, id) {
      assert all[k] == ops[k];
    }
    if k :| 0 <= k < |all| && all[k] == Insertion(alias, id) && forall j :: k < j < |all| ==> all[j] != Removal(alias, id) {
      if k < |ops| {
        assert forall j :: k < j < |ops| ==> ops[j] == all[j];
        assert ops[k] == all[k] && all[|ops|] != Removal(alias, id);
      }
    }
  }

  /** A pair is registered exactly if it was there before and never removed, or was inserted under an alias that
      is not empty, for an entity that is not blank, and not removed since. */
  lemma {:induction false} LastChangeDecides(pairs: set<(string, string)>, ops: seq<Operation>, alias: string, id: string)
    ensures (alias, id) in AppliedAll(pairs, ops) <==>
      || ((alias, id) in pairs && Removal(alias, id) !in ops)
      || (|alias| > 0 && (exists i :: 0 <= i < |id| && !Whitespace(id[i])) && InsertedLast(ops, alias, id))
  {
    if ops != [] {
      var init, last := ops[..|ops| - 1], ops[|ops| - 1];
      LastChangeDecides(pairs, init, alias, id);
      assert ops == init + [last];
      InsertedLastStep(init, last, alias, id);
    }
  }

  /** Every path leads to its own node and children are exactly the one-character extensions, so
      the nodes form a tree: nothing is shared and nothing is cyclic. */
  ghost predicate IsTree(shape: Shape) {
    match shape
    case Shape(root, nodes, paths, kids) =>
      && kids.Keys == nodes.Keys
      && "" in nodes && nodes[""] == root
      && (forall p :: p in nodes ==> nodes[p] in paths && paths[nodes[p]] == p)
      && (forall p, c :: p + [c] in nodes <==> p in kids && c in kids[p])
      && (forall p, c :: p in kids && c in kids[p] ==> kids[p][c] == nodes[p + [c]])
  }

  /** The node at each path, the path of each node, and each path's children table. */
  datatype Shape = Shape(root: Node, nodes: map<string, Node>, paths: map<Node, string>,
                         kids: map<string, map<char, Node>>)
  {
    ghost function Grown(path: string, c: char, child: Node): Shape
      requires path in kids
    {
      Shape(root, nodes[path + [c] := child], paths[child := path + [c]],
            kids[path := kids[path][c := child]][path + [c] := map[]])
    }
  }

  ghost function Pairs(ids: map<string, set<string>>): set<(string, string)> {
    set p, e | p in ids && e in ids[p] :: (p, e)
  }

  lemma PairsChange(ids: map<string, set<string>>, alias: string, e: string)
    requires alias in ids
    ensures Pairs(ids[alias := ids[alias] + {e}]) == Pairs(ids) + {(alias, e)}
    ensures Pairs(ids[alias := ids[alias] - {e}]) == Pairs(ids) - {(alias, e)}
  {
  }

  lemma PairsIgnoreEmpty(ids: map<string, set<string>>, alias: string)
    requires alias !in ids
    ensures Pairs(ids[alias := {}]) == Pairs(ids)
    ensures forall e :: (alias, e) !in Pairs(ids)
  {
  }

  lemma TreeGrows(s: Shape, path: string, c: char, child: Node)
    requires IsTree(s) && path in s.nodes && c !in s.kids[path] && child !in s.nodes.Values
    ensures path + [c] !in s.nodes && IsTree(s.Grown(path, c, child))
  {
    var q, s' := path + [c], s.Grown(path, c, child);
    assert q !in s.nodes;
    forall p, d ensures p + [d] in s'.nodes <==> p in s'.kids && d in s'.kids[p] {
      if p + [d] == q {
        assert (p + [d])[..|p|] == p && q[..|path|] == path && q[|path|] == c;
      }
      assert p + [d] in s.nodes <==> p in s.kids && d in s.kids[p];
    }
    forall p, d | p in s'.kids && d in s'.kids[p] ensures s'.kids[p][d] == s'.nodes[p + [d]] {
      if p + [d] == q {
        assert (p + [d])[..|p|] == p && q[..|path|] == path && q[|path|] == c;
      }
    }
  }

  lemma OwnPath(s: Shape, path: string)
    requires IsTree(s) && path in s.nodes
    ensures forall p :: p in s.nodes && s.nodes[p] == s.nodes[path] ==> p == path
  {
  }

  /** No node is its own descendant, and no node hangs in two places. */
  lemma TreeIsAcyclicAndUnshared(s: Shape)
    requires IsTree(s)
    ensures forall p, q :: p in s.nodes && p + q in s.nodes && q != "" ==> s.nodes[p + q] != s.nodes[p]
    ensures forall p, c, q, d ::
              p in s.kids && c in s.kids[p] && q in s.kids && d in s.kids[q] && s.kids[p][c] == s.kids[q][d]
              ==> p == q && c == d
  {
    forall p, c, q, d | p in s.kids && c in s.kids[p] && q in s.kids && d in s.kids[q] && s.kids[p][c] == s.kids[q][d]
      ensures p == q && c == d
    {
      assert p + [c] in s.nodes && q + [d] in s.nodes;
      assert p + [c] == s.paths[s.nodes[p + [c]]] == q + [d];
      assert (p + [c])[..|p|] == p && (q + [d])[..|q|] == q;
      assert (p + [c])[|p|] == c && (q + [d])[|q|] == d;
    }
    forall p, q | p in s.nodes && p + q in s.nodes && q != "" ensures s.nodes[p + q] != s.nodes[p] {
      assert |p + q| > |p|;
    }
  }

  lemma NextPrefix(s: string, i: nat)
    requires i < |s|
    ensures s[..i + 1] == s[..i] + [s[i]]
  {
  }

  /** A path missing from the tree has no extensions in it either. */
  lemma {:induction false} PrefixMissing(s: Shape, term: string, n: nat)
    requires IsTree(s) && n <= |term| && term[..n] !in s.nodes
    ensures term !in s.nodes
    decreases |term|
  {
    if n < |term| {
      var init := term[..|term| - 1];
      assert init[..n] == term[..n] && init + [term[|term| - 1]] == term;
      PrefixMissing(s, init, n);
    } else {
      assert term[..|term|] == term;
    }
  }

  lemma AppliedStep(pairs: set<(string, string)>, ops: seq<Operation>, i: nat)
    requires i < |ops|
    ensures AppliedAll(pairs, ops[..i + 1]) == Applied(AppliedAll(pairs, ops[..i]), ops[i])
  {
    assert ops[..i + 1][..i] == ops[..i];
  }

  class AliasTrie {
    const root: Node
    ghost var nodes: map<string, Node>
    ghost var paths: map<Node, string>
    ghost var repr: set<Node>

    ghost predicate Owned()
      reads this
    {
      forall p :: p in nodes ==> nodes[p] in repr
    }

    ghost function Tree(): Shape
      requires Owned()
      reads this, repr
    {
      Shape(root, nodes, paths, Kids())
    }

    ghost function Kids(): map<string, map<char, Node>>
      requires Owned()
      reads this, repr
    {
      map p | p in nodes :: nodes[p].children
    }

    ghost function Ids(): map<string, set<string>>
      requires Owned()
      reads this, repr
    {
      map p | p in nodes :: nodes[p].entityIds
    }

    ghost predicate Valid()
      reads this, repr
    {
      Owned() && IsTree(Tree())
    }

    /** The plain set of pairs the trie stands for. */
    ghost function Registered(): set<(string, string)>
      requires Owned()
      reads this, repr
    {
      Pairs(Ids())
    }

    constructor ()
      ensures Valid() && fresh(repr) && Registered() == {}
    {
      root := new Node();
      nodes, paths, repr := map["" := root], map[root := ""], {root};
    }

    /** The `setdefault` step of an insert: the child for `c`, created if missing. */
    method Child(node: Node, c: char, ghost path: string) returns (child: Node)
      requires Valid() && path in nodes && nodes[path] == node
      modifies this`nodes, this`paths, this`repr, node`children
      ensures Valid() && path + [c] in nodes && child == nodes[path + [c]]
      ensures fresh(repr - old(repr))
      ensures Registered() == old(Registered())
    {
      assert c in node.children <==> c in Kids()[path];
      if c in node.children {
        child := node.children[c];
      } else {
        child := GrowTree(node, c, path);
        assert Ids() == old(Ids())[path + [c] := {}];
        PairsIgnoreEmpty(old(Ids()), path + [c]);
      }
    }

    method GrowTree(node: Node, c: char, ghost path: string) returns (child: Node)
      requires Valid() && path in nodes && nodes[path] == node && c !in node.children
      modifies this`nodes, this`paths, this`repr, node`children
      ensures Valid() && repr == old(repr) + {child} && fresh(child) && child.entityIds == {}
      ensures path + [c] !in old(nodes) && nodes == old(nodes)[path + [c] := child]
    {
      ghost var tree := Tree();
      OwnPath(tree, path);
      child := NewChild(node, c, path);
      TreeGrows(tree, path, c, child);
      assert Kids() == tree.Grown(path, c, child).kids;
    }

    method NewChild(node: Node, c: char, ghost path: string) returns (child: Node)
      requires path in nodes && nodes[path] == node
      modifies this`nodes, this`paths, this`repr, node`children
      ensures repr == old(repr) + {child} && fresh(child) && child.children == map[] && child.entityIds == {}
      ensures nodes == old(nodes)[path + [c] := child] && paths == old(paths)[child := path + [c]]
      ensures node.children == old(node.children)[c := child]
    {
      child := new Node();
      node.children := node.children[c := child];
      nodes, paths, repr := nodes[path + [c] := child], paths[child := path + [c]], repr + {child};
    }

    method Insert(alias: string, entityId: string) returns (outcome: InsertOutcome)
      requires Valid()
      modifies this`nodes, this`paths, this`repr, repr
      ensures Valid() && fresh(repr - old(repr))
      ensures outcome == if alias == "" then EmptyAlias else if Blank(entityId) then BlankEntityId else Inserted
      ensures Registered() == Applied(old(Registered()), Insertion(alias, entityId))
    {
      if alias == "" {
        return EmptyAlias;
      }
      if Blank(entityId) {
        return BlankEntityId;
      }
      var node := MakePath(alias);
      SetIds(node, node.entityIds + {entityId}, alias);
      outcome := Inserted;
    }

    /** One step of the walk. */
    method Descend(node: Node, alias: string, i: nat) returns (next: Node)
      requires Valid() && i < |alias| && alias[..i] in nodes && node == nodes[alias[..i]]
      modifies this`nodes, this`paths, this`repr, node`children
      ensures Valid() && fresh(repr - old(repr)) && Registered() == old(Registered())
      ensures alias[..i + 1] in nodes && next == nodes[alias[..i + 1]] && next in repr
    {
      NextPrefix(alias, i);
      next := Child(node, alias[i], alias[..i]);
    }

    /** The walk of an insert, creating nodes on the way. */
    method MakePath(alias: string) returns (node: Node)
      requires Valid()
      modifies this`nodes, this`paths, this`repr, repr
      ensures Valid() && fresh(repr - old(repr)) && Registered() == old(Registered())
      ensures alias in nodes && node == nodes[alias] && node in repr
    {
      node := root;
      ghost var before, own, made := Registered(), repr, {};
      for i := 0 to |alias|
        invariant Valid() && Registered() == before
        invariant fresh(made) && repr <= own + made
        invariant alias[..i] in nodes && node == nodes[alias[..i]] && node in repr
      {
        ghost var prior := repr;
        node := Descend(node, alias, i);
        made := made + (repr - prior);
      }
      assert alias[..|alias|] == alias;
    }

    method SetIds(node: Node, ids: set<string>, ghost alias: string)
      requires Valid() && alias in nodes && nodes[alias] == node
      modifies node`entityIds
      ensures Valid() && Ids() == old(Ids())[alias := ids]
      ensures forall e :: ids == old(node.entityIds) + {e} ==> Registered() == old(Registered()) + {(alias, e)}
      ensures forall e :: ids == old(node.entityIds) - {e} ==> Registered() == old(Registered()) - {(alias, e)}
    {
      node.entityIds := ids;
      assert Kids() == old(Kids());
      assert forall p :: p in nodes && nodes[p] == node ==> p == alias;
      assert Ids() == old(Ids())[alias := ids];
      forall e ensures ids == old(node.entityIds) + {e} ==> Registered() == old(Registered()) + {(alias, e)}
               ensures ids == old(node.entityIds) - {e} ==> Registered() == old(Registered()) - {(alias, e)} {
        PairsChange(old(Ids()), alias, e);
      }
    }

    /** The node for `term`, or null if there is no such path. */
    method Navigate(term: string) returns (node: Node?)
      requires Valid()
      ensures node == null <==> term !in nodes
      ensures node != null ==> node == nodes[term] && node in repr
    {
      node := root;
      for i := 0 to |term|
        invariant node != null && term[..i] in nodes && node == nodes[term[..i]]
      {
        NextPrefix(term, i);
        if term[i] !in node.children {
          PrefixMissing(Tree(), term, i + 1);
          return null;
        }
        node := node.children[term[i]];
      }
      assert term[..|term|] == term;
    }

    method Remove(alias: string, entityId: string)
      requires Valid()
      modifies repr
      ensures Valid() && Registered() == Applied(old(Registered()), Removal(alias, entityId))
    {
      var node := Navigate(alias);
      if node != null {
        SetIds(node, node.entityIds - {entityId}, alias);
      } else {
        AbsentIsUnregistered(alias, entityId);
      }
    }

    lemma AbsentIsUnregistered(alias: string, e: string)
      requires Valid() && alias !in nodes
      ensures (alias, e) !in Registered()
    {
      PairsIgnoreEmpty(Ids(), alias);
    }

    method Apply(op: Operation)
      requires Valid()
      modifies this`nodes, this`paths, this`repr, repr
      ensures Valid() && fresh(repr - old(repr))
      ensures Registered() == Applied(old(Registered()), op)
    {
      match op {
        case Insertion(alias, id) => var _ := Insert(alias, id);
        case Removal(alias, id) => Remove(alias, id);
      }
    }

    /** Any sequence of operations leaves the trie standing for what it leaves of a plain set. */
    method ApplyAll(ops: seq<Operation>)
      requires Valid()
      modifies this`nodes, this`paths, this`repr, repr
      ensures Valid() && fresh(repr - old(repr))
      ensures Registered() == AppliedAll(old(Registered()), ops)
    {
      for i := 0 to |ops|
        invariant Valid() && fresh(repr - old(repr))
        invariant Registered() == AppliedAll(old(Registered()), ops[..i])
      {
        AppliedStep(old(Registered()), ops, i);
        Apply(ops[i]);
      }
      assert ops[..|ops|] == ops;
    }

    method ExactMatch(term: string) returns (ids: set<string>)
      requires Valid()
      ensures forall e :: e in ids <==> (term, e) in Registered()
    {
      var node := Navigate(term);
      ids := if node == null then {} else node.entityIds;
    }

    method PrefixSearch(prefix: string) returns (ids: set<string>)
      requires Valid()
      ensures forall e :: e in ids <==> exists alias :: prefix <= alias && (alias, e) in Registered()
    {
      var node := Navigate(prefix);
      if node == null {
        forall alias | prefix <= alias ensures alias !in nodes {
          assert alias[..|prefix|] == prefix;
          PrefixMissing(Tree(), alias, |prefix|);
        }
        return {};
      }
      ids := Collect(node, {}, prefix);
      assert forall e :: Reached(prefix, {}, e) <==> exists alias :: prefix <= alias && (alias, e) in Registered();
    }

    /** The paths at or under `path`: what a walk of its subtree visits. */
    ghost function Subtree(path: string): set<string>
      reads this
    {
      set q | q in nodes && path <= q
    }

    /** `e` is registered at or under `path`, not counting the branches still pending. */
    ghost predicate Reached(path: string, pending: set<char>, e: string)
      requires Owned()
      reads this, repr
    {
      exists alias :: (path <= alias && (|alias| > |path| ==> alias[|path|] !in pending))
                      && (alias, e) in Registered()
    }

    method Collect(node: Node, into: set<string>, ghost path: string) returns (collected: set<string>)
      requires Valid() && path in nodes && nodes[path] == node
      ensures forall e :: e in collected <==> e in into || Reached(path, {}, e)
      decreases |Subtree(path)|
    {
      collected := into + node.entityIds;
      var pending := node.children.Keys;
      OwnIds(node, path);
      while pending != {}
        invariant pending <= node.children.Keys
        invariant forall e :: e in collected <==> e in into || Reached(path, pending, e)
        decreases pending
      {
        var c :| c in pending;
        SubtreeShrinks(path, c);
        ghost var before := collected;
        collected := Collect(node.children[c], collected, path + [c]);
        BranchDone(path, pending, c);
        pending := pending - {c};
      }
    }

    lemma OwnIds(node: Node, path: string)
      requires Valid() && path in nodes && nodes[path] == node
      ensures forall e :: e in node.entityIds <==> Reached(path, node.children.Keys, e)
    {
      forall e ensures e in node.entityIds <==> Reached(path, node.children.Keys, e) {
        if e in node.entityIds {
          assert (path, e) in Registered();
        }
        if Reached(path, node.children.Keys, e) {
          var alias :| (path <= alias && (|alias| > |path| ==> alias[|path|] !in node.children.Keys)) && (alias, e) in Registered();
          if |alias| > |path| {
            assert alias[..|path| + 1] == path + [alias[|path|]];
            PrefixMissing(Tree(), alias, |path| + 1);
          }
          assert alias == path;
        }
      }
    }

    lemma BranchDone(path: string, pending: set<char>, c: char)
      requires Valid() && c in pending
      ensures forall e :: Reached(path, pending - {c}, e) <==> Reached(path, pending, e) || Reached(path + [c], {}, e)
    {
      forall e ensures Reached(path, pending - {c}, e) <==> Reached(path, pending, e) || Reached(path + [c], {}, e) {
        if Reached(path, pending - {c}, e) {
          var alias :| (path <= alias && (|alias| > |path| ==> alias[|path|] !in pending - {c})) && (alias, e) in Registered();
          assert (|alias| > |path| ==> alias[|path|] !in pending) || path + [c] <= alias;
        }
        if Reached(path + [c], {}, e) {
          var alias :| (path + [c] <= alias && (|alias| > |path + [c]| ==> alias[|path + [c]|] !in {})) && (alias, e) in Registered();
          assert path <= alias && alias[|path|] == c;
        }
      }
    }

    lemma SubtreeShrinks(path: string, c: char)
      requires Valid() && path in nodes && path + [c] in nodes
      ensures |Subtree(path + [c])| < |Subtree(path)|
    {
      assert Subtree(path + [c]) <= Subtree(path) - {path};
      SubsetSize(Subtree(path + [c]), Subtree(path) - {path});
    }
  }
}
