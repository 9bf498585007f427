/** `build_hierarchy`: the first pass picks each name's canonical line, the
    second inserts every row's family-and-variations path into a map of
    family trees and offers each node on it a canonical line. */
module Hierarchy {
  import opened Text
  import opened Names
  import opened Pgn
  import opened Canonical
  import opened Openings

  function Family(row: Row): string {
    SplitName(row.name).0
  }

  function Parts(row: Row): seq<string> {
    SplitName(row.name).1
  }

  /** The line offered to a family node:
      `canonical_by_name.get(family, (10**9, None))[1] or pgn`, i.e. the
      family's own canonical line when the family is itself a name with a
      non-empty line, the row's line otherwise. */
  function FamilyLine(canon: map<string, Canon>, family: string, pgn: string): (line: string)
    ensures line == pgn || (family in canon && line == canon[family].pgn)
    ensures family in canon && canon[family].pgn != "" ==> line == canon[family].pgn
    ensures pgn != "" ==> line != ""
  {
    if family in canon && canon[family].pgn != "" then canon[family].pgn else pgn
  }

  /** One step of `built_name`: the part appended after `": "`. */
  function NextBuiltName(built: string, part: string): string {
    if built != "" then built + ": " + part else part
  }

  /** `built_name` after walking `parts` below `family`. */
  function BuiltName(family: string, parts: seq<string>): string
    decreases |parts|
  {
    if parts == [] then family
    else NextBuiltName(BuiltName(family, parts[..|parts| - 1]), parts[|parts| - 1])
  }

  /** Below a non-empty family label `built_name` is never empty. */
  lemma {:induction false} BuiltNameNonEmpty(family: string, parts: seq<string>)
    requires family != ""
    ensures BuiltName(family, parts) != ""
    decreases |parts|
  {
    if parts != [] {
      BuiltNameNonEmpty(family, parts[..|parts| - 1]);
    }
  }

  /** One part below the family, `built_name` is the dataset's own name
      `Family: Variation`, so the lookup can find it. */
  lemma BuiltNameDepthOne(family: string, part: string)
    requires family != ""
    ensures BuiltName(family, [part]) == FormatName(family, [part])
  {
    assert [part][..0] == [];
  }

  /** `built_name` after two parts starts every longer `built_name`. */
  lemma {:induction false} BuiltNameStartsWithTwo(family: string, parts: seq<string>)
    requires family != "" && |parts| >= 2
    ensures BuiltName(family, parts[..2]) <= BuiltName(family, parts)
    decreases |parts|
  {
    if |parts| > 2 {
      var front := parts[..|parts| - 1];
      assert front[..2] == parts[..2];
      BuiltNameStartsWithTwo(family, front);
      BuiltNameNonEmpty(family, front);
    } else {
      assert parts[..2] == parts;
    }
  }

  /** Two or more parts below the family, `built_name` joins the parts with
      `": "` where the dataset's names use `", "`, so it is never the row's
      own name `Family: Variation, Sub-variation, ...`. */
  lemma BuiltNameNotFormatName(family: string, parts: seq<string>)
    requires family != "" && |parts| >= 2
    ensures BuiltName(family, parts) != FormatName(family, parts)
  {
    var two := BuiltName(family, parts[..2]);
    var at := |family| + 2 + |parts[0]|;
    var p2 := parts[..2];
    assert p2[..1][..0] == [] && p2[..1] == [parts[0]] && p2[1] == parts[1];
    assert BuiltName(family, p2[..1]) == family + ": " + parts[0];
    assert two == family + ": " + parts[0] + ": " + parts[1];
    assert two[at] == ':';
    BuiltNameStartsWithTwo(family, parts);
    assert Join(parts, ", ") == parts[0] + ", " + Join(parts[1..], ", ");
    assert FormatName(family, parts)[at] == ',';
  }

  /** The line offered to a variation node whose `built_name` is `built`. */
  function ChildLine(canon: map<string, Canon>, built: string, pgn: string): (line: string)
    ensures built in canon ==> line == canon[built].pgn
    ensures built !in canon ==> line == pgn
  {
    if built in canon then canon[built].pgn else pgn
  }

  /** The line a row offers to the node at depth `k` of its path. */
  function LineAt(canon: map<string, Canon>, row: Row, k: nat): string
    requires k <= |Parts(row)|
  {
    if k == 0 then FamilyLine(canon, Family(row), row.pgn)
    else ChildLine(canon, BuiltName(Family(row), Parts(row)[..k]), row.pgn)
  }

  /** The shape every family map keeps: roots are level-0 nodes named by
      their key, every child sits under its own label one level below its
      parent with the full name `ensure_child` derives, and the canonical
      line and length are set together. `nodes` holds every node. */
  ghost predicate Forest(families: map<string, OpeningNode>, nodes: set<OpeningNode>)
    reads nodes
  {
    && (forall f :: f in families ==>
          families[f] in nodes && families[f].level == 0
          && families[f].key == f && families[f].fullName == f)
    && (forall n, k :: n in nodes && k in n.children ==>
          && n.children[k] in nodes
          && n.children[k].key == k
          && n.children[k].level == n.level + 1
          && n.children[k].fullName == ChildFullName(n.level, n.fullName, n.key, k))
    && (forall n :: n in nodes ==> n.Paired() && n.level >= 0)
  }

  /** `p` is the path of `row` in `families`: its family root, then one
      node per variation part, each the child of the one before under that
      part, at depth equal to its level, each holding the row's ECO code
      and a canonical line no longer than the one the row offered it. */
  ghost predicate OnPath(families: map<string, OpeningNode>, nodes: set<OpeningNode>,
                         canon: map<string, Canon>, row: Row, p: seq<OpeningNode>)
    reads nodes
  {
    && |p| == |Parts(row)| + 1
    && (forall k :: 0 <= k < |p| ==> p[k] in nodes)
    && Family(row) in families && families[Family(row)] == p[0]
    && (forall k :: 0 <= k < |Parts(row)| ==>
          Parts(row)[k] in p[k].children && p[k].children[Parts(row)[k]] == p[k + 1])
    && (forall k :: 0 <= k < |p| ==>
          && p[k].level == k
          && row.eco in p[k].ecoCodes
          && p[k].canonicalLen.Some?
          && p[k].canonicalLen.value <= SanCount(LineAt(canon, row, k)))
  }

  /** From state `s0` to state `s1` a node only gained: no child dropped
      or replaced, no ECO code removed, no canonical length grown. */
  predicate Extends(s0: NodeState, s1: NodeState) {
    && (forall k :: k in s0.children ==> k in s1.children && s1.children[k] == s0.children[k])
    && s0.ecoCodes <= s1.ecoCodes
    && (s0.canonicalLen.Some? ==>
          s1.canonicalLen.Some? && s1.canonicalLen.value <= s0.canonicalLen.value)
  }

  /** What a node held in `before`, or the state of a new node. */
  function Prior(before: map<OpeningNode, NodeState>, n: OpeningNode): NodeState {
    if n in before then before[n] else NodeState(map[], {}, None, None)
  }

  lemma ExtendsTransitive(s0: NodeState, s1: NodeState, s2: NodeState)
    requires Extends(s0, s1) && Extends(s1, s2)
    ensures Extends(s0, s2)
  {
  }

  /** A path stays a path while its nodes only gain. */
  twostate lemma PathKept(new families0: map<string, OpeningNode>, new nodes0: set<OpeningNode>,
                          new families1: map<string, OpeningNode>, new nodes1: set<OpeningNode>,
                          new canon: map<string, Canon>, new row: Row, new p: seq<OpeningNode>)
    requires old(allocated(families0)) && old(allocated(nodes0)) && old(allocated(p))
    requires old(OnPath(families0, nodes0, canon, row, p))
    requires forall n :: n in nodes0 ==> Extends(old(StateOf(n)), StateOf(n))
    requires nodes0 <= nodes1
    requires forall f :: f in families0 ==> f in families1 && families1[f] == families0[f]
    ensures OnPath(families1, nodes1, canon, row, p)
  {
    forall k | 0 <= k < |Parts(row)|
      ensures Parts(row)[k] in p[k].children && p[k].children[Parts(row)[k]] == p[k + 1]
    {
      assert Extends(old(StateOf(p[k])), StateOf(p[k]));
    }
    forall k | 0 <= k < |p|
      ensures && row.eco in p[k].ecoCodes
              && p[k].canonicalLen.Some?
              && p[k].canonicalLen.value <= SanCount(LineAt(canon, row, k))
    {
      assert Extends(old(StateOf(p[k])), StateOf(p[k]));
    }
  }

  /** The paths of all rows added so far stay paths while their nodes
      only gain. */
  twostate lemma PathsKept(new families0: map<string, OpeningNode>, new nodes0: set<OpeningNode>,
                           new families1: map<string, OpeningNode>, new nodes1: set<OpeningNode>,
                           new canon: map<string, Canon>, new done: seq<Row>,
                           new paths: seq<seq<OpeningNode>>)
    requires old(allocated(families0)) && old(allocated(nodes0)) && old(allocated(paths))
    requires |paths| == |done|
    requires forall j :: 0 <= j < |done| ==> old(OnPath(families0, nodes0, canon, done[j], paths[j]))
    requires forall n :: n in nodes0 ==> Extends(old(StateOf(n)), StateOf(n))
    requires nodes0 <= nodes1
    requires forall f :: f in families0 ==> f in families1 && families1[f] == families0[f]
    ensures forall j :: 0 <= j < |done| ==> OnPath(families1, nodes1, canon, done[j], paths[j])
  {
    forall j | 0 <= j < |done|
      ensures OnPath(families1, nodes1, canon, done[j], paths[j])
    {
      PathKept(families0, nodes0, families1, nodes1, canon, done[j], paths[j]);
    }
  }

  /** Every node of `path` holds the ECO codes it had plus `eco`, and a
      kept line no longer than the one offered to it at its depth, and
      that kept line is the keep rule applied to what the node held in
      `before` (nothing, for a node made since) and the line offered. */
  ghost predicate PathOffered(path: seq<OpeningNode>, eco: string, offered: seq<Canon>,
                              before: map<OpeningNode, NodeState>)
    requires |path| <= |offered|
    reads path
  {
    forall k :: 0 <= k < |path| ==>
      && path[k].ecoCodes == Prior(before, path[k]).ecoCodes + {eco}
      && path[k].canonicalLen.Some?
      && path[k].canonicalLen.value <= offered[k].moves
      && path[k].Kept() == Keep(if path[k] in before then
                                  KeptPair(before[path[k]].canonicalLen, before[path[k]].canonicalPgn)
                                else None,
                                offered[k])
  }

  /** Extending the path by a node that was offered its line keeps
      `PathOffered`, as long as the nodes already on it did not change. */
  twostate lemma PathOfferedStep(new path: seq<OpeningNode>, new eco: string, new offered: seq<Canon>,
                                 new before: map<OpeningNode, NodeState>, new child: OpeningNode)
    requires old(allocated(path)) && old(allocated(before))
    requires |path| < |offered|
    requires old(PathOffered(path, eco, offered, before))
    requires forall k :: 0 <= k < |path| ==>
               && path[k].ecoCodes == old(path[k].ecoCodes)
               && path[k].canonicalLen == old(path[k].canonicalLen)
               && path[k].canonicalPgn == old(path[k].canonicalPgn)
    requires child.ecoCodes == Prior(before, child).ecoCodes + {eco} && child.canonicalLen.Some?
    requires child.canonicalLen.value <= offered[|path|].moves
    requires child.Kept() == Keep(if child in before then
                                    KeptPair(before[child].canonicalLen, before[child].canonicalPgn)
                                  else None,
                                  offered[|path|])
    ensures PathOffered(path + [child], eco, offered, before)
  {
    var ext := path + [child];
    forall k | 0 <= k < |ext|
      ensures && ext[k].ecoCodes == Prior(before, ext[k]).ecoCodes + {eco}
              && ext[k].canonicalLen.Some?
              && ext[k].canonicalLen.value <= offered[k].moves
              && ext[k].Kept() == Keep(if ext[k] in before then
                                         KeptPair(before[ext[k]].canonicalLen, before[ext[k]].canonicalPgn)
                                       else None,
                                       offered[k])
    {
      if k < |path| {
        assert ext[k] == path[k];
        assert old(path[k].Kept()) == path[k].Kept();
      }
    }
  }

    /** Giving `current` the child `child` under `part` keeps the forest's
      shape, whether the child was already there or is new. */
  twostate lemma AttachForest(new families: map<string, OpeningNode>, new nodes: set<OpeningNode>,
                              new current: OpeningNode, new part: string, new child: OpeningNode)
    requires old(allocated(families)) && old(allocated(nodes)) && old(allocated(current))
    requires old(Forest(families, nodes)) && current in nodes
    requires current.children == old(current.children)[part := child]
    requires part in old(current.children) ==> child == old(current.children)[part]
    requires part !in old(current.children) ==>
               && !old(allocated(child))
               && child.key == part && child.level == current.level + 1
               && child.fullName == ChildFullName(current.level, current.fullName, current.key, part)
               && child.children == map[] && child.Paired()
    requires current.Paired() == old(current.Paired())
    requires forall n :: n in nodes && n != current ==> StateOf(n) == old(StateOf(n))
    ensures Forest(families, nodes + {child})
  {
    forall n, k | n in nodes + {child} && k in n.children
      ensures && n.children[k] in nodes + {child}
              && n.children[k].key == k
              && n.children[k].level == n.level + 1
              && n.children[k].fullName == ChildFullName(n.level, n.fullName, n.key, k)
    {
      if n != current && n in nodes {
        assert n.children == old(n.children);
      }
    }
    forall n | n in nodes + {child} ensures n.Paired() && n.level >= 0 {
      if n != current && n in nodes {
        assert StateOf(n) == old(StateOf(n));
      }
    }
  }

  /** `ensure_child(current, part)` inside a forest: the child found or
      made joins the forest, only `current`'s children change, and they
      gain the entry `part` and nothing else. */
  method Attach(families: map<string, OpeningNode>, ghost nodes: set<OpeningNode>,
                current: OpeningNode, part: string)
    returns (child: OpeningNode)
    requires Forest(families, nodes) && current in nodes
    modifies current`children
    ensures Forest(families, nodes + {child})
    ensures child in nodes || fresh(child)
    ensures part !in old(current.children) ==> fresh(child)
    ensures current.children == old(current.children)[part := child]
    ensures part in old(current.children) ==> child == old(current.children[part])
    ensures child.level == current.level + 1
    ensures child !in nodes ==> StateOf(child) == NodeState(map[], {}, None, None)
    ensures Extends(old(StateOf(current)), StateOf(current))
    ensures forall n :: n in nodes && n != current ==> StateOf(n) == old(StateOf(n))
  {
    child := current.EnsureChild(part);
    AttachForest(families, nodes, current, part, child);
  }

  /** `update_canonical(child, eco, line)` inside a forest: only the
      child changes, and only by the keep rule and the new ECO code. */
  method Offer(families: map<string, OpeningNode>, ghost nodes: set<OpeningNode>,
               child: OpeningNode, eco: string, line: string)
    requires Forest(families, nodes) && child in nodes
    modifies child`ecoCodes, child`canonicalLen, child`canonicalPgn
    ensures Forest(families, nodes)
    ensures child.ecoCodes == old(child.ecoCodes) + {eco}
    ensures child.children == old(child.children)
    ensures child.canonicalLen.Some? && child.canonicalLen.value <= SanCount(line)
    ensures child.Kept() == Keep(old(child.Kept()), Candidate(line))
    ensures Extends(old(StateOf(child)), StateOf(child))
    ensures forall n :: n in nodes && n != child ==> StateOf(n) == old(StateOf(n))
  {
    child.UpdateCanonical(eco, line);
  }

  /** One step of the walk: `ensure_child(current, part)`, then
      `update_canonical` on the child with `line`. Only `current`'s
      children and the child's ECO codes and canonical line change. */
  method Descend(families: map<string, OpeningNode>, ghost nodes: set<OpeningNode>,
                 current: OpeningNode, part: string, eco: string, line: string)
    returns (child: OpeningNode)
    requires Forest(families, nodes) && current in nodes
    modifies current`children, nodes`ecoCodes, nodes`canonicalLen, nodes`canonicalPgn
    ensures Forest(families, nodes + {child})
    ensures child in nodes || fresh(child)
    ensures part !in old(current.children) ==> fresh(child)
    ensures current.children == old(current.children)[part := child]
    ensures part in old(current.children) ==> child == old(current.children[part])
    ensures child.level == current.level + 1
    ensures child.children == if child in nodes then old(child.children) else map[]
    ensures child.ecoCodes == (if child in nodes then old(child.ecoCodes) else {}) + {eco}
    ensures child.canonicalLen.Some? && child.canonicalLen.value <= SanCount(line)
    ensures child.Kept() == Keep(if child in nodes then old(child.Kept()) else None, Candidate(line))
    ensures forall n :: n in nodes ==> Extends(old(StateOf(n)), StateOf(n))
    ensures forall n :: n in nodes && n != current && n != child ==> StateOf(n) == old(StateOf(n))
    ensures && current.ecoCodes == old(current.ecoCodes)
            && current.canonicalLen == old(current.canonicalLen)
            && current.canonicalPgn == old(current.canonicalPgn)
  {
    ghost var s0 := map n | n in nodes :: StateOf(n);
    child := Attach(families, nodes, current, part);
    ghost var s1 := map n | n in nodes + {child} :: StateOf(n);
    Offer(families, nodes + {child}, child, eco, line);
    assert current != child;
    forall n | n in nodes ensures Extends(s0[n], StateOf(n)) {
      ExtendsTransitive(s0[n], s1[n], StateOf(n));
    }
  }

  /** The lines a row offers to the nodes of its path, by depth. */
  ghost function Offers(canon: map<string, Canon>, row: Row): (cs: seq<Canon>)
    ensures |cs| == |Parts(row)| + 1
  {
    seq(|Parts(row)| + 1, k requires 0 <= k <= |Parts(row)| => Candidate(LineAt(canon, row, k)))
  }

  /** The state of the walk along a row's `parts` once `path` has been
      reached: the forest is intact, the only nodes added are on the path,
      the path follows the parts with levels counting the depth, every
      node only gained since `before`, nodes off the path are as they
      were, each path node gained exactly the child on the path, `eco`
      and the keep rule on its line, and the last node's children are
      still those it had. */
  ghost predicate Walk(families: map<string, OpeningNode>, nodes: set<OpeningNode>,
                       grown: set<OpeningNode>, before: map<OpeningNode, NodeState>,
                       parts: seq<string>, eco: string, offered: seq<Canon>, path: seq<OpeningNode>)
    reads grown
  {
    && 1 <= |path| <= |parts| + 1 && |offered| == |parts| + 1
    && Forest(families, grown)
    && nodes <= grown && before.Keys == nodes
    && (forall k :: 0 <= k < |path| ==> path[k] in grown && path[k].level == k)
    && (forall n :: n in grown && n !in nodes ==> n in path)
    && (forall n :: n in nodes ==> Extends(before[n], StateOf(n)))
    && (forall n :: n in nodes && n !in path ==> StateOf(n) == before[n])
    && (forall k :: 0 <= k < |path| - 1 ==>
          path[k].children == Prior(before, path[k]).children[parts[k] := path[k + 1]])
    && PathOffered(path, eco, offered, before)
    && path[|path| - 1].children == Prior(before, path[|path| - 1]).children
  }

  /** Every link of `path` under a part its node lacked in `before` leads
      to a node outside `nodes`: `ensure_child` makes a new node for a
      missing part and never reuses an existing one. */
  ghost predicate FreshLinks(nodes: set<OpeningNode>, before: map<OpeningNode, NodeState>,
                             parts: seq<string>, path: seq<OpeningNode>) {
    forall k :: 0 <= k < |path| - 1 && k < |parts| && parts[k] !in Prior(before, path[k]).children ==>
      path[k + 1] !in nodes
  }

  lemma FreshLinksSnoc(nodes: set<OpeningNode>, before: map<OpeningNode, NodeState>,
                       parts: seq<string>, path: seq<OpeningNode>, child: OpeningNode)
    requires FreshLinks(nodes, before, parts, path)
    requires 1 <= |path| <= |parts|
    requires parts[|path| - 1] !in Prior(before, path[|path| - 1]).children ==> child !in nodes
    ensures FreshLinks(nodes, before, parts, path + [child])
  {
    var ext := path + [child];
    assert forall k :: 0 <= k < |path| ==> ext[k] == path[k];
  }

  /** What one `Descend` from the last node of `path` to `child` does to
      the walk so far: levels still count the depth, earlier links and
      nodes stay as they were, every node of `nodes` still only gained
      since `before`, and the child, if it existed, was untouched since
      `before`. */
  twostate lemma WalkFrame(new nodes: set<OpeningNode>, new grown: set<OpeningNode>,
                           new before: map<OpeningNode, NodeState>, new parts: seq<string>,
                           new path: seq<OpeningNode>, new child: OpeningNode, new ext: seq<OpeningNode>)
    requires && old(allocated(nodes)) && old(allocated(grown))
             && old(allocated(before)) && old(allocated(path))
    requires 1 <= |path| <= |parts| && ext == path + [child]
    requires nodes <= grown && before.Keys == nodes
    requires forall k :: 0 <= k < |path| ==> path[k] in grown && path[k].level == k
    requires forall n :: n in grown && n !in nodes ==> n in path
    requires old(forall n :: n in nodes ==> Extends(before[n], StateOf(n)))
    requires old(forall n :: n in nodes && n !in path ==> StateOf(n) == before[n])
    requires old(forall k :: 0 <= k < |path| - 1 ==>
                   path[k].children == Prior(before, path[k]).children[parts[k] := path[k + 1]])
    requires old(path[|path| - 1].children) == Prior(before, path[|path| - 1]).children
    requires child.level == |path|
    requires child in grown || !old(allocated(child))
    requires path[|path| - 1].children == old(path[|path| - 1].children)[parts[|path| - 1] := child]
    requires forall n :: n in grown ==> Extends(old(StateOf(n)), StateOf(n))
    requires forall n :: n in grown && n != path[|path| - 1] && n != child ==> StateOf(n) == old(StateOf(n))
    requires && path[|path| - 1].ecoCodes == old(path[|path| - 1].ecoCodes)
             && path[|path| - 1].canonicalLen == old(path[|path| - 1].canonicalLen)
             && path[|path| - 1].canonicalPgn == old(path[|path| - 1].canonicalPgn)
    ensures forall k :: 0 <= k < |ext| ==> ext[k].level == k
    ensures child in grown ==> child in nodes && old(StateOf(child)) == before[child]
    ensures forall n :: n in nodes ==> Extends(before[n], StateOf(n))
    ensures forall n :: n in nodes && n !in ext ==> StateOf(n) == before[n]
    ensures forall k :: 0 <= k < |path| ==>
              ext[k].children == Prior(before, ext[k]).children[parts[k] := ext[k + 1]]
    ensures forall k :: 0 <= k < |path| ==>
              && path[k].ecoCodes == old(path[k].ecoCodes)
              && path[k].canonicalLen == old(path[k].canonicalLen)
              && path[k].canonicalPgn == old(path[k].canonicalPgn)
  {
    var last := |path| - 1;
    forall k | 0 <= k < |path| ensures path[k] != child {
      assert path[k].level == k;
    }
    forall n | n in nodes ensures Extends(before[n], StateOf(n)) {
      ExtendsTransitive(before[n], old(StateOf(n)), StateOf(n));
    }
    forall k | 0 <= k < |path|
      ensures ext[k].children == Prior(before, ext[k]).children[parts[k] := ext[k + 1]]
    {
      assert ext[k] == path[k];
      if k < last {
        assert path[k].level == k && ext[k + 1] == path[k + 1];
        assert StateOf(path[k]) == old(StateOf(path[k]));
        assert old(path[k].children) == Prior(before, path[k]).children[parts[k] := path[k + 1]];
      } else {
        assert ext[k + 1] == child;
      }
    }
    forall k | 0 <= k < last
      ensures && path[k].ecoCodes == old(path[k].ecoCodes)
              && path[k].canonicalLen == old(path[k].canonicalLen)
              && path[k].canonicalPgn == old(path[k].canonicalPgn)
    {
      assert StateOf(path[k]) == old(StateOf(path[k]));
    }
  }

  /** One `Descend` from `current`, the last node of `path`, along the
      next part extends the walk by the child. */
  twostate lemma WalkAdvance(new families: map<string, OpeningNode>, new nodes: set<OpeningNode>,
                             new grown: set<OpeningNode>, new before: map<OpeningNode, NodeState>,
                             new parts: seq<string>, new eco: string, new offered: seq<Canon>,
                             new path: seq<OpeningNode>, new current: OpeningNode, new part: string,
                             new line: string, new child: OpeningNode)
    requires && old(allocated(families)) && old(allocated(nodes)) && old(allocated(grown))
             && old(allocated(before)) && old(allocated(path))
    requires old(Walk(families, nodes, grown, before, parts, eco, offered, path))
    requires |path| <= |parts|
    requires current == path[|path| - 1] && part == parts[|path| - 1]
    requires offered[|path|] == Candidate(line)
    requires Forest(families, grown + {child})
    requires child in grown || !old(allocated(child))
    requires current.children == old(current.children)[part := child]
    requires child.level == current.level + 1
    requires child.children == if child in grown then old(child.children) else map[]
    requires child.ecoCodes == (if child in grown then old(child.ecoCodes) else {}) + {eco}
    requires child.canonicalLen.Some? && child.canonicalLen.value <= SanCount(line)
    requires child.Kept() == Keep(if child in grown then old(child.Kept()) else None, Candidate(line))
    requires forall n :: n in grown ==> Extends(old(StateOf(n)), StateOf(n))
    requires forall n :: n in grown && n != current && n != child ==> StateOf(n) == old(StateOf(n))
    requires && current.ecoCodes == old(current.ecoCodes)
             && current.canonicalLen == old(current.canonicalLen)
             && current.canonicalPgn == old(current.canonicalPgn)
    ensures Walk(families, nodes, grown + {child}, before, parts, eco, offered, path + [child])
  {
    WalkFrame(nodes, grown, before, parts, path, child, path + [child]);
    PathOfferedStep(path, eco, offered, before, child);
  }

  /** Adding or reusing the family root keeps the forest's shape. */
  twostate lemma StartForest(new families: map<string, OpeningNode>, new nodes: set<OpeningNode>,
                             new updated: map<string, OpeningNode>, new grown: set<OpeningNode>,
                             new family: string, new root: OpeningNode)
    requires old(allocated(families)) && old(allocated(nodes))
    requires old(Forest(families, nodes))
    requires family in families ==> root == families[family] && grown == nodes
    requires family !in families ==> !old(allocated(root)) && grown == nodes + {root}
    requires updated == families[family := root]
    requires root.key == family && root.fullName == family && root.level == 0
    requires root.children == if root in nodes then old(root.children) else map[]
    requires forall n :: n in nodes && n != root ==> StateOf(n) == old(StateOf(n))
    requires root.Paired()
    ensures Forest(updated, grown)
  {
    forall n, k | n in grown && k in n.children
      ensures && n.children[k] in grown
              && n.children[k].key == k
              && n.children[k].level == n.level + 1
              && n.children[k].fullName == ChildFullName(n.level, n.fullName, n.key, k)
    {
      assert n in nodes;
      assert n.children == old(n.children);
    }
  }

  /** After the family node was made or found and offered its line, the
      walk starts at it. */
  twostate lemma WalkStart(new families: map<string, OpeningNode>, new nodes: set<OpeningNode>,
                           new updated: map<string, OpeningNode>, new grown: set<OpeningNode>,
                           new before: map<OpeningNode, NodeState>, new parts: seq<string>,
                           new eco: string, new offered: seq<Canon>, new family: string,
                           new root: OpeningNode)
    requires old(allocated(families)) && old(allocated(nodes))
    requires old(Forest(families, nodes))
    requires before == map n | n in nodes :: old(StateOf(n))
    requires |offered| == |parts| + 1
    requires family in families ==> root == families[family] && grown == nodes
    requires family !in families ==> !old(allocated(root)) && grown == nodes + {root}
    requires updated == families[family := root]
    requires root.key == family && root.fullName == family && root.level == 0
    requires root.children == if root in nodes then old(root.children) else map[]
    requires forall n :: n in nodes && n != root ==> StateOf(n) == old(StateOf(n))
    requires root.ecoCodes == (if root in nodes then old(root.ecoCodes) else {}) + {eco}
    requires root.Paired() && root.canonicalLen.Some? && root.canonicalLen.value <= offered[0].moves
    requires root in nodes && old(root.canonicalLen).Some? ==>
               root.canonicalLen.value <= old(root.canonicalLen.value)
    requires root.Kept() == Keep(if root in nodes then old(root.Kept()) else None, offered[0])
    ensures Walk(updated, nodes, grown, before, parts, eco, offered, [root])
  {
    StartForest(families, nodes, updated, grown, family, root);
    forall n | n in nodes ensures Extends(before[n], StateOf(n)) {
      assert before[n] == old(StateOf(n));
    }
    RootOffered(nodes, before, eco, offered, root);
    assert forall n :: n in nodes && n !in [root] ==> StateOf(n) == before[n];
    assert forall n :: n in grown && n !in nodes ==> n in [root];
  }

  /** The family node, offered its line, starts the walk's `PathOffered`
      and has the children it had before. */
  twostate lemma RootOffered(new nodes: set<OpeningNode>, new before: map<OpeningNode, NodeState>,
                             new eco: string, new offered: seq<Canon>, new root: OpeningNode)
    requires old(allocated(nodes)) && (root in nodes ==> old(allocated(root)))
    requires before == map n | n in nodes :: old(StateOf(n))
    requires 1 <= |offered|
    requires root.children == if root in nodes then old(root.children) else map[]
    requires root.ecoCodes == (if root in nodes then old(root.ecoCodes) else {}) + {eco}
    requires root.canonicalLen.Some? && root.canonicalLen.value <= offered[0].moves
    requires root.Kept() == Keep(if root in nodes then old(root.Kept()) else None, offered[0])
    ensures PathOffered([root], eco, offered, before)
    ensures root.children == Prior(before, root).children
  {
    if root in nodes {
      assert before[root] == old(StateOf(root));
    }
  }

  /** A finished walk is the row's path: `OnPath` holds, and each path
      node's kept line is the keep rule applied to what it held before and
      the line the row offered it. */
  lemma WalkDoneOnPath(updated: map<string, OpeningNode>, nodes: set<OpeningNode>,
                       grown: set<OpeningNode>, before: map<OpeningNode, NodeState>,
                       canon: map<string, Canon>, row: Row, path: seq<OpeningNode>)
    requires Walk(updated, nodes, grown, before, Parts(row), row.eco, Offers(canon, row), path)
    requires |path| == |Parts(row)| + 1
    requires Family(row) in updated && updated[Family(row)] == path[0]
    ensures OnPath(updated, grown, canon, row, path)
  {
    var offered := Offers(canon, row);
    var parts := Parts(row);
    assert PathOffered(path, row.eco, offered, before);
    forall k | 0 <= k < |path|
      ensures && path[k] in grown && path[k].level == k
              && row.eco in path[k].ecoCodes && path[k].canonicalLen.Some?
              && path[k].canonicalLen.value <= SanCount(LineAt(canon, row, k))
    {
      assert offered[k] == Candidate(LineAt(canon, row, k));
      assert path[k].ecoCodes == Prior(before, path[k]).ecoCodes + {row.eco};
    }
    forall k | 0 <= k < |parts|
      ensures parts[k] in path[k].children && path[k].children[parts[k]] == path[k + 1]
    {
      assert path[k].children == Prior(before, path[k]).children[parts[k] := path[k + 1]];
    }
  }

  lemma WalkDoneKept(updated: map<string, OpeningNode>, nodes: set<OpeningNode>,
                     grown: set<OpeningNode>, before: map<OpeningNode, NodeState>,
                     canon: map<string, Canon>, row: Row, path: seq<OpeningNode>)
    requires Walk(updated, nodes, grown, before, Parts(row), row.eco, Offers(canon, row), path)
    requires |path| == |Parts(row)| + 1
    ensures forall k :: 0 <= k < |path| ==>
              path[k].Kept() == Keep(if path[k] in nodes then
                                       KeptPair(before[path[k]].canonicalLen, before[path[k]].canonicalPgn)
                                     else None,
                                     Candidate(LineAt(canon, row, k)))
  {
    var offered := Offers(canon, row);
    assert PathOffered(path, row.eco, offered, before);
    forall k | 0 <= k < |path|
      ensures path[k].Kept() == Keep(if path[k] in nodes then
                                       KeptPair(before[path[k]].canonicalLen, before[path[k]].canonicalPgn)
                                     else None,
                                     Candidate(LineAt(canon, row, k)))
    {
      assert offered[k] == Candidate(LineAt(canon, row, k));
      assert path[k] in nodes <==> path[k] in before;
    }
  }

  lemma WalkDone(updated: map<string, OpeningNode>, nodes: set<OpeningNode>,
                 grown: set<OpeningNode>, before: map<OpeningNode, NodeState>,
                 canon: map<string, Canon>, row: Row, path: seq<OpeningNode>)
    requires Walk(updated, nodes, grown, before, Parts(row), row.eco, Offers(canon, row), path)
    requires |path| == |Parts(row)| + 1
    requires Family(row) in updated && updated[Family(row)] == path[0]
    ensures OnPath(updated, grown, canon, row, path)
    ensures forall k :: 0 <= k < |path| ==>
              path[k].Kept() == Keep(if path[k] in nodes then
                                       KeptPair(before[path[k]].canonicalLen, before[path[k]].canonicalPgn)
                                     else None,
                                     Candidate(LineAt(canon, row, k)))
  {
    WalkDoneOnPath(updated, nodes, grown, before, canon, row, path);
    WalkDoneKept(updated, nodes, grown, before, canon, row, path);
  }


  /** The start of the second pass for one row: the family node is made
      if missing (level 0, named by the family label) and offered
      `FamilyLine`; the walk then stands at it. */
  method StartWalk(families: map<string, OpeningNode>, ghost nodes: set<OpeningNode>,
                   ghost before: map<OpeningNode, NodeState>, canon: map<string, Canon>, row: Row)
    returns (updated: map<string, OpeningNode>, ghost grown: set<OpeningNode>, root: OpeningNode)
    requires Forest(families, nodes)
    requires before == map n | n in nodes :: StateOf(n)
    modifies nodes
    ensures Walk(updated, nodes, grown, before, Parts(row), row.eco, Offers(canon, row), [root])
    ensures updated == families[Family(row) := root]
    ensures Family(row) in families ==> root == families[Family(row)]
    ensures Family(row) !in families ==> fresh(root)
    ensures forall n :: n in grown ==> n in nodes || fresh(n)
  {
    var family := Family(row);
    var parts := Parts(row);
    ghost var offered := Offers(canon, row);
    updated := families;
    grown := nodes;
    if family !in updated {
      root := new OpeningNode(family, family, 0);
      updated := updated[family := root];
      grown := grown + {root};
    } else {
      root := updated[family];
    }
    root.UpdateCanonical(row.eco, FamilyLine(canon, family, row.pgn));
    assert offered[0] == Candidate(FamilyLine(canon, family, row.pgn));
    WalkStart(families, nodes, updated, grown, before, parts, row.eco, offered, family, root);
  }

  /** Below the family, the line offered at depth `k` is the one looked
      up under the `built_name` of the first `k` parts. */
  ghost predicate OffersBuilt(offered: seq<Canon>, canon: map<string, Canon>, family: string,
                              parts: seq<string>, pgn: string) {
    |offered| == |parts| + 1
    && forall k :: 1 <= k <= |parts| ==>
         offered[k] == Candidate(ChildLine(canon, BuiltName(family, parts[..k]), pgn))
  }

  /** The lines a row offers below its family node are the `ChildLine`s
      of its successive `built_name`s. */
  lemma OffersChildLines(canon: map<string, Canon>, row: Row)
    ensures OffersBuilt(Offers(canon, row), canon, Family(row), Parts(row), row.pgn)
  {
  }

  lemma BuiltNameStep(family: string, parts: seq<string>, i: nat)
    requires i < |parts|
    ensures BuiltName(family, parts[..i + 1]) == NextBuiltName(BuiltName(family, parts[..i]), parts[i])
  {
    assert parts[..i + 1][..i] == parts[..i];
  }

  /** The state at the head of the loop over the parts: `path` leads from
      `root` to `current`, `built` is the `built_name` of the parts walked,
      the walk so far is consistent, and it reached new nodes under new parts. */
  ghost predicate Walking(families: map<string, OpeningNode>, nodes: set<OpeningNode>,
                          reached: set<OpeningNode>, before: map<OpeningNode, NodeState>,
                          parts: seq<string>, eco: string, offered: seq<Canon>, path: seq<OpeningNode>,
                          root: OpeningNode, current: OpeningNode, family: string, built: string)
    reads reached
  {
    && 1 <= |path| <= |parts| + 1 && current == path[|path| - 1] && path[0] == root
    && built == BuiltName(family, parts[..|path| - 1])
    && Walk(families, nodes, reached, before, parts, eco, offered, path)
    && FreshLinks(nodes, before, parts, path)
  }

  /** The line offered at depth `k` below the family is the `ChildLine`
      of the next `built_name`. */
  lemma StepLine(offered: seq<Canon>, canon: map<string, Canon>, family: string, parts: seq<string>,
                 pgn: string, k: nat, built: string, next: string, line: string)
    requires OffersBuilt(offered, canon, family, parts, pgn)
    requires 1 <= k <= |parts| && built == BuiltName(family, parts[..k - 1])
    requires next == NextBuiltName(built, parts[k - 1]) && line == ChildLine(canon, next, pgn)
    ensures next == BuiltName(family, parts[..k])
    ensures offered[k] == Candidate(line)
  {
    BuiltNameStep(family, parts, k - 1);
  }

  /** One pass of the loop over the parts: `ensure_child`, the next
      `built_name`, and the line offered to the child. */
  method Step(families: map<string, OpeningNode>, ghost nodes: set<OpeningNode>,
              ghost reached: set<OpeningNode>, ghost before: map<OpeningNode, NodeState>,
              canon: map<string, Canon>, ghost parts: seq<string>, eco: string, pgn: string,
              ghost offered: seq<Canon>, ghost path: seq<OpeningNode>, ghost root: OpeningNode,
              current: OpeningNode, part: string, ghost family: string, built: string)
    returns (child: OpeningNode, next: string)
    requires Walking(families, nodes, reached, before, parts, eco, offered, path, root, current, family, built)
    requires |path| <= |parts| && part == parts[|path| - 1]
    requires OffersBuilt(offered, canon, family, parts, pgn)
    modifies reached
    ensures Walking(families, nodes, reached + {child}, before, parts, eco, offered, path + [child],
                    root, child, family, next)
    ensures child in reached || fresh(child)
    ensures part !in old(current.children) ==> fresh(child)
  {
    next := NextBuiltName(built, part);
    var line := ChildLine(canon, next, pgn);
    StepLine(offered, canon, family, parts, pgn, |path|, built, next, line);
    assert current.children == Prior(before, current).children;
    label step:
    child := Descend(families, reached, current, part, eco, line);
    WalkAdvance@step(families, nodes, reached, before, parts, eco, offered, path, current, part, line, child);
    FreshLinksSnoc(nodes, before, parts, path, child);
  }

  /** The walk down a row's variation parts from its family node: each
      part is looked up or created with `ensure_child`, `built_name` is
      extended by it, and the node reached is offered its `ChildLine`. */
  method WalkParts(families: map<string, OpeningNode>, ghost nodes: set<OpeningNode>,
                   ghost grown: set<OpeningNode>, ghost before: map<OpeningNode, NodeState>,
                   canon: map<string, Canon>, family: string, parts: seq<string>,
                   eco: string, pgn: string, ghost offered: seq<Canon>, root: OpeningNode)
    returns (ghost reached: set<OpeningNode>, ghost path: seq<OpeningNode>)
    requires Walk(families, nodes, grown, before, parts, eco, offered, [root])
    requires OffersBuilt(offered, canon, family, parts, pgn)
    modifies grown
    ensures Walk(families, nodes, reached, before, parts, eco, offered, path)
    ensures |path| == |parts| + 1 && path[0] == root
    ensures FreshLinks(nodes, before, parts, path)
    ensures forall n :: n in reached ==> n in grown || fresh(n)
  {
    var current := root;
    var built := family;
    reached := grown;
    path := [root];
    for i := 0 to |parts|
      invariant |path| == i + 1
      invariant Walking(families, nodes, reached, before, parts, eco, offered, path, root, current, family, built)
      invariant forall n :: n in reached ==> n in grown || fresh(n)
    {
      var child;
      child, built := Step(families, nodes, reached, before, canon, parts, eco, pgn, offered, path, root,
                           current, parts[i], family, built);
      current := child;
      path := path + [child];
      reached := reached + {child};
    }
  }

  /** How adding `row` linked the nodes, from the state before to the
      state after: nodes off its path did not change, the only new nodes
      are on it, each path node gained the next node of the path as the
      child under the next part (none for the last), and a node reached
      under a part its parent lacked is new. */
  twostate predicate RowLinked(new nodes: set<OpeningNode>, new grown: set<OpeningNode>,
                               new row: Row, new path: seq<OpeningNode>)
    requires old(allocated(nodes))
    requires |path| == |Parts(row)| + 1
    requires forall k :: 0 <= k < |path| ==> path[k] in nodes ==> old(allocated(path[k]))
    reads nodes, grown, path
  {
    && (forall n :: n in nodes && n !in path ==> StateOf(n) == old(StateOf(n)))
    && (forall n :: n in grown ==> n in nodes || n in path)
    && (forall k :: 0 <= k < |path| - 1 ==>
          path[k].children ==
            (if path[k] in nodes then old(path[k].children) else map[])[Parts(row)[k] := path[k + 1]])
    && path[|path| - 1].children ==
         (if path[|path| - 1] in nodes then old(path[|path| - 1].children) else map[])
    && (forall k ::
          && 0 <= k < |path| - 1
          && Parts(row)[k] !in (if path[k] in nodes then old(path[k].children) else map[])
          ==> path[k + 1] !in nodes)
  }

  /** What adding `row` did: it linked the nodes as `RowLinked` says, and
      each path node gained exactly the row's ECO code and applied the
      keep rule to what it held and the line the row offered it. */
  twostate predicate RowAdded(new nodes: set<OpeningNode>, new grown: set<OpeningNode>,
                              new canon: map<string, Canon>, new row: Row, new path: seq<OpeningNode>)
    requires old(allocated(nodes))
    requires |path| == |Parts(row)| + 1
    requires forall k :: 0 <= k < |path| ==> path[k] in nodes ==> old(allocated(path[k]))
    reads nodes, grown, path
  {
    && RowLinked(nodes, grown, row, path)
    && (forall k :: 0 <= k < |path| ==>
          path[k].Kept() == Keep(if path[k] in nodes then old(path[k].Kept()) else None,
                                 Candidate(LineAt(canon, row, k))))
    && (forall k :: 0 <= k < |path| ==>
          path[k].ecoCodes == (if path[k] in nodes then old(path[k].ecoCodes) else {}) + {row.eco})
  }

  /** The second pass for one row (`StartWalk`, then `WalkParts`). Nodes
      off the path do not change, the only new nodes are on the path, and
      each path node gains exactly the row's ECO code, the next node of
      the path as the child under the next part (none for the last), and
      the keep rule applied to what it held and the line the row offered
      it. */
  method AddRow(families: map<string, OpeningNode>, ghost nodes: set<OpeningNode>,
                canon: map<string, Canon>, row: Row)
    returns (updated: map<string, OpeningNode>, ghost grown: set<OpeningNode>,
             ghost path: seq<OpeningNode>)
    requires Forest(families, nodes)
    modifies nodes
    ensures Forest(updated, grown)
    ensures nodes <= grown && forall n :: n in grown ==> n in nodes || fresh(n)
    ensures |path| == |Parts(row)| + 1
    ensures updated == families[Family(row) := path[0]]
    ensures Family(row) in families ==> path[0] == families[Family(row)]
    ensures forall n :: n in nodes ==> Extends(old(StateOf(n)), StateOf(n))
    ensures OnPath(updated, grown, canon, row, path)
    ensures RowAdded(nodes, grown, canon, row, path)
    ensures Family(row) !in families ==> path[0] !in nodes
  {
    ghost var before := map n | n in nodes :: StateOf(n);
    var root;
    ghost var started;
    updated, started, root := StartWalk(families, nodes, before, canon, row);
    OffersChildLines(canon, row);
    grown, path := WalkParts(updated, nodes, started, before, canon, Family(row), Parts(row),
                             row.eco, row.pgn, Offers(canon, row), root);
    WalkDone(updated, nodes, grown, before, canon, row, path);
    WalkAdded(nodes, grown, before, canon, row, path);
  }

  /** A finished walk did to the nodes what `RowAdded` says. */
  twostate lemma WalkAdded(new nodes: set<OpeningNode>, new grown: set<OpeningNode>,
                           new before: map<OpeningNode, NodeState>, new canon: map<string, Canon>,
                           new row: Row, new path: seq<OpeningNode>)
    requires old(allocated(nodes))
    requires before == map n | n in nodes :: old(StateOf(n))
    requires |path| == |Parts(row)| + 1
    requires forall k :: 0 <= k < |path| ==> path[k] in grown
    requires forall n :: n in grown && n !in nodes ==> n in path
    requires forall n :: n in nodes && n !in path ==> StateOf(n) == before[n]
    requires forall k :: 0 <= k < |path| - 1 ==>
               path[k].children == Prior(before, path[k]).children[Parts(row)[k] := path[k + 1]]
    requires path[|path| - 1].children == Prior(before, path[|path| - 1]).children
    requires PathOffered(path, row.eco, Offers(canon, row), before)
    requires FreshLinks(nodes, before, Parts(row), path)
    requires forall k :: 0 <= k < |path| ==>
               path[k].Kept() == Keep(if path[k] in nodes then
                                        KeptPair(before[path[k]].canonicalLen, before[path[k]].canonicalPgn)
                                      else None,
                                      Candidate(LineAt(canon, row, k)))
    ensures RowAdded(nodes, grown, canon, row, path)
  {
    PriorIsOld(nodes, before, path);
    WalkLinked(nodes, grown, before, row, path);
  }

  /** For the nodes of `path`, `before` holds their state at the start. */
  twostate lemma PriorIsOld(new nodes: set<OpeningNode>, new before: map<OpeningNode, NodeState>,
                            new path: seq<OpeningNode>)
    requires old(allocated(nodes))
    requires before == map n | n in nodes :: old(StateOf(n))
    ensures forall k :: 0 <= k < |path| ==>
              Prior(before, path[k]) == if path[k] in nodes then old(StateOf(path[k]))
                                        else NodeState(map[], {}, None, None)
    ensures forall n :: n in nodes ==> before[n] == old(StateOf(n))
  {
    forall k | 0 <= k < |path|
      ensures Prior(before, path[k]) == if path[k] in nodes then old(StateOf(path[k]))
                                        else NodeState(map[], {}, None, None)
    {
      if path[k] in nodes {
        assert before[path[k]] == old(StateOf(path[k]));
      }
    }
  }

  /** A finished walk linked the nodes as `RowLinked` says. */
  twostate lemma WalkLinked(new nodes: set<OpeningNode>, new grown: set<OpeningNode>,
                            new before: map<OpeningNode, NodeState>, new row: Row, new path: seq<OpeningNode>)
    requires old(allocated(nodes))
    requires |path| == |Parts(row)| + 1
    requires forall k :: 0 <= k < |path| ==>
               Prior(before, path[k]) == if path[k] in nodes then old(StateOf(path[k]))
                                         else NodeState(map[], {}, None, None)
    requires forall n :: n in grown && n !in nodes ==> n in path
    requires forall n :: n in nodes && n !in path ==> StateOf(n) == old(StateOf(n))
    requires forall k :: 0 <= k < |path| - 1 ==>
               path[k].children == Prior(before, path[k]).children[Parts(row)[k] := path[k + 1]]
    requires path[|path| - 1].children == Prior(before, path[|path| - 1]).children
    requires FreshLinks(nodes, before, Parts(row), path)
    ensures RowLinked(nodes, grown, row, path)
  {
  }

  /** The family labels of `rows`. */
  function FamiliesOf(rows: seq<Row>): set<string>
    decreases |rows|
  {
    if rows == [] then {} else FamiliesOf(rows[..|rows| - 1]) + {Family(rows[|rows| - 1])}
  }

  /** The children of the nodes of `nodes` are in `nodes`, and no node is
      the child of two nodes: the family trees share no node. */
  ghost predicate Tree(nodes: set<OpeningNode>)
    reads nodes
  {
    && (forall n, k :: n in nodes && k in n.children ==> n.children[k] in nodes)
    && (forall n1, n2, k ::
          && n1 in nodes && n2 in nodes && k in n1.children && k in n2.children
          && n1.children[k] == n2.children[k]
          ==> n1 == n2)
  }

  /** After adding the rows `done`: the forest is intact and its trees
      share no node, its families are the rows' family labels, and row
      `j`'s path is `paths[j]`. */
  ghost predicate Built(families: map<string, OpeningNode>, nodes: set<OpeningNode>,
                        canon: map<string, Canon>, done: seq<Row>, paths: seq<seq<OpeningNode>>)
    reads nodes
  {
    && Forest(families, nodes) && Tree(nodes) && families.Keys == FamiliesOf(done) && |paths| == |done|
    && forall j {:trigger OnPath(families, nodes, canon, done[j], paths[j])} ::
         0 <= j < |done| ==> OnPath(families, nodes, canon, done[j], paths[j])
  }

  /** The state after the first `i + 1` rows is the state after the
      first `i`, extended by row `i`'s family and path. */
  lemma BuiltExtend(families: map<string, OpeningNode>, nodes: set<OpeningNode>,
                    canon: map<string, Canon>, rows: seq<Row>, i: nat, paths: seq<seq<OpeningNode>>,
                    path: seq<OpeningNode>)
    requires i < |rows|
    requires Forest(families, nodes) && Tree(nodes)
    requires families.Keys == FamiliesOf(rows[..i]) + {Family(rows[i])}
    requires |paths| == i
    requires forall j {:trigger OnPath(families, nodes, canon, rows[..i][j], paths[j])} ::
               0 <= j < i ==> OnPath(families, nodes, canon, rows[..i][j], paths[j])
    requires OnPath(families, nodes, canon, rows[i], path)
    ensures Built(families, nodes, canon, rows[..i + 1], paths + [path])
  {
    PathsExtend(families, nodes, canon, rows, i, paths, path);
    assert rows[..i + 1][..i] == rows[..i];
  }

  /** Row `i`'s path joins the paths of the rows before it. */
  lemma PathsExtend(families: map<string, OpeningNode>, nodes: set<OpeningNode>,
                    canon: map<string, Canon>, rows: seq<Row>, i: nat, paths: seq<seq<OpeningNode>>,
                    path: seq<OpeningNode>)
    requires i < |rows| && |paths| == i
    requires forall j {:trigger OnPath(families, nodes, canon, rows[..i][j], paths[j])} ::
               0 <= j < i ==> OnPath(families, nodes, canon, rows[..i][j], paths[j])
    requires OnPath(families, nodes, canon, rows[i], path)
    ensures forall j {:trigger OnPath(families, nodes, canon, rows[..i + 1][j], (paths + [path])[j])} ::
              0 <= j < i + 1 ==> OnPath(families, nodes, canon, rows[..i + 1][j], (paths + [path])[j])
  {
    var done, ps := rows[..i + 1], paths + [path];
    forall j | 0 <= j < i + 1 ensures OnPath(families, nodes, canon, done[j], ps[j]) {
      if j < i {
        assert done[j] == rows[..i][j] && ps[j] == paths[j];
      }
    }
  }

  // ----- what the rows put into each node -----

  /** The path `p` passes through `n`: `n` is its node at depth `n.level`. */
  ghost predicate Through(p: seq<OpeningNode>, n: OpeningNode) {
    0 <= n.level < |p| && p[n.level] == n
  }

  /** The ECO codes of the rows among `done` whose path passes through `n`. */
  ghost function CodesAt(done: seq<Row>, paths: seq<seq<OpeningNode>>, n: OpeningNode): set<string>
    requires |paths| == |done|
  {
    set j | 0 <= j < |done| && Through(paths[j], n) :: done[j].eco
  }

  /** The parts with which the rows through `n` continue below it. */
  ghost function ChildKeys(done: seq<Row>, paths: seq<seq<OpeningNode>>, n: OpeningNode): set<string>
    requires |paths| == |done|
  {
    set j | 0 <= j < |done| && Through(paths[j], n) && n.level < |Parts(done[j])| :: Parts(done[j])[n.level]
  }

  /** The lines offered to `n` by the rows among `done` whose path passes
      through it, in row order. */
  ghost function OfferedTo(canon: map<string, Canon>, done: seq<Row>, paths: seq<seq<OpeningNode>>,
                           n: OpeningNode): seq<Canon>
    requires |paths| == |done|
    decreases |done|
  {
    if done == [] then []
    else
      var j := |done| - 1;
      OfferedTo(canon, done[..j], paths[..j], n)
      + if Through(paths[j], n) && n.level <= |Parts(done[j])| then [Candidate(LineAt(canon, done[j], n.level))]
        else []
  }

  /** What the rows `done` made of `n`: some row's path passes through it,
      its ECO codes are those of the rows through it, its children are
      labelled by the parts those rows continue with, and its kept line is
      the keep rule folded over the lines offered to it, in row order. */
  ghost predicate Holds(canon: map<string, Canon>, done: seq<Row>, paths: seq<seq<OpeningNode>>,
                        n: OpeningNode)
    requires |paths| == |done|
    reads n
  {
    && (exists j :: 0 <= j < |done| && Through(paths[j], n))
    && n.ecoCodes == CodesAt(done, paths, n)
    && n.children.Keys == ChildKeys(done, paths, n)
    && n.Kept() == KeepAll(None, OfferedTo(canon, done, paths, n))
  }

  /** Every node of `nodes` is what the rows `done` made of it, and the
      rows' paths run through `nodes`. */
  ghost predicate Content(nodes: set<OpeningNode>, canon: map<string, Canon>, done: seq<Row>,
                          paths: seq<seq<OpeningNode>>)
    reads nodes
  {
    && |paths| == |done|
    && (forall j, k :: 0 <= j < |paths| && 0 <= k < |paths[j]| ==> paths[j][k] in nodes)
    && forall n :: n in nodes ==> Holds(canon, done, paths, n)
  }

  lemma CodesAtSnoc(done: seq<Row>, paths: seq<seq<OpeningNode>>, row: Row, path: seq<OpeningNode>,
                    n: OpeningNode)
    requires |paths| == |done|
    ensures CodesAt(done + [row], paths + [path], n)
            == CodesAt(done, paths, n) + if Through(path, n) then {row.eco} else {}
  {
    var d, ps := done + [row], paths + [path];
    assert forall j :: 0 <= j < |done| ==> d[j] == done[j] && ps[j] == paths[j];
    assert d[|done|] == row && ps[|done|] == path;
  }

  lemma ChildKeysSnoc(done: seq<Row>, paths: seq<seq<OpeningNode>>, row: Row, path: seq<OpeningNode>,
                      n: OpeningNode)
    requires |paths| == |done|
    ensures ChildKeys(done + [row], paths + [path], n)
            == ChildKeys(done, paths, n)
               + if Through(path, n) && n.level < |Parts(row)| then {Parts(row)[n.level]} else {}
  {
    var d, ps := done + [row], paths + [path];
    assert forall j :: 0 <= j < |done| ==> d[j] == done[j] && ps[j] == paths[j];
    assert d[|done|] == row && ps[|done|] == path;
  }

  lemma OfferedToSnoc(canon: map<string, Canon>, done: seq<Row>, paths: seq<seq<OpeningNode>>, row: Row,
                      path: seq<OpeningNode>, n: OpeningNode)
    requires |paths| == |done|
    ensures OfferedTo(canon, done + [row], paths + [path], n)
            == OfferedTo(canon, done, paths, n)
               + if Through(path, n) && n.level <= |Parts(row)| then [Candidate(LineAt(canon, row, n.level))]
                 else []
  {
    assert (done + [row])[..|done|] == done;
    assert (paths + [path])[..|paths|] == paths;
  }

  /** A node no path passes through was offered no line. */
  lemma {:induction false} OfferedToNone(canon: map<string, Canon>, done: seq<Row>,
                                         paths: seq<seq<OpeningNode>>, n: OpeningNode)
    requires |paths| == |done|
    requires forall j :: 0 <= j < |paths| ==> !Through(paths[j], n)
    ensures OfferedTo(canon, done, paths, n) == []
    decreases |done|
  {
    if done != [] {
      var j := |done| - 1;
      OfferedToNone(canon, done[..j], paths[..j], n);
    }
  }

  /** Every line offered is a candidate: its move count is its SAN count. */
  lemma {:induction false} OfferedCandidates(canon: map<string, Canon>, done: seq<Row>,
                                             paths: seq<seq<OpeningNode>>, n: OpeningNode)
    requires |paths| == |done|
    ensures forall c :: c in OfferedTo(canon, done, paths, n) ==> c.moves == SanCount(c.pgn)
    decreases |done|
  {
    if done != [] {
      var j := |done| - 1;
      OfferedCandidates(canon, done[..j], paths[..j], n);
    }
  }

  /** A node some row passes through, down to at most the row's last
      part, was offered a line. */
  lemma {:induction false} OfferedToSome(canon: map<string, Canon>, done: seq<Row>,
                                         paths: seq<seq<OpeningNode>>, n: OpeningNode, j: int)
    requires |paths| == |done| && 0 <= j < |done|
    requires Through(paths[j], n) && n.level <= |Parts(done[j])|
    ensures OfferedTo(canon, done, paths, n) != []
    decreases |done|
  {
    var last := |done| - 1;
    if j < last {
      OfferedToSome(canon, done[..last], paths[..last], n, j);
    }
  }

  lemma UpdateKeys(m: map<string, OpeningNode>, key: string, v: OpeningNode)
    ensures m[key := v].Keys == m.Keys + {key}
  {
  }

  /** A node that some row of `done` passed through, after one more row:
      the row either passed through it, adding its ECO code and its next
      part, or left it as it was. The node's codes and child labels are
      given as values. */
  lemma HeldStep(done: seq<Row>, paths: seq<seq<OpeningNode>>, row: Row, path: seq<OpeningNode>,
                 n: OpeningNode, codes0: set<string>, keys0: set<string>, codes: set<string>, keys: set<string>)
    requires |paths| == |done|
    requires exists j :: 0 <= j < |done| && Through(paths[j], n)
    requires codes0 == CodesAt(done, paths, n) && keys0 == ChildKeys(done, paths, n)
    requires codes == codes0 + if Through(path, n) then {row.eco} else {}
    requires keys == keys0 + if Through(path, n) && n.level < |Parts(row)| then {Parts(row)[n.level]} else {}
    ensures exists j :: 0 <= j < |done| + 1 && Through((paths + [path])[j], n)
    ensures codes == CodesAt(done + [row], paths + [path], n)
    ensures keys == ChildKeys(done + [row], paths + [path], n)
  {
    CodesAtSnoc(done, paths, row, path, n);
    ChildKeysSnoc(done, paths, row, path, n);
    var j :| 0 <= j < |done| && Through(paths[j], n);
    assert (paths + [path])[j] == paths[j];
  }

  /** The kept line of a node that some row of `done` passed through,
      after one more row: the row's line was offered to it if the row
      passes through it, and nothing was offered otherwise. */
  lemma HeldKept(canon: map<string, Canon>, done: seq<Row>, paths: seq<seq<OpeningNode>>, row: Row,
                 path: seq<OpeningNode>, n: OpeningNode, kept0: Option<Canon>, kept: Option<Canon>)
    requires |paths| == |done|
    requires kept0 == KeepAll(None, OfferedTo(canon, done, paths, n))
    requires Through(path, n) ==> n.level <= |Parts(row)|
    requires kept == if Through(path, n) then Keep(kept0, Candidate(LineAt(canon, row, n.level))) else kept0
    ensures kept == KeepAll(None, OfferedTo(canon, done + [row], paths + [path], n))
  {
    var xs := OfferedTo(canon, done, paths, n);
    OfferedToSnoc(canon, done, paths, row, path, n);
    if Through(path, n) {
      var c := Candidate(LineAt(canon, row, n.level));
      assert OfferedTo(canon, done + [row], paths + [path], n) == xs + [c];
      assert (xs + [c])[..|xs|] == xs;
      assert KeepAll(None, xs + [c]) == Keep(KeepAll(None, xs), c);
    } else {
      assert OfferedTo(canon, done + [row], paths + [path], n) == xs;
    }
  }

  /** A node no row of `done` passed through, made for one more row that
      passes through it. */
  lemma FreshStep(canon: map<string, Canon>, done: seq<Row>, paths: seq<seq<OpeningNode>>, row: Row,
                  path: seq<OpeningNode>, n: OpeningNode,
                  codes: set<string>, keys: set<string>, kept: Option<Canon>)
    requires |paths| == |done|
    requires forall j :: 0 <= j < |paths| ==> !Through(paths[j], n)
    requires Through(path, n) && n.level <= |Parts(row)|
    requires codes == {row.eco}
    requires keys == if n.level < |Parts(row)| then {Parts(row)[n.level]} else {}
    requires kept == Some(Candidate(LineAt(canon, row, n.level)))
    ensures exists j :: 0 <= j < |done| + 1 && Through((paths + [path])[j], n)
    ensures codes == CodesAt(done + [row], paths + [path], n)
    ensures keys == ChildKeys(done + [row], paths + [path], n)
    ensures kept == KeepAll(None, OfferedTo(canon, done + [row], paths + [path], n))
  {
    CodesAtSnoc(done, paths, row, path, n);
    ChildKeysSnoc(done, paths, row, path, n);
    OfferedToSnoc(canon, done, paths, row, path, n);
    OfferedToNone(canon, done, paths, n);
    assert CodesAt(done, paths, n) == {};
    assert ChildKeys(done, paths, n) == {};
    assert (paths + [path])[|done|] == path;
    assert [Candidate(LineAt(canon, row, n.level))][..0] == [];
  }

  /** A node on the new row's path that some earlier row passed through,
      given how the row changed it, is what the rows, with this one, made
      of it. */
  twostate lemma HeldPathNode(new canon: map<string, Canon>, new done: seq<Row>,
                              new paths: seq<seq<OpeningNode>>, new row: Row, new path: seq<OpeningNode>,
                              new n: OpeningNode, part: set<string>)
    requires old(allocated(n)) && old(allocated(paths)) && |paths| == |done|
    requires old(Holds(canon, done, paths, n))
    requires |path| == |Parts(row)| + 1 && Through(path, n)
    requires part == if n.level < |Parts(row)| then {Parts(row)[n.level]} else {}
    requires n.ecoCodes == old(n.ecoCodes) + {row.eco}
    requires n.children.Keys == old(n.children.Keys) + part
    requires n.Kept() == Keep(old(n.Kept()), Candidate(LineAt(canon, row, n.level)))
    ensures Holds(canon, done + [row], paths + [path], n)
  {
    HeldStep(done, paths, row, path, n, old(n.ecoCodes), old(n.children.Keys), n.ecoCodes, n.children.Keys);
    HeldKept(canon, done, paths, row, path, n, old(n.Kept()), n.Kept());
  }

  /** A node on the new row's path, given how the row changed it, is what
      the rows, with this one, made of it. */
  twostate lemma PathNodeKept(new nodes: set<OpeningNode>, new canon: map<string, Canon>, new done: seq<Row>,
                              new paths: seq<seq<OpeningNode>>, new row: Row, new path: seq<OpeningNode>,
                              new n: OpeningNode)
    requires old(allocated(nodes)) && old(allocated(paths))
    requires old(Content(nodes, canon, done, paths))
    requires n in nodes ==> old(allocated(n))
    requires |path| == |Parts(row)| + 1 && Through(path, n)
    requires n.ecoCodes == (if n in nodes then old(n.ecoCodes) else {}) + {row.eco}
    requires n.level < |path| - 1 ==>
               n.children == (if n in nodes then old(n.children) else map[])[Parts(row)[n.level] := path[n.level + 1]]
    requires n.level == |path| - 1 ==> n.children == if n in nodes then old(n.children) else map[]
    requires n.Kept() == Keep(if n in nodes then old(n.Kept()) else None, Candidate(LineAt(canon, row, n.level)))
    ensures Holds(canon, done + [row], paths + [path], n)
  {
    var k := n.level;
    var part := if k < |Parts(row)| then {Parts(row)[k]} else {};
    if k < |path| - 1 {
      UpdateKeys(if n in nodes then old(n.children) else map[], Parts(row)[k], path[k + 1]);
    }
    if n in nodes {
      HeldPathNode(canon, done, paths, row, path, n, part);
    } else {
      assert forall j :: 0 <= j < |paths| ==> !Through(paths[j], n);
      FreshStep(canon, done, paths, row, path, n, n.ecoCodes, n.children.Keys, n.Kept());
    }
  }

  /** The node at depth `k` of the new row's path is what the rows, with
      this one, made of it. */
  twostate lemma OnPathKept(new nodes: set<OpeningNode>, new grown: set<OpeningNode>,
                            new canon: map<string, Canon>, new done: seq<Row>,
                            new paths: seq<seq<OpeningNode>>, new row: Row, new path: seq<OpeningNode>, k: nat)
    requires old(allocated(nodes)) && old(allocated(paths))
    requires old(Content(nodes, canon, done, paths))
    requires |path| == |Parts(row)| + 1 && k < |path| && path[k].level == k
    requires forall i :: 0 <= i < |path| ==> path[i] in nodes ==> old(allocated(path[i]))
    requires RowAdded(nodes, grown, canon, row, path)
    ensures Holds(canon, done + [row], paths + [path], path[k])
  {
    var n := path[k];
    assert n.ecoCodes == (if n in nodes then old(n.ecoCodes) else {}) + {row.eco};
    assert n.Kept() == Keep(if n in nodes then old(n.Kept()) else None, Candidate(LineAt(canon, row, k)));
    if k < |path| - 1 {
      assert n.children == (if n in nodes then old(n.children) else map[])[Parts(row)[k] := path[k + 1]];
    }
    PathNodeKept(nodes, canon, done, paths, row, path, n);
  }

  /** A node off the new row's path is still what the rows, with this
      one, made of it. */
  twostate lemma OffPathKept(new nodes: set<OpeningNode>, new grown: set<OpeningNode>,
                             new canon: map<string, Canon>, new done: seq<Row>,
                             new paths: seq<seq<OpeningNode>>, new row: Row, new path: seq<OpeningNode>,
                             new n: OpeningNode)
    requires old(allocated(nodes)) && old(allocated(paths))
    requires old(Content(nodes, canon, done, paths))
    requires |path| == |Parts(row)| + 1
    requires forall i :: 0 <= i < |path| ==> path[i] in nodes ==> old(allocated(path[i]))
    requires forall i :: 0 <= i < |path| ==> path[i].level == i
    requires RowAdded(nodes, grown, canon, row, path)
    requires n in grown && n !in path
    ensures Holds(canon, done + [row], paths + [path], n)
  {
    assert n in nodes && StateOf(n) == old(StateOf(n));
    assert !Through(path, n);
    assert old(Holds(canon, done, paths, n));
    HeldStep(done, paths, row, path, n, old(n.ecoCodes), old(n.children.Keys), n.ecoCodes, n.children.Keys);
    HeldKept(canon, done, paths, row, path, n, old(n.Kept()), n.Kept());
  }

  /** Adding one row keeps `Content`, given what `AddRow` promises about
      the nodes on and off the row's path. */
  twostate lemma ContentKept(new nodes: set<OpeningNode>, new grown: set<OpeningNode>,
                             new canon: map<string, Canon>, new done: seq<Row>,
                             new paths: seq<seq<OpeningNode>>, new row: Row, new path: seq<OpeningNode>)
    requires old(allocated(nodes)) && old(allocated(paths))
    requires old(Content(nodes, canon, done, paths))
    requires nodes <= grown
    requires |path| == |Parts(row)| + 1
    requires forall k :: 0 <= k < |path| ==> path[k] in grown && path[k].level == k
    requires forall i :: 0 <= i < |path| ==> path[i] in nodes ==> old(allocated(path[i]))
    requires RowAdded(nodes, grown, canon, row, path)
    ensures Content(grown, canon, done + [row], paths + [path])
  {
    var ps := paths + [path];
    forall j, k | 0 <= j < |ps| && 0 <= k < |ps[j]| ensures ps[j][k] in grown {
      if j < |paths| {
        assert ps[j] == paths[j];
      }
    }
    forall k | 0 <= k < |path| ensures Holds(canon, done + [row], ps, path[k]) {
      OnPathKept(nodes, grown, canon, done, paths, row, path, k);
    }
    forall n | n in grown && n !in path ensures Holds(canon, done + [row], ps, n) {
      OffPathKept(nodes, grown, canon, done, paths, row, path, n);
    }
  }

  /** `AddRow` for row `i`, keeping the paths of the rows added before
      it: they are still paths afterwards, and row `i`'s path joins them. */
  method AddKept(families: map<string, OpeningNode>, ghost nodes: set<OpeningNode>,
                 canon: map<string, Canon>, rows: seq<Row>, i: nat, ghost paths: seq<seq<OpeningNode>>)
    returns (updated: map<string, OpeningNode>, ghost grown: set<OpeningNode>,
             ghost extended: seq<seq<OpeningNode>>)
    requires i < |rows| && Built(families, nodes, canon, rows[..i], paths)
    requires Content(nodes, canon, rows[..i], paths)
    modifies nodes
    ensures Built(updated, grown, canon, rows[..i + 1], extended)
    ensures Content(grown, canon, rows[..i + 1], extended)
    ensures forall n :: n in grown ==> n in nodes || fresh(n)
  {
    assert forall j :: 0 <= j < i ==> OnPath(families, nodes, canon, rows[..i][j], paths[j]);
    label step:
    ghost var path;
    updated, grown, path := AddRow(families, nodes, canon, rows[i]);
    RowKept@step(families, nodes, updated, grown, canon, rows, i, paths, path);
    extended := paths + [path];
  }

  /** What `AddRow` promises for row `i`, seen from the rows before it:
      their paths and contents carry over, and row `i` joins them. */
  twostate lemma RowKept(new families: map<string, OpeningNode>, new nodes: set<OpeningNode>,
                         new updated: map<string, OpeningNode>, new grown: set<OpeningNode>,
                         new canon: map<string, Canon>, new rows: seq<Row>, i: nat,
                         new paths: seq<seq<OpeningNode>>, new path: seq<OpeningNode>)
    requires old(allocated(families)) && old(allocated(nodes)) && old(allocated(paths))
    requires i < |rows| && |paths| == i && families.Keys == FamiliesOf(rows[..i])
    requires forall j :: 0 <= j < i ==> old(OnPath(families, nodes, canon, rows[..i][j], paths[j]))
    requires old(Content(nodes, canon, rows[..i], paths)) && old(Tree(nodes))
    requires Forest(updated, grown)
    requires nodes <= grown
    requires |path| == |Parts(rows[i])| + 1
    requires updated == families[Family(rows[i]) := path[0]]
    requires Family(rows[i]) in families ==> path[0] == families[Family(rows[i])]
    requires forall n :: n in nodes ==> Extends(old(StateOf(n)), StateOf(n))
    requires OnPath(updated, grown, canon, rows[i], path)
    requires RowAdded(nodes, grown, canon, rows[i], path)
    ensures Built(updated, grown, canon, rows[..i + 1], paths + [path])
    ensures Content(grown, canon, rows[..i + 1], paths + [path])
  {
    RowBuilt(families, nodes, updated, grown, canon, rows, i, paths, path);
    RowContent(nodes, grown, canon, rows, i, paths, path);
  }

  twostate lemma RowBuilt(new families: map<string, OpeningNode>, new nodes: set<OpeningNode>,
                          new updated: map<string, OpeningNode>, new grown: set<OpeningNode>,
                          new canon: map<string, Canon>, new rows: seq<Row>, i: nat,
                          new paths: seq<seq<OpeningNode>>, new path: seq<OpeningNode>)
    requires old(allocated(families)) && old(allocated(nodes)) && old(allocated(paths))
    requires i < |rows| && |paths| == i && families.Keys == FamiliesOf(rows[..i])
    requires forall j :: 0 <= j < i ==> old(OnPath(families, nodes, canon, rows[..i][j], paths[j]))
    requires Forest(updated, grown)
    requires nodes <= grown
    requires |path| == |Parts(rows[i])| + 1
    requires updated == families[Family(rows[i]) := path[0]]
    requires Family(rows[i]) in families ==> path[0] == families[Family(rows[i])]
    requires forall n :: n in nodes ==> Extends(old(StateOf(n)), StateOf(n))
    requires OnPath(updated, grown, canon, rows[i], path)
    requires old(Tree(nodes)) && RowAdded(nodes, grown, canon, rows[i], path)
    ensures Built(updated, grown, canon, rows[..i + 1], paths + [path])
  {
    TreeKept(nodes, grown, rows[i], path);
    RowPaths(families, nodes, updated, grown, canon, rows[..i], paths, rows[i], path);
    BuiltExtend(updated, grown, canon, rows, i, paths, path);
  }

  /** The paths of the rows before the new one are still paths after it. */
  twostate lemma RowPaths(new families: map<string, OpeningNode>, new nodes: set<OpeningNode>,
                          new updated: map<string, OpeningNode>, new grown: set<OpeningNode>,
                          new canon: map<string, Canon>, new done: seq<Row>,
                          new paths: seq<seq<OpeningNode>>, new row: Row, new path: seq<OpeningNode>)
    requires old(allocated(families)) && old(allocated(nodes)) && old(allocated(paths))
    requires |paths| == |done| && families.Keys == FamiliesOf(done)
    requires forall j :: 0 <= j < |done| ==> old(OnPath(families, nodes, canon, done[j], paths[j]))
    requires nodes <= grown && path != []
    requires updated == families[Family(row) := path[0]]
    requires Family(row) in families ==> path[0] == families[Family(row)]
    requires forall n :: n in nodes ==> Extends(old(StateOf(n)), StateOf(n))
    ensures forall j :: 0 <= j < |done| ==> OnPath(updated, grown, canon, done[j], paths[j])
    ensures updated.Keys == FamiliesOf(done) + {Family(row)}
  {
    assert forall f :: f in families ==> f in updated && updated[f] == families[f];
    PathsKept(families, nodes, updated, grown, canon, done, paths);
  }

  twostate lemma RowContent(new nodes: set<OpeningNode>, new grown: set<OpeningNode>,
                            new canon: map<string, Canon>, new rows: seq<Row>, i: nat,
                            new paths: seq<seq<OpeningNode>>, new path: seq<OpeningNode>)
    requires old(allocated(nodes)) && old(allocated(paths))
    requires i < |rows|
    requires old(Content(nodes, canon, rows[..i], paths))
    requires nodes <= grown
    requires |path| == |Parts(rows[i])| + 1
    requires forall k :: 0 <= k < |path| ==> path[k] in grown && path[k].level == k
    requires RowAdded(nodes, grown, canon, rows[i], path)
    ensures Content(grown, canon, rows[..i + 1], paths + [path])
  {
    ContentKept(nodes, grown, canon, rows[..i], paths, rows[i], path);
    PrefixSnoc(rows, i);
  }

  /** Where a child entry of a node comes from after one row: it is the
      entry the node had, or the link of the row's path under a part the
      node lacked, which leads to a new node. */
  twostate lemma EntryOf(new nodes: set<OpeningNode>, new grown: set<OpeningNode>,
                         new row: Row, new path: seq<OpeningNode>,
                         new n: OpeningNode, k: string)
    requires old(allocated(nodes))
    requires |path| == |Parts(row)| + 1
    requires forall i :: 0 <= i < |path| ==> path[i] in grown && path[i].level == i
    requires forall i :: 0 <= i < |path| ==> path[i] in nodes ==> old(allocated(path[i]))
    requires forall m :: m in nodes ==> Extends(old(StateOf(m)), StateOf(m))
    requires RowLinked(nodes, grown, row, path)
    requires n in grown && k in n.children
    ensures || (n in nodes && k in old(n.children) && n.children[k] == old(n.children[k]))
            || (exists i :: && 0 <= i < |path| - 1 && n == path[i] && k == Parts(row)[i]
                            && n.children[k] == path[i + 1] && path[i + 1] !in nodes)
  {
    if n in nodes && k in old(n.children) {
      assert Extends(old(StateOf(n)), StateOf(n));
    } else if n !in path {
      assert false;
    } else {
      var i :| 0 <= i < |path| && path[i] == n;
      if i == |path| - 1 {
        assert false;
      } else {
        var prior := if n in nodes then old(n.children) else map[];
        assert n.children == prior[Parts(row)[i] := path[i + 1]];
        assert k == Parts(row)[i];
      }
    }
  }

  /** Adding one row keeps the family trees free of shared nodes. */
  twostate lemma TreeKept(new nodes: set<OpeningNode>, new grown: set<OpeningNode>,
                          new row: Row, new path: seq<OpeningNode>)
    requires old(allocated(nodes)) && old(Tree(nodes))
    requires |path| == |Parts(row)| + 1
    requires forall i :: 0 <= i < |path| ==> path[i] in grown && path[i].level == i
    requires forall i :: 0 <= i < |path| ==> path[i] in nodes ==> old(allocated(path[i]))
    requires nodes <= grown
    requires forall m :: m in nodes ==> Extends(old(StateOf(m)), StateOf(m))
    requires RowLinked(nodes, grown, row, path)
    ensures Tree(grown)
  {
    forall n, k | n in grown && k in n.children ensures n.children[k] in grown {
      EntryOf(nodes, grown, row, path, n, k);
    }
    forall n1, n2, k | && n1 in grown && n2 in grown && k in n1.children && k in n2.children
                       && n1.children[k] == n2.children[k]
      ensures n1 == n2
    {
      EntryOf(nodes, grown, row, path, n1, k);
      EntryOf(nodes, grown, row, path, n2, k);
      if n1 in nodes && k in old(n1.children) && n1.children[k] == old(n1.children[k]) {
        assert old(n1.children[k]) in nodes;
      }
      if n2 in nodes && k in old(n2.children) && n2.children[k] == old(n2.children[k]) {
        assert old(n2.children[k]) in nodes;
      }
    }
  }

  /** After the second pass every node holds the first shortest of the
      lines offered to it by the rows through it, in row order, with its
      SAN move count as its canonical length. */
  lemma NodeFirstShortest(families: map<string, OpeningNode>, nodes: set<OpeningNode>,
                          canon: map<string, Canon>, rows: seq<Row>, paths: seq<seq<OpeningNode>>,
                          n: OpeningNode)
    requires Built(families, nodes, canon, rows, paths) && Content(nodes, canon, rows, paths)
    requires n in nodes
    ensures n.canonicalLen.Some? && n.canonicalPgn.Some?
    ensures n.canonicalLen.value == SanCount(n.canonicalPgn.value)
    ensures exists k :: && FirstShortestAt(OfferedTo(canon, rows, paths, n), k)
                        && n.canonicalPgn.value == OfferedTo(canon, rows, paths, n)[k].pgn
  {
    var cs := OfferedTo(canon, rows, paths, n);
    assert Holds(canon, rows, paths, n);
    var j :| 0 <= j < |rows| && Through(paths[j], n);
    assert OnPath(families, nodes, canon, rows[j], paths[j]);
    OfferedToSome(canon, rows, paths, n, j);
    KeepAllFirstShortest(cs);
    OfferedCandidates(canon, rows, paths, n);
    var k :| FirstShortestAt(cs, k) && KeepAll(None, cs) == Some(cs[k]);
    assert cs[k] in cs;
  }

  /** Rows `j1` and `j2` share their path node at depth `k` exactly when
      they have the same family and the same first `k` parts: each family,
      and each run of parts below it, has a node of its own. */
  ghost predicate Addressed(rows: seq<Row>, paths: seq<seq<OpeningNode>>) {
    && |paths| == |rows|
    && forall j1, j2, k ::
         && 0 <= j1 < |rows| && 0 <= j2 < |rows|
         && 0 <= k < |paths[j1]| && k < |paths[j2]|
         && k <= |Parts(rows[j1])| && k <= |Parts(rows[j2])|
         ==> (paths[j1][k] == paths[j2][k]
              <==> Family(rows[j1]) == Family(rows[j2]) && Parts(rows[j1])[..k] == Parts(rows[j2])[..k])
  }

  /** In a forest whose trees share no node, two rows' paths meet at
      depth `k` exactly when the rows agree on the family and the first
      `k` parts. */
  lemma {:induction false} SharedNode(families: map<string, OpeningNode>, nodes: set<OpeningNode>,
                                      canon: map<string, Canon>, r1: Row, p1: seq<OpeningNode>,
                                      r2: Row, p2: seq<OpeningNode>, k: nat)
    requires forall f :: f in families ==> families[f].key == f
    requires forall n, key :: n in nodes && key in n.children ==> n.children[key].key == key
    requires Tree(nodes)
    requires OnPath(families, nodes, canon, r1, p1) && OnPath(families, nodes, canon, r2, p2)
    requires k <= |Parts(r1)| && k <= |Parts(r2)|
    ensures p1[k] == p2[k] <==> Family(r1) == Family(r2) && Parts(r1)[..k] == Parts(r2)[..k]
    decreases k
  {
    if k > 0 {
      SharedNode(families, nodes, canon, r1, p1, r2, p2, k - 1);
      var a1, a2 := Parts(r1), Parts(r2);
      PrefixSnoc(a1, k - 1);
      PrefixSnoc(a2, k - 1);
      assert p1[k] == p1[k - 1].children[a1[k - 1]];
      assert p2[k] == p2[k - 1].children[a2[k - 1]];
      if p1[k] == p2[k] {
        assert a1[k - 1] == p1[k].key == a2[k - 1];
        assert p1[k - 1] == p2[k - 1];
      }
    } else if p1[0] == p2[0] {
      assert Family(r1) == p1[0].key == Family(r2);
    }
  }

  lemma PathsAddressed(families: map<string, OpeningNode>, nodes: set<OpeningNode>,
                       canon: map<string, Canon>, rows: seq<Row>, paths: seq<seq<OpeningNode>>)
    requires Built(families, nodes, canon, rows, paths)
    ensures Addressed(rows, paths)
  {
    forall j1, j2, k | && 0 <= j1 < |rows| && 0 <= j2 < |rows|
                       && 0 <= k < |paths[j1]| && k < |paths[j2]|
                       && k <= |Parts(rows[j1])| && k <= |Parts(rows[j2])|
      ensures paths[j1][k] == paths[j2][k]
              <==> Family(rows[j1]) == Family(rows[j2]) && Parts(rows[j1])[..k] == Parts(rows[j2])[..k]
    {
      assert OnPath(families, nodes, canon, rows[j1], paths[j1]);
      assert OnPath(families, nodes, canon, rows[j2], paths[j2]);
      SharedNode(families, nodes, canon, rows[j1], paths[j1], rows[j2], paths[j2], k);
    }
  }

  /** The second pass of `build_hierarchy`: every row is added in turn
      with `canon` as `canonical_by_name`. */
  method SecondPass(rows: seq<Row>, canon: map<string, Canon>)
    returns (families: map<string, OpeningNode>, ghost nodes: set<OpeningNode>,
             ghost paths: seq<seq<OpeningNode>>)
    ensures fresh(nodes)
    ensures Built(families, nodes, canon, rows, paths)
    ensures Content(nodes, canon, rows, paths)
  {
    families := map[];
    nodes := {};
    paths := [];
    for i := 0 to |rows|
      invariant fresh(nodes)
      invariant Built(families, nodes, canon, rows[..i], paths)
      invariant Content(nodes, canon, rows[..i], paths)
    {
      families, nodes, paths := AddKept(families, nodes, canon, rows, i, paths);
    }
    assert rows[..|rows|] == rows;
  }

  /** `build_hierarchy(rows)`: the first pass computes `canonical_by_name`,
      the second adds every row. Afterwards the families are exactly the
      rows' family labels, each a level-0 root, every row has its path, one
      node deeper per variation part, two rows share a node exactly where
      they share the family and the parts above it (`Addressed`), and every
      node is what the rows through it made of it (`Content`). */
  method BuildHierarchy(rows: seq<Row>)
    returns (families: map<string, OpeningNode>, ghost nodes: set<OpeningNode>,
             ghost paths: seq<seq<OpeningNode>>)
    ensures fresh(nodes)
    ensures Built(families, nodes, CanonicalMap(rows), rows, paths)
    ensures Content(nodes, CanonicalMap(rows), rows, paths)
    ensures Addressed(rows, paths)
  {
    var canon := CanonicalByName(rows);
    families, nodes, paths := SecondPass(rows, canon);
    PathsAddressed(families, nodes, canon, rows, paths);
  }
}
