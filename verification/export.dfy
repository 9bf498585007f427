/** The two outputs `main` writes from the family map: the JSON document
    (`to_dict()` of every family, families in ascending order) and the
    flat CSV table, one row per node, produced by a depth-first walk with
    an explicit stack. */
module Export {
  import opened Text
  import opened Order
  import opened Canonical
  import opened Openings
  import opened Hierarchy

  /** Every child of a node in `nodes` is in `nodes`, sits under its own
      label and is one level deeper than its parent. */
  ghost predicate Closed(nodes: set<OpeningNode>)
    reads nodes
  {
    forall n, k :: n in nodes && k in n.children ==>
      n.children[k] in nodes && n.children[k].key == k && n.children[k].level == n.level + 1
  }

  /** Every family root is in `nodes`, at level 0, with its family label
      as its label and full name. */
  ghost predicate Families(families: map<string, OpeningNode>, nodes: set<OpeningNode>) {
    forall f :: f in families ==>
      families[f] in nodes && families[f].level == 0 && families[f].key == f && families[f].fullName == f
  }

  lemma ForestClosed(families: map<string, OpeningNode>, nodes: set<OpeningNode>)
    requires Forest(families, nodes)
    ensures Closed(nodes) && Families(families, nodes)
  {
  }

  /** The nodes of `nodes` at `level` or deeper; it shrinks on every step
      from a node to its child, which bounds the recursion below. */
  ghost function Deeper(nodes: set<OpeningNode>, level: int): set<OpeningNode> {
    set n | n in nodes && n.level >= level
  }

  /** The value `to_dict()` returns; an unset `canonical_pgn` is JSON
      `null`. */
  datatype NodeDict = NodeDict(key: string, fullName: string, level: int,
                               ecoCodes: seq<string>, canonicalPgn: Option<string>,
                               children: seq<NodeDict>)

  function Labels(ds: seq<NodeDict>): seq<string> {
    seq(|ds|, i requires 0 <= i < |ds| => ds[i].key)
  }

  /** `n.to_dict()`: the ECO codes in ascending order, and the children's
      dictionaries in ascending order of their labels, each label once. */
  ghost function ToDict(nodes: set<OpeningNode>, n: OpeningNode): (d: NodeDict)
    requires Closed(nodes) && n in nodes
    reads nodes
    decreases Deeper(nodes, n.level), 1
    ensures d.key == n.key && d.fullName == n.fullName && d.level == n.level
    ensures d.canonicalPgn == n.canonicalPgn
  {
    NodeDict(n.key, n.fullName, n.level, SortedKeys(n.ecoCodes), n.canonicalPgn,
             ChildDicts(nodes, n, SortedKeys(n.children.Keys)))
  }

  /** The dictionaries of the children of `n` under the keys `ks`, in
      that order. */
  ghost function ChildDicts(nodes: set<OpeningNode>, n: OpeningNode, ks: seq<string>): (ds: seq<NodeDict>)
    requires Closed(nodes) && n in nodes
    requires forall k :: k in ks ==> k in n.children
    reads nodes
    decreases Deeper(nodes, n.level), 0, |ks|
    ensures Labels(ds) == ks
  {
    if ks == [] then []
    else
      assert n in Deeper(nodes, n.level) && n !in Deeper(nodes, n.level + 1);
      [ToDict(nodes, n.children[ks[0]])] + ChildDicts(nodes, n, ks[1..])
  }

  /** `to_dict()` lists the ECO codes in ascending order and the children
      in ascending order of their labels, each code and each child once. */
  lemma ToDictSorted(nodes: set<OpeningNode>, n: OpeningNode)
    requires Closed(nodes) && n in nodes
    ensures Ascending(ToDict(nodes, n).ecoCodes)
    ensures forall e :: e in ToDict(nodes, n).ecoCodes <==> e in n.ecoCodes
    ensures Ascending(Labels(ToDict(nodes, n).children))
    ensures forall k :: k in Labels(ToDict(nodes, n).children) <==> k in n.children
  {
    SortedKeysSpec(n.ecoCodes);
    SortedKeysSpec(n.children.Keys);
  }

  /** Every child dictionary is one level below its parent, all the way
      down. */
  ghost predicate Leveled(d: NodeDict) {
    forall c :: c in d.children ==> c.level == d.level + 1 && Leveled(c)
  }

  lemma {:induction false} ToDictLeveled(nodes: set<OpeningNode>, n: OpeningNode)
    requires Closed(nodes) && n in nodes
    ensures Leveled(ToDict(nodes, n))
    decreases Deeper(nodes, n.level), 1
  {
    SortedKeysSpec(n.children.Keys);
    ChildDictsLeveled(nodes, n, SortedKeys(n.children.Keys));
  }

  lemma {:induction false} ChildDictsLeveled(nodes: set<OpeningNode>, n: OpeningNode, ks: seq<string>)
    requires Closed(nodes) && n in nodes
    requires forall k :: k in ks ==> k in n.children
    ensures forall c :: c in ChildDicts(nodes, n, ks) ==> c.level == n.level + 1 && Leveled(c)
    decreases Deeper(nodes, n.level), 0, |ks|
  {
    if ks != [] {
      assert n in Deeper(nodes, n.level) && n !in Deeper(nodes, n.level + 1);
      ToDictLeveled(nodes, n.children[ks[0]]);
      ChildDictsLeveled(nodes, n, ks[1..]);
    }
  }

  /** A row of the flat table: full name, level, family, label, the ECO
      codes joined by `|` in ascending order, and the canonical line or
      `""` when there is none. */
  datatype FlatRow = FlatRow(fullName: string, level: int, family: string, key: string,
                             ecoCodes: string, canonicalPgn: string)

  /** The table's header row. */
  const Header: seq<string> := ["full_name", "level", "family", "label", "eco_codes", "canonical_pgn"]

  /** The row written for a node of the family `family`. */
  function RowOf(d: NodeDict, family: string): (r: FlatRow)
    ensures r.canonicalPgn == "" <==> d.canonicalPgn.None? || d.canonicalPgn.value == ""
  {
    FlatRow(d.fullName, d.level, family, d.key, Join(d.ecoCodes, "|"),
            if d.canonicalPgn.Some? then d.canonicalPgn.value else "")
  }

  /** The ECO codes cell splits back at `|` into the node's codes, when
      there is at least one code and none contains a `|`. */
  lemma EcoCellRoundTrip(d: NodeDict, family: string)
    requires d.ecoCodes != []
    requires forall k :: 0 <= k < |d.ecoCodes| ==> '|' !in d.ecoCodes[k]
    ensures SplitOn(RowOf(d, family).ecoCodes, '|') == d.ecoCodes
  {
    SplitOnJoin(d.ecoCodes, '|');
  }

  /** The rows of a tree in preorder, children in the order listed. */
  function Flatten(d: NodeDict, family: string): seq<FlatRow>
    decreases d, 1
  {
    [RowOf(d, family)] + FlattenAll(d.children, family)
  }

  function FlattenAll(ds: seq<NodeDict>, family: string): seq<FlatRow>
    decreases ds, 0
  {
    if ds == [] then [] else Flatten(ds[0], family) + FlattenAll(ds[1..], family)
  }

  /** The rows a stack still owes: the subtree on top of it first. */
  ghost function Pending(nodes: set<OpeningNode>, stack: seq<OpeningNode>, family: string): seq<FlatRow>
    requires Closed(nodes) && Within(stack, nodes)
    reads nodes
  {
    if stack == [] then []
    else Flatten(ToDict(nodes, stack[|stack| - 1]), family) + Pending(nodes, stack[..|stack| - 1], family)
  }

  ghost predicate Within(stack: seq<OpeningNode>, nodes: set<OpeningNode>) {
    forall i :: 0 <= i < |stack| ==> stack[i] in nodes
  }

  lemma AppendAssociative<T>(a: seq<T>, b: seq<T>, c: seq<T>)
    ensures a + (b + c) == (a + b) + c
  {
  }

  lemma PendingPush(nodes: set<OpeningNode>, stack: seq<OpeningNode>, c: OpeningNode, family: string)
    requires Closed(nodes) && Within(stack, nodes) && c in nodes
    ensures Within(stack + [c], nodes)
    ensures Pending(nodes, stack + [c], family) == Flatten(ToDict(nodes, c), family) + Pending(nodes, stack, family)
  {
    assert (stack + [c])[..|stack|] == stack;
  }

  lemma FlattenChildDicts(nodes: set<OpeningNode>, node: OpeningNode, ks: seq<string>, j: nat, family: string)
    requires Closed(nodes) && node in nodes
    requires forall k :: k in ks ==> k in node.children
    requires j < |ks|
    ensures FlattenAll(ChildDicts(nodes, node, ks[j..]), family)
            == Flatten(ToDict(nodes, node.children[ks[j]]), family)
               + FlattenAll(ChildDicts(nodes, node, ks[j + 1..]), family)
  {
    assert ks[j..][1..] == ks[j + 1..];
  }

  lemma WithinPop(stack: seq<OpeningNode>, nodes: set<OpeningNode>)
    requires Within(stack, nodes) && stack != []
    ensures Within(stack[..|stack| - 1], nodes) && stack[|stack| - 1] in nodes
  {
  }

  /** Pushing the child under `ks[j]` extends what the stack owes by that
      child's rows, in front. */
  lemma PushStep(nodes: set<OpeningNode>, node: OpeningNode, ks: seq<string>, j: nat,
                 stack: seq<OpeningNode>, pushed: seq<OpeningNode>, family: string)
    requires Closed(nodes) && node in nodes && Within(stack, nodes) && Within(pushed, nodes)
    requires forall k :: k in ks ==> k in node.children
    requires j < |ks|
    requires Pending(nodes, pushed, family)
             == FlattenAll(ChildDicts(nodes, node, ks[j + 1..]), family) + Pending(nodes, stack, family)
    ensures Within(pushed + [node.children[ks[j]]], nodes)
    ensures Pending(nodes, pushed + [node.children[ks[j]]], family)
            == FlattenAll(ChildDicts(nodes, node, ks[j..]), family) + Pending(nodes, stack, family)
  {
    var child := node.children[ks[j]];
    PendingPush(nodes, pushed, child, family);
    FlattenChildDicts(nodes, node, ks, j, family);
    AppendAssociative(Flatten(ToDict(nodes, child), family),
                      FlattenAll(ChildDicts(nodes, node, ks[j + 1..]), family), Pending(nodes, stack, family));
  }

  /** Popping `node` and pushing its children leaves the stack owing what
      it owed, less the node's own row. */
  lemma PopStep(nodes: set<OpeningNode>, stack: seq<OpeningNode>, pushed: seq<OpeningNode>,
                family: string, done: seq<FlatRow>, all: seq<FlatRow>)
    requires Closed(nodes) && Within(stack, nodes) && stack != []
    requires Within(stack[..|stack| - 1], nodes) && Within(pushed, nodes)
    requires done + Pending(nodes, stack, family) == all
    requires Pending(nodes, pushed, family)
             == FlattenAll(ToDict(nodes, stack[|stack| - 1]).children, family)
                + Pending(nodes, stack[..|stack| - 1], family)
    ensures (done + [RowOf(ToDict(nodes, stack[|stack| - 1]), family)]) + Pending(nodes, pushed, family) == all
  {
    var d := ToDict(nodes, stack[|stack| - 1]);
    var below := Pending(nodes, stack[..|stack| - 1], family);
    AppendAssociative([RowOf(d, family)], FlattenAll(d.children, family), below);
    AppendAssociative(done, [RowOf(d, family)], FlattenAll(d.children, family) + below);
  }

  /** `for _, child in sorted(node.children.items(), reverse=True):
      stack.append(child)`: the children go on in descending label order,
      so the stack then owes the rows of the children's trees in ascending
      order, before what it owed already. */
  method PushChildren(ghost nodes: set<OpeningNode>, stack: seq<OpeningNode>, node: OpeningNode,
                      family: string)
    returns (pushed: seq<OpeningNode>)
    requires Closed(nodes) && node in nodes && Within(stack, nodes)
    ensures Within(pushed, nodes)
    ensures Pending(nodes, pushed, family)
            == FlattenAll(ToDict(nodes, node).children, family) + Pending(nodes, stack, family)
  {
    var ks := SortLabels(node.children.Keys);
    SortedKeysSpec(node.children.Keys);
    pushed := stack;
    var j := |ks|;
    while j > 0
      invariant 0 <= j <= |ks|
      invariant Within(pushed, nodes)
      invariant Pending(nodes, pushed, family)
                == FlattenAll(ChildDicts(nodes, node, ks[j..]), family) + Pending(nodes, stack, family)
    {
      j := j - 1;
      PushStep(nodes, node, ks, j, stack, pushed, family);
      pushed := pushed + [node.children[ks[j]]];
    }
  }

  /** The row `main` writes for `node`. */
  method WriteRow(ghost nodes: set<OpeningNode>, node: OpeningNode, family: string) returns (row: FlatRow)
    requires Closed(nodes) && node in nodes
    ensures row == RowOf(ToDict(nodes, node), family)
  {
    var codes := SortLabels(node.ecoCodes);
    row := FlatRow(node.fullName, node.level, family, node.key, Join(codes, "|"),
                   if node.canonicalPgn.Some? then node.canonicalPgn.value else "");
  }

  /** The walk over one family: pop a node, write its row, push its
      children in descending label order so that they are popped in
      ascending order. The rows are the preorder of the family's
      `to_dict()` tree, which lists children in ascending label order. */
  method FlattenFamily(ghost nodes: set<OpeningNode>, root: OpeningNode, family: string)
    returns (rows: seq<FlatRow>)
    requires Closed(nodes) && root in nodes
    ensures rows == Flatten(ToDict(nodes, root), family)
  {
    ghost var all := Flatten(ToDict(nodes, root), family);
    rows := [];
    var stack := [root];
    while stack != []
      invariant Within(stack, nodes)
      invariant rows + Pending(nodes, stack, family) == all
      decreases |all| - |rows|
    {
      WithinPop(stack, nodes);
      var node := stack[|stack| - 1];
      var row := WriteRow(nodes, node, family);
      var pushed := PushChildren(nodes, stack[..|stack| - 1], node, family);
      PopStep(nodes, stack, pushed, family, rows, all);
      rows := rows + [row];
      stack := pushed;
    }
  }

  /** The whole table: the families in ascending order of their labels,
      each as the preorder of its tree. */
  ghost function FlatFamilies(families: map<string, OpeningNode>, nodes: set<OpeningNode>,
                              ks: seq<string>): seq<FlatRow>
    requires Closed(nodes) && Families(families, nodes)
    requires forall k :: k in ks ==> k in families
    reads nodes
  {
    if ks == [] then []
    else FlatFamilies(families, nodes, ks[..|ks| - 1])
         + Flatten(ToDict(nodes, families[ks[|ks| - 1]]), ks[|ks| - 1])
  }

  lemma FlatFamiliesStep(families: map<string, OpeningNode>, nodes: set<OpeningNode>,
                         ks: seq<string>, i: nat)
    requires Closed(nodes) && Families(families, nodes)
    requires forall k :: k in ks ==> k in families
    requires i < |ks|
    ensures FlatFamilies(families, nodes, ks[..i + 1])
            == FlatFamilies(families, nodes, ks[..i]) + Flatten(ToDict(nodes, families[ks[i]]), ks[i])
  {
    assert ks[..i + 1][..i] == ks[..i];
  }

  ghost function FlatTable(families: map<string, OpeningNode>, nodes: set<OpeningNode>): seq<FlatRow>
    requires Forest(families, nodes)
    reads nodes
  {
    ForestClosed(families, nodes);
    FlatFamilies(families, nodes, SortedKeys(families.Keys))
  }

  /** The CSV rows `main` writes after the header. */
  method WriteFlat(families: map<string, OpeningNode>, ghost nodes: set<OpeningNode>)
    returns (rows: seq<FlatRow>)
    requires Forest(families, nodes)
    ensures rows == FlatTable(families, nodes)
  {
    ForestClosed(families, nodes);
    var ks := SortLabels(families.Keys);
    rows := WriteFamilies(families, nodes, ks);
  }

  method WriteFamilies(families: map<string, OpeningNode>, ghost nodes: set<OpeningNode>, ks: seq<string>)
    returns (rows: seq<FlatRow>)
    requires Closed(nodes) && Families(families, nodes)
    requires forall k :: k in ks ==> k in families
    ensures rows == FlatFamilies(families, nodes, ks)
  {
    rows := [];
    for i := 0 to |ks|
      invariant rows == FlatFamilies(families, nodes, ks[..i])
    {
      var block := FlattenFamily(nodes, families[ks[i]], ks[i]);
      FlatFamiliesStep(families, nodes, ks, i);
      rows := rows + block;
    }
    assert ks[..|ks|] == ks;
  }

  /** A family's block starts with the family's own row; every row after
      it is deeper, and all carry the family's label. */
  lemma {:induction false} FlattenShape(d: NodeDict, family: string)
    requires Leveled(d)
    ensures Flatten(d, family)[0] == RowOf(d, family)
    ensures forall i :: 1 <= i < |Flatten(d, family)| ==> Flatten(d, family)[i].level > d.level
    ensures forall r :: r in Flatten(d, family) ==> r.family == family
    decreases d, 1
  {
    FlattenAllShape(d.children, d.level + 1, family);
  }

  lemma {:induction false} FlattenAllShape(ds: seq<NodeDict>, level: int, family: string)
    requires forall c :: c in ds ==> c.level == level && Leveled(c)
    ensures forall r :: r in FlattenAll(ds, family) ==> r.level >= level && r.family == family
    decreases ds, 0
  {
    if ds != [] {
      FlattenShape(ds[0], family);
      FlattenAllShape(ds[1..], level, family);
    }
  }

  /** The rows' family labels never decrease: each family's rows form one
      block, and the blocks come in ascending order. */
  ghost predicate FamiliesAscending(rows: seq<FlatRow>) {
    forall i, j :: 0 <= i < j < |rows| ==>
      rows[i].family == rows[j].family || Below(rows[i].family, rows[j].family)
  }

  /** Every level-0 row is a family's own row. */
  ghost predicate RootRows(rows: seq<FlatRow>) {
    forall r :: r in rows && r.level == 0 ==> r.key == r.family && r.fullName == r.family
  }

  lemma AscendingAppend(head: seq<FlatRow>, block: seq<FlatRow>, f: string)
    requires FamiliesAscending(head)
    requires forall r :: r in head ==> Below(r.family, f)
    requires forall r :: r in block ==> r.family == f
    ensures FamiliesAscending(head + block)
  {
    var all := head + block;
    forall i, j | 0 <= i < j < |all|
      ensures all[i].family == all[j].family || Below(all[i].family, all[j].family)
    {
      if j < |head| {
        assert all[i] == head[i] && all[j] == head[j];
      } else if i < |head| {
        assert all[i] == head[i] && all[j] == block[j - |head|];
      } else {
        assert all[i] == block[i - |head|] && all[j] == block[j - |head|];
      }
    }
  }

  /** A family's block, for a root at level 0 labelled and named by the
      family, has the family's own row as its only level-0 row. */
  lemma BlockRootRows(d: NodeDict, f: string)
    requires Leveled(d) && d.level == 0 && d.key == f && d.fullName == f
    ensures RootRows(Flatten(d, f))
    ensures forall r :: r in Flatten(d, f) ==> r.family == f
  {
    FlattenShape(d, f);
    var block := Flatten(d, f);
    forall r | r in block && r.level == 0 ensures r.key == r.family && r.fullName == r.family {
      var i :| 0 <= i < |block| && block[i] == r;
      assert i == 0;
    }
  }

  lemma {:induction false} FlatFamiliesShape(families: map<string, OpeningNode>, nodes: set<OpeningNode>,
                                             ks: seq<string>)
    requires Closed(nodes) && Families(families, nodes)
    requires forall k :: k in ks ==> k in families
    requires Ascending(ks)
    ensures forall r :: r in FlatFamilies(families, nodes, ks) ==> r.family in ks
    ensures FamiliesAscending(FlatFamilies(families, nodes, ks))
    ensures RootRows(FlatFamilies(families, nodes, ks))
    decreases |ks|
  {
    if ks != [] {
      var front := ks[..|ks| - 1];
      var f := ks[|ks| - 1];
      assert Ascending(front);
      FlatFamiliesShape(families, nodes, front);
      var d := ToDict(nodes, families[f]);
      ToDictLeveled(nodes, families[f]);
      BlockRootRows(d, f);
      var head := FlatFamilies(families, nodes, front);
      forall r | r in head ensures Below(r.family, f) {
        var k :| 0 <= k < |front| && front[k] == r.family;
        assert ks[k] == r.family;
      }
      AscendingAppend(head, Flatten(d, f), f);
    }
  }

  /** The table lists the families in ascending order, each in one
      contiguous block, and the only level-0 rows are the families' own,
      whose label and full name are the family label. */
  lemma FlatTableShape(families: map<string, OpeningNode>, nodes: set<OpeningNode>)
    requires Forest(families, nodes)
    ensures forall r :: r in FlatTable(families, nodes) ==> r.family in families
    ensures FamiliesAscending(FlatTable(families, nodes))
    ensures RootRows(FlatTable(families, nodes))
  {
    ForestClosed(families, nodes);
    SortedKeysSpec(families.Keys);
    FlatFamiliesShape(families, nodes, SortedKeys(families.Keys));
  }

  /** The entries `(k, to_dict())` for the families `ks`, in that order. */
  ghost function Entries(families: map<string, OpeningNode>, nodes: set<OpeningNode>, ks: seq<string>)
    : (es: seq<(string, NodeDict)>)
    requires Closed(nodes) && Families(families, nodes)
    requires forall k :: k in ks ==> k in families
    reads nodes
    ensures |es| == |ks|
    ensures forall i :: 0 <= i < |ks| ==>
              es[i].0 == ks[i] && es[i].1.key == ks[i] && es[i].1.fullName == ks[i] && es[i].1.level == 0
  {
    if ks == [] then []
    else [(ks[0], ToDict(nodes, families[ks[0]]))] + Entries(families, nodes, ks[1..])
  }

  /** The JSON document: `{label: to_dict()}` for every family, in
      ascending order of the labels. */
  ghost function Document(families: map<string, OpeningNode>, nodes: set<OpeningNode>)
    : (doc: seq<(string, NodeDict)>)
    requires Forest(families, nodes)
    reads nodes
    ensures forall i, j :: 0 <= i < j < |doc| ==> Below(doc[i].0, doc[j].0)
    ensures forall f :: f in families <==> exists i :: 0 <= i < |doc| && doc[i].0 == f
    ensures forall i :: 0 <= i < |doc| ==>
              doc[i].1.key == doc[i].0 && doc[i].1.fullName == doc[i].0 && doc[i].1.level == 0
  {
    ForestClosed(families, nodes);
    SortedKeysSpec(families.Keys);
    Entries(families, nodes, SortedKeys(families.Keys))
  }
}
