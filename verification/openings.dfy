/** A node of the opening tree (`OpeningNode`): a family at level 0, a
    variation one level below its parent. `ensure_child` and
    `update_canonical` change a node in place. */
module Openings {
  import opened Pgn
  import opened Canonical

  /** The `full_name` `ensure_child` gives a new child labelled `key`:
      a child of a family root (level 0, full name equal to its label) is
      named by its label alone; otherwise the parent's full name, `": "`
      and the label, or the label alone under a parent with an empty full
      name. */
  function ChildFullName(parentLevel: int, parentFullName: string, parentLabel: string,
                         key: string): (r: string)
    ensures |key| <= |r| && r[|r| - |key|..] == key
    ensures r == key <==> (parentLevel == 0 && parentFullName == parentLabel) || parentFullName == ""
    ensures r != key ==> r == parentFullName + ": " + key
  {
    if parentLevel == 0 && parentFullName == parentLabel then key
    else if parentFullName != "" then parentFullName + ": " + key
    else key
  }

  /** A `(canonical_len, canonical_pgn)` pair as a kept line, if both are
      set. */
  function KeptPair(len: Option<nat>, pgn: Option<string>): Option<Canon> {
    if len.Some? && pgn.Some? then Some(Canon(len.value, pgn.value)) else None
  }

  /** The mutable part of a node, as a value. */
  datatype NodeState = NodeState(children: map<string, OpeningNode>, ecoCodes: set<string>,
                                 canonicalLen: Option<nat>, canonicalPgn: Option<string>)

  function StateOf(n: OpeningNode): NodeState
    reads n
  {
    NodeState(n.children, n.ecoCodes, n.canonicalLen, n.canonicalPgn)
  }

  class OpeningNode {
    /** The source's `label` (a keyword here): the key the node sits under
        in its parent's children or in the family map. */
    const key: string
    const fullName: string
    /** 0 for a family, 1 for a variation, and so on. */
    const level: int
    var ecoCodes: set<string>
    var canonicalPgn: Option<string>
    var canonicalLen: Option<nat>
    var children: map<string, OpeningNode>

    /** A fresh node: no ECO codes, no canonical line, no children. */
    constructor (key: string, fullName: string, level: int)
      ensures this.key == key && this.fullName == fullName && this.level == level
      ensures ecoCodes == {} && canonicalPgn == None && canonicalLen == None
      ensures children == map[]
    {
      this.key := key;
      this.fullName := fullName;
      this.level := level;
      ecoCodes := {};
      canonicalPgn := None;
      canonicalLen := None;
      children := map[];
    }

    /** The canonical line and its length are set together or not at all. */
    predicate Paired()
      reads this`canonicalLen, this`canonicalPgn
    {
      canonicalLen.Some? <==> canonicalPgn.Some?
    }

    /** The kept `(canonical_len, canonical_pgn)` pair, if any. */
    function Kept(): Option<Canon>
      reads this`canonicalLen, this`canonicalPgn
    {
      KeptPair(canonicalLen, canonicalPgn)
    }

    /** `ensure_child(self, key)`: the child under `key`, created with
        the derived full name and the next level when there is none yet.
        An existing child is returned and nothing changes; otherwise
        exactly one entry is added and the other children stay. */
    method EnsureChild(key: string) returns (child: OpeningNode)
      modifies this`children
      ensures key in old(children) ==> children == old(children) && child == old(children)[key]
      ensures key !in old(children) ==>
                && fresh(child)
                && children == old(children)[key := child]
                && child.key == key
                && child.level == level + 1
                && child.fullName == ChildFullName(level, fullName, this.key, key)
                && child.ecoCodes == {} && child.canonicalPgn == None && child.canonicalLen == None
                && child.children == map[]
      ensures key in children && children[key] == child
    {
      if key !in children {
        var name := ChildFullName(level, fullName, this.key, key);
        var node := new OpeningNode(key, name, level + 1);
        children := children[key := node];
      }
      child := children[key];
    }

    /** `update_canonical(self, eco, pgn)`: `eco` joins the ECO codes, and
        the line replaces the kept one only when none is kept or it has
        strictly fewer SAN moves, so the kept length never grows and ties
        keep the earlier line. */
    method UpdateCanonical(eco: string, pgn: string)
      modifies this`ecoCodes, this`canonicalLen, this`canonicalPgn
      ensures ecoCodes == old(ecoCodes) + {eco}
      ensures if old(canonicalLen).None? || SanCount(pgn) < old(canonicalLen).value
              then canonicalLen == Some(SanCount(pgn)) && canonicalPgn == Some(pgn)
              else canonicalLen == old(canonicalLen) && canonicalPgn == old(canonicalPgn)
      ensures canonicalLen.Some? && canonicalLen.value <= SanCount(pgn)
      ensures old(canonicalLen).Some? ==> canonicalLen.value <= old(canonicalLen).value
      ensures old(Paired()) ==> Paired() && Kept() == Keep(old(Kept()), Candidate(pgn))
    {
      var moveCount := CountSanMoves(pgn);
      ecoCodes := ecoCodes + {eco};
      if canonicalLen.None? || moveCount < canonicalLen.value {
        canonicalLen := Some(moveCount);
        canonicalPgn := Some(pgn);
      }
    }
  }
}
