/** The canonical line of a name: the PGN with the fewest SAN moves, the
    earliest one winning ties (the first pass of `build_hierarchy`, and the
    rule `update_canonical` applies to each node). */
module Canonical {
  import opened Pgn

  datatype Option<T> = None | Some(value: T)

  /** One opening row: ECO code, opening name, PGN. */
  datatype Row = Row(eco: string, name: string, pgn: string)

  /** The `(moves, pgn)` pair kept per name. */
  datatype Canon = Canon(moves: nat, pgn: string)

  /** A line as a candidate: its SAN move count and its text. */
  function Candidate(pgn: string): (c: Canon)
    ensures c.pgn == pgn && c.moves == SanCount(pgn)
  {
    Canon(SanCount(pgn), pgn)
  }

  /** The keep rule: a new line replaces the kept one only when nothing is
      kept yet or it has strictly fewer moves. */
  function Keep(cur: Option<Canon>, c: Canon): (r: Option<Canon>)
    ensures r == Some(c) || r == cur
    ensures r.Some? && r.value.moves <= c.moves
    ensures cur.Some? ==> r.value.moves <= cur.value.moves
    ensures cur.Some? && r == Some(c) && c != cur.value ==> c.moves < cur.value.moves
  {
    if cur.None? || c.moves < cur.value.moves then Some(c) else cur
  }

  /** The keep rule applied to each candidate of `cs` in turn. */
  function KeepAll(cur: Option<Canon>, cs: seq<Canon>): Option<Canon>
    decreases |cs|
  {
    if cs == [] then cur else Keep(KeepAll(cur, cs[..|cs| - 1]), cs[|cs| - 1])
  }

  /** Position `k` holds a shortest candidate of `cs`, and no earlier
      position holds one as short. */
  ghost predicate FirstShortestAt(cs: seq<Canon>, k: int) {
    && 0 <= k < |cs|
    && (forall j :: 0 <= j < |cs| ==> cs[k].moves <= cs[j].moves)
    && (forall j :: 0 <= j < k ==> cs[k].moves < cs[j].moves)
  }

  lemma FirstShortestExtend(cs: seq<Canon>, k: int, c: Canon)
    requires FirstShortestAt(cs, k)
    ensures c.moves < cs[k].moves ==> FirstShortestAt(cs + [c], |cs|)
    ensures c.moves >= cs[k].moves ==> FirstShortestAt(cs + [c], k)
  {
    var ext := cs + [c];
    assert forall j :: 0 <= j < |cs| ==> ext[j] == cs[j];
  }

  /** Folding the keep rule over a non-empty list of candidates selects
      the first shortest one. */
  lemma {:induction false} KeepAllFirstShortest(cs: seq<Canon>)
    requires cs != []
    ensures exists k :: FirstShortestAt(cs, k) && KeepAll(None, cs) == Some(cs[k])
    decreases |cs|
  {
    var n := |cs|;
    var front := cs[..n - 1];
    assert cs == front + [cs[n - 1]];
    if front == [] {
      assert KeepAll(None, front) == None;
      assert KeepAll(None, cs) == Some(cs[0]);
      assert FirstShortestAt(cs, 0);
    } else {
      KeepAllFirstShortest(front);
      var k :| FirstShortestAt(front, k) && KeepAll(None, front) == Some(front[k]);
      FirstShortestExtend(front, k, cs[n - 1]);
      if cs[n - 1].moves < front[k].moves {
        assert FirstShortestAt(cs, n - 1);
      } else {
        assert FirstShortestAt(cs, k) && cs[k] == front[k];
      }
    }
  }

  /** The lines of the rows named `name`, in row order, as candidates. */
  function PgnsNamed(rows: seq<Row>, name: string): seq<Canon>
    decreases |rows|
  {
    if rows == [] then []
    else
      var front := PgnsNamed(rows[..|rows| - 1], name);
      if rows[|rows| - 1].name == name then front + [Candidate(rows[|rows| - 1].pgn)] else front
  }

  /** `canonical_by_name` after the first pass over `rows`. */
  function CanonicalMap(rows: seq<Row>): map<string, Canon>
    decreases |rows|
  {
    if rows == [] then map[]
    else
      var m := CanonicalMap(rows[..|rows| - 1]);
      var r := rows[|rows| - 1];
      var cur := if r.name in m then Some(m[r.name]) else None;
      m[r.name := Keep(cur, Candidate(r.pgn)).value]
  }

  /** Each entry of the first-pass map is the keep rule folded over that
      name's rows, and the keys are exactly the names that occur. */
  lemma {:induction false} CanonicalMapFold(rows: seq<Row>, name: string)
    ensures name in CanonicalMap(rows) <==> PgnsNamed(rows, name) != []
    ensures name in CanonicalMap(rows) ==>
              Some(CanonicalMap(rows)[name]) == KeepAll(None, PgnsNamed(rows, name))
    decreases |rows|
  {
    if rows != [] {
      var front := rows[..|rows| - 1];
      var r := rows[|rows| - 1];
      CanonicalMapFold(front, name);
      var ps := PgnsNamed(rows, name);
      if r.name == name {
        assert ps[..|ps| - 1] == PgnsNamed(front, name);
      }
    }
  }

  /** The first pass keeps, for every name that occurs, the first of its
      shortest lines with its move count. */
  lemma CanonicalIsFirstShortest(rows: seq<Row>, name: string)
    requires name in CanonicalMap(rows)
    ensures exists k :: FirstShortestAt(PgnsNamed(rows, name), k)
                        && CanonicalMap(rows)[name] == PgnsNamed(rows, name)[k]
  {
    CanonicalMapFold(rows, name);
    KeepAllFirstShortest(PgnsNamed(rows, name));
  }

  /** A name is a key of the first-pass map exactly when some row has it. */
  lemma {:induction false} CanonicalKeys(rows: seq<Row>, name: string)
    ensures name in CanonicalMap(rows) <==> exists i :: 0 <= i < |rows| && rows[i].name == name
    decreases |rows|
  {
    CanonicalMapFold(rows, name);
    if rows != [] {
      var front := rows[..|rows| - 1];
      CanonicalKeys(front, name);
      CanonicalMapFold(front, name);
      if exists i :: 0 <= i < |rows| && rows[i].name == name {
        var i :| 0 <= i < |rows| && rows[i].name == name;
        if i < |rows| - 1 { assert front[i].name == name; }
      }
      if exists i :: 0 <= i < |front| && front[i].name == name {
        var i :| 0 <= i < |front| && front[i].name == name;
        assert rows[i].name == name;
      }
    }
  }

  /** The first pass of `build_hierarchy`. */
  method CanonicalByName(rows: seq<Row>) returns (canon: map<string, Canon>)
    ensures canon == CanonicalMap(rows)
  {
    canon := map[];
    var i := 0;
    while i < |rows|
      invariant 0 <= i <= |rows|
      invariant canon == CanonicalMap(rows[..i])
    {
      var row := rows[i];
      var moves := CountSanMoves(row.pgn);
      assert rows[..i + 1][..i] == rows[..i];
      if row.name !in canon || moves < canon[row.name].moves {
        canon := canon[row.name := Canon(moves, row.pgn)];
      }
      i := i + 1;
    }
    assert rows[..i] == rows;
  }
}
