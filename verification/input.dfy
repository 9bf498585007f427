/** `read_tsv_rows` and the loading loop of `main`. A TSV record is the
    dictionary `csv.DictReader` yields, from column name to cell; a record
    whose ECO code, name or line is blank after stripping is skipped. */
module Input {
  import opened Text
  import opened Canonical

  type Record = map<string, string>

  /** The five files `main` reads, in this order. */
  const TsvFiles: seq<string> := [
    "/workspace/chess-openings/a.tsv",
    "/workspace/chess-openings/b.tsv",
    "/workspace/chess-openings/c.tsv",
    "/workspace/chess-openings/d.tsv",
    "/workspace/chess-openings/e.tsv"
  ]

  /** `(r.get(column) or "").strip()`: a missing cell reads as `""`. */
  function Field(r: Record, column: string): (f: string)
    ensures Stripped(f)
    ensures column in r ==> f == Strip(r[column])
    ensures column !in r ==> f == ""
  {
    if column in r then StripIsInfix(r[column]); Strip(r[column]) else ""
  }

  /** The row a record contributes, if its three fields are all non-blank:
      a record missing a column contributes nothing, and a row it
      contributes has three non-empty fields with no blank at either end. */
  function RecordRow(r: Record): (row: Option<Row>)
    ensures "eco" !in r || "name" !in r || "pgn" !in r ==> row.None?
    ensures row.Some? <==> Field(r, "eco") != "" && Field(r, "name") != "" && Field(r, "pgn") != ""
    ensures row.Some? ==> row.value == Row(Field(r, "eco"), Field(r, "name"), Field(r, "pgn"))
    ensures row.Some? ==>
              && row.value.eco != "" && Stripped(row.value.eco)
              && row.value.name != "" && Stripped(row.value.name)
              && row.value.pgn != "" && Stripped(row.value.pgn)
  {
    var eco, name, pgn := Field(r, "eco"), Field(r, "name"), Field(r, "pgn");
    if eco == "" || name == "" || pgn == "" then None else Some(Row(eco, name, pgn))
  }

  /** The rows of `records`, in order, skipping the blank ones. */
  function Accepted(records: seq<Record>): seq<Row>
    decreases |records|
  {
    if records == [] then []
    else
      var last := records[|records| - 1];
      Accepted(records[..|records| - 1])
      + (if RecordRow(last).Some? then [RecordRow(last).value] else [])
  }

  /** `read_tsv_rows` over the records of one file. */
  method ReadRows(records: seq<Record>) returns (rows: seq<Row>)
    ensures rows == Accepted(records)
  {
    rows := [];
    for i := 0 to |records|
      invariant rows == Accepted(records[..i])
    {
      var row := RecordRow(records[i]);
      assert records[..i + 1][..i] == records[..i];
      if row.None? {
        continue;
      }
      rows := rows + [row.value];
    }
    assert records[..|records|] == records;
  }

  /** Every accepted row has three non-blank fields with no blank at
      either end. */
  lemma {:induction false} AcceptedClean(records: seq<Record>)
    ensures forall row :: row in Accepted(records) ==>
              && row.eco != "" && Stripped(row.eco)
              && row.name != "" && Stripped(row.name)
              && row.pgn != "" && Stripped(row.pgn)
    decreases |records|
  {
    if records != [] {
      AcceptedClean(records[..|records| - 1]);
    }
  }

  /** Reading two runs of records reads each in turn. */
  lemma {:induction false} AcceptedAppend(a: seq<Record>, b: seq<Record>)
    ensures Accepted(a + b) == Accepted(a) + Accepted(b)
    decreases |b|
  {
    if b == [] {
      assert a + b == a;
    } else {
      var front := b[..|b| - 1];
      assert (a + b)[..|a + b| - 1] == a + front;
      AcceptedAppend(a, front);
    }
  }

  /** A row is accepted exactly when some record yields it. */
  lemma {:induction false} AcceptedExactly(records: seq<Record>, row: Row)
    ensures row in Accepted(records) <==> exists r :: r in records && RecordRow(r) == Some(row)
    decreases |records|
  {
    if records != [] {
      var front, last := records[..|records| - 1], records[|records| - 1];
      AcceptedExactly(front, row);
      PrefixSnoc(records, |records| - 1);
      assert records[..|records|] == records;
      if exists r :: r in records && RecordRow(r) == Some(row) {
        var r :| r in records && RecordRow(r) == Some(row);
        if r != last {
          assert r in front;
        }
      }
    }
  }

  /** The record a row with clean fields is written as reads back as
      that row. */
  lemma RecordRoundTrip(row: Row)
    requires row.eco != "" && Stripped(row.eco)
    requires row.name != "" && Stripped(row.name)
    requires row.pgn != "" && Stripped(row.pgn)
    ensures RecordRow(map["eco" := row.eco, "name" := row.name, "pgn" := row.pgn]) == Some(row)
  {
    StrippedFixed(row.eco);
    StrippedFixed(row.name);
    StrippedFixed(row.pgn);
  }

  /** What loading yields: every row of the files in order, or the first
      file that does not exist. */
  datatype Loaded = Rows(rows: seq<Row>) | MissingFile(path: string)

  /** The rows of the files `paths` in order, if all of them exist;
      `files` maps each existing path to its records. */
  function AllRows(files: map<string, seq<Record>>, paths: seq<string>): seq<Row>
    requires forall p :: p in paths ==> p in files
    decreases |paths|
  {
    if paths == [] then []
    else AllRows(files, paths[..|paths| - 1]) + Accepted(files[paths[|paths| - 1]])
  }

  /** The loading loop of `main`: the files in order, stopping with
      `FileNotFoundError` at the first one missing. */
  method LoadRows(files: map<string, seq<Record>>, paths: seq<string>) returns (loaded: Loaded)
    ensures loaded.MissingFile? <==> exists p :: p in paths && p !in files
    ensures loaded.MissingFile? ==>
              exists i :: 0 <= i < |paths| && paths[i] == loaded.path && paths[i] !in files
                          && forall j :: 0 <= j < i ==> paths[j] in files
    ensures loaded.Rows? ==> loaded.rows == AllRows(files, paths)
  {
    var all: seq<Row> := [];
    for i := 0 to |paths|
      invariant forall j :: 0 <= j < i ==> paths[j] in files
      invariant all == AllRows(files, paths[..i])
    {
      if paths[i] !in files {
        return MissingFile(paths[i]);
      }
      var rows := ReadRows(files[paths[i]]);
      assert paths[..i + 1][..i] == paths[..i];
      all := all + rows;
    }
    assert paths[..|paths|] == paths;
    loaded := Rows(all);
  }
}
