/** `main`: read the five TSV files, build the family map, and write the
    JSON document and the flat table from it. The files' contents are a
    parameter; writing to disk and the final message are not modelled. */
module Pipeline {
  import opened Canonical
  import opened Openings
  import opened Hierarchy
  import opened Export
  import opened Input

  /** The flat table written, or the first input file found missing. */
  datatype Outcome = Written(table: seq<FlatRow>) | Failed(missing: string)

  method Run(files: map<string, seq<Record>>)
    returns (outcome: Outcome, families: map<string, OpeningNode>, ghost nodes: set<OpeningNode>,
             ghost document: seq<(string, NodeDict)>, ghost paths: seq<seq<OpeningNode>>)
    ensures outcome.Failed? <==> exists p :: p in TsvFiles && p !in files
    ensures outcome.Failed? ==>
              exists i :: && 0 <= i < |TsvFiles| && TsvFiles[i] == outcome.missing && TsvFiles[i] !in files
                          && forall j :: 0 <= j < i ==> TsvFiles[j] in files
    ensures outcome.Written? ==>
              && Forest(families, nodes)
              && families.Keys == FamiliesOf(AllRows(files, TsvFiles))
              && document == Document(families, nodes)
              && outcome.table == FlatTable(families, nodes)
              && FamiliesAscending(outcome.table) && RootRows(outcome.table)
    ensures outcome.Written? ==>
              var rows := AllRows(files, TsvFiles);
              && Built(families, nodes, CanonicalMap(rows), rows, paths)
              && Content(nodes, CanonicalMap(rows), rows, paths)
              && Addressed(rows, paths)
  {
    var loaded := LoadRows(files, TsvFiles);
    if loaded.MissingFile? {
      outcome, families, nodes, document, paths := Failed(loaded.path), map[], {}, [], [];
      return;
    }
    families, nodes, paths := BuildHierarchy(loaded.rows);
    document := Document(families, nodes);
    var table := WriteFlat(families, nodes);
    FlatTableShape(families, nodes);
    outcome := Written(table);
  }
}
