# Opening hierarchy builder, modelled in Dafny

`parse_openings.py` reads the ECO opening tables as five TSV files with the
columns `eco`, `name` and `pgn`. It turns them into a tree with one root per
opening family (the part of a name before its first `:`). Below each family
hangs one level per comma-separated variation. Every node records:

- the ECO codes of the rows that reached it;
- a canonical line: the PGN with the fewest SAN moves offered to the node,
  where on a tie the earlier line stays.

The tree is then written twice:

- as a JSON document, `to_dict()` of every family in ascending order of the
  family labels;
- as a flat CSV table. Each family is walked with an explicit stack, so every
  node is written before its children and children come in ascending label
  order.

The model follows the program function by function:

| module | file | models |
|---|---|---|
| `Text` | `text.dfy` | Python's `str.isspace`, `strip()`, `split()`, `split(",")`, `split(":", 1)` and `join` |
| `Order` | `order.dfy` | Python's string order and `sorted()` of a set of strings |
| `Pgn` | `pgn.dfy` | `count_san_moves` and the move-number pattern |
| `Names` | `names.dfy` | `split_name` |
| `Canonical` | `canonical.dfy` | the first pass of `build_hierarchy` (`canonical_by_name`) |
| `Openings` | `openings.dfy` | the `OpeningNode` class with `ensure_child` and `update_canonical` as methods |
| `Hierarchy` | `hierarchy.dfy` | the second pass of `build_hierarchy` |
| `Export` | `export.dfy` | `to_dict`, the JSON document and the stack walk that writes the CSV rows |
| `Input` | `input.dfy` | `read_tsv_rows` and the loading loop of `main` |
| `Pipeline` | `pipeline.dfy` | `main` end to end |

Nodes are objects whose fields change in place: the ECO code set, the
canonical line and length, and the children map. A ghost set `nodes` holds
every node of the forest. The predicate `Hierarchy.Forest` is the invariant
that `build_hierarchy` keeps. It requires that:

- each root is a level-0 node named by its key;
- each child sits under its own label, one level below its parent, with the
  full name `ensure_child` derives;
- the canonical line and its length are set together.

What the rows put into each node is the predicate `Hierarchy.Content`, over
the rows added so far and the path each of them left (`paths[j]` for row
`j`). Every node lies on some row's path. For each node:

- its ECO codes are exactly the codes of the rows whose path passes through it;
- its child labels are exactly the parts with which those rows continue;
- its kept line is the keep rule folded over the lines those rows offered
  it, in row order (`Hierarchy.Holds`).

`Hierarchy.NodeFirstShortest` derives from this that the kept line is the
first of the shortest lines offered, and that its length is its SAN move
count. `Hierarchy.RowAdded` states what adding one row does to the nodes:

- nodes off its path stay as they were;
- each path node gains exactly the row's ECO code and the next node under
  the next part;
- each path node's line follows the keep rule on what it held and the line
  the row offered.
- a node reached under a part its parent did not have is a new node.

From the last point `Hierarchy.TreeKept` proves that the family trees stay
disjoint and no node has two parents (`Hierarchy.Tree`). From that
`Hierarchy.SharedNode` proves that two rows' paths meet at depth `k`
exactly when the rows have the same family and the same first `k` variation
parts (`Hierarchy.Addressed`). So `A: x` and `B: x` get two different `x`
nodes.

A move number's digits are those Python's `\d` matches in a `str` pattern,
that is every decimal digit of Unicode category Nd (Unicode 15.0), not only
`0`-`9` (`Pgn.IsDigit`).

Some behaviour of the code is kept exactly as written:

- **Full names.** A child of a family root (level 0, full name equal to its
  label) gets its label alone as its full name, not `Family: label`.
- **Lookup names.** `built_name` joins the parts with `": "`, while the
  dataset's names join variations with `", "`. Below depth 1 the lookup in
  `canonical_by_name` therefore only succeeds when such a name happens to
  exist. Otherwise the row's own PGN is offered (`Hierarchy.ChildLine`).
- **Family line.** The line offered to a family root is
  `canonical_by_name.get(family, (10**9, None))[1] or pgn`. That is the
  family's canonical line when the family is itself a name, and the row's
  line otherwise (`Hierarchy.FamilyLine`).

## Model

| member | source | states |
|---|---|---|
| Text.TrimLeftSpec | parse_openings.py:32 | `lstrip` removes exactly a blank prefix: the result is a suffix of the input that does not start with a blank |
| Text.TrimRightSpec | parse_openings.py:32 | `rstrip` removes exactly a blank suffix: the result is a prefix of the input that does not end with a blank |
| Text.StripIsInfix | parse_openings.py:150-152 | `strip()` returns an infix of its input with only blanks cut off either side, and that infix has no blank at either end |
| Text.StripIdempotent | parse_openings.py:150-152 | stripping twice is stripping once |
| Text.TokensAreWords | parse_openings.py:32 | every token of `split()` is non-empty and blank-free |
| Text.TokensOfStrip | parse_openings.py:32 | `s.strip().split()` yields the same tokens as `s.split()` |
| Text.TokensOfJoin | parse_openings.py:32 | round trip: `" ".join(words).split()` gives back the blank-free words |
| Text.SplitOnShape | parse_openings.py:52 | `split(",")` yields one more piece than there are commas, and no piece holds a comma |
| Text.JoinSplitOn | parse_openings.py:52 | round trip: re-joining the pieces of `split(",")` with `","` gives back the input |
| Text.SplitOnJoin | parse_openings.py:52 | round trip: `split(",")` of comma-free pieces joined with `","` gives back the pieces |
| Text.SplitFirst | parse_openings.py:50 | `split(":", 1)` cuts at the first colon: the text is before + `:` + after, and before holds no colon |
| Order.BelowIrreflexive | parse_openings.py:74 | Python's string order (code point by code point, a proper prefix first) never puts a string below itself |
| Order.BelowAsymmetric | parse_openings.py:74 | the string order is asymmetric |
| Order.BelowTransitive | parse_openings.py:74 | the string order is transitive |
| Order.BelowTotal | parse_openings.py:74 | any two distinct strings are ordered one way or the other |
| Order.SortedKeysSpec | parse_openings.py:74 | `sorted()` of a set of strings is strictly ascending, has one entry per element and holds exactly the set's elements |
| Order.SortedKeysUnique | parse_openings.py:74 | the sorted order is the only strictly ascending listing of a set |
| Order.SortLabels | parse_openings.py:74 | selection of the least remaining label computes exactly the sorted listing |
| Pgn.CountSanMoves | parse_openings.py:26-40 | the loop counts exactly the tokens of `pgn.strip().split()` that are neither move numbers nor results, so the count is at most the number of tokens |
| Pgn.SanTokensSpec | parse_openings.py:34-39 | the counted tokens are exactly the SAN tokens of the input, none added |
| Pgn.SanTokensAppend | parse_openings.py:34-39 | counting distributes over concatenated token lists |
| Pgn.NumberedShape | parse_openings.py:29 | a numbered move list (`1. e4 e5 2. Nf3 ...`) is blank-free words, and filtering out its move numbers gives back the moves |
| Pgn.CountOfMoveText | parse_openings.py:26-31 | the count of a numbered move text with a result token is its number of moves |
| Pgn.DigitRunSpec | parse_openings.py:22 | the leading digit run is the longest prefix of `\d` characters |
| Pgn.MoveNumberPatterns | parse_openings.py:22 | the pattern as written accepts exactly the tokens that are one or more digits followed by `.` or `....`, and the corrected pattern exactly those followed by `.` or `...` |
| Pgn.PatternsDisagree | parse_openings.py:22 | the two patterns disagree exactly on digits followed by three or four dots |
| Pgn.SanCountsAgree | parse_openings.py:26-40 | on a line with no `n...` or `n....` token, the corrected count equals the count as written |
| Pgn.AsWrittenDots | parse_openings.py:22 | the pattern as written rejects `n...` and accepts `n....` |
| Pgn.BlackMoveNumberMiscounted | parse_openings.py:22-40 | as written, `n... m` counts 2 moves |
| Pgn.MoveNumbersRecognised | parse_openings.py:29 | the corrected pattern recognises both `n.` and `n...` |
| Pgn.BlackMoveNumberSkipped | parse_openings.py:29-40 | with the corrected pattern, `n... m` counts 1 move |
| Names.SplitName | parse_openings.py:43-56 | a name has variations iff it contains `:` (the full split is stated by `Names.SplitNameColon` and `Names.SplitFormatName`) |
| Names.SplitNameNoColon | parse_openings.py:53-55 | a name without `:` is its stripped self with no variations; the substance of `split_name` is in `Names.SplitNameColon` and `Names.SplitFormatName` |
| Names.SplitNameColon | parse_openings.py:49-52 | a name with `:` splits at its first colon: the stripped text before it, then the stripped comma pieces after it |
| Names.FamilyHasNoColon | parse_openings.py:49-54 | the family label never contains a colon |
| Names.SplitNameStripped | parse_openings.py:51-54 | the family and every variation have no blank at either end |
| Names.SplitFormatName | parse_openings.py:43-56 | round trip: splitting `Family: V1, V2, ...` built from clean labels gives back the family and the variations |
| Names.SplitVariations | parse_openings.py:52 | the text after the colon splits back into the variations |
| Canonical.Keep | parse_openings.py:96-98 | the keep rule returns the new line or the kept one; the result is never longer than either, and it switches to a different line only when that line is strictly shorter |
| Canonical.FirstShortestExtend | parse_openings.py:111-112 | one more candidate replaces the kept one exactly when it is strictly shorter |
| Canonical.KeepAllFirstShortest | parse_openings.py:109-112 | folding the keep rule over candidates keeps the first of the shortest |
| Canonical.CanonicalMapFold | parse_openings.py:109-112 | a name has an entry iff some row carries it, and the entry is the keep rule folded over that name's lines in row order |
| Canonical.CanonicalIsFirstShortest | parse_openings.py:109-112 | each name's entry is the first of its shortest lines |
| Canonical.CanonicalKeys | parse_openings.py:109-112 | the first-pass keys are exactly the names that occur in the rows |
| Canonical.CanonicalByName | parse_openings.py:106-112 | the first-pass loop computes the first-pass map |
| Openings.ChildFullName | parse_openings.py:82-84 | a child's full name always ends with its label; it is the label alone iff the parent is a family root named by its label or has an empty full name, and otherwise it is the parent's full name, `": "` and the label |
| Openings.OpeningNode.constructor | parse_openings.py:59-67 | a new node has its label, full name and level, no ECO codes, no canonical line and no children |
| Openings.OpeningNode.EnsureChild | parse_openings.py:80-90 | an existing child is returned unchanged; otherwise exactly one fresh child is added with the derived full name and the next level, and the other children stay |
| Openings.OpeningNode.UpdateCanonical | parse_openings.py:93-98 | the ECO code is added; the line replaces the kept one iff none is kept or it is strictly shorter, so the kept length never grows and the new state is the keep rule applied to the old one |
| Hierarchy.FamilyLine | parse_openings.py:126 | the line offered to a family node is the family's first-pass line when the family label is a name with a non-empty first-pass line, and the row's line otherwise; it is non-empty when the row's line is |
| Hierarchy.ChildLine | parse_openings.py:135-139 | the line offered to a variation node is exactly the first-pass line of its `built_name` when that name has an entry, and exactly the row's line when it has none |
| Hierarchy.BuiltNameNonEmpty | parse_openings.py:130-133 | below a non-empty family label `built_name` is never empty, so the `else part` branch of line 133 is never taken |
| Hierarchy.BuiltNameDepthOne | parse_openings.py:133 | one part below the family, `built_name` is the dataset's own name `Family: Variation` |
| Hierarchy.BuiltNameStartsWithTwo | parse_openings.py:130-133 | the `built_name` after two parts is a prefix of every deeper `built_name` |
| Hierarchy.BuiltNameNotFormatName | parse_openings.py:133-135 | two or more parts below the family, `built_name` differs from the row's own name `Family: V1, V2, ...`, because it joins parts with `": "` |
| Hierarchy.AttachForest | parse_openings.py:80-90 | `ensure_child` inside the forest keeps the forest invariant |
| Hierarchy.Attach | parse_openings.py:132 | `ensure_child(current, part)` keeps the forest and changes only `current`'s children, by the entry `part`; a child made for a part `current` lacked is new |
| Hierarchy.Offer | parse_openings.py:137-139 | `update_canonical` on a node of the forest keeps the forest and changes only that node, by the keep rule |
| Hierarchy.Descend | parse_openings.py:132-139 | one step of the walk: the child is found or made under `part`, offered the line, and no other node changes; a child made for a part `current` lacked is new |
| Hierarchy.PathsKept | parse_openings.py:115-140 | the paths of earlier rows stay paths while nodes only gain children, codes and shorter lines |
| Hierarchy.StartWalk | parse_openings.py:118-126 | the family root is found or made and offered the family line; it then holds exactly its old codes plus the row's, its old children, and the keep rule applied to its old line and the family line, and no other node changes |
| Hierarchy.Step | parse_openings.py:131-140 | one loop iteration appends the child under the next part: the parent's children become its old children with that one entry set, the child holds exactly its old codes plus the row's and the keep rule on its old line and the `ChildLine` of the next `built_name`, no other node changes, and a child reached under a part the parent lacked is new |
| Hierarchy.WalkParts | parse_openings.py:131-140 | the loop leaves a path of one node per part below the root; each path node's codes, children and kept line are exactly what the row added to its old state, nodes off the path are unchanged, and every node reached under a part its parent lacked is new (`FreshLinks`) |
| Hierarchy.FreshLinksSnoc | parse_openings.py:131-140 | a walk step that reaches a new node under a part its parent lacked keeps the walk's new-node record |
| Hierarchy.WalkLinked | parse_openings.py:128-140 | a finished walk links the nodes as `RowLinked` says: off-path nodes unchanged, new nodes only on the path, each path node's children its old ones plus the next part, and new nodes under new parts |
| Hierarchy.WalkDone | parse_openings.py:128-140 | the finished walk is the row's path, and each node on it kept by the keep rule the line offered at its depth |
| Hierarchy.AddRow | parse_openings.py:116-140 | one row keeps the forest invariant and adds its family; nodes off its path are unchanged, the only new nodes are on it, each path node gains exactly the row's ECO code and the next path node as its child, a node reached under a part its parent lacked is new (so is the root of a new family), and each path node keeps by the keep rule the line the row offered it (`RowAdded`) |
| Hierarchy.CodesAtSnoc | parse_openings.py:115-140 | one more row adds its ECO code to exactly the nodes its path passes through |
| Hierarchy.ChildKeysSnoc | parse_openings.py:129-140 | one more row adds its next part as a child label to exactly the nodes its path passes through, except the last |
| Hierarchy.OfferedToSnoc | parse_openings.py:126-139 | one more row appends its line to the lines offered to exactly the nodes its path passes through |
| Hierarchy.OfferedToNone | parse_openings.py:115-140 | a node no row's path passes through was offered no line |
| Hierarchy.OfferedToSome | parse_openings.py:115-140 | a node some row's path passes through was offered at least one line |
| Hierarchy.OfferedCandidates | parse_openings.py:93-98 | every line offered to a node carries its SAN move count as its length |
| Hierarchy.HeldStep | parse_openings.py:115-140 | for a node an earlier row passed through, adding the row's code and next part when the new row passes through it keeps its codes and child labels equal to those of all rows through it |
| Hierarchy.HeldKept | parse_openings.py:115-140 | for such a node, applying the keep rule to the new row's line when the row passes through it keeps its line equal to the fold over all lines offered to it |
| Hierarchy.FreshStep | parse_openings.py:115-140 | a node first made for the new row holds exactly that row's code, its next part and its line, which is what the rows through it made of it |
| Hierarchy.ContentKept | parse_openings.py:115-140 | adding one row as `RowAdded` describes turns the content of the nodes for the earlier rows into the content for those rows and this one |
| Hierarchy.EntryOf | parse_openings.py:80-90 | after one row, every child entry of a node is either an entry it already had, unchanged, or the row's next part at a path node, pointing to a node that is new |
| Hierarchy.TreeKept | parse_openings.py:115-140 | adding one row keeps the trees closed under children and keeps every node the child of at most one parent under one label (`Tree`) |
| Hierarchy.RowKept | parse_openings.py:115-140 | after adding row `i` the forest is built, its trees share no node (`Tree`), and it holds its content for the first `i + 1` rows |
| Hierarchy.SecondPass | parse_openings.py:115-140 | after the second pass the forest is intact and its trees share no node (`Tree`), its families are those of the rows, each row has its path, and every node is what the rows through it made of it (`Content`) |
| Hierarchy.NodeFirstShortest | parse_openings.py:101-142 | after the second pass every node's kept line is the first of the shortest lines offered to it, and its canonical length is that line's SAN move count |
| Hierarchy.SharedNode | parse_openings.py:115-140 | in trees that share no node, two rows' paths pass through the same node at depth `k` iff the rows have the same family and the same first `k` parts |
| Hierarchy.PathsAddressed | parse_openings.py:115-140 | after the second pass, all rows' paths are addressed by family and leading parts (`Addressed`) |
| Hierarchy.BuildHierarchy | parse_openings.py:101-142 | the result is a forest whose family keys are exactly the rows' family labels; every row has its path; two rows' paths meet at depth `k` iff the rows have the same family and the same first `k` parts (`Addressed`); every node lies on a row's path and holds exactly the ECO codes and the child labels of the rows through it, and the keep-rule fold of the lines they offered it |
| Export.ToDict | parse_openings.py:69-77 | `to_dict()` keeps the node's label, full name, level and canonical line; the substance is in `Export.ToDictSorted` and `Export.ToDictLeveled` |
| Export.ToDictSorted | parse_openings.py:74-76 | ECO codes and child labels are listed in strictly ascending order, each exactly once |
| Export.ToDictLeveled | parse_openings.py:76 | every child dictionary is one level below its parent, all the way down |
| Export.PushChildren | parse_openings.py:191-193 | pushing children in descending label order makes the stack owe their trees' rows in ascending order, before what it owed already |
| Export.RowOf | parse_openings.py:183-190 | a row's canonical line cell is empty exactly when the node has no line or an empty one |
| Export.EcoCellRoundTrip | parse_openings.py:188 | round trip: the ECO codes cell splits back at the vertical bar into the node's sorted codes, when no code contains that bar |
| Export.WriteRow | parse_openings.py:183-190 | the CSV row is the node's `to_dict()` fields, with the ECO codes joined by a vertical bar and a missing line written as the empty string |
| Export.FlattenFamily | parse_openings.py:179-193 | the stack walk writes exactly the preorder of the family's `to_dict()` tree |
| Export.WriteFlat | parse_openings.py:177-193 | the rows written are the preorder tables of the families, in ascending family order |
| Export.FlatTableShape | parse_openings.py:178-190 | every row's family is a family, families come in ascending contiguous blocks, and the level-0 rows are exactly the roots, labelled and named by their family |
| Export.Document | parse_openings.py:171 | the JSON document lists every family exactly once, in ascending order, each with a level-0 dictionary labelled and named by its key |
| Input.Field | parse_openings.py:150-152 | a column present in the record reads as its value stripped, and a missing column reads as the empty string |
| Input.RecordRow | parse_openings.py:150-155 | a record yields a row iff its three stripped fields `eco`, `name` and `pgn` are all non-empty, and the row it yields is exactly those three stripped fields |
| Input.ReadRows | parse_openings.py:145-156 | the reading loop returns exactly the accepted rows of the records, in order |
| Input.AcceptedClean | parse_openings.py:150-155 | every accepted row has three non-empty stripped fields |
| Input.AcceptedExactly | parse_openings.py:149-155 | a row is accepted iff some record yields it |
| Input.AcceptedAppend | parse_openings.py:161-164 | reading two runs of records reads each in turn |
| Input.RecordRoundTrip | parse_openings.py:150-155 | round trip: the record a clean row is written as reads back as that row |
| Input.LoadRows | parse_openings.py:160-164 | loading fails iff some file is missing, and then names the first missing file; otherwise it returns all files' rows in order |
| Pipeline.Run | parse_openings.py:159-193 | `main` fails iff an input file is missing, and then names the first missing file in the order of the input list; otherwise the hierarchy is a forest over the rows' families whose paths meet exactly where the rows share family and leading parts (`Addressed`) and whose nodes hold exactly what the rows through them put there (`Content`), the JSON document is `Document`, and the CSV rows are `FlatTable`, with families ascending and root rows well formed |

## Left out

- File I/O is replaced by parameters. The TSV files' records are a map from path to records, and a missing key is a missing file. The CSV reader's quoting rules and `newline=""` are not modelled.
- The JSON and CSV text encodings are not modelled. The model stops at the values written: the `NodeDict` tree in family order and the `FlatRow` sequence with the header constant. `json.dump`'s `indent`/`ensure_ascii` and CSV quoting are left out.
- The final message line of `main` is not modelled, because it is output only.
- Export.ToDict, Export.Document and Export.FlatTable are ghost functions. They specify sorting by `Order.SortedKeys`, a ghost choice of least elements. The executable walk (`Export.FlattenFamily`, `Export.WriteFlat`) is proved equal to them.
- Strings are sequences of code points. Python's `str.isspace` set is spelled out, and `sorted()` compares code points. Unicode normalisation does not arise in the source.
- Pgn.CountSanMoves counts with the corrected move-number pattern (see Findings), not the pattern as written. On a line with a token `n...` it skips that token, where the program counts it: `1... e5` gives 1 here and 2 in the program. `Pgn.SanCountAsWritten` is the count as written, and `Pgn.SanCountsAgree` proves both counts equal on every line without an `n...` or `n....` token.
- Pgn.SanTokensSpec describes the corrected filter, which drops `n...` tokens that the program's filter keeps. The canonical lines chosen (`Canonical`, `Hierarchy`) inherit the corrected count, so on lines with `n...` tokens they can differ from the program's.
- Input.LoadRows: the existence test and the reading are one lookup in the map, so a file that vanishes between the two is not modelled.

## Findings

| source | as written | input that shows it | evidently intended | confidence | as-written member | corrected member |
|---|---|---|---|---|---|---|
| parse_openings.py:22 | `MOVE_NUMBER_RE` is `^\d+\.(\.{3})?$`: one dot, then optionally three more, so it matches `1.` and `1....` but not `1...` | `count_san_moves("1... e5")` is 2 | the docstring at line 29 says move numbers such as `1.` and `1...` are skipped, so the count is 1 | not executed | Pgn.BlackMoveNumberMiscounted | Pgn.BlackMoveNumberSkipped |

The model keeps the pattern as written as `Pgn.IsMoveNumberAsWritten`, and
`Pgn.SanCountAsWritten` counts with it. `Pgn.AsWrittenDots` and
`Pgn.BlackMoveNumberMiscounted` show the discrepancy. The rest of the model
uses the corrected pattern `Pgn.IsMoveNumber`, which accepts digits followed
by `.` or `...`. `Pgn.SanCount` and `Pgn.CountSanMoves` use it, and
`Pgn.MoveNumbersRecognised` and `Pgn.CountOfMoveText` state what it
achieves. `Pgn.PatternsDisagree` shows the two patterns differ only on
digits followed by three or four dots. `Pgn.SanCountsAgree` shows that the
corrected count is the count as written on every line with no such token.
