/** Counting SAN moves in a PGN fragment (`count_san_moves`): whitespace
    tokens that are neither move numbers nor game results. */
module Pgn {
  import opened Text

  /** A character `\d` matches in a `str` pattern: a decimal digit of
      Unicode category Nd (Unicode 15.0), not only `0`-`9`. */
  predicate IsDigit(c: char) {
    || '0' <= c <= '9' || '\U{0660}' <= c <= '\U{0669}' || '\U{06F0}' <= c <= '\U{06F9}'
    || '\U{07C0}' <= c <= '\U{07C9}' || '\U{0966}' <= c <= '\U{096F}'
    || '\U{09E6}' <= c <= '\U{09EF}' || '\U{0A66}' <= c <= '\U{0A6F}'
    || '\U{0AE6}' <= c <= '\U{0AEF}' || '\U{0B66}' <= c <= '\U{0B6F}'
    || '\U{0BE6}' <= c <= '\U{0BEF}' || '\U{0C66}' <= c <= '\U{0C6F}'
    || '\U{0CE6}' <= c <= '\U{0CEF}' || '\U{0D66}' <= c <= '\U{0D6F}'
    || '\U{0DE6}' <= c <= '\U{0DEF}' || '\U{0E50}' <= c <= '\U{0E59}'
    || '\U{0ED0}' <= c <= '\U{0ED9}' || '\U{0F20}' <= c <= '\U{0F29}'
    || '\U{1040}' <= c <= '\U{1049}' || '\U{1090}' <= c <= '\U{1099}'
    || '\U{17E0}' <= c <= '\U{17E9}' || '\U{1810}' <= c <= '\U{1819}'
    || '\U{1946}' <= c <= '\U{194F}' || '\U{19D0}' <= c <= '\U{19D9}'
    || '\U{1A80}' <= c <= '\U{1A89}' || '\U{1A90}' <= c <= '\U{1A99}'
    || '\U{1B50}' <= c <= '\U{1B59}' || '\U{1BB0}' <= c <= '\U{1BB9}'
    || '\U{1C40}' <= c <= '\U{1C49}' || '\U{1C50}' <= c <= '\U{1C59}'
    || '\U{A620}' <= c <= '\U{A629}' || '\U{A8D0}' <= c <= '\U{A8D9}'
    || '\U{A900}' <= c <= '\U{A909}' || '\U{A9D0}' <= c <= '\U{A9D9}'
    || '\U{A9F0}' <= c <= '\U{A9F9}' || '\U{AA50}' <= c <= '\U{AA59}'
    || '\U{ABF0}' <= c <= '\U{ABF9}' || '\U{FF10}' <= c <= '\U{FF19}'
    || '\U{104A0}' <= c <= '\U{104A9}' || '\U{10D30}' <= c <= '\U{10D39}'
    || '\U{11066}' <= c <= '\U{1106F}' || '\U{110F0}' <= c <= '\U{110F9}'
    || '\U{11136}' <= c <= '\U{1113F}' || '\U{111D0}' <= c <= '\U{111D9}'
    || '\U{112F0}' <= c <= '\U{112F9}' || '\U{11450}' <= c <= '\U{11459}'
    || '\U{114D0}' <= c <= '\U{114D9}' || '\U{11650}' <= c <= '\U{11659}'
    || '\U{116C0}' <= c <= '\U{116C9}' || '\U{11730}' <= c <= '\U{11739}'
    || '\U{118E0}' <= c <= '\U{118E9}' || '\U{11950}' <= c <= '\U{11959}'
    || '\U{11C50}' <= c <= '\U{11C59}' || '\U{11D50}' <= c <= '\U{11D59}'
    || '\U{11DA0}' <= c <= '\U{11DA9}' || '\U{11F50}' <= c <= '\U{11F59}'
    || '\U{16A60}' <= c <= '\U{16A69}' || '\U{16AC0}' <= c <= '\U{16AC9}'
    || '\U{16B50}' <= c <= '\U{16B59}' || '\U{1D7CE}' <= c <= '\U{1D7FF}'
    || '\U{1E140}' <= c <= '\U{1E149}' || '\U{1E2F0}' <= c <= '\U{1E2F9}'
    || '\U{1E4F0}' <= c <= '\U{1E4F9}' || '\U{1E950}' <= c <= '\U{1E959}'
    || '\U{1FBF0}' <= c <= '\U{1FBF9}'
  }

  /** Length of the leading run of decimal digits of `t`. */
  function DigitRun(t: string): (d: nat)
    ensures d <= |t|
  {
    if t != [] && IsDigit(t[0]) then 1 + DigitRun(t[1..]) else 0
  }

  /** The move-number pattern `^\d+\.(\.{3})?$` exactly as written: one or
      more digits, a dot, then optionally three more dots. */
  predicate IsMoveNumberAsWritten(t: string) {
    var d := DigitRun(t);
    d >= 1 && d <= |t| && (t[d..] == "." || t[d..] == "....")
  }

  predicate AllDigits(ds: string) {
    forall i :: 0 <= i < |ds| ==> IsDigit(ds[i])
  }

  /** `DigitRun` is the longest all-digit prefix. */
  lemma {:induction false} DigitRunSpec(t: string)
    ensures AllDigits(t[..DigitRun(t)])
    ensures DigitRun(t) < |t| ==> !IsDigit(t[DigitRun(t)])
    decreases |t|
  {
    if t != [] && IsDigit(t[0]) {
      DigitRunSpec(t[1..]);
      assert t[..DigitRun(t)] == [t[0]] + t[1..][..DigitRun(t[1..])];
    }
  }

  /** The two move-number patterns read as regular expressions: one or
      more digits, then `.` or `....` as written, `.` or `...` as
      documented. */
  lemma MoveNumberPatterns(t: string)
    ensures IsMoveNumberAsWritten(t) <==>
              exists ds :: ds != [] && AllDigits(ds) && (t == ds + "." || t == ds + "....")
    ensures IsMoveNumber(t) <==>
              exists ds :: ds != [] && AllDigits(ds) && (t == ds + "." || t == ds + "...")
  {
    var d := DigitRun(t);
    DigitRunSpec(t);
    if d >= 1 {
      assert t == t[..d] + t[d..];
    }
    forall ds | ds != [] && AllDigits(ds) && |ds| < |t| && t[|ds|] == '.' && t[..|ds|] == ds
      ensures d == |ds|
    {
      DigitRunOf(t, |ds|);
    }
  }

  /** A move-number token as the function's own documentation describes
      it: digits followed by `.` (white to move, `1.`) or by `...` (black to
      move, `1...`). */
  predicate IsMoveNumber(t: string) {
    var d := DigitRun(t);
    d >= 1 && d <= |t| && (t[d..] == "." || t[d..] == "...")
  }

  /** One of the result tokens `1-0`, `0-1`, `1/2-1/2`, `*`. */
  predicate IsResultToken(t: string) {
    t == "1-0" || t == "0-1" || t == "1/2-1/2" || t == "*"
  }

  predicate IsSanToken(t: string) {
    !IsMoveNumber(t) && !IsResultToken(t)
  }

  /** The tokens that the loop counts, in order. */
  function SanTokens(ts: seq<string>): seq<string> {
    if ts == [] then []
    else (if IsSanToken(ts[0]) then [ts[0]] else []) + SanTokens(ts[1..])
  }

  /** What `count_san_moves(pgn)` returns. */
  function SanCount(pgn: string): nat {
    |SanTokens(Tokens(Strip(pgn)))|
  }

  /** `SanTokens` keeps exactly the SAN tokens: each kept token is one,
      each SAN token of the input is kept, and nothing is added. */
  lemma {:induction false} SanTokensSpec(ts: seq<string>)
    ensures |SanTokens(ts)| <= |ts|
    ensures forall t :: t in SanTokens(ts) ==> t in ts && IsSanToken(t)
    ensures forall t :: t in ts && IsSanToken(t) ==> t in SanTokens(ts)
  {
    if ts != [] {
      SanTokensSpec(ts[1..]);
      assert ts == [ts[0]] + ts[1..];
    }
  }

  /** Filtering distributes over concatenation. */
  lemma {:induction false} SanTokensAppend(a: seq<string>, b: seq<string>)
    ensures SanTokens(a + b) == SanTokens(a) + SanTokens(b)
  {
    if a != [] {
      assert (a + b)[1..] == a[1..] + b;
      SanTokensAppend(a[1..], b);
    } else {
      assert a + b == b;
    }
  }

  lemma SanTokensOne(t: string)
    ensures SanTokens([t]) == if IsSanToken(t) then [t] else []
  {
    assert [t][1..] == [];
  }

  lemma SanTokensSnoc(ts: seq<string>, i: nat)
    requires i < |ts|
    ensures SanTokens(ts[..i + 1]) == SanTokens(ts[..i]) + (if IsSanToken(ts[i]) then [ts[i]] else [])
  {
    SanTokensAppend(ts[..i], [ts[i]]);
    assert ts[..i + 1] == ts[..i] + [ts[i]];
    assert [ts[i]][1..] == [];
  }

  /** `count_san_moves`: strip, split on whitespace, and count the tokens
      that are neither move numbers nor results. */
  method CountSanMoves(pgn: string) returns (count: nat)
    ensures count == SanCount(pgn)
    ensures count <= |Tokens(pgn)|
  {
    var tokens := Tokens(Strip(pgn));
    count := 0;
    var i := 0;
    while i < |tokens|
      invariant 0 <= i <= |tokens|
      invariant count == |SanTokens(tokens[..i])|
    {
      var tok := tokens[i];
      SanTokensSnoc(tokens, i);
      if IsMoveNumber(tok) {
        i := i + 1;
        continue;
      }
      if IsResultToken(tok) {
        i := i + 1;
        continue;
      }
      count := count + 1;
      i := i + 1;
    }
    assert tokens[..i] == tokens;
    TokensOfStrip(pgn);
    SanTokensSpec(tokens);
  }

  // ----- a reference PGN writer, to say what the count means -----

  function DigitChar(k: nat): char
    requires k < 10
  {
    ['0', '1', '2', '3', '4', '5', '6', '7', '8', '9'][k]
  }

  /** Decimal rendering of a move number. */
  function Decimal(n: nat): (r: string)
    ensures r != [] && forall i :: 0 <= i < |r| ==> '0' <= r[i] <= '9'
  {
    if n < 10 then [DigitChar(n)] else Decimal(n / 10) + [DigitChar(n % 10)]
  }

  /** The move list written in standard numbered form starting at move
      `n`: `n. w b n+1. w b ...`. */
  function Numbered(moves: seq<string>, n: nat): seq<string>
    decreases |moves|
  {
    if moves == [] then []
    else if |moves| == 1 then [Decimal(n) + ".", moves[0]]
    else [Decimal(n) + ".", moves[0], moves[1]] + Numbered(moves[2..], n + 1)
  }

  /** A PGN movetext line: the numbered moves followed by a result. */
  function MoveText(moves: seq<string>, result: string): string {
    Join(Numbered(moves, 1) + [result], " ")
  }

  /** A SAN move is a blank-free word that is neither a move number nor a
      result (every real SAN move, `e4`, `Nf3`, `O-O`, `exd8=Q+`, is one). */
  predicate IsSanMove(m: string) {
    IsWord(m) && IsSanToken(m)
  }

  lemma MoveNumberToken(n: nat)
    ensures IsWord(Decimal(n) + ".") && IsMoveNumber(Decimal(n) + ".")
  {
    var t := Decimal(n) + ".";
    var ds := Decimal(n);
    assert forall i :: 0 <= i < |ds| ==> t[i] == ds[i];
    DigitRunOf(t, |ds|);
    assert t[|ds|..] == ".";
  }

  lemma {:induction false} DigitRunOf(t: string, d: nat)
    requires d < |t| && !IsDigit(t[d])
    requires forall i :: 0 <= i < d ==> IsDigit(t[i])
    ensures DigitRun(t) == d
    decreases d
  {
    if d > 0 {
      DigitRunOf(t[1..], d - 1);
    }
  }

  lemma SanMovesTail(moves: seq<string>)
    requires |moves| >= 2
    requires forall k :: 0 <= k < |moves| ==> IsSanMove(moves[k])
    ensures forall k :: 0 <= k < |moves[2..]| ==> IsSanMove(moves[2..][k])
  {
    forall k | 0 <= k < |moves[2..]| ensures IsSanMove(moves[2..][k]) {
      assert moves[2..][k] == moves[k + 2];
    }
  }

  /** A move number followed by two SAN moves leaves the two moves. */
  lemma SanTokensOfPair(num: string, a: string, b: string)
    requires IsMoveNumber(num) && IsSanToken(a) && IsSanToken(b)
    ensures SanTokens([num, a, b]) == [a, b]
  {
    assert [num, a, b] == [num] + [a] + [b];
    SanTokensAppend([num] + [a], [b]);
    SanTokensAppend([num], [a]);
    SanTokensOne(num);
    SanTokensOne(a);
    SanTokensOne(b);
  }

  lemma {:induction false} NumberedWords(moves: seq<string>, n: nat)
    requires forall k :: 0 <= k < |moves| ==> IsSanMove(moves[k])
    ensures AllWords(Numbered(moves, n))
    decreases |moves|
  {
    MoveNumberToken(n);
    if |moves| >= 2 {
      var head := [Decimal(n) + ".", moves[0], moves[1]];
      var tail := Numbered(moves[2..], n + 1);
      SanMovesTail(moves);
      NumberedWords(moves[2..], n + 1);
      forall k | 0 <= k < |head + tail| ensures IsWord((head + tail)[k]) {
        if k >= 3 { assert (head + tail)[k] == tail[k - 3]; }
      }
    }
  }

  lemma {:induction false} NumberedSan(moves: seq<string>, n: nat)
    requires forall k :: 0 <= k < |moves| ==> IsSanMove(moves[k])
    ensures SanTokens(Numbered(moves, n)) == moves
    decreases |moves|
  {
    MoveNumberToken(n);
    var num := Decimal(n) + ".";
    if |moves| == 1 {
      assert [num, moves[0]] == [num] + [moves[0]];
      SanTokensAppend([num], [moves[0]]);
      SanTokensOne(num);
      SanTokensOne(moves[0]);
    } else if |moves| >= 2 {
      var tail := Numbered(moves[2..], n + 1);
      SanMovesTail(moves);
      NumberedSan(moves[2..], n + 1);
      SanTokensAppend([num, moves[0], moves[1]], tail);
      SanTokensOfPair(num, moves[0], moves[1]);
      assert moves == [moves[0], moves[1]] + moves[2..];
    }
  }

  /** The numbered form of a list of SAN moves is a list of words whose
      SAN tokens are the moves themselves. */
  lemma NumberedShape(moves: seq<string>, n: nat)
    requires forall k :: 0 <= k < |moves| ==> IsSanMove(moves[k])
    ensures AllWords(Numbered(moves, n))
    ensures SanTokens(Numbered(moves, n)) == moves
  {
    NumberedWords(moves, n);
    NumberedSan(moves, n);
  }

  lemma ResultIsWord(result: string)
    requires IsResultToken(result)
    ensures IsWord(result)
  {
    forall i | 0 <= i < |result| ensures !IsSpace(result[i]) {
      assert result[i] in "1-0/2*";
    }
  }

  /** Splitting a movetext line gives back its numbered moves and the
      result. */
  lemma MoveTextTokens(moves: seq<string>, result: string)
    requires forall k :: 0 <= k < |moves| ==> IsSanMove(moves[k])
    requires IsResultToken(result)
    ensures Tokens(Strip(MoveText(moves, result))) == Numbered(moves, 1) + [result]
  {
    var ws := Numbered(moves, 1) + [result];
    NumberedWords(moves, 1);
    ResultIsWord(result);
    AllWordsAppend(Numbered(moves, 1), [result]);
    var line := MoveText(moves, result);
    assert line == Join(ws, " ");
    TokensOfStrip(line);
    TokensOfJoin(ws);
  }

  /** Reference: a movetext line of `m` SAN moves, numbered and closed by
      a result token, counts exactly `m` moves. */
  lemma CountOfMoveText(moves: seq<string>, result: string)
    requires forall k :: 0 <= k < |moves| ==> IsSanMove(moves[k])
    requires IsResultToken(result)
    ensures SanCount(MoveText(moves, result)) == |moves|
  {
    MoveTextTokens(moves, result);
    NumberedSan(moves, 1);
    SanTokensAppend(Numbered(moves, 1), [result]);
    assert SanTokens([result]) == [];
  }

  // ----- the move-number pattern as written, against its documentation -----

  /** Count as the function behaves with the pattern as written. */
  function SanCountAsWritten(pgn: string): nat {
    |FilterAsWritten(Tokens(Strip(pgn)))|
  }

  function FilterAsWritten(ts: seq<string>): seq<string> {
    if ts == [] then []
    else (if !IsMoveNumberAsWritten(ts[0]) && !IsResultToken(ts[0]) then [ts[0]] else [])
         + FilterAsWritten(ts[1..])
  }

  /** A black-to-move line `n... m` splits into its two tokens. */
  lemma BlackLineTokens(n: nat, m: string)
    requires IsWord(m)
    ensures Tokens(Strip(Decimal(n) + "... " + m)) == [Decimal(n) + "...", m]
  {
    var num := Decimal(n) + "...";
    var ws := [num, m];
    assert IsWord(num);
    assert AllWords(ws);
    assert Join(ws, " ") == Decimal(n) + "... " + m;
    TokensOfJoin(ws);
    TokensOfStrip(Decimal(n) + "... " + m);
  }

  /** The first character of a digit-free word is not a digit, so the
      word matches neither move-number pattern. */
  lemma NotNumberWord(m: string)
    requires m != [] && !IsDigit(m[0])
    ensures !IsMoveNumber(m) && !IsMoveNumberAsWritten(m)
  {
  }

  lemma FilterPair(a: string, b: string)
    ensures FilterAsWritten([a, b]) ==
      (if !IsMoveNumberAsWritten(a) && !IsResultToken(a) then [a] else [])
      + (if !IsMoveNumberAsWritten(b) && !IsResultToken(b) then [b] else [])
  {
    assert [b][1..] == [];
    assert FilterAsWritten([b]) == (if !IsMoveNumberAsWritten(b) && !IsResultToken(b) then [b] else []);
    assert [a, b][1..] == [b];
  }

  /** As written, the pattern rejects the black-to-move number `n...` that
      the documentation says is skipped (and accepts `n....` instead), so
      `count_san_moves("1... e5")` is 2 although the line holds one move. */
  lemma BlackMoveNumberMiscounted(n: nat, m: string)
    requires IsWord(m) && !IsDigit(m[0]) && !IsResultToken(m)
    ensures !IsMoveNumberAsWritten(Decimal(n) + "...")
    ensures IsMoveNumberAsWritten(Decimal(n) + "....")
    ensures SanCountAsWritten(Decimal(n) + "... " + m) == 2
  {
    var t := Decimal(n) + "...";
    AsWrittenDots(n);
    NotNumberWord(m);
    BlackLineTokens(n, m);
    FilterPair(t, m);
  }

  /** Which dotted numbers the pattern as written accepts. */
  lemma AsWrittenDots(n: nat)
    ensures !IsMoveNumberAsWritten(Decimal(n) + "...")
    ensures !IsResultToken(Decimal(n) + "...")
    ensures IsMoveNumberAsWritten(Decimal(n) + "....")
  {
    var ds := Decimal(n);
    var t, t4 := ds + "...", ds + "....";
    assert forall i :: 0 <= i < |ds| ==> t[i] == ds[i] && t4[i] == ds[i];
    DigitRunOf(t, |ds|);
    DigitRunOf(t4, |ds|);
    assert t[|ds|..] == "..." && t4[|ds|..] == "....";
    assert !IsResultToken(t) by { assert t[|t| - 1] == '.'; }
  }

  /** With the corrected pattern every move number, `n.` as well as `n...`,
      is recognised. */
  lemma MoveNumbersRecognised(n: nat)
    ensures IsMoveNumber(Decimal(n) + ".") && IsMoveNumber(Decimal(n) + "...")
  {
    MoveNumberToken(n);
    var t := Decimal(n) + "...";
    var ds := Decimal(n);
    assert forall i :: 0 <= i < |ds| ==> t[i] == ds[i];
    DigitRunOf(t, |ds|);
    assert t[|ds|..] == "...";
  }

  /** With the corrected pattern the line `n... m` counts one move. */
  lemma BlackMoveNumberSkipped(n: nat, m: string)
    requires IsWord(m) && !IsDigit(m[0]) && !IsResultToken(m)
    ensures SanCount(Decimal(n) + "... " + m) == 1
  {
    var t := Decimal(n) + "...";
    MoveNumbersRecognised(n);
    NotNumberWord(m);
    BlackLineTokens(n, m);
    SanTokensPair(t, m);
  }

  /** Digits followed by three or four dots: the only tokens on which the
      pattern as written and the corrected one disagree. */
  predicate DotsNumber(t: string) {
    var d := DigitRun(t);
    d >= 1 && (t[d..] == "..." || t[d..] == "....")
  }

  lemma PatternsDisagree(t: string)
    ensures IsMoveNumber(t) != IsMoveNumberAsWritten(t) <==> DotsNumber(t)
  {
  }

  /** On tokens with no `n...` or `n....` among them the two filters keep
      the same tokens. */
  lemma {:induction false} FiltersAgree(ts: seq<string>)
    requires forall i :: 0 <= i < |ts| ==> !DotsNumber(ts[i])
    ensures SanTokens(ts) == FilterAsWritten(ts)
  {
    if ts != [] {
      PatternsDisagree(ts[0]);
      FiltersAgree(ts[1..]);
    }
  }

  /** So the corrected count is the count as written on every line whose
      tokens include no `n...` and no `n....`. */
  lemma SanCountsAgree(pgn: string)
    requires forall t :: t in Tokens(Strip(pgn)) ==> !DotsNumber(t)
    ensures SanCount(pgn) == SanCountAsWritten(pgn)
  {
    FiltersAgree(Tokens(Strip(pgn)));
  }

  lemma SanTokensPair(a: string, b: string)
    ensures SanTokens([a, b]) == (if IsSanToken(a) then [a] else []) + (if IsSanToken(b) then [b] else [])
  {
    SanTokensAppend([a], [b]);
    SanTokensOne(a);
    SanTokensOne(b);
    assert [a, b] == [a] + [b];
  }
}
