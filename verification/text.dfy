/** Python's string primitives used by the opening classifier: whitespace,
    `str.strip()`, `str.split()` (on whitespace runs), `str.split(sep)` on a
    one-character separator, `sep.join(parts)` and the `in` test. */
module Text {

  /** Python's `str.isspace()` for one character (the characters that
      `str.split()` and `str.strip()` with no argument treat as blanks). */
  predicate IsSpace(c: char) {
    c == ' ' || c == '\t' || c == '\n' || c == '\r' || c == '\U{B}' || c == '\U{C}'
    || ('\U{1C}' <= c <= '\U{1F}') || c == '\U{85}' || c == '\U{A0}' || c == '\U{1680}'
    || ('\U{2000}' <= c <= '\U{200A}') || c == '\U{2028}' || c == '\U{2029}'
    || c == '\U{202F}' || c == '\U{205F}' || c == '\U{3000}'
  }

  predicate AllSpace(s: string) {
    forall i :: 0 <= i < |s| ==> IsSpace(s[i])
  }

  predicate NoSpace(s: string) {
    forall i :: 0 <= i < |s| ==> !IsSpace(s[i])
  }

  /** Neither end of `s` is a blank. */
  predicate Stripped(s: string) {
    s == [] || (!IsSpace(s[0]) && !IsSpace(s[|s| - 1]))
  }

  /** `s.lstrip()`. */
  function TrimLeft(s: string): (r: string)
    ensures |r| <= |s|
  {
    if s != [] && IsSpace(s[0]) then TrimLeft(s[1..]) else s
  }

  /** `TrimLeft` removes a blank prefix and stops at a non-blank. */
  lemma {:induction false} TrimLeftSpec(s: string)
    ensures var r := TrimLeft(s);
      |r| <= |s| && r == s[|s| - |r|..] && AllSpace(s[..|s| - |r|])
      && (r == [] || !IsSpace(r[0]))
  {
    if s != [] && IsSpace(s[0]) {
      TrimLeftSpec(s[1..]);
    }
  }

  /** `s.rstrip()`. */
  function TrimRight(s: string): (r: string)
    ensures |r| <= |s|
  {
    if s != [] && IsSpace(s[|s| - 1]) then TrimRight(s[..|s| - 1]) else s
  }

  /** `TrimRight` removes a blank suffix and stops at a non-blank. */
  lemma {:induction false} TrimRightSpec(s: string)
    ensures var r := TrimRight(s);
      |r| <= |s| && r == s[..|r|] && AllSpace(s[|r|..])
      && (r == [] || !IsSpace(r[|r| - 1]))
  {
    if s != [] && IsSpace(s[|s| - 1]) {
      TrimRightSpec(s[..|s| - 1]);
      assert s[..|s| - 1][..|TrimRight(s)|] == s[..|TrimRight(s)|];
    }
  }

  /** Python's `s.strip()`. */
  function Strip(s: string): string {
    TrimRight(TrimLeft(s))
  }

  /** `Strip` cuts a blank prefix and a blank suffix off `s` and nothing
      else, and what is left starts and ends with a non-blank. */
  lemma StripIsInfix(s: string)
    ensures Stripped(Strip(s))
    ensures exists i, j :: 0 <= i <= j <= |s| && Strip(s) == s[i..j]
                           && AllSpace(s[..i]) && AllSpace(s[j..])
  {
    var t := TrimLeft(s);
    TrimLeftSpec(s);
    TrimRightSpec(t);
    var i := |s| - |t|;
    var j := i + |TrimRight(t)|;
    assert Strip(s) == s[i..j];
    assert s[j..] == t[|TrimRight(t)|..];
  }

  /** Stripping is idempotent. */
  lemma StripIdempotent(s: string)
    ensures Strip(Strip(s)) == Strip(s)
  {
    StripIsInfix(s);
    StrippedFixed(Strip(s));
  }

  /** A string with no blank at either end is its own strip. */
  lemma StrippedFixed(s: string)
    requires Stripped(s)
    ensures Strip(s) == s
  {
  }

  /** A blank put in front of a stripped string is removed again. */
  lemma StripBlankPrefix(s: string)
    requires Stripped(s)
    ensures Strip(" " + s) == s
  {
    StrippedFixed(s);
    assert (" " + s)[1..] == s;
  }

  /** The leading run of non-blank characters (the first word when `s`
      starts with a non-blank). */
  function Word(s: string): (w: string)
    ensures |w| <= |s|
    ensures s != [] && !IsSpace(s[0]) ==> w != []
  {
    if s == [] || IsSpace(s[0]) then [] else [s[0]] + Word(s[1..])
  }

  /** `Word` is the maximal blank-free prefix. */
  lemma {:induction false} WordSpec(s: string)
    ensures var w := Word(s);
      |w| <= |s| && w == s[..|w|] && NoSpace(w) && (|w| == |s| || IsSpace(s[|w|]))
  {
    if s != [] && !IsSpace(s[0]) {
      WordSpec(s[1..]);
    }
  }

  /** Python's `s.split()` with no argument: the maximal runs of non-blank
      characters, in order. */
  function Tokens(s: string): (ts: seq<string>)
    decreases |s|
  {
    var t := TrimLeft(s);
    if t == [] then [] else
      var w := Word(t);
      [w] + Tokens(t[|w|..])
  }

  /** Every token is a non-empty run of non-blanks. */
  lemma {:induction false} TokensAreWords(s: string)
    ensures AllWords(Tokens(s))
    decreases |s|
  {
    var t := TrimLeft(s);
    if t != [] {
      var w := Word(t);
      TrimLeftSpec(s);
      WordSpec(t);
      TokensAreWords(t[|w|..]);
      var ts := Tokens(s);
      assert ts == [w] + Tokens(t[|w|..]);
      forall k | 0 <= k < |ts| ensures IsWord(ts[k]) {
        if k > 0 { assert ts[k] == Tokens(t[|w|..])[k - 1]; }
      }
    }
  }

  /** `sep.join(parts)`. */
  function Join(parts: seq<string>, sep: string): string {
    if parts == [] then []
    else if |parts| == 1 then parts[0]
    else parts[0] + sep + Join(parts[1..], sep)
  }

  predicate IsWord(w: string) {
    w != [] && NoSpace(w)
  }

  predicate AllWords(ws: seq<string>) {
    forall k :: 0 <= k < |ws| ==> IsWord(ws[k])
  }

  lemma WordOfWord(w: string, rest: string)
    requires NoSpace(w)
    requires rest == [] || IsSpace(rest[0])
    ensures Word(w + rest) == w
    decreases |w|
  {
    if w != [] {
      assert (w + rest)[1..] == w[1..] + rest;
      WordOfWord(w[1..], rest);
    }
  }

  /** A word followed by a blank or by nothing is the first token. */
  lemma TokensCons(w: string, rest: string)
    requires IsWord(w)
    requires rest == [] || IsSpace(rest[0])
    ensures Tokens(w + rest) == [w] + Tokens(rest)
  {
    var s := w + rest;
    assert TrimLeft(s) == s;
    WordOfWord(w, rest);
    assert s[|w|..] == rest;
  }

  /** One step of `Join` read back by `Tokens`. */
  lemma TokensJoinStep(ws: seq<string>)
    requires |ws| >= 2 && IsWord(ws[0])
    ensures Tokens(Join(ws, " ")) == [ws[0]] + Tokens(Join(ws[1..], " "))
  {
    var tail := Join(ws[1..], " ");
    assert Join(ws, " ") == ws[0] + (" " + tail);
    TokensCons(ws[0], " " + tail);
    TokensSkipBlank(tail);
  }

  lemma AllWordsAppend(a: seq<string>, b: seq<string>)
    requires AllWords(a) && AllWords(b)
    ensures AllWords(a + b)
  {
    forall k | 0 <= k < |a + b| ensures IsWord((a + b)[k]) {
      if k >= |a| { assert (a + b)[k] == b[k - |a|]; }
    }
  }

  lemma AllWordsTail(ws: seq<string>)
    requires ws != [] && AllWords(ws)
    ensures IsWord(ws[0]) && AllWords(ws[1..])
  {
    forall k | 0 <= k < |ws[1..]| ensures IsWord(ws[1..][k]) {
      assert ws[1..][k] == ws[k + 1];
    }
  }

  /** Round trip: splitting words joined by single blanks gives them back. */
  lemma {:induction false} TokensOfJoin(ws: seq<string>)
    requires AllWords(ws)
    ensures Tokens(Join(ws, " ")) == ws
    decreases |ws|
  {
    if ws == [] {
    } else {
      AllWordsTail(ws);
      if |ws| == 1 {
        TokensCons(ws[0], []);
        assert ws[0] + [] == ws[0];
      } else {
        TokensJoinStep(ws);
        TokensOfJoin(ws[1..]);
        assert ws == [ws[0]] + ws[1..];
      }
    }
  }

  /** Leading blanks do not change the token list. */
  lemma TokensSkipBlank(s: string)
    ensures Tokens(" " + s) == Tokens(s)
  {
    assert (" " + s)[1..] == s;
  }

  /** Leading and trailing blanks do not change the token list, so
      `s.strip().split()` is `s.split()`. */
  lemma {:induction false} TokensOfStrip(s: string)
    ensures Tokens(Strip(s)) == Tokens(s)
  {
    TokensTrimRight(TrimLeft(s));
    TokensTrimLeft(s);
  }

  lemma TokensTrimLeft(s: string)
    ensures Tokens(TrimLeft(s)) == Tokens(s)
  {
    TrimLeftIdempotent(s);
  }

  lemma TrimLeftIdempotent(s: string)
    ensures TrimLeft(TrimLeft(s)) == TrimLeft(s)
  {
  }

  /** Blanks at the end of a string add no token. */
  lemma {:induction false} TokensTrimRight(s: string)
    ensures Tokens(TrimRight(s)) == Tokens(s)
    decreases |s|
  {
    var r := TrimRight(s);
    TrimRightSpec(s);
    if r == s {
    } else {
      TokensAppendSpaces(r, s[|r|..]);
      assert r + s[|r|..] == s;
    }
  }

  lemma {:induction false} TokensAppendSpaces(r: string, b: string)
    requires AllSpace(b)
    ensures Tokens(r + b) == Tokens(r)
    decreases |r|
  {
    var t := TrimLeft(r);
    TrimLeftSpec(r);
    TrimLeftAppend(r, b);
    if t == [] {
      assert TrimLeft(r + b) == TrimLeft(b);
      AllSpaceTrim(b);
    } else {
      var w := Word(t);
      WordAppend(t, b);
      assert (t + b)[|w|..] == t[|w|..] + b;
      TokensAppendSpaces(t[|w|..], b);
    }
  }

  lemma AllSpaceTrim(b: string)
    requires AllSpace(b)
    ensures TrimLeft(b) == []
  {
  }

  lemma {:induction false} TrimLeftAppend(r: string, b: string)
    ensures TrimLeft(r) != [] ==> TrimLeft(r + b) == TrimLeft(r) + b
    ensures TrimLeft(r) == [] ==> TrimLeft(r + b) == TrimLeft(b)
    decreases |r|
  {
    if r == [] {
      assert r + b == b;
    } else if IsSpace(r[0]) {
      assert (r + b)[1..] == r[1..] + b;
      TrimLeftAppend(r[1..], b);
    }
  }

  lemma {:induction false} WordAppend(t: string, b: string)
    requires t != [] && !IsSpace(t[0])
    requires AllSpace(b)
    ensures Word(t + b) == Word(t)
    decreases |t|
  {
    if |t| > 1 && !IsSpace(t[1]) {
      assert (t + b)[1..] == t[1..] + b;
      WordAppend(t[1..], b);
    } else if |t| > 1 {
      assert (t + b)[1..] == t[1..] + b;
    } else {
      assert (t + b)[1..] == b;
    }
  }

  /** Number of occurrences of `c` in `s`. */
  function Count(s: string, c: char): nat {
    if s == [] then 0 else (if s[0] == c then 1 else 0) + Count(s[1..], c)
  }

  /** Python's `s.split(c)` on a one-character separator: the pieces between
      separators, empty pieces kept. */
  function SplitOn(s: string, c: char): (parts: seq<string>)
    ensures |parts| >= 1
  {
    if s == [] then [[]]
    else
      var rest := SplitOn(s[1..], c);
      if s[0] == c then [[]] + rest else [[s[0]] + rest[0]] + rest[1..]
  }

  /** `s.split(c)` has one more piece than `s` has separators, and no piece
      contains the separator. */
  lemma {:induction false} SplitOnShape(s: string, c: char)
    ensures |SplitOn(s, c)| == Count(s, c) + 1
    ensures forall k :: 0 <= k < |SplitOn(s, c)| ==> c !in SplitOn(s, c)[k]
  {
    if s != [] {
      SplitOnShape(s[1..], c);
    }
  }

  /** Round trip: joining the pieces with the separator rebuilds `s`. */
  lemma {:induction false} JoinSplitOn(s: string, c: char)
    ensures Join(SplitOn(s, c), [c]) == s
  {
    if s != [] {
      var rest := SplitOn(s[1..], c);
      JoinSplitOn(s[1..], c);
      if s[0] == c {
        assert s == [c] + s[1..];
      } else if |rest| == 1 {
        assert s == [s[0]] + s[1..];
      } else {
        assert Join(rest, [c]) == rest[0] + [c] + Join(rest[1..], [c]);
        assert s == [s[0]] + s[1..];
      }
    }
  }

  /** Splitting a separator-free join gives the pieces back. */
  lemma {:induction false} SplitOnJoin(parts: seq<string>, c: char)
    requires |parts| >= 1
    requires forall k :: 0 <= k < |parts| ==> c !in parts[k]
    ensures SplitOn(Join(parts, [c]), c) == parts
    decreases |parts|, |parts[0]|
  {
    if parts[0] != [] {
      var p := parts[0];
      var q := [p[1..]] + parts[1..];
      assert Join(parts, [c]) == [p[0]] + Join(q, [c]) by {
        if |parts| == 1 {
        } else {
          assert Join(q, [c]) == p[1..] + [c] + Join(parts[1..], [c]);
        }
      }
      assert forall k :: 0 <= k < |q| ==> c !in q[k] by {
        assert forall k :: 1 <= k < |q| ==> q[k] == parts[k];
      }
      SplitOnJoin(q, c);
      assert (Join(parts, [c]))[1..] == Join(q, [c]);
      assert p[0] != c;
      assert p == [p[0]] + p[1..];
      assert q[1..] == parts[1..];
      assert [p] + parts[1..] == parts;
    } else if |parts| == 1 {
    } else {
      assert Join(parts, [c]) == [c] + Join(parts[1..], [c]);
      assert (Join(parts, [c]))[1..] == Join(parts[1..], [c]);
      SplitOnJoin(parts[1..], c);
      assert [[]] + parts[1..] == parts;
    }
  }

  /** Python's `s.split(c, 1)` when `c in s`: the text before the first
      occurrence of `c` and the text after it. */
  function SplitFirst(s: string, c: char): (r: (string, string))
    requires c in s
    ensures s == r.0 + [c] + r.1 && c !in r.0
  {
    if s[0] == c then ([], s[1..])
    else
      var (b, a) := SplitFirst(s[1..], c);
      ([s[0]] + b, a)
  }

  /** A prefix one longer is the shorter prefix and the next element. */
  lemma PrefixSnoc<T>(s: seq<T>, i: nat)
    requires i < |s|
    ensures s[..i + 1] == s[..i] + [s[i]]
  {
  }
}
