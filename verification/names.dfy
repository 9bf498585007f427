/** Splitting an opening name into its family and its variations
    (`split_name`). */
module Names {
  import opened Text

  /** `split_name(name)`: the stripped text before the first `:` is the
      family; the text after it, split at every `,` with each piece
      stripped, gives the variations. A name without `:` is all family. */
  function SplitName(name: string): (r: (string, seq<string>))
    ensures ':' in name <==> r.1 != []
  {
    if ':' in name then
      var (before, after) := SplitFirst(name, ':');
      (Strip(before), StripAll(SplitOn(after, ',')))
    else
      (Strip(name), [])
  }

  /** `[part.strip() for part in pieces]`. */
  function StripAll(pieces: seq<string>): (r: seq<string>)
    ensures |r| == |pieces|
    ensures forall i :: 0 <= i < |r| ==> r[i] == Strip(pieces[i])
  {
    seq(|pieces|, i requires 0 <= i < |pieces| => Strip(pieces[i]))
  }

  /** A name without `:` is a bare family: its stripped self and no
      variations. */
  lemma SplitNameNoColon(name: string)
    requires ':' !in name
    ensures SplitName(name) == (Strip(name), [])
  {
  }

  /** A name with `:` splits at its FIRST colon: the family is the stripped
      text before it (which has no colon), and the variations are the
      stripped comma-separated pieces after it, one more than there are
      commas. */
  lemma SplitNameColon(name: string)
    requires ':' in name
    ensures var (before, after) := SplitFirst(name, ':');
      && name == before + ":" + after
      && ':' !in before
      && SplitName(name).0 == Strip(before)
      && |SplitName(name).1| == Count(after, ',') + 1
      && forall i :: 0 <= i < |SplitName(name).1| ==>
           SplitName(name).1[i] == Strip(SplitOn(after, ',')[i])
  {
    var (before, after) := SplitFirst(name, ':');
    SplitOnShape(after, ',');
  }

  /** The family never contains a colon. */
  lemma FamilyHasNoColon(name: string)
    ensures ':' !in SplitName(name).0
  {
    if ':' in name {
      var (before, _) := SplitFirst(name, ':');
      StripInherits(before, ':');
    } else {
      StripInherits(name, ':');
    }
  }

  /** What `s` does not contain, its strip does not contain either. */
  lemma StripInherits(s: string, c: char)
    requires c !in s
    ensures c !in Strip(s)
  {
    StripIsInfix(s);
    var i, j :| 0 <= i <= j <= |s| && Strip(s) == s[i..j];
    assert forall k :: 0 <= k < |Strip(s)| ==> Strip(s)[k] == s[i + k];
  }

  /** Family and variations come out stripped. */
  lemma SplitNameStripped(name: string)
    ensures Stripped(SplitName(name).0)
    ensures forall i :: 0 <= i < |SplitName(name).1| ==> Stripped(SplitName(name).1[i])
  {
    if ':' in name {
      var (before, after) := SplitFirst(name, ':');
      var pieces := SplitOn(after, ',');
      StripIsInfix(before);
      forall i | 0 <= i < |pieces| ensures Stripped(Strip(pieces[i])) {
        StripIsInfix(pieces[i]);
      }
    } else {
      StripIsInfix(name);
    }
  }

  /** A well-formed opening label: no blank at either end, no `:` and no
      `,`. */
  predicate IsLabel(s: string) {
    Stripped(s) && ':' !in s && ',' !in s
  }

  predicate AllLabels(vs: seq<string>) {
    forall i :: 0 <= i < |vs| ==> IsLabel(vs[i])
  }

  lemma ColonJoin(family: string, rest: string)
    ensures family + ": " + rest == family + [':'] + (" " + rest)
  {
  }

  /** The dataset's name format: `Family: Variation, Sub-variation, ...`. */
  function FormatName(family: string, variations: seq<string>): string {
    if variations == [] then family
    else family + ": " + Join(variations, ", ")
  }

  /** Round trip: `split_name` takes a formatted name back apart into the
      family and the variations it was made of. */
  lemma SplitFormatName(family: string, variations: seq<string>)
    requires IsLabel(family)
    requires AllLabels(variations)
    ensures SplitName(FormatName(family, variations)) == (family, variations)
  {
    StrippedFixed(family);
    if variations != [] {
      var after := " " + Join(variations, ", ");
      ColonJoin(family, Join(variations, ", "));
      FirstColon(family, after);
      SplitVariations(variations);
    }
  }

  /** The text after the colon splits back into the variations. */
  lemma SplitVariations(variations: seq<string>)
    requires variations != []
    requires AllLabels(variations)
    ensures StripAll(SplitOn(" " + Join(variations, ", "), ',')) == variations
  {
    var spaced := seq(|variations|, i requires 0 <= i < |variations| => " " + variations[i]);
    JoinSpaced(variations, spaced);
    forall k | 0 <= k < |spaced| ensures ',' !in spaced[k] {
      assert spaced[k] == " " + variations[k];
    }
    SplitOnJoin(spaced, ',');
    forall i | 0 <= i < |variations| ensures Strip(spaced[i]) == variations[i] {
      StripBlankPrefix(variations[i]);
    }
  }

  lemma {:induction false} FirstColon(before: string, after: string)
    requires ':' !in before
    ensures ':' in before + [':'] + after
    ensures SplitFirst(before + [':'] + after, ':') == (before, after)
    decreases |before|
  {
    var s := before + [':'] + after;
    if before != [] {
      assert s[1..] == before[1..] + [':'] + after;
      FirstColon(before[1..], after);
      assert before == [before[0]] + before[1..];
    }
  }

  /** Joining with `", "` is joining blank-prefixed pieces with `","`
      (the first piece then carries one more leading blank). */
  lemma {:induction false} JoinSpaced(vs: seq<string>, spaced: seq<string>)
    requires |spaced| == |vs| >= 1
    requires forall i :: 0 <= i < |vs| ==> spaced[i] == " " + vs[i]
    ensures " " + Join(vs, ", ") == Join(spaced, [','])
    decreases |vs|
  {
    if |vs| > 1 {
      JoinSpaced(vs[1..], spaced[1..]);
      assert Join(vs, ", ") == vs[0] + ", " + Join(vs[1..], ", ");
      assert Join(spaced, [',']) == spaced[0] + [','] + Join(spaced[1..], [',']);
    }
  }
}
