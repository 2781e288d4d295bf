/** Literal block scalars: what a YAML 1.2.2 reader makes of the lines below `key: |` (sections
    8.1.1.1, 8.1.1.2 and 8.1.2), and which contents survive being indented and read back. */
module YamlBlock {
  import opened Prelude
  import opened Text

  predicate Blank(l: string) {
    forall i :: 0 <= i < |l| ==> l[i] == ' '
  }

  function Leading(l: string): (n: nat)
    ensures n <= |l| && (Blank(l) <==> n == |l|)
    ensures n < |l| ==> l[n] != ' '
    ensures forall i :: 0 <= i < n ==> l[i] == ' '
  {
    if l == "" then 0
    else if l[0] != ' ' then 0
    else 1 + Leading(l[1..])
  }

  /** The position of the first line that is not blank. */
  function FirstContent(lines: seq<string>): (f: nat)
    ensures f <= |lines|
    ensures f < |lines| ==> !Blank(lines[f])
    ensures forall i :: 0 <= i < f ==> Blank(lines[i])
  {
    if lines == [] || !Blank(lines[0]) then 0 else 1 + FirstContent(lines[1..])
  }

  /** How many lines belong to a scalar whose content is indented by `m`. */
  function Extent(lines: seq<string>, m: nat): (k: nat)
    ensures k <= |lines|
  {
    if lines == [] || (!Blank(lines[0]) && Leading(lines[0]) < m) then 0 else 1 + Extent(lines[1..], m)
  }

  /** A line without its indentation; a blank line no longer than that is empty. */
  function Outdented(l: string, m: nat): string {
    if |l| <= m then "" else l[m..]
  }

  function OutdentAll(lines: seq<string>, m: nat): (r: seq<string>)
    ensures |r| == |lines| && forall i :: 0 <= i < |r| ==> r[i] == Outdented(lines[i], m)
  {
    if lines == [] then [] else [Outdented(lines[0], m)] + OutdentAll(lines[1..], m)
  }

  function DropTrailingEmpty(lines: seq<string>): (r: seq<string>)
    ensures r <= lines
    ensures r != [] ==> r[|r| - 1] != ""
    ensures forall i :: |r| <= i < |lines| ==> lines[i] == ""
  {
    if lines == [] || lines[|lines| - 1] != "" then lines else DropTrailingEmpty(lines[..|lines| - 1])
  }

  datatype Scalar = Scalar(text: string, lines: nat)

  /** Reads the scalar below a key indented by `parent`: indentation is detected from the first
      line that is not blank, before which no line may be longer; the line feeds at the end are
      clipped to one. The result also says how many lines were read. */
  function ParseBlock(lines: seq<string>, parent: nat): (r: Option<Scalar>)
    ensures r.Some? ==> r.value.lines <= |lines|
  {
    var f := FirstContent(lines);
    if f == |lines| || Leading(lines[f]) <= parent then
      Some(Scalar("", f))
    else
      var m := Leading(lines[f]);
      if exists i :: 0 <= i < f && |lines[i]| > m then
        None
      else
        var k := Extent(lines, m);
        Some(Scalar(Unlines(DropTrailingEmpty(OutdentAll(lines[..k], m))), k))
  }

  /** `content` in lines, each indented by `pad`. */
  function Padded(content: seq<string>, pad: nat): (r: seq<string>)
    ensures |r| == |content| && forall i :: 0 <= i < |r| ==> r[i] == Spaces(pad) + content[i]
  {
    if content == [] then [] else [Spaces(pad) + content[0]] + Padded(content[1..], pad)
  }

  /** What follows the block: empty lines, then nothing or a line indented no further than the key. */
  ghost predicate Closes(rest: seq<string>, parent: nat) {
    var f := FirstContent(rest);
    && (forall i :: 0 <= i < f ==> rest[i] == "")
    && (f < |rest| ==> Leading(rest[f]) <= parent)
  }

  /** The first line that is not blank starts in the first column, and only empty lines stand
      before it. */
  predicate Readable(lines: seq<string>) {
    var f := FirstContent(lines);
    f < |lines| && Leading(lines[f]) == 0 && forall i :: 0 <= i < f ==> lines[i] == ""
  }

  /** `s` without the line feeds at its end. */
  function Trimmed(s: string): string {
    if s != "" && s[|s| - 1] == NL then Trimmed(s[..|s| - 1]) else s
  }

  lemma LeadingUnique(l: string, n: nat)
    requires n <= |l| && (forall i :: 0 <= i < n ==> l[i] == ' ') && (n < |l| ==> l[n] != ' ')
    ensures Leading(l) == n
  {
  }

  lemma PaddedLine(l: string, pad: nat)
    ensures Blank(Spaces(pad) + l) <==> Blank(l)
    ensures Leading(Spaces(pad) + l) == pad + Leading(l)
  {
    var p := Spaces(pad) + l;
    LeadingUnique(p, pad + Leading(l));
  }

  /** The first content line of the padded block, whatever follows it. */
  lemma FirstPadded(content: seq<string>, pad: nat, rest: seq<string>)
    requires FirstContent(content) < |content|
    ensures FirstContent(Padded(content, pad) + rest) == FirstContent(content)
  {
    var f := FirstContent(content);
    var all := Padded(content, pad) + rest;
    forall i | 0 <= i <= f ensures all[i] == Spaces(pad) + content[i] && (Blank(all[i]) <==> Blank(content[i])) {
      PaddedLine(content[i], pad);
    }
    FirstContentUnique(all, f);
  }

  lemma FirstContentUnique(lines: seq<string>, f: nat)
    requires f < |lines| && !Blank(lines[f]) && forall i :: 0 <= i < f ==> Blank(lines[i])
    ensures FirstContent(lines) == f
  {
  }

  lemma {:induction false} ExtentOfPadded(content: seq<string>, pad: nat, rest: seq<string>)
    ensures Extent(Padded(content, pad) + rest, pad) == |content| + Extent(rest, pad)
    decreases |content|
  {
    var all := Padded(content, pad) + rest;
    if content == [] {
      assert all == rest;
    } else {
      PaddedLine(content[0], pad);
      assert all[0] == Spaces(pad) + content[0] && all[1..] == Padded(content[1..], pad) + rest;
      ExtentOfPadded(content[1..], pad, rest);
    }
  }

  lemma {:induction false} ExtentOfRest(rest: seq<string>, parent: nat, m: nat)
    requires Closes(rest, parent) && parent < m
    ensures Extent(rest, m) == FirstContent(rest)
    decreases |rest|
  {
    if rest != [] && Blank(rest[0]) {
      var f := FirstContent(rest[1..]);
      assert FirstContent(rest) == f + 1;
      assert forall i :: 0 <= i < f ==> rest[1..][i] == rest[i + 1];
      ExtentOfRest(rest[1..], parent, m);
    }
  }

  /** Outdenting the block gives the content back, and nothing for the empty lines after it. */
  lemma OutdentPadded(content: seq<string>, pad: nat, rest: seq<string>, e: nat)
    requires e <= |rest| && forall i :: 0 <= i < e ==> rest[i] == ""
    ensures var r := OutdentAll((Padded(content, pad) + rest)[..|content| + e], pad);
            |r| == |content| + e && r[..|content|] == content && forall i :: |content| <= i < |r| ==> r[i] == ""
  {
  }

  lemma {:induction false} DropUnique(lines: seq<string>, r: seq<string>)
    requires r <= lines && (r != [] ==> r[|r| - 1] != "") && forall i :: |r| <= i < |lines| ==> lines[i] == ""
    ensures DropTrailingEmpty(lines) == r
  {
  }

  /** On the padded lines of a readable content, detection finds the padding. */
  lemma {:induction false} DetectsPadding(content: seq<string>, pad: nat, rest: seq<string>, parent: nat)
    requires parent < pad && Readable(content)
    ensures var all := Padded(content, pad) + rest;
            ParseBlock(all, parent) ==
            Some(Scalar(Unlines(DropTrailingEmpty(OutdentAll(all[..Extent(all, pad)], pad))), Extent(all, pad)))
  {
    hide FirstContent, Leading, Blank, Extent, OutdentAll, Padded, Unlines, DropTrailingEmpty, Spaces;
    var all := Padded(content, pad) + rest;
    var f := FirstContent(content);
    FirstPadded(content, pad, rest);
    PaddedLine(content[f], pad);
    forall i | 0 <= i <= f ensures all[i] == Spaces(pad) + content[i] {}
  }

  /** Lines indented no further than the key are none of its block. */
  lemma NoBlockBelowKey(lines: seq<string>, parent: nat)
    requires forall i :: 0 <= i < |lines| ==> Leading(lines[i]) <= parent && (Blank(lines[i]) ==> lines[i] == "")
    ensures ParseBlock(lines, parent).Some? && ParseBlock(lines, parent).value.text == ""
  {
  }

  /** A readable content comes back with the line feeds at its end replaced by one. */
  lemma RoundTrip(content: seq<string>, pad: nat, rest: seq<string>, parent: nat)
    requires parent < pad && Closes(rest, parent) && Readable(content)
    ensures ParseBlock(Padded(content, pad) + rest, parent) ==
            Some(Scalar(Unlines(DropTrailingEmpty(content)), |content| + FirstContent(rest)))
  {
    hide Readable, ParseBlock, Leading, Blank, Extent, OutdentAll, Padded, Unlines, Spaces;
    var all := Padded(content, pad) + rest;
    var e := FirstContent(rest);
    DetectsPadding(content, pad, rest, parent);
    ExtentOfPadded(content, pad, rest);
    ExtentOfRest(rest, parent, pad);
    OutdentPadded(content, pad, rest, e);
    DropUnique(OutdentAll(all[..|content| + e], pad), DropTrailingEmpty(content));
  }

  lemma {:induction false} ExtentReachesContent(lines: seq<string>, m: nat, f: nat)
    requires f < |lines| && Leading(lines[f]) == m && forall i :: 0 <= i < f ==> Blank(lines[i])
    ensures f < Extent(lines, m)
  {
    if f > 0 {
      ExtentReachesContent(lines[1..], m, f - 1);
    }
  }

  ghost predicate AllOneLine(lines: seq<string>) {
    forall i :: 0 <= i < |lines| ==> OneLine(lines[i])
  }

  lemma PaddedOneLine(content: seq<string>, pad: nat)
    requires AllOneLine(content)
    ensures AllOneLine(Padded(content, pad))
  {
  }

  lemma OutdentOneLine(lines: seq<string>, m: nat)
    requires AllOneLine(lines)
    ensures AllOneLine(OutdentAll(lines, m))
  {
  }

  /** If the block is read back so, the content was readable. */
  lemma {:induction false} OnlyReadable(content: seq<string>, pad: nat, rest: seq<string>, parent: nat)
    requires parent < pad && Closes(rest, parent) && FirstContent(content) < |content|
    requires AllOneLine(content) && AllOneLine(rest)
    requires var r := ParseBlock(Padded(content, pad) + rest, parent);
             r.Some? && r.value.text == Unlines(DropTrailingEmpty(content))
    ensures Readable(content)
  {
    hide FirstContent, Leading, Blank, Extent, OutdentAll, Padded, Unlines, DropTrailingEmpty, Spaces, OneLine;
    var all := Padded(content, pad) + rest;
    var f := FirstContent(content);
    FirstPadded(content, pad, rest);
    PaddedLine(content[f], pad);
    assert all[f] == Spaces(pad) + content[f];
    var m := Leading(all[f]);
    var k := Extent(all, m);
    ExtentReachesContent(all, m, f);
    var out := OutdentAll(all[..k], m);
    var read, wanted := DropTrailingEmpty(out), DropTrailingEmpty(content);
    assert all[..k][f] == all[f] && out[f] == all[f][m..];
    assert f < |read| && f < |wanted|;
    PaddedOneLine(content, pad);
    OutdentOneLine(all[..k], m);
    UnlinesInjective(read, wanted);
    assert read[f] == out[f] && wanted[f] == content[f];
    forall i | 0 <= i < f ensures content[i] == "" {
      assert all[..k][i] == all[i] && |all[i]| <= m;
      assert read[i] == out[i] && wanted[i] == content[i];
    }
  }

  lemma {:induction false} LastLineNotEmpty(s: string)
    requires s != "" && s[|s| - 1] != NL
    ensures var lines := Split(s); lines[|lines| - 1] != ""
  {
    if |s| > 1 {
      LastLineNotEmpty(s[1..]);
    }
  }

  /** Dropping empty lines at the end is trimming line feeds at the end. */
  lemma {:induction false} TrimmedInLines(s: string)
    requires Trimmed(s) != ""
    ensures Unlines(DropTrailingEmpty(Split(s))) == Trimmed(s) + "\n"
    decreases |s|
  {
    if s[|s| - 1] == NL {
      var before := s[..|s| - 1];
      assert s == before + "\n" + "";
      SplitAtLineFeed(before, "");
      TrimmedInLines(before);
      assert (Split(before) + [""])[..|Split(before)|] == Split(before);
    } else {
      LastLineNotEmpty(s);
      UnlinesIsJoin(Split(s));
      JoinSplit(s);
    }
  }

  lemma {:induction false} ContentIsTrimmedNonEmpty(s: string)
    requires FirstContent(Split(s)) < |Split(s)|
    ensures Trimmed(s) != ""
    decreases |s|
  {
    if s != "" && s[|s| - 1] == NL {
      var before := s[..|s| - 1];
      assert s == before + "\n" + "";
      SplitAtLineFeed(before, "");
      FirstContentOfPrefix(Split(before), [""]);
      ContentIsTrimmedNonEmpty(before);
    }
  }

  lemma FirstContentOfPrefix(lines: seq<string>, blanks: seq<string>)
    requires forall i :: 0 <= i < |blanks| ==> Blank(blanks[i])
    ensures FirstContent(lines) == |lines| ==> FirstContent(lines + blanks) == |lines + blanks|
  {
  }

  /** For every content with a line that is not blank: the block below a key reads back as the
      content with the line feeds at its end replaced by one, if and only if the first line
      that is not blank starts in the first column with only empty lines before it. */
  lemma {:induction false} BlockRoundTrip(content: string, pad: nat, rest: seq<string>, parent: nat)
    requires parent < pad && Closes(rest, parent) && AllOneLine(rest)
    requires FirstContent(Split(content)) < |Split(content)|
    ensures (exists k ::
               ParseBlock(Padded(Split(content), pad) + rest, parent) == Some(Scalar(Trimmed(content) + "\n", k)))
            <==> Readable(Split(content))
  {
    var lines := Split(content);
    hide Split, Padded, ParseBlock, Readable, Unlines, DropTrailingEmpty, Closes, FirstContent;
    ContentIsTrimmedNonEmpty(content);
    TrimmedInLines(content);
    if Readable(lines) {
      RoundTrip(lines, pad, rest, parent);
    }
    if k :| ParseBlock(Padded(lines, pad) + rest, parent) == Some(Scalar(Trimmed(content) + "\n", k)) {
      assert AllOneLine(lines) by { assert forall i :: 0 <= i < |lines| ==> lines[i] in lines; }
      OnlyReadable(lines, pad, rest, parent);
    }
  }
}
