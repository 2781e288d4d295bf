/** Lines of text. */
module Text {
  const NL: char := '\n'

  ghost predicate OneLine(s: string) {
    forall i :: 0 <= i < |s| ==> s[i] != NL
  }

  function Spaces(n: nat): (s: string)
    ensures |s| == n && forall i :: 0 <= i < n ==> s[i] == ' '
  {
    if n == 0 then "" else Spaces(n - 1) + " "
  }

  /** Splits at every line feed, as Go's Split does: one line more than there are line feeds. */
  function Split(s: string): (lines: seq<string>)
    ensures lines != [] && forall l :: l in lines ==> OneLine(l)
  {
    if s == "" then [""]
    else if s[0] == NL then [""] + Split(s[1..])
    else
      var rest := Split(s[1..]);
      assert rest[0] in rest && forall l :: l in rest[1..] ==> l in rest;
      [[s[0]] + rest[0]] + rest[1..]
  }

  function Join(lines: seq<string>, separator: string): string {
    if lines == [] then ""
    else if |lines| == 1 then lines[0]
    else lines[0] + separator + Join(lines[1..], separator)
  }

  /** Every line with its line feed. */
  function Unlines(lines: seq<string>): string {
    if lines == [] then "" else lines[0] + "\n" + Unlines(lines[1..])
  }

  lemma {:induction false} JoinSplit(s: string)
    ensures Join(Split(s), "\n") == s
  {
    if s != "" {
      JoinSplit(s[1..]);
      var rest := Split(s[1..]);
      if s[0] == NL {
        assert Split(s)[1..] == rest;
      } else {
        assert Split(s)[0] == [s[0]] + rest[0] && Split(s)[1..] == rest[1..];
      }
    }
  }

  lemma {:induction false} SplitOneLine(l: string)
    requires OneLine(l)
    ensures Split(l) == [l]
  {
    if l != "" {
      SplitOneLine(l[1..]);
      assert [l[0]] + l[1..] == l;
    }
  }

  lemma OneLineConcat(a: string, b: string)
    requires OneLine(a) && OneLine(b)
    ensures OneLine(a + b)
  {
  }

  lemma {:induction false} SplitAtLineFeed(a: string, b: string)
    ensures Split(a + "\n" + b) == Split(a) + Split(b)
  {
    var all := a + "\n" + b;
    if a == "" {
      assert all[1..] == b;
    } else {
      assert all[0] == a[0] && all[1..] == a[1..] + "\n" + b;
      SplitAtLineFeed(a[1..], b);
    }
  }

  lemma Regroup(a: string, b: string, c: string, d: string)
    ensures a + b + c + d == a + b + (c + d)
  {
  }

  lemma ConsConcat(lines: seq<string>, more: seq<string>)
    requires lines != []
    ensures [lines[0]] + (lines[1..] + more) == lines + more
  {
  }

  lemma UnlinesHead(lines: seq<string>, s: string)
    requires lines != []
    ensures Unlines(lines) + s == lines[0] + "\n" + (Unlines(lines[1..]) + s)
  {
  }

  lemma {:induction false} SplitUnlines(lines: seq<string>, s: string)
    requires forall i :: 0 <= i < |lines| ==> OneLine(lines[i])
    ensures Split(Unlines(lines) + s) == lines + Split(s)
  {
    if lines == [] {
      assert Unlines(lines) + s == s;
    } else {
      hide Split, OneLine, Unlines;
      var tail := Unlines(lines[1..]) + s;
      assert Split(tail) == lines[1..] + Split(s) by { SplitUnlines(lines[1..], s); }
      assert Unlines(lines) + s == lines[0] + "\n" + tail by { UnlinesHead(lines, s); }
      SplitAtLineFeed(lines[0], tail);
      SplitOneLine(lines[0]);
      ConsConcat(lines, Split(s));
    }
  }

  lemma {:induction false} UnlinesConcat(a: seq<string>, b: seq<string>)
    ensures Unlines(a + b) == Unlines(a) + Unlines(b)
  {
    if a == [] {
      assert a + b == b;
    } else {
      UnlinesConcat(a[1..], b);
      assert (a + b)[1..] == a[1..] + b;
      Regroup(a[0], "\n", Unlines(a[1..]), Unlines(b));
    }
  }

  lemma {:induction false} UnlinesIsJoin(lines: seq<string>)
    requires lines != []
    ensures Unlines(lines) == Join(lines, "\n") + "\n"
  {
    if |lines| > 1 {
      UnlinesIsJoin(lines[1..]);
    } else {
      assert lines[1..] == [];
    }
  }

  lemma {:induction false} SplitJoin(lines: seq<string>)
    requires lines != [] && forall i :: 0 <= i < |lines| ==> OneLine(lines[i])
    ensures Split(Join(lines, "\n")) == lines
    decreases |lines|
  {
    SplitOneLine(lines[0]);
    if |lines| > 1 {
      SplitJoin(lines[1..]);
      SplitAtLineFeed(lines[0], Join(lines[1..], "\n"));
    }
  }

  /** Different line lists make different texts. */
  lemma {:induction false} UnlinesInjective(a: seq<string>, b: seq<string>)
    requires forall i :: 0 <= i < |a| ==> OneLine(a[i])
    requires forall i :: 0 <= i < |b| ==> OneLine(b[i])
    requires Unlines(a) == Unlines(b)
    ensures a == b
  {
    assert Unlines(a) + "" == Unlines(b) + "";
    SplitUnlines(a, "");
    SplitUnlines(b, "");
    assert a == (a + Split(""))[..|a + Split("")| - 1];
    assert b == (b + Split(""))[..|b + Split("")| - 1];
  }
}
