/** The taints that a node registers with, as the agent's configuration file carries them. */
module Taints {
  import opened Prelude
  import opened Text

  /** The value may be empty. */
  datatype Taint = Taint(key: string, value: string, effect: string)

  /** One taint as an argument of the agent. */
  function Format(t: Taint): string {
    if t.value != "" then t.key + "=" + t.value + ":" + t.effect else t.key + ":" + t.effect
  }

  function FormatAll(taints: seq<Taint>): (r: seq<string>)
    ensures |r| == |taints| && forall i :: 0 <= i < |r| ==> r[i] == Format(taints[i])
  {
    if taints == [] then [] else [Format(taints[0])] + FormatAll(taints[1..])
  }

  method FormatTaints(taints: seq<Taint>) returns (out: seq<string>)
    ensures out == FormatAll(taints)
  {
    out := [];
    for i := 0 to |taints|
      invariant |out| == i && forall j :: 0 <= j < i ==> out[j] == Format(taints[j])
    {
      var t := taints[i];
      if t.value != "" {
        out := out + [t.key + "=" + t.value + ":" + t.effect];
      } else {
        out := out + [t.key + ":" + t.effect];
      }
    }
  }

  // ---------------------------------------------------------------------------
  // Reading a taint.
  // ---------------------------------------------------------------------------

  function IndexOf(s: string, c: char): (i: nat)
    ensures i <= |s| && (i < |s| ==> s[i] == c) && forall j :: 0 <= j < i ==> s[j] != c
  {
    if s == "" || s[0] == c then 0 else 1 + IndexOf(s[1..], c)
  }

  predicate Without(s: string, c: char) {
    IndexOf(s, c) == |s|
  }

  /** `key`, `key:effect` or `key=value:effect`; anything with more separators is not a taint. */
  function Parse(s: string): Option<Taint> {
    var colon := IndexOf(s, ':');
    if colon == |s| then Some(Taint(s, "", ""))
    else
      var keyValue, effect := s[..colon], s[colon + 1..];
      var equals := IndexOf(keyValue, '=');
      if !Without(effect, ':') then None
      else if equals == |keyValue| then Some(Taint(keyValue, "", effect))
      else if !Without(keyValue[equals + 1..], '=') then None
      else Some(Taint(keyValue[..equals], keyValue[equals + 1..], effect))
  }

  lemma IndexOfSeparator(a: string, c: char, b: string)
    requires Without(a, c)
    ensures IndexOf(a + [c] + b, c) == |a|
    ensures (a + [c] + b)[..|a|] == a && (a + [c] + b)[|a| + 1..] == b
  {
    var s := a + [c] + b;
    assert s[|a|] == c && forall j :: 0 <= j < |a| ==> s[j] == a[j];
  }

  lemma WithoutConcat(a: string, b: string, c: char)
    ensures Without(a + b, c) <==> Without(a, c) && Without(b, c)
  {
    var s := a + b;
    assert forall j :: 0 <= j < |a| ==> s[j] == a[j];
    assert forall j :: 0 <= j < |b| ==> s[|a| + j] == b[j];
  }

  predicate Plain(t: Taint) {
    && Without(t.key, '=') && Without(t.key, ':')
    && Without(t.value, '=') && Without(t.value, ':')
    && Without(t.effect, ':')
  }

  lemma PlainIsRead(t: Taint)
    requires Plain(t)
    ensures Parse(Format(t)) == Some(t)
  {
    if t.value == "" {
      IndexOfSeparator(t.key, ':', t.effect);
    } else {
      var keyValue := t.key + "=" + t.value;
      WithoutConcat(t.key, "=", ':');
      WithoutConcat(t.key + "=", t.value, ':');
      IndexOfSeparator(keyValue, ':', t.effect);
      IndexOfSeparator(t.key, '=', t.value);
    }
  }

  lemma ReadIsPlain(s: string)
    requires !Without(s, ':')
    ensures Parse(s).Some? ==> Plain(Parse(s).value)
  {
  }

  /** A taint is read back exactly when its parts are free of the separators around them. */
  lemma ReadBackIff(t: Taint)
    ensures Parse(Format(t)) == Some(t) <==> Plain(t)
  {
    if Plain(t) {
      PlainIsRead(t);
    }
    assert ":"[0] == ':' && !Without(":", ':');
    WithoutConcat(t.key + "=" + t.value, ":", ':');
    WithoutConcat(t.key + "=" + t.value + ":", t.effect, ':');
    WithoutConcat(t.key, ":", ':');
    WithoutConcat(t.key + ":", t.effect, ':');
    ReadIsPlain(Format(t));
  }

  // ---------------------------------------------------------------------------
  // The agent's configuration.
  // ---------------------------------------------------------------------------

  const TAINTS_KEY := "node-taint:"
  const ITEM := "  - "

  function Items(texts: seq<string>): (r: seq<string>)
    ensures |r| == |texts| && forall i :: 0 <= i < |r| ==> r[i] == ITEM + texts[i]
  {
    if texts == [] then [] else [ITEM + texts[0]] + Items(texts[1..])
  }

  function Header(server: string, token: string): (h: seq<string>)
    ensures |h| == 4
  {
    ["server: " + server, "kubelet-arg:", "  - --cloud-provider=external", "token: " + token]
  }

  function Section(taints: seq<Taint>): seq<string> {
    if taints == [] then [] else [TAINTS_KEY] + Items(FormatAll(taints))
  }

  /** The lines that the configuration template renders. */
  function ConfigLines(server: string, token: string, taints: seq<Taint>): seq<string> {
    Header(server, token) + Section(taints)
  }

  function ConfigText(server: string, token: string, taints: seq<Taint>): string {
    Join(ConfigLines(server, token, taints), "\n")
  }

  function ReadItems(lines: seq<string>): Option<seq<Taint>> {
    if lines == [] || !(ITEM <= lines[0]) then Some([])
    else match (Parse(lines[0][|ITEM|..]), ReadItems(lines[1..]))
      case (Some(t), Some(more)) => Some([t] + more)
      case _ => None
  }

  /** The taints in a configuration file, which is read line by line. */
  function ReadTaints(lines: seq<string>): Option<seq<Taint>> {
    if lines == [] then Some([])
    else if lines[0] == TAINTS_KEY then ReadItems(lines[1..])
    else ReadTaints(lines[1..])
  }

  predicate AllPlain(taints: seq<Taint>) {
    forall i :: 0 <= i < |taints| ==> Plain(taints[i])
  }

  lemma ReadItem(text: string, lines: seq<string>)
    ensures ReadItems([ITEM + text] + lines) ==
            match (Parse(text), ReadItems(lines))
            case (Some(t), Some(more)) => Some([t] + more)
            case _ => None
  {
  }

  lemma {:induction false} ItemsReadBack(taints: seq<Taint>)
    requires AllPlain(taints)
    ensures ReadItems(Items(FormatAll(taints))) == Some(taints)
  {
    if taints != [] {
      ItemsReadBack(taints[1..]);
      PlainIsRead(taints[0]);
      var rest := Items(FormatAll(taints[1..]));
      assert FormatAll(taints) == [Format(taints[0])] + FormatAll(taints[1..]);
      assert Items(FormatAll(taints)) == [ITEM + Format(taints[0])] + rest;
      hide *;
      ReadItem(Format(taints[0]), rest);
      assert [taints[0]] + taints[1..] == taints;
    }
  }

  lemma {:induction false} KeysSkipped(keys: seq<string>, rest: seq<string>)
    requires forall i :: 0 <= i < |keys| ==> keys[i] != TAINTS_KEY
    ensures ReadTaints(keys + rest) == ReadTaints(rest)
  {
    if keys == [] {
      assert keys + rest == rest;
    } else {
      KeysSkipped(keys[1..], rest);
      assert (keys + rest)[0] == keys[0] && (keys + rest)[1..] == keys[1..] + rest;
    }
  }

  lemma HeaderIsNoTaints(server: string, token: string)
    ensures forall i :: 0 <= i < 4 ==> Header(server, token)[i] != TAINTS_KEY
  {
    var h := Header(server, token);
    assert h[0][0] == 's' && h[1][0] == 'k' && h[2][0] == ' ' && h[3][0] == 't';
  }

  lemma ConfigLinesReadBack(server: string, token: string, taints: seq<Taint>)
    requires AllPlain(taints)
    ensures ReadTaints(ConfigLines(server, token, taints)) == Some(taints)
  {
    HeaderIsNoTaints(server, token);
    ItemsReadBack(taints);
    KeysSkipped(Header(server, token), Section(taints));
    hide AllPlain, ReadItems, Items, FormatAll;
    if taints != [] {
      assert Section(taints)[1..] == Items(FormatAll(taints));
    }
  }

  ghost predicate AllOneLine(taints: seq<Taint>) {
    forall i :: 0 <= i < |taints| ==> OneLine(taints[i].key) && OneLine(taints[i].value) && OneLine(taints[i].effect)
  }

  lemma FormatIsOneLine(t: Taint)
    requires OneLine(t.key) && OneLine(t.value) && OneLine(t.effect)
    ensures OneLine(Format(t))
  {
  }

  lemma HeaderIsLines(server: string, token: string)
    requires OneLine(server) && OneLine(token)
    ensures forall i :: 0 <= i < 4 ==> OneLine(Header(server, token)[i])
  {
  }

  lemma SectionIsLines(taints: seq<Taint>)
    requires AllOneLine(taints)
    ensures forall i :: 0 <= i < |Section(taints)| ==> OneLine(Section(taints)[i])
  {
    forall i | 0 <= i < |taints| ensures OneLine(ITEM + Format(taints[i])) {
      FormatIsOneLine(taints[i]);
      OneLineConcat(ITEM, Format(taints[i]));
    }
    assert OneLine(TAINTS_KEY);
    hide OneLine, Format;
    var items := Items(FormatAll(taints));
    assert forall i :: 0 <= i < |items| ==> items[i] == ITEM + Format(taints[i]);
  }

  /** From the text of the configuration exactly the taints are read, in their order. */
  lemma ConfigReadsBack(server: string, token: string, taints: seq<Taint>)
    requires OneLine(server) && OneLine(token) && AllOneLine(taints) && AllPlain(taints)
    ensures ReadTaints(Split(ConfigText(server, token, taints))) == Some(taints)
  {
    hide ReadTaints, Header, Section, Join, Split;
    HeaderIsLines(server, token);
    SectionIsLines(taints);
    SplitJoin(ConfigLines(server, token, taints));
    ConfigLinesReadBack(server, token, taints);
  }
}
