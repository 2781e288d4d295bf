/** The agent's configuration file as the agent reads it: by the names of its keys. */
module AgentConfig {
  import opened Prelude
  import opened Text
  import opened Taints

  /** The rest of the first line that gives `key` a value. */
  function ReadKey(lines: seq<string>, key: string): Option<string> {
    if lines == [] then None
    else if key + ": " <= lines[0] then Some(lines[0][|key| + 2..])
    else ReadKey(lines[1..], key)
  }

  /** The items in front of the first line that is none. */
  function ReadEntries(lines: seq<string>): seq<string> {
    if lines == [] || !("  - " <= lines[0]) then [] else [lines[0][4..]] + ReadEntries(lines[1..])
  }

  /** The items below the line that opens the list `key`. */
  function ReadList(lines: seq<string>, key: string): Option<seq<string>> {
    if lines == [] then None
    else if lines[0] == key + ":" then Some(ReadEntries(lines[1..]))
    else ReadList(lines[1..], key)
  }

  lemma KeyFound(key: string, value: string, rest: seq<string>)
    ensures ReadKey([key + ": " + value] + rest, key) == Some(value)
  {
  }

  lemma ListFound(key: string, rest: seq<string>)
    ensures ReadList([key + ":"] + rest, key) == Some(ReadEntries(rest))
  {
  }

  /** Lines that begin otherwise are passed over. */
  lemma {:induction false} Skipped(before: seq<string>, rest: seq<string>, key: string)
    requires key != "" && forall i :: 0 <= i < |before| ==> before[i] == "" || before[i][0] != key[0]
    ensures ReadKey(before + rest, key) == ReadKey(rest, key)
    ensures ReadList(before + rest, key) == ReadList(rest, key)
  {
    if before == [] {
      assert before + rest == rest;
    } else {
      Skipped(before[1..], rest, key);
      var lines := before + rest;
      assert lines[0] == before[0] && lines[1..] == before[1..] + rest;
      assert (key + ": ")[0] == key[0] && (key + ":")[0] == key[0];
    }
  }

  lemma {:induction false} EntriesRead(texts: seq<string>, rest: seq<string>)
    requires rest == [] || rest[0] == "" || rest[0][0] != ' '
    ensures ReadEntries(Items(texts) + rest) == texts
  {
    if texts == [] {
      assert Items(texts) + rest == rest;
    } else {
      EntriesRead(texts[1..], rest);
      var lines := Items(texts) + rest;
      assert lines[0] == "  - " + texts[0] && lines[1..] == Items(texts[1..]) + rest;
      assert texts == [texts[0]] + texts[1..];
    }
  }

  lemma ScalarsRead(server: string, arg: string, token: string, below: seq<string>)
    requires arg != "" && arg[0] == ' '
    ensures var lines := ["server: " + server, "kubelet-arg:", arg, "token: " + token] + below;
            ReadKey(lines, "server") == Some(server) && ReadKey(lines, "token") == Some(token)
  {
    var s, k, t := "server: " + server, "kubelet-arg:", "token: " + token;
    assert s[0] == 's' && k[0] == 'k';
    KeyFound("server", server, [k, arg, t] + below);
    KeyFound("token", token, below);
    Skipped([s, k, arg], [t] + below, "token");
    hide *;
    assert [s, k, arg, t] + below == [s] + ([k, arg, t] + below) == [s, k, arg] + ([t] + below);
  }

  lemma ArgumentsRead(server: string, token: string, below: seq<string>)
    ensures ReadList(["server: " + server, "kubelet-arg:", "  - --cloud-provider=external", "token: " + token] + below,
                     "kubelet-arg") == Some(["--cloud-provider=external"])
  {
    var s, k, c, t := "server: " + server, "kubelet-arg:", "  - --cloud-provider=external", "token: " + token;
    assert s[0] == 's' && t[0] == 't' && "kubelet-arg" + ":" == k;
    Skipped([s], [k] + ([c, t] + below), "kubelet-arg");
    ListFound("kubelet-arg", [c, t] + below);
    ArgumentsEnd(c, t, below);
    hide *;
    assert [s, k, c, t] + below == [s] + ([k] + ([c, t] + below));
  }

  lemma ArgumentsEnd(item: string, next: string, below: seq<string>)
    requires item == "  - --cloud-provider=external" && next != "" && next[0] == 't'
    ensures ReadEntries([item, next] + below) == ["--cloud-provider=external"]
  {
    assert ([item, next] + below)[1..] == [next] + below;
    assert item[4..] == "--cloud-provider=external";
    assert ReadEntries([next] + below) == [];
  }

  lemma TaintsRead(taints: seq<Taint>)
    ensures ReadList(Section(taints) + [""], "node-taint") == if taints == [] then None else Some(FormatAll(taints))
  {
    if taints == [] {
      assert Section(taints) + [""] == [""] && [""][1..] == [];
    } else {
      var items := Items(FormatAll(taints));
      EntriesRead(FormatAll(taints), [""]);
      ListFound("node-taint", items + [""]);
      assert "node-taint" + ":" == "node-taint:";
      hide ReadList, ReadEntries, Items, FormatAll;
      assert Section(taints) + [""] == ["node-taint:"] + (items + [""]);
    }
  }

  /** The configuration with the end of its file: what the agent reads under each key. */
  lemma KeysRead(server: string, token: string, taints: seq<Taint>)
    ensures var lines := ConfigLines(server, token, taints) + [""];
            && ReadKey(lines, "server") == Some(server)
            && ReadKey(lines, "token") == Some(token)
            && ReadList(lines, "kubelet-arg") == Some(["--cloud-provider=external"])
            && ReadList(lines, "node-taint") == if taints == [] then None else Some(FormatAll(taints))
  {
    var c, below := "  - --cloud-provider=external", Section(taints) + [""];
    var header := ["server: " + server, "kubelet-arg:", c, "token: " + token];
    assert header[0][0] == 's' && header[1][0] == 'k' && c[0] == ' ' && header[3][0] == 't';
    assert ConfigLines(server, token, taints) + [""] == header + below;
    hide *;
    ScalarsRead(server, c, token, below);
    ArgumentsRead(server, token, below);
    Skipped(header, below, "node-taint");
    TaintsRead(taints);
  }
}
