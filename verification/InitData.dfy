/** What a new machine is given: the agent's configuration inside a cloud-config, inside the
    guest-info options, and what comes out of it at the other end. */
module InitData {
  import opened Prelude
  import opened Text
  import opened Taints
  import opened AgentConfig
  import opened Base64
  import opened CloudConfig
  import YamlBlock
  import I = InstanceMetadata

  const CONFIG_PATH := "/etc/rancher/rke2/config.yaml"
  const CONFIG_PERMISSIONS := "0640"
  const CONFIG_OWNER := "root:root"

  function ConfigFile(server: string, token: string, taints: seq<Taint>): File {
    File(CONFIG_PATH, CONFIG_PERMISSIONS, CONFIG_OWNER, ConfigText(server, token, taints))
  }

  /** The generated part of the user data. */
  method GetCommon(nodeName: string, server: string, token: string, taints: seq<Taint>, install: string)
    returns (d: DistroConfig)
    ensures fresh(d) && d.nodeName == nodeName && d.files == [ConfigFile(server, token, taints)]
    ensures d.files[0].path == "/etc/rancher/rke2/config.yaml"
    ensures d.files[0].permissions == "0640" && d.files[0].owner == "root:root"
    ensures d.commands ==
            ["sleep 10", install, "systemctl enable rke2-agent.service", "systemctl start rke2-agent.service"]
  {
    d := new DistroConfig(
      nodeName, [ConfigFile(server, token, taints)],
      ["sleep 10", install, "systemctl enable rke2-agent.service", "systemctl start rke2-agent.service"]);
  }

  // ---------------------------------------------------------------------------
  // The agent's configuration survives rendering.
  // ---------------------------------------------------------------------------

  ghost predicate Printable(server: string, token: string, taints: seq<Taint>) {
    OneLine(server) && OneLine(token) && Taints.AllOneLine(taints)
  }

  lemma {:induction false} JoinEnds(lines: seq<string>)
    requires lines != [] && lines[|lines| - 1] != ""
    ensures var text := Join(lines, "\n");
            var last := lines[|lines| - 1];
            text != "" && text[|text| - 1] == last[|last| - 1]
    decreases |lines|
  {
    if |lines| > 1 {
      JoinEnds(lines[1..]);
    }
  }

  /** The text is the lines, and does not end in a line feed. */
  lemma ConfigInLines(server: string, token: string, taints: seq<Taint>)
    requires Printable(server, token, taints)
    ensures Split(ConfigText(server, token, taints)) == ConfigLines(server, token, taints)
    ensures YamlBlock.Trimmed(ConfigText(server, token, taints)) == ConfigText(server, token, taints)
  {
    var lines := ConfigLines(server, token, taints);
    HeaderIsLines(server, token);
    SectionIsLines(taints);
    LastLine(server, token, taints);
    hide ConfigLines, Split, Join, OneLine;
    SplitJoin(lines);
    JoinEnds(lines);
    LastIsNoLineFeed(lines[|lines| - 1]);
  }

  lemma LastLine(server: string, token: string, taints: seq<Taint>)
    ensures var lines := ConfigLines(server, token, taints); |lines| >= 4 && lines[|lines| - 1] != ""
    ensures forall i :: 0 <= i < |ConfigLines(server, token, taints)| ==>
              ConfigLines(server, token, taints)[i] in Header(server, token) + Section(taints)
  {
  }

  lemma LastIsNoLineFeed(l: string)
    requires OneLine(l) && l != ""
    ensures l[|l| - 1] != NL
  {
  }

  lemma StartsReadable(lines: seq<string>)
    requires lines != [] && lines[0] != "" && lines[0][0] != ' '
    ensures YamlBlock.Readable(lines)
  {
  }

  lemma ConfigBegins(server: string, token: string, taints: seq<Taint>)
    ensures var text := ConfigText(server, token, taints); text != "" && text[0] == 's'
  {
    var lines := ConfigLines(server, token, taints);
    assert |lines| >= 4 && lines[0] != "" && lines[0][0] == 's';
  }

  lemma FirstLineBegins(text: string)
    requires text != "" && text[0] != NL
    ensures var lines := Split(text); lines[0] != "" && lines[0][0] == text[0]
  {
  }

  lemma PathIsLine()
    ensures OneLine(CONFIG_PATH) && OneLine(CONFIG_PERMISSIONS)
  {
  }

  /** It always starts in the first column, whatever the parts are. */
  lemma ConfigIsRenderable(server: string, token: string, taints: seq<Taint>)
    ensures Renderable(ConfigFile(server, token, taints))
  {
    PathIsLine();
    ConfigBegins(server, token, taints);
    hide Split, ConfigText, OneLine, YamlBlock.Readable;
    FirstLineBegins(ConfigText(server, token, taints));
    StartsReadable(Split(ConfigText(server, token, taints)));
  }

  lemma {:induction false} ItemsThenEmpty(lines: seq<string>)
    ensures Taints.ReadItems(lines + [""]) == Taints.ReadItems(lines)
  {
    if lines == [] {
      assert lines + [""] == [""];
    } else {
      ItemsThenEmpty(lines[1..]);
      assert (lines + [""])[1..] == lines[1..] + [""] && (lines + [""])[0] == lines[0];
    }
  }

  lemma {:induction false} TaintsThenEmpty(lines: seq<string>)
    ensures ReadTaints(lines + [""]) == ReadTaints(lines)
  {
    if lines == [] {
      assert lines + [""] == [""] && [""][1..] == [];
    } else {
      TaintsThenEmpty(lines[1..]);
      ItemsThenEmpty(lines[1..]);
      assert (lines + [""])[1..] == lines[1..] + [""] && (lines + [""])[0] == lines[0];
    }
  }

  /** The lines of the file on the machine. */
  lemma LinesOfFile(server: string, token: string, taints: seq<Taint>)
    requires Printable(server, token, taints)
    ensures Split(AsRead(ConfigFile(server, token, taints)).content) == ConfigLines(server, token, taints) + [""]
  {
    ConfigInLines(server, token, taints);
    hide Split, ConfigText, ConfigLines;
    var text := ConfigText(server, token, taints);
    assert text + "\n" == text + "\n" + "";
    SplitAtLineFeed(text, "");
    SplitOneLine("");
  }

  /** From the rendered cloud-config the agent reads exactly the taints it was given, in their order,
      whatever other files and commands there are. */
  lemma TaintsReachAgent(
    nodeName: string, server: string, token: string, taints: seq<Taint>, others: seq<File>, commands: seq<string>)
    requires OneLine(nodeName) && Printable(server, token, taints) && AllPlain(taints)
    requires forall i :: 0 <= i < |others| ==> Renderable(others[i])
    ensures var files := [ConfigFile(server, token, taints)] + others;
            var read := ReadFiles(Split(CloudConfigText(nodeName, files, commands)));
            && read.Some? && |read.value| == |files| && read.value[0].path == CONFIG_PATH
            && ReadTaints(Split(read.value[0].content)) == Some(taints)
  {
    var file := ConfigFile(server, token, taints);
    var files := [file] + others;
    ConfigIsRenderable(server, token, taints);
    RenderedFilesReadBack(nodeName, files, commands);
    AllAsReadLength(files);
    hide *;
    LinesOfFile(server, token, taints);
    TaintsThenEmpty(ConfigLines(server, token, taints));
    ConfigLinesReadBack(server, token, taints);
  }

  /** It also reads the server, the token and the arguments as they were given, under their own
      keys, and below `node-taint` the texts of the taints if there are any. */
  lemma ConfigReachesAgent(
    nodeName: string, server: string, token: string, taints: seq<Taint>, others: seq<File>, commands: seq<string>)
    requires OneLine(nodeName) && Printable(server, token, taints)
    requires forall i :: 0 <= i < |others| ==> Renderable(others[i])
    ensures var files := [ConfigFile(server, token, taints)] + others;
            var read := ReadFiles(Split(CloudConfigText(nodeName, files, commands)));
            && read.Some? && |read.value| == |files|
            && read.value[0].path == "/etc/rancher/rke2/config.yaml" && read.value[0].permissions == "0640"
            && var lines := Split(read.value[0].content);
            && ReadKey(lines, "server") == Some(server)
            && ReadKey(lines, "token") == Some(token)
            && ReadList(lines, "kubelet-arg") == Some(["--cloud-provider=external"])
            && ReadList(lines, "node-taint") == if taints == [] then None else Some(FormatAll(taints))
  {
    var file := ConfigFile(server, token, taints);
    var files := [file] + others;
    ConfigIsRenderable(server, token, taints);
    RenderedFilesReadBack(nodeName, files, commands);
    AllAsReadLength(files);
    assert AsRead(file).path == "/etc/rancher/rke2/config.yaml" && AsRead(file).permissions == "0640";
    hide *;
    LinesOfFile(server, token, taints);
    KeysRead(server, token, taints);
  }

  /** The host's own name is read from the same text. */
  lemma HostnameReadsBack(nodeName: string, files: seq<File>, commands: seq<string>)
    requires OneLine(nodeName)
    requires forall i :: 0 <= i < |files| ==> OneLine(files[i].path) && OneLine(files[i].permissions)
    ensures ReadKey(Split(CloudConfigText(nodeName, files, commands)), "hostname") == Some(nodeName)
  {
    var below := ["", "write_files:"] + FileLines(files, commands);
    Regroup(HeaderText(nodeName) + FilesText(files), "\n", COMMANDS_KEY, CommandsText(commands));
    hide ReadKey, FilesText, CommandsText, FileLines, Split, HeaderText;
    FilesInLines(HeaderText(nodeName), files, commands);
    HeaderLines(nodeName);
    KeyFound("hostname", nodeName, below);
    var first := "#cloud-config";
    assert first[0] == '#' && "hostname" + ": " == "hostname: ";
    Skipped([first], ["hostname: " + nodeName] + below, "hostname");
    assert [first, "hostname: " + nodeName, "", "write_files:"] + FileLines(files, commands)
        == [first] + (["hostname: " + nodeName] + below);
  }

  lemma {:induction false} AllAsReadLength(files: seq<File>)
    ensures |AllAsRead(files)| == |files| && (files != [] ==> AllAsRead(files)[0] == AsRead(files[0]))
  {
    if files != [] {
      AllAsReadLength(files[1..]);
    }
  }

  // ---------------------------------------------------------------------------
  // Cloud-config user data from end to end.
  // ---------------------------------------------------------------------------

  /** How texts become bytes: anything that leaves a `#` at the beginning as it is. */
  ghost predicate KeepsHash(utf8: string -> Bytes) {
    forall s :: s != "" && s[0] == '#' ==> utf8(s) != [] && utf8(s)[0] == '#' as int
  }

  /** `GetInitData` for a cloud-config. The error of the renderer is not looked at: with additional
      user data that cannot be read, the machine gets none at all. Otherwise the guest decodes the
      rendered text. */
  method GetInitData(data: DistroConfig, additional: Additional, utf8: string -> Bytes, config: I.Config)
    requires KeepsHash(utf8)
    modifies data, config
    ensures exists value: Bytes ::
              && config.options == old(config.options) + [
                   I.OptionValue("guestinfo.userdata", value), I.OptionValue("guestinfo.userdata.encoding", I.BASE64),
                   I.OptionValue("guestinfo.metadata", Encode(I.HostMetadata(utf8(old(data.nodeName))))),
                   I.OptionValue("guestinfo.metadata.encoding", I.BASE64)]
              && if additional.Unreadable? then value == []
                 else Decode(value) == Some(utf8(CloudConfigText(data.nodeName, data.files, data.commands)))
  {
    var text := Render(data, additional);
    var rendered: Option<Bytes> := None;
    if text.Some? {
      BeginsWithHash(data.nodeName, data.files, data.commands);
      I.UserDataIsPlain(utf8(text.value));
      DecodeEncode(utf8(text.value));
      rendered := Some(utf8(text.value));
    }
    hide CloudConfigText;
    var _ := config.SetInitData(I.CloudConfig, rendered, utf8(data.nodeName));
    ghost var value := if rendered.None? then [] else Encode(rendered.value);
    assert config.options == old(config.options) + [
             I.OptionValue("guestinfo.userdata", value), I.OptionValue("guestinfo.userdata.encoding", I.BASE64),
             I.OptionValue("guestinfo.metadata", Encode(I.HostMetadata(utf8(old(data.nodeName))))),
             I.OptionValue("guestinfo.metadata.encoding", I.BASE64)];
  }

  lemma BeginsWithHash(nodeName: string, files: seq<File>, commands: seq<string>)
    ensures var text := CloudConfigText(nodeName, files, commands); text != "" && text[0] == '#'
  {
  }
}
