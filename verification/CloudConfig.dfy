/** Rendering of cloud-config user data, and what a reader of the rendered file list gets. */
module CloudConfig {
  import opened Prelude
  import opened Text
  import opened YamlBlock

  datatype File = File(path: string, permissions: string, owner: string, content: string)

  /** The additional user data: absent, not YAML, or parsed. */
  datatype Additional = Absent | Unreadable | Parsed(files: seq<File>, commands: seq<string>)

  const CONTENT_PAD := 6
  const CONTENT_KEY_INDENT := 4
  const PATH_KEY := "  - path: "
  const PERMISSIONS_KEY := "    permissions: \""
  const CONTENT_KEY := "    content: |"
  const COMMANDS_KEY := "runcmd:"

  /** Every line of `v` indented and ended. */
  function Indent(spaces: nat, v: string): string {
    Unlines(Padded(Split(v), spaces))
  }

  function FileText(f: File): string {
    "\n" + (PATH_KEY + f.path + "\n"
        + (PERMISSIONS_KEY + f.permissions + "\"" + "\n" + (CONTENT_KEY + "\n" + Indent(CONTENT_PAD, f.content))))
  }

  function FilesText(files: seq<File>): string {
    if files == [] then "" else FileText(files[0]) + FilesText(files[1..])
  }

  function CommandsText(commands: seq<string>): string {
    if commands == [] then "" else CommandsText(commands[..|commands| - 1]) + "\n  - " + commands[|commands| - 1]
  }

  function HeaderText(nodeName: string): string {
    "#cloud-config" + "\n" + ("hostname: " + nodeName + "\n" + ("" + "\n" + "write_files:"))
  }

  function CloudConfigText(nodeName: string, files: seq<File>, commands: seq<string>): string {
    HeaderText(nodeName) + FilesText(files) + "\n" + COMMANDS_KEY + CommandsText(commands)
  }

  /** The template function `indent`. */
  method IndentText(spaces: nat, v: string) returns (out: string)
    ensures out == Indent(spaces, v)
  {
    var pad := Spaces(spaces);
    var lines := Split(v);
    out := "";
    for i := 0 to |lines|
      invariant out + Unlines(Padded(lines[i..], spaces)) == Indent(spaces, v)
    {
      Regroup(pad + lines[i], "\n", "", Unlines(Padded(lines[i + 1..], spaces)));
      assert lines[i..][1..] == lines[i + 1..];
      out := out + (pad + lines[i] + "\n");
    }
  }

  /** One entry of the file list. */
  method RenderFile(f: File) returns (text: string)
    ensures text == FileText(f)
  {
    var block := IndentText(CONTENT_PAD, f.content);
    text := "\n"
        + (PATH_KEY + f.path + "\n" + (PERMISSIONS_KEY + f.permissions + "\"" + "\n" + (CONTENT_KEY + "\n" + block)));
  }

  method RenderFiles(files: seq<File>) returns (text: string)
    ensures text == FilesText(files)
  {
    hide FileText;
    text := "";
    for i := 0 to |files|
      invariant text + FilesText(files[i..]) == FilesText(files)
    {
      var entry := RenderFile(files[i]);
      assert files[i..][1..] == files[i + 1..];
      Regroup("", text, entry, FilesText(files[i + 1..]));
      text := text + entry;
    }
  }

  method RenderCommands(commands: seq<string>) returns (text: string)
    ensures text == CommandsText(commands)
  {
    text := "";
    for i := 0 to |commands|
      invariant text == CommandsText(commands[..i])
    {
      assert commands[..i + 1][..i] == commands[..i];
      text := text + "\n  - " + commands[i];
    }
    assert commands[..|commands|] == commands;
  }

  class DistroConfig {
    var nodeName: string
    var files: seq<File>
    var commands: seq<string>

    constructor (nodeName: string, files: seq<File>, commands: seq<string>)
      ensures this.nodeName == nodeName && this.files == files && this.commands == commands
    {
      this.nodeName := nodeName;
      this.files := files;
      this.commands := commands;
    }
  }

  /** Appends the additional files and commands to the generated ones, then renders. */
  method Render(data: DistroConfig, additional: Additional) returns (out: Option<string>)
    modifies data
    ensures data.nodeName == old(data.nodeName)
    ensures out.None? <==> additional.Unreadable?
    ensures !additional.Parsed? ==> data.files == old(data.files) && data.commands == old(data.commands)
    ensures additional.Parsed? ==> data.files == old(data.files) + additional.files
                                   && data.commands == old(data.commands) + additional.commands
    ensures out.Some? ==> out.value == CloudConfigText(data.nodeName, data.files, data.commands)
  {
    match additional {
      case Unreadable =>
        return None;
      case Parsed(files, commands) =>
        data.files := data.files + files;
        data.commands := data.commands + commands;
      case Absent =>
    }
    var filesText := RenderFiles(data.files);
    var commandsText := RenderCommands(data.commands);
    out := Some(HeaderText(data.nodeName) + filesText + "\n" + COMMANDS_KEY + commandsText);
  }

  // ---------------------------------------------------------------------------
  // Reading the files back.
  // ---------------------------------------------------------------------------

  datatype FileRead = FileRead(path: string, permissions: string, content: string)

  predicate StartsWith(l: string, prefix: string) {
    prefix <= l
  }

  /** The three lines that open a file entry. */
  predicate OpensFile(lines: seq<string>) {
    && |lines| >= 3
    && StartsWith(lines[0], PATH_KEY)
    && StartsWith(lines[1], PERMISSIONS_KEY) && |lines[1]| > |PERMISSIONS_KEY| && lines[1][|lines[1]| - 1] == '"'
    && lines[2] == CONTENT_KEY
  }

  /** The entries below `write_files:`, each with its literal block read as YAML reads it. */
  function ReadFiles(lines: seq<string>): Option<seq<FileRead>>
    decreases |lines|
  {
    if lines == [] || lines[0] == COMMANDS_KEY then Some([])
    else if !OpensFile(lines) then ReadFiles(lines[1..])
    else match ParseBlock(lines[3..], CONTENT_KEY_INDENT)
      case None => None
      case Some(block) =>
        var f := FileRead(lines[0][|PATH_KEY|..], lines[1][|PERMISSIONS_KEY|..|lines[1]| - 1], block.text);
        match ReadFiles(lines[3..][block.lines..])
        case None => None
        case Some(more) => Some([f] + more)
  }

  /** A file as it should be read: its content with one line feed at the end. */
  function AsRead(f: File): FileRead {
    FileRead(f.path, f.permissions, Trimmed(f.content) + "\n")
  }

  function AllAsRead(files: seq<File>): seq<FileRead> {
    if files == [] then [] else [AsRead(files[0])] + AllAsRead(files[1..])
  }

  ghost predicate Renderable(f: File) {
    OneLine(f.path) && OneLine(f.permissions) && YamlBlock.Readable(Split(f.content))
  }

  /** The lines that open the entry of `f`. */
  function Opening(f: File): seq<string> {
    [PATH_KEY + f.path, PERMISSIONS_KEY + f.permissions + "\"", CONTENT_KEY]
  }

  /** The lines from the first file entry on. */
  function FileLines(files: seq<File>, commands: seq<string>): seq<string> {
    if files == [] then Split(COMMANDS_KEY + CommandsText(commands))
    else Opening(files[0]) + Padded(Split(files[0].content), CONTENT_PAD) + [""] + FileLines(files[1..], commands)
  }

  lemma {:induction false} CommandsBegin(commands: seq<string>)
    ensures FileLines([], commands)[0] == COMMANDS_KEY
    ensures |FileLines([], commands)| > 0
  {
    CommandsOpen(commands);
    var c := CommandsText(commands);
    SplitOneLine(COMMANDS_KEY);
    if c == "" {
      assert COMMANDS_KEY + c == COMMANDS_KEY;
    } else {
      assert COMMANDS_KEY + c == COMMANDS_KEY + "\n" + c[1..];
      SplitAtLineFeed(COMMANDS_KEY, c[1..]);
    }
  }

  lemma {:induction false} CommandsOpen(commands: seq<string>)
    ensures CommandsText(commands) == "" || CommandsText(commands)[0] == NL
  {
    if commands != [] {
      CommandsOpen(commands[..|commands| - 1]);
    }
  }

  /** What follows a block is an empty line and then a key further out. */
  lemma NextEntryCloses(files: seq<File>, commands: seq<string>)
    ensures Closes([""] + FileLines(files, commands), CONTENT_KEY_INDENT)
    ensures FirstContent([""] + FileLines(files, commands)) == 1
  {
    var next := FileLines(files, commands);
    if files == [] {
      CommandsBegin(commands);
      LeadingUnique(next[0], 0);
    } else {
      assert next[0] == PATH_KEY + files[0].path;
      LeadingUnique(next[0], 2);
    }
    FirstContentUnique([""] + next, 1);
    assert ([""] + next)[1] == next[0];
  }

  /** The block below the opening of the entry of `f`. */
  lemma BlockOfEntry(f: File, next: seq<string>)
    requires YamlBlock.Readable(Split(f.content))
    requires Closes([""] + next, CONTENT_KEY_INDENT) && FirstContent([""] + next) == 1
    ensures ParseBlock(Padded(Split(f.content), CONTENT_PAD) + ([""] + next), CONTENT_KEY_INDENT)
            == Some(Scalar(Trimmed(f.content) + "\n", |Split(f.content)| + 1))
  {
    hide Split, Padded, ParseBlock, YamlBlock.Readable, Closes, FirstContent, Unlines, DropTrailingEmpty, Trimmed;
    var content := Split(f.content);
    RoundTrip(content, CONTENT_PAD, [""] + next, CONTENT_KEY_INDENT);
    ReadableHasContent(content);
    ContentIsTrimmedNonEmpty(f.content);
    TrimmedInLines(f.content);
  }

  lemma Pieces(opening: seq<string>, block: seq<string>, next: seq<string>)
    requires |opening| == 3
    ensures var lines := opening + block + [""] + next;
            lines[..3] == opening && lines[3..] == block + ([""] + next) && lines[3..][|block| + 1..] == next
  {
  }

  /** One entry in front of lines that read as `more`. */
  lemma {:induction false} EntryReadsBack(f: File, next: seq<string>, more: seq<FileRead>)
    requires Renderable(f) && ReadFiles(next) == Some(more)
    requires Closes([""] + next, CONTENT_KEY_INDENT) && FirstContent([""] + next) == 1
    ensures ReadFiles(Opening(f) + Padded(Split(f.content), CONTENT_PAD) + [""] + next) == Some([AsRead(f)] + more)
  {
    hide Split, Padded, ParseBlock, YamlBlock.Readable, Closes, FirstContent, Opening, OpensFile, Trimmed, ReadFiles;
    var lines := Opening(f) + Padded(Split(f.content), CONTENT_PAD) + [""] + next;
    OpeningLength(f);
    Pieces(Opening(f), Padded(Split(f.content), CONTENT_PAD), next);
    EntryOpens(lines, f);
    BlockOfEntry(f, next);
    ReadEntry(lines, Scalar(Trimmed(f.content) + "\n", |Split(f.content)| + 1), more);
  }

  /** How an entry is read. */
  lemma ReadEntry(lines: seq<string>, block: Scalar, more: seq<FileRead>)
    requires OpensFile(lines) && lines[0] != COMMANDS_KEY && block.lines <= |lines| - 3
    requires ParseBlock(lines[3..], CONTENT_KEY_INDENT) == Some(block)
        && ReadFiles(lines[3..][block.lines..]) == Some(more)
    ensures ReadFiles(lines) ==
            Some([FileRead(lines[0][|PATH_KEY|..], lines[1][|PERMISSIONS_KEY|..|lines[1]| - 1], block.text)] + more)
  {
  }

  lemma OpeningLength(f: File)
    ensures |Opening(f)| == 3
  {
  }

  lemma ReadableHasContent(lines: seq<string>)
    requires YamlBlock.Readable(lines)
    ensures FirstContent(lines) < |lines|
  {
  }

  lemma {:induction false} FilesReadBack(files: seq<File>, commands: seq<string>)
    requires forall i :: 0 <= i < |files| ==> Renderable(files[i])
    ensures ReadFiles(FileLines(files, commands)) == Some(AllAsRead(files))
    decreases |files|
  {
    if files == [] {
      CommandsBegin(commands);
    } else {
      hide Renderable, ReadFiles, Closes, FirstContent, Padded, Opening, AsRead;
      FilesReadBack(files[1..], commands);
      NextEntryCloses(files[1..], commands);
      EntryReadsBack(files[0], FileLines(files[1..], commands), AllAsRead(files[1..]));
    }
  }

  lemma EntryOpens(lines: seq<string>, f: File)
    requires |lines| >= 3 && lines[..3] == Opening(f)
    ensures OpensFile(lines) && lines[0] != COMMANDS_KEY
    ensures lines[0][|PATH_KEY|..] == f.path && lines[1][|PERMISSIONS_KEY|..|lines[1]| - 1] == f.permissions
  {
  }

  lemma EntryLines(before: string, f: File)
    requires OneLine(f.path) && OneLine(f.permissions)
    ensures Split(before + FileText(f)) == Split(before) + (Opening(f) + Padded(Split(f.content), CONTENT_PAD) + [""])
  {
    hide Split, OneLine, Indent, Padded;
    var o := Opening(f);
    var block := Indent(CONTENT_PAD, f.content);
    var below := o[1] + "\n" + (o[2] + "\n" + block);
    assert FileText(f) == "\n" + (o[0] + "\n" + below);
    assert before + FileText(f) == before + "\n" + (o[0] + "\n" + below);
    SplitAtLineFeed(before, o[0] + "\n" + below);
    SplitAtLineFeed(o[0], below);
    SplitAtLineFeed(o[1], o[2] + "\n" + block);
    SplitAtLineFeed(o[2], block);
    OpeningIsLines(f);
    SplitIndented(f.content);
    var p := Padded(Split(f.content), CONTENT_PAD);
    assert [o[0]] + ([o[1]] + ([o[2]] + (p + [""]))) == o + p + [""];
  }

  lemma KeysAreLines()
    ensures OneLine(PATH_KEY) && OneLine(PERMISSIONS_KEY) && OneLine(CONTENT_KEY) && OneLine(COMMANDS_KEY)
        && OneLine("\"")
  {
  }

  lemma ConcatIsLine(a: string, b: string)
    requires OneLine(a) && OneLine(b)
    ensures Split(a + b) == [a + b]
  {
    OneLineConcat(a, b);
    SplitOneLine(a + b);
  }

  lemma OpeningIsLines(f: File)
    requires OneLine(f.path) && OneLine(f.permissions)
    ensures forall i :: 0 <= i < 3 ==> Split(Opening(f)[i]) == [Opening(f)[i]]
  {
    hide Split, OneLine;
    KeysAreLines();
    ConcatIsLine(PATH_KEY, f.path);
    OneLineConcat(PERMISSIONS_KEY, f.permissions);
    ConcatIsLine(PERMISSIONS_KEY + f.permissions, "\"");
    SplitOneLine(CONTENT_KEY);
  }

  lemma SplitIndented(content: string)
    ensures Split(Indent(CONTENT_PAD, content)) == Padded(Split(content), CONTENT_PAD) + [""]
  {
    var p := Padded(Split(content), CONTENT_PAD);
    assert AllOneLine(Split(content))
        by { assert forall i :: 0 <= i < |Split(content)| ==> Split(content)[i] in Split(content); }
    PaddedOneLine(Split(content), CONTENT_PAD);
    SplitUnlines(p, "");
    assert Unlines(p) + "" == Unlines(p);
  }

  lemma {:induction false} FilesInLines(before: string, files: seq<File>, commands: seq<string>)
    requires forall i :: 0 <= i < |files| ==> OneLine(files[i].path) && OneLine(files[i].permissions)
    ensures Split(before + FilesText(files) + "\n" + (COMMANDS_KEY + CommandsText(commands))) ==
            Split(before) + FileLines(files, commands)
    decreases |files|
  {
    hide Split, FileText, Padded, Opening, OneLine;
    if files == [] {
      assert before + FilesText(files) == before;
      SplitAtLineFeed(before, COMMANDS_KEY + CommandsText(commands));
    } else {
      assert before + FilesText(files) == before + FileText(files[0]) + FilesText(files[1..]);
      FilesInLines(before + FileText(files[0]), files[1..], commands);
      EntryLines(before, files[0]);
      Associate(Split(before), Opening(files[0]) + Padded(Split(files[0].content), CONTENT_PAD) + [""],
          FileLines(files[1..], commands));
    }
  }

  lemma Associate(a: seq<string>, b: seq<string>, c: seq<string>)
    ensures a + b + c == a + (b + c)
  {
  }

  /** No line of the header is the start of an entry or the end of the list. */
  lemma {:induction false} HeaderIsSkipped(header: seq<string>, lines: seq<string>)
    requires forall i :: 0 <= i < |header| ==> (header[i] == "" || header[i][0] != ' ') && header[i] != COMMANDS_KEY
    ensures ReadFiles(header + lines) == ReadFiles(lines)
  {
    if header == [] {
      assert header + lines == lines;
    } else {
      assert (header + lines)[1..] == header[1..] + lines;
      assert (header + lines)[0] == header[0];
      HeaderIsSkipped(header[1..], lines);
    }
  }

  lemma HeaderWordsAreLines()
    ensures OneLine("#cloud-config") && OneLine("hostname: ") && OneLine("") && OneLine("write_files:")
  {
  }

  lemma HeaderLines(nodeName: string)
    requires OneLine(nodeName)
    ensures Split(HeaderText(nodeName)) == ["#cloud-config", "hostname: " + nodeName, "", "write_files:"]
  {
    hide Split, OneLine;
    var h1, h2, h4 := "#cloud-config", "hostname: " + nodeName, "write_files:";
    SplitAtLineFeed(h1, h2 + "\n" + ("" + "\n" + h4));
    SplitAtLineFeed(h2, "" + "\n" + h4);
    SplitAtLineFeed("", h4);
    HeaderWordsAreLines();
    SplitOneLine(h1);
    ConcatIsLine("hostname: ", nodeName);
    SplitOneLine("");
    SplitOneLine(h4);
  }

  /** From the rendered text every file is read back, in the order rendered, with its path, its
      permissions and its content, the line feeds at whose end have become one. */
  lemma {:induction false} RenderedFilesReadBack(nodeName: string, files: seq<File>, commands: seq<string>)
    requires OneLine(nodeName) && forall i :: 0 <= i < |files| ==> Renderable(files[i])
    ensures ReadFiles(Split(CloudConfigText(nodeName, files, commands))) == Some(AllAsRead(files))
  {
    assert forall i :: 0 <= i < |files| ==> Renderable(files[i]) ==>
        OneLine(files[i].path) && OneLine(files[i].permissions);
    hide ReadFiles, FilesText, CommandsText, FileLines, Split, Renderable, HeaderText;
    var header := ["#cloud-config", "hostname: " + nodeName, "", "write_files:"];
    Regroup(HeaderText(nodeName) + FilesText(files), "\n", COMMANDS_KEY, CommandsText(commands));
    FilesInLines(HeaderText(nodeName), files, commands);
    HeaderLines(nodeName);
    HeaderIsSkipped(header, FileLines(files, commands));
    FilesReadBack(files, commands);
  }

  // ---------------------------------------------------------------------------
  // Reading the commands back.
  // ---------------------------------------------------------------------------

  const ITEM := "  - "

  function Items(commands: seq<string>): (r: seq<string>)
    ensures |r| == |commands| && forall i :: 0 <= i < |r| ==> r[i] == ITEM + commands[i]
  {
    if commands == [] then [] else Items(commands[..|commands| - 1]) + [ITEM + commands[|commands| - 1]]
  }

  /** The items at the beginning of `lines`. */
  function ReadItems(lines: seq<string>): seq<string> {
    if lines == [] || !StartsWith(lines[0], ITEM) then [] else [lines[0][|ITEM|..]] + ReadItems(lines[1..])
  }

  /** The items below `runcmd:`. */
  function ReadCommands(lines: seq<string>): seq<string> {
    if lines == [] then []
    else if lines[0] == COMMANDS_KEY then ReadItems(lines[1..])
    else ReadCommands(lines[1..])
  }

  lemma {:induction false} CommandsInLines(commands: seq<string>)
    requires forall i :: 0 <= i < |commands| ==> OneLine(commands[i])
    ensures Split(COMMANDS_KEY + CommandsText(commands)) == [COMMANDS_KEY] + Items(commands)
    decreases |commands|
  {
    hide Split;
    if commands == [] {
      assert COMMANDS_KEY + CommandsText(commands) == COMMANDS_KEY;
      KeysAreLines();
      SplitOneLine(COMMANDS_KEY);
    } else {
      var init, last := commands[..|commands| - 1], commands[|commands| - 1];
      CommandsInLines(init);
      assert COMMANDS_KEY + CommandsText(commands) == COMMANDS_KEY + CommandsText(init) + "\n" + (ITEM + last);
      SplitAtLineFeed(COMMANDS_KEY + CommandsText(init), ITEM + last);
      assert OneLine(ITEM);
      ConcatIsLine(ITEM, last);
    }
  }

  lemma {:induction false} ItemsReadBack(lines: seq<string>, commands: seq<string>)
    requires |lines| == |commands| && forall i :: 0 <= i < |lines| ==> lines[i] == ITEM + commands[i]
    ensures ReadItems(lines) == commands
  {
    if lines != [] {
      ItemsReadBack(lines[1..], commands[1..]);
      assert lines[0][|ITEM|..] == commands[0];
    }
  }

  lemma {:induction false} OthersSkipped(others: seq<string>, lines: seq<string>)
    requires forall i :: 0 <= i < |others| ==> others[i] != COMMANDS_KEY
    ensures ReadCommands(others + lines) == ReadCommands(lines)
  {
    if others == [] {
      assert others + lines == lines;
    } else {
      OthersSkipped(others[1..], lines);
      assert (others + lines)[0] == others[0] && (others + lines)[1..] == others[1..] + lines;
    }
  }

  /** No line of an entry ends the list of files: it is empty or indented. */
  lemma EntryIsIndented(f: File, i: nat)
    requires i < |Opening(f) + Padded(Split(f.content), CONTENT_PAD) + [""]|
    ensures (Opening(f) + Padded(Split(f.content), CONTENT_PAD) + [""])[i] != COMMANDS_KEY
  {
    hide Split;
    var line := (Opening(f) + Padded(Split(f.content), CONTENT_PAD) + [""])[i];
    assert line == "" || line[0] == ' ';
  }

  lemma {:induction false} CommandsBelowFiles(files: seq<File>, commands: seq<string>)
    requires forall i :: 0 <= i < |commands| ==> OneLine(commands[i])
    ensures ReadCommands(FileLines(files, commands)) == commands
    decreases |files|
  {
    if files == [] {
      CommandsInLines(commands);
      hide Split, Items;
      assert FileLines(files, commands)[1..] == Items(commands);
      ItemsReadBack(Items(commands), commands);
    } else {
      CommandsBelowFiles(files[1..], commands);
      var entry := Opening(files[0]) + Padded(Split(files[0].content), CONTENT_PAD) + [""];
      forall i | 0 <= i < |entry| ensures entry[i] != COMMANDS_KEY { EntryIsIndented(files[0], i); }
      OthersSkipped(entry, FileLines(files[1..], commands));
    }
  }

  /** ... and so are the commands, in their order. */
  lemma RenderedCommandsReadBack(nodeName: string, files: seq<File>, commands: seq<string>)
    requires OneLine(nodeName)
    requires forall i :: 0 <= i < |files| ==> OneLine(files[i].path) && OneLine(files[i].permissions)
    requires forall i :: 0 <= i < |commands| ==> OneLine(commands[i])
    ensures ReadCommands(Split(CloudConfigText(nodeName, files, commands))) == commands
  {
    var header := ["#cloud-config", "hostname: " + nodeName, "", "write_files:"];
    assert forall i :: 0 <= i < 4 ==> header[i] == "" || header[i][0] != COMMANDS_KEY[0];
    hide ReadCommands, FilesText, CommandsText, FileLines, Split, HeaderText;
    Regroup(HeaderText(nodeName) + FilesText(files), "\n", COMMANDS_KEY, CommandsText(commands));
    FilesInLines(HeaderText(nodeName), files, commands);
    HeaderLines(nodeName);
    OthersSkipped(header, FileLines(files, commands));
    CommandsBelowFiles(files, commands);
  }

  /** The block is read as the content of a key that is indented like this one. */
  lemma ContentKeyIndent()
    ensures Leading("    content: |") == CONTENT_KEY_INDENT
  {
    LeadingUnique("    content: |", 4);
  }

  /** The text with one file and one command, line by line: the keys that cloud-init looks for. */
  lemma OneFileDocument(nodeName: string, f: File, command: string)
    requires OneLine(nodeName) && OneLine(f.path) && OneLine(f.permissions) && OneLine(command)
    ensures Split(CloudConfigText(nodeName, [f], [command])) ==
            ["#cloud-config", "hostname: " + nodeName, "", "write_files:",
             "  - path: " + f.path, "    permissions: \"" + f.permissions + "\"", "    content: |"]
            + Padded(Split(f.content), 6) + ["", "runcmd:", "  - " + command]
  {
    hide Split, HeaderText, Padded;
    Regroup(HeaderText(nodeName) + FilesText([f]), "\n", COMMANDS_KEY, CommandsText([command]));
    FilesInLines(HeaderText(nodeName), [f], [command]);
    HeaderLines(nodeName);
    CommandsInLines([command]);
    assert Items([command]) == ["  - " + command];
    assert FileLines([], [command]) == ["runcmd:", "  - " + command];
    assert [f][1..] == [];
    hide FileLines;
    assert Opening(f) == ["  - path: " + f.path, "    permissions: \"" + f.permissions + "\"", "    content: |"];
  }

  // ---------------------------------------------------------------------------
  // The butane template indents in its own way.
  // ---------------------------------------------------------------------------

  /** `templateYAMLIndent`: indents every line but the first. */
  function TemplateYamlIndent(i: nat, input: string): string {
    Join(Split(input), "\n" + Spaces(i))
  }

  /** Placed after an indentation of the same width it is the same block, so that what holds of
      `Indent` in cloud-config holds of the inline contents of ignition files. */
  lemma ButaneIndentIsIndent(i: nat, input: string)
    ensures Spaces(i) + TemplateYamlIndent(i, input) + "\n" == Indent(i, input)
  {
    JoinIsUnlines(Split(input), i);
  }

  lemma {:induction false} JoinIsUnlines(lines: seq<string>, i: nat)
    requires lines != []
    ensures Spaces(i) + Join(lines, "\n" + Spaces(i)) + "\n" == Unlines(Padded(lines, i))
    decreases |lines|
  {
    if |lines| == 1 {
      assert Padded(lines, i)[1..] == [];
    } else {
      JoinIsUnlines(lines[1..], i);
      var rest := Join(lines[1..], "\n" + Spaces(i));
      assert Join(lines, "\n" + Spaces(i)) == lines[0] + ("\n" + Spaces(i)) + rest;
      assert Spaces(i) + (lines[0] + ("\n" + Spaces(i)) + rest) + "\n" == Spaces(i) + lines[0] + "\n"
          + (Spaces(i) + rest + "\n");
      assert Padded(lines, i)[1..] == Padded(lines[1..], i);
    }
  }
}
