/** The code generator that writes the repository's `tsconfig.json`: one `paths`
    entry per code-assist package, between a fixed header and fixed trailing entries.
    Writing the file and the console line are left to the caller. */
module TsconfigJson {
  import Text

  /** The `paths` line that maps the package `@p42/code-assist-<id>` to its sources. */
  function EntryText(codeAssistId: string): string {
    "      \"@p42/code-assist-" + codeAssistId + "\": [\"packages/code-assist/" + codeAssistId + "/src/*\"],"
  }

  function EntryTexts(codeAssistIds: seq<string>): (r: seq<string>)
    ensures |r| == |codeAssistIds|
    ensures forall i :: 0 <= i < |r| ==> r[i] == EntryText(codeAssistIds[i])
  {
    seq(|codeAssistIds|, i requires 0 <= i < |codeAssistIds| => EntryText(codeAssistIds[i]))
  }

  /** The text `generateCodeAssistEntries` builds: the entry lines, each ended by a newline,
      appended in input order. */
  function Entries(codeAssistIds: seq<string>): string {
    if |codeAssistIds| == 0 then ""
    else Entries(codeAssistIds[..|codeAssistIds| - 1]) + EntryText(codeAssistIds[|codeAssistIds| - 1]) + "\n"
  }

  /** `generateCodeAssistEntries()`: the `content +=` loop. */
  method GenerateCodeAssistEntries(codeAssistIds: seq<string>) returns (content: string)
    ensures content == Entries(codeAssistIds)
  {
    content := "";
    for i := 0 to |codeAssistIds|
      invariant content == Entries(codeAssistIds[..i])
    {
      assert codeAssistIds[..i + 1][..i] == codeAssistIds[..i];
      content := content + EntryText(codeAssistIds[i]) + "\n";
    }
    assert codeAssistIds[..|codeAssistIds|] == codeAssistIds;
  }

  /** The entries text is the entry lines, one per id, each ended by a newline. */
  lemma {:induction false} EntriesAreLines(codeAssistIds: seq<string>)
    ensures Entries(codeAssistIds) == Text.Unlines(EntryTexts(codeAssistIds))
    decreases |codeAssistIds|
  {
    if |codeAssistIds| > 0 {
      var n := |codeAssistIds|;
      EntriesAreLines(codeAssistIds[..n - 1]);
      assert EntryTexts(codeAssistIds)[..n - 1] == EntryTexts(codeAssistIds[..n - 1]);
    }
  }

  /** For ids without a newline, the entries text splits into exactly one line per id, in
      input order, and each line is that id's `paths` entry; no ids give the empty text. */
  lemma EntriesLines(codeAssistIds: seq<string>)
    requires forall i :: 0 <= i < |codeAssistIds| ==> '\n' !in codeAssistIds[i]
    ensures |codeAssistIds| == 0 ==> Entries(codeAssistIds) == ""
    ensures Text.NewlineTerminated(Entries(codeAssistIds))
    ensures Text.Lines(Entries(codeAssistIds)) == EntryTexts(codeAssistIds)
  {
    EntriesAreLines(codeAssistIds);
    EntryTextsHaveNoNewline(codeAssistIds);
    Text.LinesOfUnlines(EntryTexts(codeAssistIds));
  }

  lemma EntryTextsHaveNoNewline(codeAssistIds: seq<string>)
    requires forall i :: 0 <= i < |codeAssistIds| ==> '\n' !in codeAssistIds[i]
    ensures Text.NoNewlines(EntryTexts(codeAssistIds))
  {
    forall i | 0 <= i < |codeAssistIds|
      ensures '\n' !in EntryTexts(codeAssistIds)[i]
    {
      var id := codeAssistIds[i];
      var head := "      \"@p42/code-assist-";
      var middle := "\": [\"packages/code-assist/";
      var tail := "/src/*\"],";
      assert '\n' !in head && '\n' !in middle && '\n' !in tail;
      assert EntryText(id) == head + id + middle + id + tail;
    }
  }

  /** The lines of the fixed text before the entries; the last one is the blank line. */
  const HeaderLines: seq<string> := [
    "{",
    "  \"compilerOptions\": {",
    "    \"target\": \"ES2020\",",
    "    \"types\": [\"node\", \"jest\"],",
    "    \"jsx\": \"react\",",
    "    \"baseUrl\": \"./\",",
    "    \"paths\": {",
    ""
  ]

  /** The `paths` line, without its separating comma, for the package `@p42/<name>`. */
  function FixedEntryText(name: string): string {
    "      \"@p42/" + name + "\": [\"packages/" + name + "/src/*\"]"
  }

  /** The lines of the fixed text after the entries: a blank line, the three fixed
      packages `app-vscode-shared`, `bundle` and `engine`, and the closing braces. */
  const TrailerLines: seq<string> := [
    "",
    FixedEntryText("app-vscode-shared") + ",",
    FixedEntryText("bundle") + ",",
    FixedEntryText("engine"),
    "    }",
    "  }",
    "}"
  ]

  /** The text `generateTsconfigJson` writes to the file. */
  function TsconfigText(codeAssistIds: seq<string>): string {
    Text.Unlines(HeaderLines) + Entries(codeAssistIds) + Text.Unlines(TrailerLines)
  }

  /** The write `fs.writeFileSync(filename, text)` that the generator performs. */
  datatype FileWrite = FileWrite(filename: string, content: string)

  /** `generateTsconfigJson(filename, codeActionIds)` */
  method GenerateTsconfigJson(filename: string, codeActionIds: seq<string>) returns (write: FileWrite)
    ensures write == FileWrite(filename, TsconfigText(codeActionIds))
  {
    var entries := GenerateCodeAssistEntries(codeActionIds);
    write := FileWrite(filename, Text.Unlines(HeaderLines) + entries + Text.Unlines(TrailerLines));
  }

  lemma FixedEntryTextHasNoNewline(name: string)
    requires '\n' !in name
    ensures '\n' !in FixedEntryText(name)
  {
    var head, middle, tail := "      \"@p42/", "\": [\"packages/", "/src/*\"]";
    assert '\n' !in head && '\n' !in middle && '\n' !in tail;
    assert FixedEntryText(name) == head + name + middle + name + tail;
  }

  lemma FixedLinesHaveNoNewline()
    ensures Text.NoNewlines(HeaderLines)
    ensures Text.NoNewlines(TrailerLines)
  {
    FixedEntryTextHasNoNewline("app-vscode-shared");
    FixedEntryTextHasNoNewline("bundle");
    FixedEntryTextHasNoNewline("engine");
  }

  /** The written file is, line by line: the fixed header, one entry line per id in input
      order, then a blank line, the three fixed entries and the closing braces. */
  lemma TsconfigLines(codeAssistIds: seq<string>)
    requires forall i :: 0 <= i < |codeAssistIds| ==> '\n' !in codeAssistIds[i]
    ensures Text.Lines(TsconfigText(codeAssistIds)) == HeaderLines + EntryTexts(codeAssistIds) + TrailerLines
  {
    var entries := EntryTexts(codeAssistIds);
    EntriesAreLines(codeAssistIds);
    EntryTextsHaveNoNewline(codeAssistIds);
    FixedLinesHaveNoNewline();
    Text.UnlinesAppend(HeaderLines, entries);
    Text.UnlinesAppend(HeaderLines + entries, TrailerLines);
    Text.NoNewlinesAppend(HeaderLines, entries);
    Text.NoNewlinesAppend(HeaderLines + entries, TrailerLines);
    Text.LinesOfUnlines(HeaderLines + entries + TrailerLines);
  }
}
