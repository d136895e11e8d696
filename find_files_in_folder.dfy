/** `findFilesInFolder`: builds the include pattern for a folder search and hands the
    search to the editor's `workspace.findFiles`, which is not part of this model; the
    call it makes is returned as a value. */
module FindFilesInFolder {
  import opened Wrappers
  import opened Host
  import Text

  /** A `vscode.RelativePattern`: a glob that is matched relative to a base folder. */
  datatype RelativePattern = RelativePattern(base: Uri, pattern: string)

  /** The arguments of one `workspace.findFiles(include, exclude, maxResults, token)` call. */
  datatype FindFilesCall = FindFilesCall(
    includePattern: RelativePattern,
    exclude: Option<string>,
    maxResults: Option<nat>,
    cancellationToken: Option<CancellationToken>)

  /** The glob for a list of extensions: every file, or the files whose name ends in one of them. */
  function GlobPattern(fileExtensions: seq<string>): (pattern: string)
    ensures |fileExtensions| == 0 <==> pattern == "**/*"
    ensures |fileExtensions| > 0 ==> |pattern| >= 7 && pattern[..6] == "**/*.{" && pattern[|pattern| - 1] == '}'
  {
    if |fileExtensions| == 0 then "**/*" else "**/*.{" + Text.Join(fileExtensions, ',') + "}"
  }

  /** Reads the extension list back out of a pattern of the shape `GlobPattern` builds. */
  function ParseGlobPattern(pattern: string): Option<seq<string>> {
    if pattern == "**/*" then Some([])
    else if |pattern| >= 7 && pattern[..6] == "**/*.{" && pattern[|pattern| - 1] == '}' then
      Some(Text.Split(pattern[6..|pattern| - 1], ','))
    else None
  }

  /** The pattern lists every given extension, in the given order and with repeats kept:
      reading it back gives the list itself (for extensions that hold no `,`). */
  lemma GlobPatternRoundTrip(fileExtensions: seq<string>)
    requires forall i :: 0 <= i < |fileExtensions| ==> ',' !in fileExtensions[i]
    ensures ParseGlobPattern(GlobPattern(fileExtensions)) == Some(fileExtensions)
  {
    if |fileExtensions| > 0 {
      var joined := Text.Join(fileExtensions, ',');
      var p := GlobPattern(fileExtensions);
      assert p == "**/*.{" + joined + "}";
      assert p[6..|p| - 1] == joined;
      assert |p| >= 7;
      Text.SplitJoin(fileExtensions, ',');
    }
  }

  /** The search `findFilesInFolder(folderUri, fileExtensions, { cancellationToken })` starts. */
  function FindFiles(folderUri: Uri, fileExtensions: seq<string>, cancellationToken: Option<CancellationToken>): (call: FindFilesCall)
    ensures call.includePattern.base == folderUri
    ensures call.includePattern.pattern == GlobPattern(fileExtensions)
    ensures call.exclude.None? && call.maxResults.None?
    ensures call.cancellationToken == cancellationToken
  {
    FindFilesCall(RelativePattern(folderUri, GlobPattern(fileExtensions)), None, None, cancellationToken)
  }
}
