/** `collectScanTargetUris`: expands the files and folders a command was invoked on into
    the de-duplicated list of files with a supported extension.

    The host calls it awaits (`isDirectory`, `findFilesInFolder`) are given as their
    outcomes, one `Resolution` per input. Cancellation is polled, never pushed, and
    between two awaits nothing else runs, so a poll is given as the token's value after
    a number of inputs have been resolved: `cancelled[i]` is what the token says after
    the first `i` inputs were resolved. The check before input `i` reads `cancelled[i]`;
    the checks before each file of input `i` all read `cancelled[i + 1]`. */
module CollectScanTargetUris {
  import opened Wrappers
  import opened Host
  import Text
  import Sequences
  import FindFilesInFolder

  /** The outcome of the awaited calls for one input. */
  datatype Resolution =
    | NotDirectory                         // `isDirectory(uri)` resolved to false
    | Directory(found: Option<seq<Uri>>)   // resolved to true; the files found, or None when the search threw
    | IsDirectoryFailed                    // `isDirectory(uri)` threw

  // ---------------------------------------------------------------------------
  // Extensions

  /** `supportedExtensionSet`: the supported extensions, lower-cased. */
  function LowerExtensionSet(supportedExtensions: seq<string>): set<string> {
    set e | e in supportedExtensions :: Text.ToLower(e)
  }

  /** `hasSupportedExtension(uri, supportedExtensions)`, applied to `uri.path`. */
  function HasSupportedExtension(path: string, supportedExtensions: set<string>): bool {
    var lower := Text.ToLower(path);
    var extensionIndex := Text.LastIndexOf(lower, '.');
    if extensionIndex == -1 then false else lower[extensionIndex + 1..] in supportedExtensions
  }

  lemma LastDotIgnoresCase(path: string)
    ensures Text.LastIndexOf(Text.ToLower(path), '.') == Text.LastIndexOf(path, '.')
  {
    var lower := Text.ToLower(path);
    forall k | 0 <= k < |path| ensures lower[k] == '.' <==> path[k] == '.' {
      Text.LowerCharKeepsDot(path[k]);
    }
    Text.LastIndexOfSpec(lower, '.');
    Text.LastIndexOfSpec(path, '.');
    var a, b := Text.LastIndexOf(lower, '.'), Text.LastIndexOf(path, '.');
    if '.' in path {
      var k :| 0 <= k < |path| && path[k] == '.';
      assert lower[k] == '.';
    }
    if '.' in lower {
      var k :| 0 <= k < |lower| && lower[k] == '.';
      assert path[k] == '.';
    }
    if a >= 0 && b >= 0 {
      assert path[a] == '.' && lower[b] == '.';
    }
  }

  /** A path has a supported extension exactly when it holds a `.` and the text after its
      last `.` (of the whole path, not just the file name), lower-cased, is in the set. */
  lemma HasSupportedExtensionSpec(path: string, supportedExtensions: set<string>)
    ensures '.' !in path ==> !HasSupportedExtension(path, supportedExtensions)
    ensures '.' in path ==>
      (HasSupportedExtension(path, supportedExtensions)
       <==> Text.ToLower(path[Text.LastIndexOf(path, '.') + 1..]) in supportedExtensions)
  {
    LastDotIgnoresCase(path);
    var k := Text.LastIndexOf(path, '.');
    if '.' !in path {
      assert k == -1 by {
        Text.LastIndexOfSpec(path, '.');
      }
      NoDot(path, supportedExtensions);
    } else {
      assert k >= 0 by {
        Text.LastIndexOfSpec(path, '.');
      }
      LowerAfter(path, k + 1);
      Dot(path, supportedExtensions, k);
      assert HasSupportedExtension(path, supportedExtensions) <==> Text.ToLower(path[k + 1..]) in supportedExtensions;
    }
  }

  lemma NoDot(path: string, supportedExtensions: set<string>)
    requires Text.LastIndexOf(Text.ToLower(path), '.') == -1
    ensures !HasSupportedExtension(path, supportedExtensions)
  {
  }

  lemma Dot(path: string, supportedExtensions: set<string>, k: nat)
    requires k < |path| && Text.LastIndexOf(Text.ToLower(path), '.') == k
    requires Text.ToLower(path)[k + 1..] == Text.ToLower(path[k + 1..])
    ensures HasSupportedExtension(path, supportedExtensions) <==> Text.ToLower(path[k + 1..]) in supportedExtensions
  {
  }

  lemma LowerAfter(path: string, k: nat)
    requires k <= |path|
    ensures Text.ToLower(path)[k..] == Text.ToLower(path[k..])
  {
  }

  /** The extension match ignores case on both sides: paths equal up to case get the same
      answer, and a path whose text after its last `.` equals a supported extension up to
      case is accepted. */
  lemma HasSupportedExtensionIgnoresCase(path: string, other: string, supportedExtensions: seq<string>, extension: string)
    requires Text.ToLower(path) == Text.ToLower(other)
    ensures HasSupportedExtension(path, LowerExtensionSet(supportedExtensions))
        == HasSupportedExtension(other, LowerExtensionSet(supportedExtensions))
    ensures extension in supportedExtensions ==> Text.ToLower(extension) in LowerExtensionSet(supportedExtensions)
    ensures extension in supportedExtensions && '.' in path
            && Text.ToLower(path[Text.LastIndexOf(path, '.') + 1..]) == Text.ToLower(extension)
        ==> HasSupportedExtension(path, LowerExtensionSet(supportedExtensions))
  {
    if extension in supportedExtensions && '.' in path {
      HasSupportedExtensionSpec(path, LowerExtensionSet(supportedExtensions));
    }
  }

  /** Each extension followed by its upper-case form: the `flatMap` of `globExtensions`. */
  function CaseVariants(extensions: seq<string>): seq<string> {
    if |extensions| == 0 then [] else [extensions[0], Text.ToUpper(extensions[0])] + CaseVariants(extensions[1..])
  }

  /** `globExtensions`: `Array.from(new Set(...))` of the case variants. */
  function GlobExtensions(supportedExtensions: seq<string>): seq<string> {
    Sequences.Distinct(CaseVariants(supportedExtensions))
  }

  lemma {:induction false} CaseVariantsMembers(extensions: seq<string>)
    ensures forall x :: x in CaseVariants(extensions)
                <==> exists e :: e in extensions && (x == e || x == Text.ToUpper(e))
  {
    if |extensions| > 0 {
      var first, rest := extensions[0], extensions[1..];
      CaseVariantsMembers(rest);
      assert extensions == [first] + rest;
      assert CaseVariants(extensions) == [first, Text.ToUpper(first)] + CaseVariants(rest);
      forall x ensures x in CaseVariants(extensions)
                       <==> exists e :: e in extensions && (x == e || x == Text.ToUpper(e))
      {
        if x == first || x == Text.ToUpper(first) {
          assert first in extensions;
        } else {
          if x in CaseVariants(rest) {
            var e :| e in rest && (x == e || x == Text.ToUpper(e));
            assert e in extensions;
          }
          if e :| e in extensions && (x == e || x == Text.ToUpper(e)) {
            assert e in rest;
          }
        }
      }
    }
  }

  /** The folder-search extensions hold each supported extension and its upper-case form,
      nothing else, and no extension twice. */
  lemma GlobExtensionsSpec(supportedExtensions: seq<string>)
    ensures forall e :: e in supportedExtensions ==>
      e in GlobExtensions(supportedExtensions) && Text.ToUpper(e) in GlobExtensions(supportedExtensions)
    ensures forall x :: x in GlobExtensions(supportedExtensions) ==>
      exists e :: e in supportedExtensions && (x == e || x == Text.ToUpper(e))
    ensures Sequences.NoDuplicates(GlobExtensions(supportedExtensions))
  {
    CaseVariantsMembers(supportedExtensions);
    Sequences.DistinctSpec(CaseVariants(supportedExtensions));
  }

  // ---------------------------------------------------------------------------
  // The collected map: keyed by `uri.toString()`, in first-insertion order

  function Texts(uris: seq<Uri>): (r: seq<string>)
    ensures |r| == |uris|
    ensures forall i :: 0 <= i < |uris| ==> r[i] == uris[i].text
  {
    seq(|uris|, i requires 0 <= i < |uris| => uris[i].text)
  }

  /** The values of `collectedUris` after `set(uri.toString(), uri)` for each URI of the
      stream in turn: a later URI with the same string replaces the value. */
  function LastByKey(stream: seq<Uri>): map<string, Uri> {
    if |stream| == 0 then map[]
    else LastByKey(stream[..|stream| - 1])[stream[|stream| - 1].text := stream[|stream| - 1]]
  }

  /** The map has a key for each string form in the stream and no other, and stores under
      it a URI of the stream with that string form. */
  lemma {:induction false} LastByKeySpec(stream: seq<Uri>)
    ensures forall t :: t in LastByKey(stream) <==> t in Texts(stream)
    ensures forall t :: t in LastByKey(stream) ==> LastByKey(stream)[t].text == t && LastByKey(stream)[t] in stream
    decreases |stream|
  {
    if |stream| > 0 {
      var prefix := stream[..|stream| - 1];
      var last := stream[|stream| - 1];
      LastByKeySpec(prefix);
      assert stream == prefix + [last];
      assert Texts(stream) == Texts(prefix) + [last.text];
    }
  }

  /** `Array.from(collectedUris.values())`: the keys in first-insertion order, each with the
      value last stored under it. */
  function Collected(stream: seq<Uri>): seq<Uri> {
    KeysOfLastByKeyAll(stream);
    MapValues(Sequences.Distinct(Texts(stream)), LastByKey(stream))
  }

  /** `Array.from(map.values())` for a map kept as its keys in insertion order and its entries. */
  function MapValues(order: seq<string>, m: map<string, Uri>): (values: seq<Uri>)
    requires forall k :: k in order ==> k in m
    ensures |values| == |order|
    ensures forall i :: 0 <= i < |order| ==> values[i] == m[order[i]]
  {
    seq(|order|, i requires 0 <= i < |order| => m[order[i]])
  }

  lemma KeysOfLastByKeyAll(stream: seq<Uri>)
    ensures forall k :: k in Sequences.Distinct(Texts(stream)) ==> k in LastByKey(stream)
  {
    Sequences.DistinctSpec(Texts(stream));
    LastByKeySpec(stream);
  }

  lemma CollectedKeys(stream: seq<Uri>)
    ensures Texts(Collected(stream)) == Sequences.Distinct(Texts(stream))
  {
    var keys := Sequences.Distinct(Texts(stream));
    var m := LastByKey(stream);
    Sequences.DistinctSpec(Texts(stream));
    LastByKeySpec(stream);
    var c := Collected(stream);
    assert |c| == |keys|;
    forall i | 0 <= i < |keys| ensures Texts(c)[i] == keys[i] {
      assert c[i] == m[keys[i]];
    }
  }

  /** No two collected URIs have the same string form. */
  lemma CollectedIsDuplicateFree(stream: seq<Uri>)
    ensures forall i, j :: 0 <= i < j < |Collected(stream)| ==> Collected(stream)[i].text != Collected(stream)[j].text
  {
    Sequences.DistinctSpec(Texts(stream));
    CollectedKeys(stream);
    var c := Collected(stream);
    forall i, j | 0 <= i < j < |c| ensures c[i].text != c[j].text {
      assert Texts(c)[i] == c[i].text && Texts(c)[j] == c[j].text;
    }
  }

  /** Every URI of the stream is represented by the collected URI with its string form,
      and every collected URI comes from the stream. */
  lemma CollectedCoversStream(stream: seq<Uri>)
    ensures forall u :: u in stream ==> exists v :: v in Collected(stream) && v.text == u.text
    ensures forall v :: v in Collected(stream) ==> v in stream
  {
    var keys := Sequences.Distinct(Texts(stream));
    var m := LastByKey(stream);
    var c := Collected(stream);
    Sequences.DistinctSpec(Texts(stream));
    LastByKeySpec(stream);
    CollectedKeys(stream);
    forall u | u in stream ensures exists v :: v in c && v.text == u.text {
      var i :| 0 <= i < |stream| && stream[i] == u;
      assert Texts(stream)[i] == u.text;
      assert u.text in keys;
      var k :| 0 <= k < |keys| && keys[k] == u.text;
      assert Texts(c)[k] == c[k].text;
      assert c[k] in c;
    }
    forall v | v in c ensures v in stream {
      var k :| 0 <= k < |c| && c[k] == v;
      assert c[k] == m[keys[k]];
    }
  }

  /** URIs found later never move an entry already collected: the collected order of a
      stream is a prefix of the collected order of any longer stream. */
  lemma CollectedOrderIsStable(stream: seq<Uri>, more: seq<Uri>)
    ensures Texts(Collected(stream)) <= Texts(Collected(stream + more))
  {
    CollectedKeys(stream);
    CollectedKeys(stream + more);
    assert Texts(stream + more) == Texts(stream) + Texts(more);
    Sequences.DistinctPrefix(Texts(stream), Texts(more));
  }

  /** A folder listing `x, y` followed by the file `x` again gives `x, y`. */
  lemma CollectedFolderThenSameFile(x: Uri, y: Uri)
    requires x.text != y.text
    ensures Collected([x, y, x]) == [x, y]
  {
    var a, b := x.text, y.text;
    assert Texts([x, y, x]) == [a, b, a];
    assert [a, b, a][..2] == [a, b];
    assert [a, b][..1] == [a];
    assert [a][..0] == [];
    assert Sequences.Distinct([a]) == [a];
    assert Sequences.Distinct([a, b]) == [a, b];
    assert Sequences.Distinct([a, b, a]) == [a, b];
    assert [x, y, x][..2] == [x, y];
    assert [x, y][..1] == [x];
    assert [x][..0] == [];
    assert LastByKey([x]) == map[x.text := x];
    assert LastByKey([x, y]) == map[x.text := x, y.text := y];
    assert LastByKey([x, y, x]) == map[x.text := x, y.text := y];
  }

  // ---------------------------------------------------------------------------
  // The traversal

  /** What the token says at each poll; without a token, `?.` makes every poll false. */
  function Polls(cancellationToken: Option<CancellationToken>, cancelled: seq<bool>): (r: seq<bool>)
    ensures |r| == |cancelled|
    ensures forall i :: 0 <= i < |r| ==> r[i] == (cancellationToken.Some? && cancelled[i])
  {
    seq(|cancelled|, i requires 0 <= i < |cancelled| => cancellationToken.Some? && cancelled[i])
  }

  /** The index of the first poll that reports cancellation, or the number of polls. */
  function FirstCancelled(polls: seq<bool>): (k: nat)
    ensures k <= |polls|
    ensures forall j :: 0 <= j < k ==> !polls[j]
    ensures k < |polls| ==> polls[k]
  {
    if |polls| == 0 then 0
    else if polls[0] then 0
    else 1 + FirstCancelled(polls[1..])
  }

  /** The number of inputs the loop over `n` inputs handles: it stops at the first poll
      that reports cancellation. */
  function Reached(polls: seq<bool>, n: nat): (reached: nat)
    ensures reached <= n
  {
    if FirstCancelled(polls) < n then FirstCancelled(polls) else n
  }

  /** The loop over `n` inputs stops at input `i` exactly when the polls before `i` were all
      false and, unless every input was handled, the poll at `i` was true. */
  lemma ReachedInput(polls: seq<bool>, i: nat, n: nat)
    requires i <= n && |polls| == n + 1
    requires i <= FirstCancelled(polls)
    requires i < n ==> polls[i]
    ensures Reached(polls, n) == i
  {
  }

  /** A poll that does not report cancellation comes before the first one that does. */
  lemma PollPassed(polls: seq<bool>, i: nat)
    requires i < |polls| && i <= FirstCancelled(polls) && !polls[i]
    ensures i + 1 <= FirstCancelled(polls)
  {
  }

  /** The files one input contributes when the loop reaches it and is not cancelled. */
  function FilesOf(uri: Uri, resolution: Resolution, supportedExtensions: set<string>): (files: seq<Uri>)
    ensures resolution.NotDirectory? ==>
      |files| <= 1 && (uri in files <==> HasSupportedExtension(uri.path, supportedExtensions))
    ensures resolution.IsDirectoryFailed? || resolution == Directory(None) ==> files == []
    ensures resolution.Directory? && resolution.found.Some? ==> files == resolution.found.value
  {
    match resolution
    case NotDirectory => if HasSupportedExtension(uri.path, supportedExtensions) then [uri] else []
    case Directory(found) => if found.Some? then found.value else []
    case IsDirectoryFailed => []
  }

  predicate Fails(resolution: Resolution) {
    resolution.IsDirectoryFailed? || resolution == Directory(None)
  }

  /** The stream of URIs set into the map while handling the first `n` inputs: the files of
      input `i` are set only if the token is not cancelled after it was resolved. */
  function Discovered(uris: seq<Uri>, resolutions: seq<Resolution>, polls: seq<bool>,
                      supportedExtensions: set<string>, n: nat): seq<Uri>
    requires n <= |uris| == |resolutions| && |polls| == |uris| + 1
  {
    if n == 0 then []
    else
      Discovered(uris, resolutions, polls, supportedExtensions, n - 1)
        + (if polls[n] then [] else FilesOf(uris[n - 1], resolutions[n - 1], supportedExtensions))
  }

  /** The folder search one input starts: one exactly when it is a folder. */
  function SearchOf(uri: Uri, resolution: Resolution, globExtensions: seq<string>,
                    cancellationToken: Option<CancellationToken>): seq<FindFilesInFolder.FindFilesCall>
  {
    if resolution.Directory? then [FindFilesInFolder.FindFiles(uri, globExtensions, cancellationToken)] else []
  }

  /** The error record one input writes: one exactly when resolving it threw. */
  function FailureOf(uri: Uri, resolution: Resolution): seq<LogRecord> {
    if Fails(resolution) then [Error(Some(uri.text), "Failed to resolve scan target")] else []
  }

  /** The folder searches started while handling the first `n` inputs. */
  function Searches(uris: seq<Uri>, resolutions: seq<Resolution>, globExtensions: seq<string>,
                    cancellationToken: Option<CancellationToken>, n: nat): seq<FindFilesInFolder.FindFilesCall>
    requires n <= |uris| == |resolutions|
  {
    if n == 0 then []
    else
      Searches(uris, resolutions, globExtensions, cancellationToken, n - 1)
        + SearchOf(uris[n - 1], resolutions[n - 1], globExtensions, cancellationToken)
  }

  /** The error records written while handling the first `n` inputs: one per failing input. */
  function Failures(uris: seq<Uri>, resolutions: seq<Resolution>, n: nat): seq<LogRecord>
    requires n <= |uris| == |resolutions|
  {
    if n == 0 then []
    else Failures(uris, resolutions, n - 1) + FailureOf(uris[n - 1], resolutions[n - 1])
  }

  /** Handling input `i` extends what the first `i` inputs discovered, searched and logged
      by what input `i` contributes. */
  lemma ScanStep(uris: seq<Uri>, resolutions: seq<Resolution>, polls: seq<bool>,
                 supportedExtensions: set<string>, globExtensions: seq<string>,
                 cancellationToken: Option<CancellationToken>, i: nat)
    requires i < |uris| == |resolutions| && |polls| == |uris| + 1
    ensures Discovered(uris, resolutions, polls, supportedExtensions, i + 1)
         == Discovered(uris, resolutions, polls, supportedExtensions, i)
            + if polls[i + 1] then [] else FilesOf(uris[i], resolutions[i], supportedExtensions)
    ensures Searches(uris, resolutions, globExtensions, cancellationToken, i + 1)
         == Searches(uris, resolutions, globExtensions, cancellationToken, i)
            + SearchOf(uris[i], resolutions[i], globExtensions, cancellationToken)
    ensures Failures(uris, resolutions, i + 1)
         == Failures(uris, resolutions, i) + FailureOf(uris[i], resolutions[i])
  {
  }

  /** Before the first cancelled poll, the polls change nothing: the inputs handled so far
      set the same files as without a token. */
  lemma {:induction false} DiscoveredBeforeCancellation(uris: seq<Uri>, resolutions: seq<Resolution>, polls: seq<bool>,
                                                        supportedExtensions: set<string>, i: nat)
    requires i <= |uris| == |resolutions| && |polls| == |uris| + 1
    requires i < FirstCancelled(polls)
    ensures Discovered(uris, resolutions, polls, supportedExtensions, i)
         == Discovered(uris, resolutions, Polls(None, polls), supportedExtensions, i)
  {
    if i > 0 {
      DiscoveredBeforeCancellation(uris, resolutions, polls, supportedExtensions, i - 1);
      assert !polls[i];
    }
  }

  /** Handling more inputs only appends to the stream. */
  lemma {:induction false} DiscoveredGrows(uris: seq<Uri>, resolutions: seq<Resolution>, polls: seq<bool>,
                                           supportedExtensions: set<string>, i: nat, j: nat)
    requires i <= j <= |uris| == |resolutions| && |polls| == |uris| + 1
    ensures Discovered(uris, resolutions, polls, supportedExtensions, i)
         <= Discovered(uris, resolutions, polls, supportedExtensions, j)
    decreases j
  {
    if i < j {
      DiscoveredGrows(uris, resolutions, polls, supportedExtensions, i, j - 1);
    }
  }

  /** Cancellation only cuts the scan short: the files a cancelled scan sets into the map
      are a prefix of those an uncancelled scan sets. */
  lemma CancelledStreamIsPrefix(uris: seq<Uri>, resolutions: seq<Resolution>, polls: seq<bool>,
                                supportedExtensions: set<string>)
    requires |uris| == |resolutions| && |polls| == |uris| + 1
    ensures Discovered(uris, resolutions, polls, supportedExtensions, Reached(polls, |uris|))
         <= Discovered(uris, resolutions, Polls(None, polls), supportedExtensions, |uris|)
  {
    var n, first := |uris|, FirstCancelled(polls);
    if n < first {
      DiscoveredBeforeCancellation(uris, resolutions, polls, supportedExtensions, n);
    } else if first > 0 {
      assert Reached(polls, n) == first && polls[first];
      DiscoveredBeforeCancellation(uris, resolutions, polls, supportedExtensions, first - 1);
      DiscoveredGrows(uris, resolutions, Polls(None, polls), supportedExtensions, first - 1, n);
    }
  }

  /** So the result of a cancelled scan lists, in the same order, a prefix of the string
      forms the uncancelled result lists. */
  lemma CancelledResultIsPrefix(uris: seq<Uri>, resolutions: seq<Resolution>, polls: seq<bool>,
                                supportedExtensions: set<string>)
    requires |uris| == |resolutions| && |polls| == |uris| + 1
    ensures Texts(Collected(Discovered(uris, resolutions, polls, supportedExtensions, Reached(polls, |uris|))))
         <= Texts(Collected(Discovered(uris, resolutions, Polls(None, polls), supportedExtensions, |uris|)))
  {
    var cut := Discovered(uris, resolutions, polls, supportedExtensions, Reached(polls, |uris|));
    var full := Discovered(uris, resolutions, Polls(None, polls), supportedExtensions, |uris|);
    CancelledStreamIsPrefix(uris, resolutions, polls, supportedExtensions);
    assert cut + full[|cut|..] == full;
    CollectedOrderIsStable(cut, full[|cut|..]);
  }

  lemma TextsAppend(stream: seq<Uri>, more: seq<Uri>)
    ensures Texts(stream + more) == Texts(stream) + Texts(more)
  {
  }

  lemma DistinctStep(stream: seq<Uri>, u: Uri)
    ensures Sequences.Distinct(Texts(stream + [u]))
         == if u.text in Sequences.Distinct(Texts(stream)) then Sequences.Distinct(Texts(stream))
            else Sequences.Distinct(Texts(stream)) + [u.text]
  {
    TextsAppend(stream, [u]);
    var t := Texts(stream) + [u.text];
    assert t[..|t| - 1] == Texts(stream);
  }

  lemma LastByKeyStep(stream: seq<Uri>, u: Uri)
    ensures LastByKey(stream + [u]) == LastByKey(stream)[u.text := u]
  {
    assert (stream + [u])[..|stream|] == stream;
  }

  /** Setting one more URI into the map collected so far: its key is appended when it is
      new, and its value replaces any earlier one. */
  lemma SetFileStep(seen: seq<Uri>, u: Uri)
    ensures Sequences.Distinct(Texts(seen + [u]))
         == if u.text in LastByKey(seen) then Sequences.Distinct(Texts(seen))
            else Sequences.Distinct(Texts(seen)) + [u.text]
    ensures LastByKey(seen + [u]) == LastByKey(seen)[u.text := u]
  {
    DistinctStep(seen, u);
    LastByKeyStep(seen, u);
    KeysOfLastByKey(seen, u.text);
  }

  lemma KeysOfLastByKey(stream: seq<Uri>, t: string)
    ensures t in LastByKey(stream) <==> t in Sequences.Distinct(Texts(stream))
  {
    Sequences.DistinctSpec(Texts(stream));
    LastByKeySpec(stream);
  }

  lemma AppendNext(stream: seq<Uri>, files: seq<Uri>, j: nat)
    requires j < |files|
    ensures stream + files[..j] + [files[j]] == stream + files[..j + 1]
  {
    assert files[..j + 1] == files[..j] + [files[j]];
  }

  /** The inner loop of `collectScanTargetUris`: `collectedUris.set(fileUri.toString(), fileUri)`
      for each file of one input, stopping when the token reports cancellation. Between the
      files there is no await, so every check reads the same value, `cancelledNow`. The map
      is kept as its keys in insertion order and its entries. */
  method SetFiles(order: seq<string>, collectedUris: map<string, Uri>, files: seq<Uri>,
                  cancelledNow: bool, ghost stream: seq<Uri>)
    returns (order': seq<string>, collectedUris': map<string, Uri>)
    requires order == Sequences.Distinct(Texts(stream))
    requires collectedUris == LastByKey(stream)
    ensures order' == Sequences.Distinct(Texts(stream + if cancelledNow then [] else files))
    ensures collectedUris' == LastByKey(stream + if cancelledNow then [] else files)
  {
    order', collectedUris' := order, collectedUris;
    ghost var seen := stream;
    var j := 0;
    assert stream + files[..0] == stream;
    while j < |files|
      invariant 0 <= j <= |files|
      invariant j > 0 ==> !cancelledNow
      invariant seen == stream + files[..j]
      invariant order' == Sequences.Distinct(Texts(seen))
      invariant collectedUris' == LastByKey(seen)
    {
      if cancelledNow {
        break;
      }
      var fileUri := files[j];
      SetFileStep(seen, fileUri);
      if fileUri.text !in collectedUris' {
        order' := order' + [fileUri.text];
      }
      collectedUris' := collectedUris'[fileUri.text := fileUri];
      AppendNext(stream, files, j);
      seen := seen + [fileUri];
      j := j + 1;
    }
    assert files[..|files|] == files;
  }

  /** The body of the `try` for one input: the files it yields, the folder search it
      starts and the error record it writes. */
  method ResolveTarget(uri: Uri, resolution: Resolution, supportedExtensionSet: set<string>,
                       globExtensions: seq<string>, cancellationToken: Option<CancellationToken>)
    returns (files: seq<Uri>, search: seq<FindFilesInFolder.FindFilesCall>, failure: seq<LogRecord>)
    ensures files == FilesOf(uri, resolution, supportedExtensionSet)
    ensures search == SearchOf(uri, resolution, globExtensions, cancellationToken)
    ensures failure == FailureOf(uri, resolution)
  {
    files, search, failure := [], [], [];
    if resolution.NotDirectory? {
      if HasSupportedExtension(uri.path, supportedExtensionSet) {
        files := [uri];
      }
    } else if resolution.Directory? {
      search := [FindFilesInFolder.FindFiles(uri, globExtensions, cancellationToken)];
      if resolution.found.Some? {
        files := resolution.found.value;
      } else {
        failure := [Error(Some(uri.text), "Failed to resolve scan target")];
      }
    } else {
      failure := [Error(Some(uri.text), "Failed to resolve scan target")];
    }
  }

  /** The state of `collectScanTargetUris` once it has handled the first `i` inputs: the map
      holds what they discovered (kept as its keys in insertion order and its entries), and
      the searches and error records are theirs. */
  ghost predicate ScannedUpTo(uris: seq<Uri>, resolutions: seq<Resolution>, polls: seq<bool>,
                              supportedExtensionSet: set<string>, globExtensions: seq<string>,
                              cancellationToken: Option<CancellationToken>, i: nat, stream: seq<Uri>,
                              order: seq<string>, collectedUris: map<string, Uri>,
                              searches: seq<FindFilesInFolder.FindFilesCall>, errors: seq<LogRecord>)
    requires i <= |uris| == |resolutions| && |polls| == |uris| + 1
  {
    && stream == Discovered(uris, resolutions, polls, supportedExtensionSet, i)
    && order == Sequences.Distinct(Texts(stream))
    && collectedUris == LastByKey(stream)
    && searches == Searches(uris, resolutions, globExtensions, cancellationToken, i)
    && errors == Failures(uris, resolutions, i)
  }

  /** One turn of the `for` loop: resolve input `i`, then set its files into the map unless
      the token reports cancellation after it was resolved. */
  method HandleInput(uris: seq<Uri>, resolutions: seq<Resolution>, polls: seq<bool>,
                     supportedExtensionSet: set<string>, globExtensions: seq<string>,
                     cancellationToken: Option<CancellationToken>, i: nat,
                     order: seq<string>, collectedUris: map<string, Uri>,
                     searches: seq<FindFilesInFolder.FindFilesCall>, errors: seq<LogRecord>, ghost stream: seq<Uri>)
    returns (order': seq<string>, collectedUris': map<string, Uri>,
             searches': seq<FindFilesInFolder.FindFilesCall>, errors': seq<LogRecord>, ghost stream': seq<Uri>)
    requires i < |uris| == |resolutions| && |polls| == |uris| + 1
    requires ScannedUpTo(uris, resolutions, polls, supportedExtensionSet, globExtensions, cancellationToken,
                         i, stream, order, collectedUris, searches, errors)
    ensures ScannedUpTo(uris, resolutions, polls, supportedExtensionSet, globExtensions, cancellationToken,
                        i + 1, stream', order', collectedUris', searches', errors')
  {
    var files, search, failure := ResolveTarget(uris[i], resolutions[i], supportedExtensionSet,
                                                globExtensions, cancellationToken);
    ScanStep(uris, resolutions, polls, supportedExtensionSet, globExtensions, cancellationToken, i);
    searches', errors' := searches + search, errors + failure;
    order', collectedUris' := SetFiles(order, collectedUris, files, polls[i + 1], stream);
    stream' := stream + if polls[i + 1] then [] else files;
  }

  /** The `for` loop over the inputs of `collectScanTargetUris`. It stops before the first
      input at whose check the token reports cancellation and returns how many inputs it
      handled, with the map, the searches and the error records so far. */
  method ScanInputs(uris: seq<Uri>, resolutions: seq<Resolution>, polls: seq<bool>,
                    supportedExtensionSet: set<string>, globExtensions: seq<string>,
                    cancellationToken: Option<CancellationToken>)
    returns (handled: nat, order: seq<string>, collectedUris: map<string, Uri>,
             searches: seq<FindFilesInFolder.FindFilesCall>, errors: seq<LogRecord>, ghost stream: seq<Uri>)
    requires |resolutions| == |uris| && |polls| == |uris| + 1
    ensures handled == Reached(polls, |uris|)
    ensures ScannedUpTo(uris, resolutions, polls, supportedExtensionSet, globExtensions, cancellationToken,
                        handled, stream, order, collectedUris, searches, errors)
  {
    order, collectedUris := [], map[];
    searches, errors := [], [];
    stream := [];
    var i := 0;
    while i < |uris| && !polls[i]
      invariant i <= |uris| && i <= FirstCancelled(polls)
      invariant ScannedUpTo(uris, resolutions, polls, supportedExtensionSet, globExtensions, cancellationToken,
                            i, stream, order, collectedUris, searches, errors)
    {
      order, collectedUris, searches, errors, stream :=
        HandleInput(uris, resolutions, polls, supportedExtensionSet, globExtensions, cancellationToken,
                    i, order, collectedUris, searches, errors, stream);
      PollPassed(polls, i);
      i := i + 1;
    }
    ReachedInput(polls, i, |uris|);
    handled := i;
  }

  /** `collectScanTargetUris({ uris, logger, cancellationToken })`. Returns the targets, the
      folder searches it started and the error records it wrote. The loop stops before the
      first input for which the token reports cancellation; the targets are the collected
      map of the URIs discovered up to there. */
  method CollectScanTargetUris(uris: seq<Uri>, supportedExtensions: seq<string>,
                               cancellationToken: Option<CancellationToken>,
                               resolutions: seq<Resolution>, cancelled: seq<bool>)
    returns (targets: seq<Uri>, searches: seq<FindFilesInFolder.FindFilesCall>, errors: seq<LogRecord>)
    requires |resolutions| == |uris| && |cancelled| == |uris| + 1
    ensures var polls := Polls(cancellationToken, cancelled);
            var reached := Reached(polls, |uris|);
            && targets == Collected(Discovered(uris, resolutions, polls, LowerExtensionSet(supportedExtensions), reached))
            && searches == Searches(uris, resolutions, GlobExtensions(supportedExtensions), cancellationToken, reached)
            && errors == Failures(uris, resolutions, reached)
  {
    var globExtensions := GlobExtensions(supportedExtensions);
    var supportedExtensionSet := LowerExtensionSet(supportedExtensions);
    var polls := Polls(cancellationToken, cancelled);
    var handled, order, collectedUris;
    ghost var stream;
    handled, order, collectedUris, searches, errors, stream :=
      ScanInputs(uris, resolutions, polls, supportedExtensionSet, globExtensions, cancellationToken);
    KeysOfLastByKeyAll(stream);
    targets := MapValues(order, collectedUris);
  }
}
