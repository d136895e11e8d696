/** `createApplyAllSafeSuggestionsCommand`: resolves the files the command was invoked on,
    expands them with `collectScanTargetUris`, then runs one apply session per target file
    in order until cancellation, and reports the totals.

    The sessions themselves are modelled by `ApplySession.DocumentSession`; here the number
    each session resolved with is an input (`sessionResult(k)` for the `k`-th target), and
    so is the token's value between two sessions: `cancelledAfter(k)` is what
    `isCancellationRequested` says once `k` sessions have resolved. */
module ApplyAllSafeSuggestions {
  import opened Wrappers
  import opened Host
  import Text
  import FindFilesInFolder
  import Collect = CollectScanTargetUris

  const NoFileMessage := "No file selected to apply safe suggestions."
  const CollectingMessage := "Collecting files to apply safe suggestions"
  const CancelledMessage := "Applying safe suggestions cancelled."
  const NoSupportedFilesMessage := "No supported files found to apply safe suggestions."

  // ---------------------------------------------------------------------------
  // The command's argument

  /** What the command is invoked with: nothing, one URI or an array of URIs. */
  datatype UriArgument = NoArgument | SingleUri(uri: Uri) | UriList(uris: seq<Uri>)

  /** `resolvedUris`: without an argument, the active editor's document, if there is one. */
  function ResolveUris(argument: UriArgument, activeEditorUri: Option<Uri>): (uris: seq<Uri>)
    ensures |uris| == 0 <==> (argument.NoArgument? && activeEditorUri.None?) || argument == UriList([])
    ensures forall u :: u in uris ==>
      || (argument.NoArgument? && activeEditorUri == Some(u))
      || (argument.SingleUri? && u == argument.uri)
      || (argument.UriList? && u in argument.uris)
  {
    match argument
    case NoArgument => if activeEditorUri.Some? then [activeEditorUri.value] else []
    case SingleUri(uri) => [uri]
    case UriList(uris) => uris
  }

  // ---------------------------------------------------------------------------
  // Messages

  predicate AllDigits(s: string) {
    forall i :: 0 <= i < |s| ==> Text.IsDigit(s[i])
  }

  /** The length of the run of digits `s` starts with. */
  function DigitRunLength(s: string): (n: nat)
    ensures n <= |s|
    ensures forall i :: 0 <= i < n ==> Text.IsDigit(s[i])
    ensures n < |s| ==> !Text.IsDigit(s[n])
  {
    if |s| == 0 || !Text.IsDigit(s[0]) then 0 else 1 + DigitRunLength(s[1..])
  }

  lemma {:induction false} DigitRunOfDigitsThen(d: string, t: string)
    requires AllDigits(d) && |t| > 0 && !Text.IsDigit(t[0])
    ensures DigitRunLength(d + t) == |d|
    decreases |d|
  {
    if |d| == 0 {
      assert d + t == t;
    } else {
      assert (d + t)[1..] == d[1..] + t;
      DigitRunOfDigitsThen(d[1..], t);
    }
  }

  /** A decimal number followed by a non-digit can be read back off the front of a string. */
  lemma StripDigits(d1: string, t1: string, d2: string, t2: string)
    requires AllDigits(d1) && |t1| > 0 && !Text.IsDigit(t1[0])
    requires AllDigits(d2) && |t2| > 0 && !Text.IsDigit(t2[0])
    requires d1 + t1 == d2 + t2
    ensures d1 == d2 && t1 == t2
  {
    DigitRunOfDigitsThen(d1, t1);
    DigitRunOfDigitsThen(d2, t2);
    assert d1 == (d1 + t1)[..|d1|] && d2 == (d2 + t2)[..|d2|];
    assert t1 == (d1 + t1)[|d1|..] && t2 == (d2 + t2)[|d2|..];
  }

  lemma StripPrefix(p: string, s: string, t: string)
    requires p + s == p + t
    ensures s == t
  {
    assert s == (p + s)[|p|..] && t == (p + t)[|p|..];
  }

  lemma Assoc(x: string, y: string, z: string)
    ensures x + y + z == x + (y + z)
  {
  }

  /** The summary regrouped so that its parts can be stripped off from the front. */
  lemma Regroup(h: string, a: string, ss: string, pa: string, ac: string, p: string, f: string, pp: string, d: string)
    ensures h + a + ss + pa + ac + p + f + pp + d == h + (a + (ss + (pa + (ac + (p + (f + pp + d))))))
  {
    Assoc(h + a + ss + pa + ac, p, f + pp + d);
    Assoc(h + a + ss + pa, ac, p + (f + pp + d));
    Assoc(h + a + ss, pa, ac + (p + (f + pp + d)));
    Assoc(h + a, ss, pa + (ac + (p + (f + pp + d))));
    Assoc(h, a, ss + (pa + (ac + (p + (f + pp + d)))));
    assert h + a + ss + pa + ac + p + f + pp + d == h + a + ss + pa + ac + p + (f + pp + d);
  }

  /** The `s` of a plural, left out for exactly one. */
  function Plural(n: nat): string {
    if n == 1 then "" else "s"
  }

  /** `Applying safe suggestions (<processed>/<total>)`. */
  function ProgressMessage(processed: nat, total: nat): string {
    "Applying safe suggestions (" + Text.NatToString(processed) + "/" + Text.NatToString(total) + ")"
  }

  /** A progress report names the position and the total it was written for. */
  lemma ProgressMessageDeterminesCounts(k1: nat, n1: nat, k2: nat, n2: nat)
    requires ProgressMessage(k1, n1) == ProgressMessage(k2, n2)
    ensures k1 == k2 && n1 == n2
  {
    var head := "Applying safe suggestions (";
    var k1s, n1s := Text.NatToString(k1), Text.NatToString(n1);
    var k2s, n2s := Text.NatToString(k2), Text.NatToString(n2);
    assert ProgressMessage(k1, n1) == head + (k1s + ("/" + (n1s + ")")));
    assert ProgressMessage(k2, n2) == head + (k2s + ("/" + (n2s + ")")));
    StripPrefix(head, k1s + ("/" + (n1s + ")")), k2s + ("/" + (n2s + ")")));
    StripDigits(k1s, "/" + (n1s + ")"), k2s, "/" + (n2s + ")"));
    Text.NatToStringInjective(k1, k2);
    StripPrefix("/", n1s + ")", n2s + ")");
    StripDigits(n1s, ")", n2s, ")");
    Text.NatToStringInjective(n1, n2);
  }

  /** `Applied <total> safe suggestion(s) across <processed> file(s).` */
  function SummaryMessage(appliedTotal: nat, processed: nat): string {
    "Applied " + Text.NatToString(appliedTotal) + " safe suggestion" + Plural(appliedTotal)
      + " across " + Text.NatToString(processed) + " file" + Plural(processed) + "."
  }

  /** The summary names both counts: two summaries are equal only for equal counts. */
  lemma SummaryMessageDeterminesCounts(a1: nat, p1: nat, a2: nat, p2: nat)
    requires SummaryMessage(a1, p1) == SummaryMessage(a2, p2)
    ensures a1 == a2 && p1 == p2
  {
    var a1s, p1s := Text.NatToString(a1), Text.NatToString(p1);
    var a2s, p2s := Text.NatToString(a2), Text.NatToString(p2);
    var files1 := " file" + Plural(p1) + ".";
    var files2 := " file" + Plural(p2) + ".";
    var across1 := " across " + (p1s + files1);
    var across2 := " across " + (p2s + files2);
    Regroup("Applied ", a1s, " safe suggestion", Plural(a1), " across ", p1s, " file", Plural(p1), ".");
    Regroup("Applied ", a2s, " safe suggestion", Plural(a2), " across ", p2s, " file", Plural(p2), ".");
    StripPrefix("Applied ", a1s + (" safe suggestion" + (Plural(a1) + across1)),
                            a2s + (" safe suggestion" + (Plural(a2) + across2)));
    StripDigits(a1s, " safe suggestion" + (Plural(a1) + across1), a2s, " safe suggestion" + (Plural(a2) + across2));
    Text.NatToStringInjective(a1, a2);
    StripPrefix(" safe suggestion", Plural(a1) + across1, Plural(a2) + across2);
    StripPrefix(Plural(a1), across1, across2);
    StripPrefix(" across ", p1s + files1, p2s + files2);
    StripDigits(p1s, files1, p2s, files2);
    Text.NatToStringInjective(p1, p2);
  }

  // ---------------------------------------------------------------------------
  // The batch over the target files

  /** The index at which the loop, started at `k`, stops: the first target before which the
      token reports cancellation, or the number of targets. */
  function ProcessedFrom(cancelledAfter: nat -> bool, k: nat, n: nat): (stop: nat)
    requires k <= n
    ensures k <= stop <= n
    ensures forall j :: k <= j < stop ==> !cancelledAfter(j)
    ensures stop < n ==> cancelledAfter(stop)
    decreases n - k
  {
    if k == n || cancelledAfter(k) then k else ProcessedFrom(cancelledAfter, k + 1, n)
  }

  /** `processed` after the loop over `n` targets. */
  function Processed(cancelledAfter: nat -> bool, n: nat): nat {
    ProcessedFrom(cancelledAfter, 0, n)
  }

  /** The sum of what the first `k` sessions resolved with. */
  function AppliedTotal(sessionResult: nat -> nat, k: nat): nat {
    if k == 0 then 0 else AppliedTotal(sessionResult, k - 1) + sessionResult(k - 1)
  }

  /** The progress messages reported for the first `k` of `n` targets. */
  function ProgressReports(k: nat, n: nat): (reports: seq<string>)
    ensures |reports| == k
  {
    seq(k, j requires 0 <= j < k => ProgressMessage(j + 1, n))
  }

  /** What the batch writes to the log once the loop has stopped: the cancellation notice
      if the token is cancelled then, otherwise a summary when there was more than one
      target. */
  function BatchLog(cancelledAfter: nat -> bool, sessionResult: nat -> nat, n: nat): seq<LogRecord> {
    var processed := Processed(cancelledAfter, n);
    if cancelledAfter(processed) then [InfoMessage(CancelledMessage)]
    else if n > 1 then [Info(None, SummaryMessage(AppliedTotal(sessionResult, processed), processed))]
    else []
  }

  /** The batch ends in one of three ways: the cancellation notice, exactly when the token is
      cancelled after the last session run; otherwise every target was processed, and the
      summary, which then counts every target and every applied suggestion, is written
      exactly when there were several targets. */
  lemma {:induction false} BatchLogSpec(cancelledAfter: nat -> bool, sessionResult: nat -> nat, n: nat)
    ensures var processed := Processed(cancelledAfter, n);
      && (BatchLog(cancelledAfter, sessionResult, n) == [InfoMessage(CancelledMessage)] <==> cancelledAfter(processed))
      && (!cancelledAfter(processed) ==> processed == n)
      && (!cancelledAfter(processed) && n > 1 ==>
            BatchLog(cancelledAfter, sessionResult, n) == [Info(None, SummaryMessage(AppliedTotal(sessionResult, n), n))])
      && (n <= 1 ==> BatchLog(cancelledAfter, sessionResult, n) == [] || cancelledAfter(processed))
  {
    var processed := Processed(cancelledAfter, n);
    if !cancelledAfter(processed) {
      assert processed == n;
      if n > 1 {
        assert BatchLog(cancelledAfter, sessionResult, n)[0].Info?;
      }
    }
  }

  /** Two targets, with the token never cancelled, whose sessions applied 2 and 0
      suggestions: the batch ends with the plural summary over both files. */
  lemma {:induction false} BatchLogTwoTargets(cancelledAfter: nat -> bool, sessionResult: nat -> nat)
    requires !cancelledAfter(0) && !cancelledAfter(1) && !cancelledAfter(2)
    requires sessionResult(0) == 2 && sessionResult(1) == 0
    ensures BatchLog(cancelledAfter, sessionResult, 2) == [Info(None, "Applied 2 safe suggestions across 2 files.")]
  {
    assert Processed(cancelledAfter, 2) == 2 by {
      assert ProcessedFrom(cancelledAfter, 1, 2) == 2;
    }
    assert AppliedTotal(sessionResult, 2) == 2 by {
      assert AppliedTotal(sessionResult, 1) == 2;
    }
    assert Text.NatToString(2) == "2";
    assert Plural(2) == "s";
    assert SummaryMessage(2, 2) == "Applied 2 safe suggestions across 2 files.";
  }

  /** The loop over the target files: one session per target until the token reports
      cancellation, then the closing log record. */
  method RunBatch(targets: seq<Uri>, cancelledAfter: nat -> bool, sessionResult: nat -> nat)
    returns (processed: nat, appliedTotal: nat, sessions: seq<Uri>, progress: seq<string>, log: seq<LogRecord>)
    ensures processed == Processed(cancelledAfter, |targets|)
    ensures sessions == targets[..processed]
    ensures appliedTotal == AppliedTotal(sessionResult, processed)
    ensures progress == ProgressReports(processed, |targets|)
    ensures log == BatchLog(cancelledAfter, sessionResult, |targets|)
  {
    var n := |targets|;
    processed, appliedTotal, sessions, progress := 0, 0, [], [];
    while processed < n && !cancelledAfter(processed)
      invariant processed <= n
      invariant ProcessedFrom(cancelledAfter, processed, n) == Processed(cancelledAfter, n)
      invariant sessions == targets[..processed]
      invariant appliedTotal == AppliedTotal(sessionResult, processed)
      invariant progress == ProgressReports(processed, n)
      decreases n - processed
    {
      var documentUri := targets[processed];
      processed := processed + 1;
      progress := progress + [ProgressMessage(processed, n)];
      sessions := sessions + [documentUri];
      appliedTotal := appliedTotal + sessionResult(processed - 1);
    }
    if cancelledAfter(processed) {
      log := [InfoMessage(CancelledMessage)];
    } else if n > 1 {
      log := [Info(None, SummaryMessage(appliedTotal, processed))];
    } else {
      log := [];
    }
  }

  // ---------------------------------------------------------------------------
  // The command

  /** The token seen by the batch: not cancelled when it starts (the check after the scan
      let it through), then `cancelledAfterSession(k)` once the `k`-th session, counted
      from 0, resolved. */
  function BatchPolls(cancelledAfterSession: nat -> bool): nat -> bool {
    k => k > 0 && cancelledAfterSession(k - 1)
  }

  /** The whole command. `scanCancelled` is the token during the scan, as
      `collectScanTargetUris` reads it; the cancellation check right after the scan reads
      the value the scan saw last. It returns the log records, the progress messages and
      whether the output channel was shown. */
  method ApplyAllSafeSuggestions(argument: UriArgument, activeEditorUri: Option<Uri>,
                                 supportedExtensions: seq<string>, cancellationToken: CancellationToken,
                                 resolutions: seq<Collect.Resolution>, scanCancelled: seq<bool>,
                                 cancelledAfterSession: nat -> bool, sessionResult: nat -> nat)
    returns (log: seq<LogRecord>, progress: seq<string>, outputShown: bool)
    requires |resolutions| == |ResolveUris(argument, activeEditorUri)|
    requires |scanCancelled| == |ResolveUris(argument, activeEditorUri)| + 1
    ensures var uris := ResolveUris(argument, activeEditorUri);
      && (|uris| == 0 ==> log == [InfoMessage(NoFileMessage)] && progress == [] && !outputShown)
      && (|uris| > 0 ==>
            var reached := Collect.Reached(scanCancelled, |uris|);
            var polls := Collect.Polls(Some(cancellationToken), scanCancelled);
            var targets := Collect.Collected(Collect.Discovered(uris, resolutions, polls,
                                                                Collect.LowerExtensionSet(supportedExtensions), reached));
            var errors := Collect.Failures(uris, resolutions, reached);
            && outputShown
            && (scanCancelled[reached] ==>
                  log == errors + [InfoMessage(CancelledMessage)] && progress == [CollectingMessage])
            && (!scanCancelled[reached] && |targets| == 0 ==>
                  log == errors + [InfoMessage(NoSupportedFilesMessage)] && progress == [CollectingMessage])
            && (!scanCancelled[reached] && |targets| > 0 ==>
                  && log == errors + BatchLog(BatchPolls(cancelledAfterSession), sessionResult, |targets|)
                  && progress == [CollectingMessage]
                                 + ProgressReports(Processed(BatchPolls(cancelledAfterSession), |targets|), |targets|)))
  {
    var uris := ResolveUris(argument, activeEditorUri);
    if |uris| == 0 {
      log, progress, outputShown := [InfoMessage(NoFileMessage)], [], false;
      return;
    }
    outputShown := true;
    progress := [CollectingMessage];
    assert Collect.Polls(Some(cancellationToken), scanCancelled) == scanCancelled;
    var targets, searches, errors :=
      Collect.CollectScanTargetUris(uris, supportedExtensions, Some(cancellationToken), resolutions, scanCancelled);
    var reached := Collect.Reached(scanCancelled, |uris|);
    if scanCancelled[reached] {
      log := errors + [InfoMessage(CancelledMessage)];
      return;
    }
    if |targets| == 0 {
      log := errors + [InfoMessage(NoSupportedFilesMessage)];
      return;
    }
    var processed, appliedTotal, sessions, reports, batchLog :=
      RunBatch(targets, BatchPolls(cancelledAfterSession), sessionResult);
    progress := progress + reports;
    log := errors + batchLog;
  }
}
