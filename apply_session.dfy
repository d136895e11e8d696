/** `applySafeSuggestionsForDocument`: the session that applies the safe suggestions of one
    document, one per document update, until none is left, the run is cancelled or a step
    fails.

    The async function is cut at its `await`s into atomic steps; each method below is the
    code that runs between two of them, and the host's answer to an awaited call is the
    method's input. `isCancellationRequested` at a check is also an input. The closure
    variables become the fields of `DocumentSession`; the records written to the output
    channel and the host calls made so far are kept in `log` and `calls`. */
module ApplySession {
  import opened Wrappers
  import opened Host
  import Text
  import opened SuggestionSelection

  /** The host calls a session makes. */
  datatype HostCall =
    | GetSuggestions(documentUri: string)                       // languageServer.getSuggestions
    | ShowTextDocument(uri: Uri)                                // vscode.window.showTextDocument
    | ExecuteCodeAssistCommand(suggestionId: string, source: string)

  /** The `await` the session is suspended at; `Idle` when no step is running. */
  datatype Phase =
    | Idle
    | AwaitingSuggestions
    | AwaitingDocumentShown(next: Suggestion)
    | AwaitingApply(next: Suggestion)

  const StartMessage := "Start applying safe suggestions."
  const CancelledMessage := "Cancelled applying safe suggestions."
  const FinishedMessage := "Finished applying safe suggestions."
  const FailedMessage := "Applying suggestions failed"
  const ApplySource := "applyAllSafeSuggestions"

  /** The record written after a suggestion was applied: `Line <line>: <label>`. */
  function AppliedMessage(s: Suggestion): string {
    "Line " + Text.NatToString(s.suggestionLine) + ": " + s.actionLabel
  }

  /** The number of apply commands among the calls. */
  function ApplyCalls(calls: seq<HostCall>): nat {
    if |calls| == 0 then 0
    else ApplyCalls(calls[..|calls| - 1]) + (if calls[|calls| - 1].ExecuteCodeAssistCommand? then 1 else 0)
  }

  lemma ApplyCallsAppend(calls: seq<HostCall>, call: HostCall)
    ensures ApplyCalls(calls + [call]) == ApplyCalls(calls) + (if call.ExecuteCodeAssistCommand? then 1 else 0)
  {
    assert (calls + [call])[..|calls|] == calls;
  }

  class DocumentSession {
    const documentUri: Uri
    const path: string           // `vscode.workspace.asRelativePath(documentUri)`
    var appliedCount: nat
    var finished: bool
    var isApplying: bool
    var phase: Phase
    var listenerDisposed: bool
    var cancellationDisposed: bool
    var resolved: Option<nat>    // what the returned promise resolved with, once it did
    var log: seq<LogRecord>
    var calls: seq<HostCall>

    /** `isApplying` is set exactly while a step is suspended at an `await`; the session has
        finished exactly when the promise has resolved, and then with the final count; both
        registrations are disposed exactly when it has finished; a suspended step waits on
        the call it made last; and every applied suggestion had its apply command called. */
    ghost predicate Valid()
      reads this
    {
      && (isApplying <==> !phase.Idle?)
      && (finished <==> resolved.Some?)
      && (finished ==> resolved == Some(appliedCount))
      && listenerDisposed == finished
      && cancellationDisposed == finished
      && (phase.AwaitingSuggestions? ==> |calls| > 0 && calls[|calls| - 1] == GetSuggestions(documentUri.text))
      && (phase.AwaitingDocumentShown? ==> |calls| > 0 && calls[|calls| - 1] == ShowTextDocument(documentUri))
      && (phase.AwaitingApply? ==>
            |calls| > 0 && calls[|calls| - 1] == ExecuteCodeAssistCommand(phase.next.id, ApplySource))
      && appliedCount + (if phase.AwaitingApply? then 1 else 0) <= ApplyCalls(calls)
    }

    /** The body of the `Promise` executor: register the listeners, log the start and run
        the first step, whose cancellation check reads `cancellationRequested`. */
    constructor (documentUri: Uri, path: string, cancellationRequested: bool)
      ensures Valid()
      ensures this.documentUri == documentUri && this.path == path
      ensures appliedCount == 0
      ensures cancellationRequested ==>
        && finished && resolved == Some(0) && phase == Idle && calls == []
        && log == [Info(Some(path), StartMessage), Info(Some(path), CancelledMessage)]
      ensures !cancellationRequested ==>
        && !finished && resolved == None && phase == AwaitingSuggestions
        && calls == [GetSuggestions(documentUri.text)] && log == [Info(Some(path), StartMessage)]
    {
      this.documentUri := documentUri;
      this.path := path;
      appliedCount := 0;
      finished := false;
      isApplying := false;
      phase := Idle;
      listenerDisposed := false;
      cancellationDisposed := false;
      resolved := None;
      log := [Info(Some(path), StartMessage)];
      calls := [];
      new;
      Trigger(cancellationRequested);
    }

    /** `finish({ message })`: only the first call has an effect. */
    method Finish(message: Option<string>)
      requires Valid()
      modifies this
      ensures Valid()
      ensures old(finished) ==> unchanged(this)
      ensures !old(finished) ==>
        && finished && listenerDisposed && cancellationDisposed
        && resolved == Some(appliedCount)
        && log == old(log) + (if message.Some? then [Info(Some(path), message.value)] else [])
      ensures appliedCount == old(appliedCount) && phase == old(phase) && isApplying == old(isApplying)
      ensures calls == old(calls)
    {
      if finished {
        return;
      }
      finished := true;
      listenerDisposed := true;
      cancellationDisposed := true;
      if message.Some? {
        log := log + [Info(Some(path), message.value)];
      }
      resolved := Some(appliedCount);
    }

    /** `applyNextSuggestion()` up to its first `await`. */
    method Trigger(cancellationRequested: bool)
      requires Valid()
      modifies this
      ensures Valid()
      ensures old(finished || isApplying) ==> unchanged(this)
      ensures !old(finished || isApplying) && cancellationRequested ==>
        && finished && resolved == Some(appliedCount) && phase == Idle && calls == old(calls)
        && log == old(log) + [Info(Some(path), CancelledMessage)]
      ensures !old(finished || isApplying) && !cancellationRequested ==>
        && !finished && isApplying && phase == AwaitingSuggestions
        && calls == old(calls) + [GetSuggestions(documentUri.text)] && log == old(log)
      ensures appliedCount == old(appliedCount)
    {
      if finished || isApplying {
        return;
      }
      if cancellationRequested {
        Finish(Some(CancelledMessage));
        return;
      }
      isApplying := true;
      calls := calls + [GetSuggestions(documentUri.text)];
      ApplyCallsAppend(old(calls), GetSuggestions(documentUri.text));
      phase := AwaitingSuggestions;
    }

    /** The `onDocumentUpdated` listener: a step runs only for this document's URI, and a
        disposed listener is no longer called. */
    method OnDocumentUpdated(changedDocumentUri: string, cancellationRequested: bool)
      requires Valid()
      modifies this
      ensures Valid()
      ensures old(listenerDisposed) || changedDocumentUri != documentUri.text ==> unchanged(this)
      ensures !old(listenerDisposed) && changedDocumentUri == documentUri.text && old(isApplying) ==> unchanged(this)
      ensures !old(listenerDisposed) && changedDocumentUri == documentUri.text && !old(isApplying) && cancellationRequested ==>
        && finished && resolved == Some(appliedCount) && phase == Idle && calls == old(calls)
        && log == old(log) + [Info(Some(path), CancelledMessage)]
      ensures !old(listenerDisposed) && changedDocumentUri == documentUri.text && !old(isApplying) && !cancellationRequested ==>
        && !finished && isApplying && phase == AwaitingSuggestions
        && calls == old(calls) + [GetSuggestions(documentUri.text)] && log == old(log)
      ensures appliedCount == old(appliedCount)
    {
      if listenerDisposed || changedDocumentUri != documentUri.text {
        return;
      }
      Trigger(cancellationRequested);
    }

    /** The `onCancellationRequested` listener. */
    method OnCancellationRequested()
      requires Valid()
      modifies this
      ensures Valid()
      ensures old(cancellationDisposed) ==> unchanged(this)
      ensures !old(cancellationDisposed) ==>
        finished && log == old(log) + [Info(Some(path), CancelledMessage)] && resolved == Some(appliedCount)
      ensures appliedCount == old(appliedCount) && phase == old(phase)
      ensures calls == old(calls) && isApplying == old(isApplying)
    {
      if cancellationDisposed {
        return;
      }
      Finish(Some(CancelledMessage));
    }

    /** The step after `getSuggestions` resolved (the facade turns a failure into `None`). */
    method OnSuggestionsReturned(suggestions: Option<seq<Suggestion>>)
      requires Valid() && phase.AwaitingSuggestions?
      modifies this
      ensures Valid()
      ensures appliedCount == old(appliedCount)
      ensures old(finished) ==> phase == Idle && !isApplying && log == old(log) && calls == old(calls)
      ensures old(finished) ==> finished && resolved == old(resolved)
      ensures !old(finished) && NextSafeSuggestion(suggestions).None? ==>
        && finished && phase == Idle && resolved == Some(appliedCount) && calls == old(calls)
        && log == old(log) + [Info(Some(path), FinishedMessage)]
      ensures !old(finished) && NextSafeSuggestion(suggestions).Some? ==>
        && !finished && phase == AwaitingDocumentShown(NextSafeSuggestion(suggestions).value)
        && calls == old(calls) + [ShowTextDocument(documentUri)] && log == old(log)
    {
      if finished {
        isApplying, phase := false, Idle;
        return;
      }
      var next := NextSafeSuggestion(suggestions);
      if next.None? {
        Finish(Some(FinishedMessage));
        isApplying, phase := false, Idle;
        return;
      }
      calls := calls + [ShowTextDocument(documentUri)];
      ApplyCallsAppend(old(calls), ShowTextDocument(documentUri));
      phase := AwaitingDocumentShown(next.value);
    }

    /** The step after `showTextDocument` resolved. */
    method OnDocumentShown(cancellationRequested: bool)
      requires Valid() && phase.AwaitingDocumentShown?
      modifies this
      ensures Valid()
      ensures appliedCount == old(appliedCount)
      ensures old(finished) ==> phase == Idle && !isApplying && log == old(log) && calls == old(calls)
      ensures old(finished) ==> finished && resolved == old(resolved)
      ensures !old(finished) && cancellationRequested ==>
        && finished && phase == Idle && resolved == Some(appliedCount) && calls == old(calls)
        && log == old(log) + [Info(Some(path), CancelledMessage)]
      ensures !old(finished) && !cancellationRequested ==>
        && !finished && phase == AwaitingApply(old(phase).next)
        && calls == old(calls) + [ExecuteCodeAssistCommand(old(phase).next.id, ApplySource)]
        && log == old(log)
    {
      if finished {
        isApplying, phase := false, Idle;
        return;
      }
      if cancellationRequested {
        Finish(Some(CancelledMessage));
        isApplying, phase := false, Idle;
        return;
      }
      var next := phase.next;
      calls := calls + [ExecuteCodeAssistCommand(next.id, ApplySource)];
      ApplyCallsAppend(old(calls), ExecuteCodeAssistCommand(next.id, ApplySource));
      phase := AwaitingApply(next);
    }

    /** The step after `executeCodeAssistCommand` resolved: the suggestion counts as applied
        only if the session has not finished in the meantime. */
    method OnApplyReturned()
      requires Valid() && phase.AwaitingApply?
      modifies this
      ensures Valid()
      ensures phase == Idle && !isApplying && finished == old(finished) && calls == old(calls)
      ensures resolved == old(resolved)
      ensures old(finished) ==> appliedCount == old(appliedCount) && log == old(log)
      ensures !old(finished) ==>
        appliedCount == old(appliedCount) + 1 && log == old(log) + [Info(Some(path), AppliedMessage(old(phase).next))]
    {
      if !finished {
        appliedCount := appliedCount + 1;
        log := log + [Info(Some(path), AppliedMessage(phase.next))];
      }
      isApplying, phase := false, Idle;
    }

    /** The `catch` and `finally` blocks, when `showTextDocument` or `executeCodeAssistCommand`
        rejected: the error is logged even if the session has finished meanwhile. */
    method OnStepFailed()
      requires Valid() && (phase.AwaitingDocumentShown? || phase.AwaitingApply?)
      modifies this
      ensures Valid()
      ensures phase == Idle && !isApplying && finished && calls == old(calls)
      ensures appliedCount == old(appliedCount) && resolved == Some(appliedCount)
      ensures old(finished) ==> resolved == old(resolved)
      ensures log == old(log) + [Error(Some(path), FailedMessage)]
    {
      log := log + [Error(Some(path), FailedMessage)];
      Finish(None);
      isApplying, phase := false, Idle;
    }
  }
}
