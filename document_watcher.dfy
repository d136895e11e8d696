/** `DocumentWatcher`: remembers the document the code-assist views show and turns the
    language server's "document updated" notifications for that document into
    `onSuggestionChange` events.

    Firing the event is modelled by counting: `suggestionChanges` is the number of times
    the event emitter has fired. The language server requests that go through
    `withDocumentUri` are returned as the request made, or `None` when none is made. */
module DocumentWatching {
  import opened Wrappers
  import opened Host

  /** `documentUri?.toString()`. */
  function UriString(documentUri: Option<Uri>): (s: Option<string>)
    ensures s.Some? <==> documentUri.Some?
    ensures s.Some? ==> s.value == documentUri.value.text
  {
    if documentUri.Some? then Some(documentUri.value.text) else None
  }

  /** The language server requests a watcher makes for its document. */
  datatype ServerRequest =
    | GetFunctionElements(documentUri: string)
    | GetSuggestions(documentUri: string)
    | GetCodeAssistDiff(documentUri: string, codeAssistId: string, contextLines: Option<nat>)

  class DocumentWatcher {
    var documentUri: Option<Uri>
    var documentUriString: Option<string>
    var suggestionChanges: nat

    /** The stored string is always the stored URI's string form. */
    ghost predicate Valid()
      reads this
    {
      documentUriString == UriString(documentUri)
    }

    /** A new watcher has no document and has fired nothing. */
    constructor ()
      ensures Valid()
      ensures documentUri == None && documentUriString == None && suggestionChanges == 0
    {
      documentUri := None;
      documentUriString := None;
      suggestionChanges := 0;
    }

    method GetDocumentUri() returns (uri: Option<Uri>)
      ensures uri == documentUri
    {
      uri := documentUri;
    }

    /** Setting a URI with the current string form changes nothing and fires nothing;
        any other value, `None` included, is stored and fires one event. */
    method SetDocumentUri(uri: Option<Uri>)
      requires Valid()
      modifies this
      ensures Valid()
      ensures UriString(uri) == old(documentUriString) ==> unchanged(this)
      ensures UriString(uri) != old(documentUriString) ==>
        && documentUri == uri && documentUriString == UriString(uri)
        && suggestionChanges == old(suggestionChanges) + 1
    {
      var newDocumentUriString := UriString(uri);
      if newDocumentUriString == documentUriString {
        return;
      }
      documentUri := uri;
      documentUriString := newDocumentUriString;
      Update();
    }

    /** The `onDocumentUpdated` listener registered by the constructor: it fires only for the
        current document, and never while there is none. */
    method OnDocumentUpdated(updatedDocumentUri: string)
      modifies this
      ensures documentUri == old(documentUri) && documentUriString == old(documentUriString)
      ensures suggestionChanges == old(suggestionChanges) + (if documentUriString == Some(updatedDocumentUri) then 1 else 0)
      ensures old(documentUriString).None? ==> suggestionChanges == old(suggestionChanges)
    {
      if Some(updatedDocumentUri) == documentUriString {
        Update();
      }
    }

    /** `withDocumentUri`: the callback runs on the current string only when there is one. */
    method WithDocumentUri<T>(callback: string -> T) returns (result: Option<T>)
      ensures documentUriString.None? ==> result.None?
      ensures documentUriString.Some? ==> result == Some(callback(documentUriString.value))
    {
      if documentUriString.Some? {
        result := Some(callback(documentUriString.value));
      } else {
        result := None;
      }
    }

    method RequestFunctionElements() returns (request: Option<ServerRequest>)
      ensures request.Some? <==> documentUriString.Some?
      ensures request.Some? ==> request.value == GetFunctionElements(documentUriString.value)
    {
      request := WithDocumentUri(uri => GetFunctionElements(uri));
    }

    method RequestSuggestions() returns (request: Option<ServerRequest>)
      ensures request.Some? <==> documentUriString.Some?
      ensures request.Some? ==> request.value == GetSuggestions(documentUriString.value)
    {
      request := WithDocumentUri(uri => GetSuggestions(uri));
    }

    method RequestCodeAssistDiff(codeAssistId: string, contextLines: Option<nat>) returns (request: Option<ServerRequest>)
      ensures request.Some? <==> documentUriString.Some?
      ensures request.Some? ==> request.value == GetCodeAssistDiff(documentUriString.value, codeAssistId, contextLines)
    {
      request := WithDocumentUri(uri => GetCodeAssistDiff(uri, codeAssistId, contextLines));
    }

    method Update()
      modifies this
      ensures documentUri == old(documentUri) && documentUriString == old(documentUriString)
      ensures suggestionChanges == old(suggestionChanges) + 1
    {
      suggestionChanges := suggestionChanges + 1;
    }
  }

  /** Setting the same document twice fires at most one event: the second call is a no-op. */
  method SetDocumentUriIdempotent(watcher: DocumentWatcher, uri: Option<Uri>)
    requires watcher.Valid()
    modifies watcher
    ensures watcher.Valid()
    ensures watcher.documentUriString == UriString(uri)
    ensures watcher.suggestionChanges <= old(watcher.suggestionChanges) + 1
    ensures watcher.suggestionChanges == old(watcher.suggestionChanges) <==> UriString(uri) == old(watcher.documentUriString)
  {
    watcher.SetDocumentUri(uri);
    ghost var afterFirst := watcher.suggestionChanges;
    watcher.SetDocumentUri(uri);
    assert watcher.suggestionChanges == afterFirst;
  }
}
