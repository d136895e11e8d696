/** The `undefined`-or-value shape that the extension's TypeScript uses throughout. */
module Wrappers {
  datatype Option<+T> = None | Some(value: T)
}

/** The host values that several core files share: `vscode.Uri` and log records. */
module Host {
  import opened Wrappers

  /** A `vscode.Uri` as the core sees it: `text` is `uri.toString()`, `path` is `uri.path`. */
  datatype Uri = Uri(text: string, path: string)

  /** One record written to the extension's output channel. */
  datatype LogRecord =
    | InfoMessage(message: string)                   // logger.infoMessage
    | Info(path: Option<string>, message: string)    // logger.log(LogLevel.INFO, ...)
    | Error(path: Option<string>, message: string)   // logger.error(...)

  /** A `vscode.CancellationToken`, identified only by which token it is. */
  datatype CancellationToken = CancellationToken(id: nat)
}
