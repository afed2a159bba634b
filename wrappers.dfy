/** Optional values, results and the error kinds the OVN client reports. */
module Wrappers {

  /** A value that may be absent; `None` stands for Go's `nil`. */
  datatype Option<+T> = None | Some(value: T)

  /** The value-or-error pair that Go functions return as `(T, error)`. */
  datatype Result<+T, +E> = Success(value: T) | Failure(error: E)

  /** The error conditions of the client; the text of each `fmt.Errorf` is not modelled,
      only which condition was hit and the table, column, key or database it names. */
  datatype Error =
    | QueryFailed(table: string)          // Transact returned an error
    | NothingFound(what: string)          // the query returned zero rows
    | UnsupportedDatabase(db: string)     // AppListCommands: unknown database name
    | ConnectFailed(db: string)           // AppListCommands: NewClient failed
    | CommandFailed(db: string)           // AppListCommands: the control query failed
    | NoData(db: string)                  // AppListCommands: empty response
    | IdFileUnreadable                    // system-id file could not be opened or scanned
    | BadIdLength(length: nat)            // first line of the system-id file is not 36 bytes long
    | ColumnParseFailed(column: string)   // GetColumnValue failed on a required column
    | UnexpectedType(column: string)      // a required column has the wrong type tag
    | SystemIdMismatch(db: string, config: string)
    | SystemIdMissing
    | KeyMissing(key: string)
}
