# account-checker: a Dafny model

`account-checker.js` is a chat bot job. It connects to a MySQL database and runs two aggregate
queries over the `account` table: how many accounts have no refresh token, and how many are
ready to use. It posts the two numbers as an embed to a chat channel. It logs each error,
the missing channel and the outcome of the send to `log.txt`, which it rotates once the file
reaches 1 MiB. This project models the three
pieces of real logic in that file and proves properties about them.

- **Log sink** (`logsink.dfy`, module `LogSink`). `recycleLogFile` and `logMessage` work on an
  abstract file system: the bytes of the active `log.txt` (absent after a rotation) and a map
  from archive name to bytes. The value-level functions `Recycled` and `Logged` specify both
  routines. The class `LogDirectory` holds the same state as fields and changes it in place.
  `Sanitise` is the timestamp sanitiser `replace(/[:.]/g, "-")`, and `ArchiveName` builds
  `log-<sanitised>.txt`. File sizes are counted in bytes. `Utf8` (`utf8.dfy`) gives the UTF-8
  encoding that `appendFileSync` writes, so `stats.size` is the length of the encoded text.
- **Aggregates and report** (`accounts.dfy` and `report.dfy`, modules `Accounts` and
  `Report`). Both SQL `SELECT`s are counting functions over `seq<Account>`, with `now` standing
  for `UNIX_TIMESTAMP()`. `SUM` over an empty table is `NULL`, so the ready total is an
  `Option<nat>` and shows as `null` in the embed. The embed text is chosen from the two result
  sets exactly as lines 104-127 choose it. This includes the comparison of the result *array*
  with 5 at line 117. It is modelled through JavaScript's `ToNumber` of an array of row
  objects, which gives NaN, so the field title is always the warning one.
- **The `sendMessage` pipeline** (`checker.dfy`, module `AccountChecker`). Each external call
  (connect, each query, the channel lookup, the send) is an input that succeeds or returns an
  error text. Each query reads its own copy of the table, because the two statements run
  separately and the table may change between them. `SendMessageTrace` is the sequence of
  effects: connect, query, log, send, end, and retry scheduled. The method `SendMessage` runs the same control flow imperatively
  against a `Connection` object, which goes from created to open or refused, and then to
  ended. `End` may only be called on an open connection.

The size check runs before the append, so the active file can pass 1 MiB by less than one line
(`LogSink.ActiveCanExceedThreshold`, `LogSink.LoggedActiveBound`).

## Model

| member | source | states |
|---|---|---|
| `LogSink.Sanitise` | account-checker.js:29 | the result has the input's length, contains no ':' or '.', has '-' wherever the input had ':' or '.', and keeps every other character |
| `LogSink.ArchiveName` | account-checker.js:29-30 | the archive name is "log-", then the sanitised timestamp, then ".txt" |
| `LogSink.ArchiveNameShape` | account-checker.js:29-30 | the only '.' in an archive name starts ".txt", and an archive name is never "log.txt" |
| `LogSink.ArchiveNameInjective` | account-checker.js:29-30 | distinct ISO-8601 timestamps give distinct archive names |
| `LogSink.LogLine` | account-checker.js:39 | the line is '[', the timestamp, "] ", the message and a newline, in that order |
| `LogSink.RecycledSpec` | account-checker.js:25-34 | without a due rotation (file missing, or under 1,048,576 bytes) nothing changes; with one, the active file is gone, its bytes are under the archive name, and every other archive keeps its membership and contents |
| `LogSink.LoggedAfterRotation` | account-checker.js:37-45 | after a rotation the archive holds the old contents, the active file is exactly the new line's bytes, and every other archive is unchanged |
| `LogSink.LoggedWithoutRotation` | account-checker.js:37-45 | without a rotation the active file is the old contents (or nothing) followed by the line's bytes, and the archives are unchanged |
| `LogSink.LoggedActiveBound` | account-checker.js:37-45 | after any log call the active file exists, ends with the new line, and is smaller than 1 MiB plus that line |
| `LogSink.ActiveCanExceedThreshold` | account-checker.js:26-44 | a file one byte under the threshold is not rotated, so after the append it is larger than the threshold |
| `LogSink.RotationBoundary` | account-checker.js:28 | a 1,048,576-byte log is moved to its archive name and log.txt then holds only `[ts] hello\n`; a 1,048,575-byte log is appended to; in both cases the whole state is given |
| `LogSink.LogDirectory.RecycleLogFile` | account-checker.js:25-34 | the new directory state is `Recycled` of the old one; when no rotation is due, both fields are unchanged |
| `LogSink.LogDirectory.AppendFile` | account-checker.js:44 | the text's bytes are appended, and the file is created if absent; archives are unchanged |
| `LogSink.LogDirectory.LogMessage` | account-checker.js:37-45 | the new state is `Logged` of the old one: after a rotation, the line alone plus the archive update; otherwise the old contents followed by the line |
| `Utf8.EncodeChar` | account-checker.js:44 | the byte count follows the RFC 3629 table (1 byte below U+0080, 2 below U+0800, 3 below U+10000, 4 otherwise); continuation bytes are in 0x80-0xBF; decoding gives back the code point |
| `Utf8.Encode` | account-checker.js:44 | a string of n characters takes between n and 4n bytes |
| `Utf8.EncodeAppend` | account-checker.js:44 | encoding a concatenation is the concatenation of the encodings |
| `Utf8.EncodeLengthAscii` | account-checker.js:27-28 | the byte size equals the character count exactly when every character is ASCII |
| `Wrappers.Coalesce` | account-checker.js:73 | `coalesce(x, d)` is x when x is not NULL and d otherwise |
| `Accounts.Count` | account-checker.js:61-83 | a count never exceeds the number of rows |
| `Accounts.CountAppend` | account-checker.js:61-83 | counting over a concatenation adds the counts of the parts |
| `Accounts.CountPermutation` | account-checker.js:61-83 | a count depends only on the multiset of rows |
| `Accounts.CountPositive` | account-checker.js:61-83 | a count is positive exactly when some row satisfies the condition |
| `Accounts.CountDisjoint` | account-checker.js:61-83 | two conditions that never hold together count at most one per row between them |
| `Accounts.ReadyTotal` | account-checker.js:62-83 | the SUM is NULL exactly for an empty table; otherwise it is at most the number of rows |
| `Accounts.NoTokenRows` | account-checker.js:85-92 | the no-token query returns one row, whose count is at most the number of accounts |
| `Accounts.ReadyToUseRows` | account-checker.js:94-101 | the ready query returns one row, whose Total is NULL exactly for an empty table |
| `Accounts.NoTokenIsNeverReady` | account-checker.js:75 | an account with an empty refresh_token is never ready |
| `Accounts.CountsDisjoint` | account-checker.js:61-75 | over one table, the no-token count plus the ready count is at most the number of accounts |
| `Accounts.AggregatesIgnoreRowOrder` | account-checker.js:61-83 | both aggregates are the same for any reordering of the table |
| `Accounts.NoTokenCountPositive` | account-checker.js:61 | the no-token count is positive exactly when some account has an empty token |
| `Accounts.ReadyTotalPositive` | account-checker.js:62-83 | the ready total is a positive number exactly when some account meets the whole eligibility conjunction |
| `Accounts.CooldownIsStrict` | account-checker.js:72-73 | for an otherwise eligible account, being disabled exactly 345600 s ago is not enough; 345601 s is; when never disabled, it is ready exactly when now > 345600 |
| `Report.DigitChar` | account-checker.js:112 | the character is a decimal digit whose value is the given digit |
| `Report.NatToString` | account-checker.js:112 | a count renders as a non-empty string of digits with no leading zero; 0 renders as the single digit "0" |
| `Report.NatToStringRoundTrip` | account-checker.js:112 | the rendered digits read back as the number |
| `Report.DescriptionSignals` | account-checker.js:110-116 | the description has the red mark exactly when the no-token count is > 0, and the green mark exactly when it is 0 |
| `Report.DescriptionShowsCount` | account-checker.js:111-113 | when the count is positive, the description is "There are ", then digits with no leading zero that read back as the count, then " accounts without token 🔴" and a newline |
| `Report.RowArrayToNumber` | account-checker.js:117 | converting a non-empty result array to a number gives NaN |
| `Report.TotalToNumber` | account-checker.js:101 | the Total converts to its own value, and NULL converts to 0 |
| `Report.ReadyFieldNameAlwaysWarning` | account-checker.js:117-127 | as written, the field title is the warning title for every result set |
| `Report.ReadyFieldNameDiscrepancy` | account-checker.js:117 | six ready accounts still get the warning title as written, but the green title under the intended comparison |
| `Report.ReadyFieldNameIntendedSpec` | account-checker.js:117 | with `readyToUseAccsCount > 5`, the title is green exactly when the total is a number above 5, and the warning title otherwise |
| `Report.ReadyFieldValueShowsTotal` | account-checker.js:118-126 | the field body is the ready total (its digits with no leading zero, reading back as the total, or "null") followed by " accounts are ready to use" |
| `Report.EmbedForAccounts` | account-checker.js:104-127 | for a table of accounts: fixed title and colour; red description exactly when some token is empty; warning field title; body shows the ready total |
| `AccountChecker.ConnectFailureSchedulesOneRetry` | account-checker.js:53-58 | a failed connect logs the error and ends with exactly one retry at 30000 ms; there are no queries, no send and no end |
| `AccountChecker.RetryOnlyOnConnectFailure` | account-checker.js:53-58 | a retry is scheduled exactly when the connect failed |
| `AccountChecker.EndExactlyOnceAfterConnect` | account-checker.js:85-145 | after a successful connect, on every path, the last effect is the end of the connection and no other effect is an end |
| `AccountChecker.NoSendAfterQueryError` | account-checker.js:85-99 | when either query fails nothing is sent, and that query's error is logged just before the end |
| `AccountChecker.QueriesInOrder` | account-checker.js:85-99 | the no-token query runs exactly when the connect succeeded; the ready query runs exactly when the no-token query also succeeded; when both run, the no-token query comes first |
| `AccountChecker.SendOnlyOnFullSuccess` | account-checker.js:129-145 | a send happens exactly when connect, both queries and the channel lookup succeeded; there is at most one send, and it carries the embed built from the two queries' result sets, each over the table as that query saw it |
| `AccountChecker.SentEmbedContents` | account-checker.js:104-133 | the embed that is sent has the fixed title and colour, a red description exactly when the no-token query's table has an empty token, the warning field title, and a body showing the ready query's total |
| `AccountChecker.TraceShape` | account-checker.js:50-149 | every invocation starts with the connect attempt and ends with either the end of the connection or the retry |
| `AccountChecker.SendMessage` | account-checker.js:50-149 | the effects are `SendMessageTrace`; the connection ends up ended with exactly one end call after a successful connect, and refused with none otherwise |
| `AccountChecker.Connection.Connect` | account-checker.js:53-54 | a created connection becomes open on success and refused on error |
| `AccountChecker.Connection.Query` | account-checker.js:85-99 | a query on an open connection returns the rows, or the database's error |
| `AccountChecker.Connection.End` | account-checker.js:136-144 | only an open connection can be ended, and ending it adds one end call |

## Findings

| source | as written | input that shows it | evidently intended | confidence | as-written member | corrected member |
|---|---|---|---|---|---|---|
| account-checker.js:117 | `readyToUseAccs > 5` compares the result array with 5; the array converts to NaN, so the comparison is always false | a table with six ready accounts (Total 6) still gets "🔴 Ready to Use Accounts (WARNING)" | `readyToUseAccsCount > 5`: green title when more than five accounts are ready | high; not executed | `Report.ReadyFieldNameDiscrepancy` | `Report.ReadyFieldNameIntendedSpec` |

`Report.BuildEmbed`, and so the embed that `SendMessageTrace` sends, keeps the as-written
title, because that is the message the program actually posts. `Report.ReadyFieldNameIntended`
defines the corrected title and `Report.ReadyFieldNameIntendedSpec` proves its property.

## Left out

- The chat client is not modelled: `client.login`, the `ready` event, the "Bot is online!" line
  it logs, the channel cache lookup and the embed object's internals. The lookup and the send
  are ok/error inputs of `World`.
- The first call of `sendMessage` at start-up and the `setInterval` re-arming are timer glue.
  So is the `setTimeout` that re-invokes `sendMessage`: it appears only as the effect
  `ScheduleRetry(30000)`. Overlapping invocations from timers are not modelled.
- The mysql2 connection internals and the execution of SQL text are not modelled. The queries
  are given by their aggregate semantics, and connect and query outcomes are inputs.
- The clock readings `toLocaleString()`, `toISOString()`, `UNIX_TIMESTAMP()` and the embed's
  `setTimestamp()` are not modelled. The first three are parameters; the embed timestamp is
  dropped.
- `console.log` output, and configuration from the environment (channel id, interval, database
  settings), are not modelled.
- File system errors are not modelled, so every property of the pipeline assumes that
  `statSync`, `renameSync` and `appendFileSync` succeed. On most paths an exception from them
  would propagate out of the callback. In the send-success handler (line 135), however, the
  `.catch` at line 138 would catch it. The program would then log "Error sending the query
  results: …" for a message that was sent, and end the connection. If that handler's own
  `logMessage` (line 139) threw as well, `connection.end()` at line 140 would be skipped and the
  connection left open. The directory part of the paths (`path.join(__dirname, …)`) is left
  out, so files are keyed by name.
- `AccountChecker.EndExactlyOnceAfterConnect`: holds only when the file-system calls inside
  `logMessage` succeed, for the reason given in the line above.
- NULL in columns other than `last_disabled` is not modelled. A NULL `refresh_token` would keep
  a row out of both counts. A NULL in any other column the ready query reads (`banned`,
  `warn_expiration` and the rest) would keep the row out of the ready count only, because
  `noTokenQuery` reads nothing but `refresh_token`.
- `Accounts.HasNoToken`: `refresh_token = ''` is modelled as exact string equality. Under a
  PAD SPACE collation MySQL ignores trailing spaces, so a token made only of spaces would also
  match, and `refresh_token <> ''` would reject it. The model does not capture collations.
- `Accounts.CountsDisjoint`: the bound holds for one table. The two queries are separate
  autocommit statements, and `AccountChecker.World` gives each its own table. So the two numbers
  in one report may come from different states of the table, and the bound is not promised
  for them.
- `Accounts.ReadyTotal`: `mysql2` returns the SUM as decimal text. The model keeps it as a
  number and renders it with `Report.NatToString`; for non-negative integers the text is the
  same.
- `Report.NatToString`: JavaScript's exponent notation for numbers of 10^21 and above is not
  modelled; counts of rows never reach it.
- `LogSink.ArchiveNameInjective` covers the `toISOString` layout for years 0 to 9999 only, not
  the six-digit extended years.
- `Utf8.Encode`: JavaScript strings may hold lone surrogates, which Node writes as U+FFFD. Dafny
  characters are Unicode scalar values, so the model has no such characters.
- The device-status check and the chat command trigger are not part of account-checker.js and
  are not part of this model.
