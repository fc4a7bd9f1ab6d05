/** One invocation of `sendMessage` in account-checker.js: connect, run the two aggregate
    queries in order, build the embed, look up the channel and send, closing the connection
    on every path after a successful connect. Every external call is an input that either
    succeeds or fails; the invocation yields the sequence of effects it issues. */
module AccountChecker {
  import opened Wrappers
  import opened Accounts
  import opened Report

  /** The `setTimeout` delay before a new attempt after a failed connect. */
  const RetryDelayMs: nat := 30000

  datatype QueryName = NoTokenQuery | ReadyToUseQuery

  /** What an invocation does to the outside world, in order. */
  datatype Effect =
    | Connect
    | RunQuery(query: QueryName)
    | Log(text: string)
    | Send(embed: Embed)
    | End
    | ScheduleRetry(delayMs: nat)

  /** The answers of the database, the clock and the chat client for one invocation: an
      error text where a call fails, and for each query the table as that statement sees it.
      The two queries are separate autocommit statements, so another client may change the
      table between them; `now` is `UNIX_TIMESTAMP()` when the ready query runs. */
  datatype World = World(
    connectError: Option<string>,
    noTokenError: Option<string>,
    readyToUseError: Option<string>,
    noTokenTable: seq<Account>,
    readyToUseTable: seq<Account>,
    now: int,
    channelFound: bool,
    sendError: Option<string>)

  function ConnectErrorText(err: string): string { "Error connecting to the database: " + err }
  function NoTokenErrorText(err: string): string { "Error executing the noTokenQuery: " + err }
  function ReadyToUseErrorText(err: string): string { "Error executing the readyToUseQuery: " + err }
  function SendErrorText(err: string): string { "Error sending the query results: " + err }
  const SentText: string := "Query results sent successfully."
  const ChannelMissingText: string := "Specified channel not found."

  /** The effects of `sendMessage` as a function of what the outside world answers. */
  function SendMessageTrace(w: World): seq<Effect> {
    if w.connectError.Some? then
      [Connect, Log(ConnectErrorText(w.connectError.value)), ScheduleRetry(RetryDelayMs)]
    else if w.noTokenError.Some? then
      [Connect, RunQuery(NoTokenQuery), Log(NoTokenErrorText(w.noTokenError.value)), End]
    else if w.readyToUseError.Some? then
      [Connect, RunQuery(NoTokenQuery), RunQuery(ReadyToUseQuery),
       Log(ReadyToUseErrorText(w.readyToUseError.value)), End]
    else
      var prefix := [Connect, RunQuery(NoTokenQuery), RunQuery(ReadyToUseQuery)];
      var embed := BuildEmbed(NoTokenRows(w.noTokenTable), ReadyToUseRows(w.readyToUseTable, w.now));
      if !w.channelFound then
        prefix + [Log(ChannelMissingText), End]
      else if w.sendError.Some? then
        prefix + [Send(embed), Log(SendErrorText(w.sendError.value)), End]
      else
        prefix + [Send(embed), Log(SentText), End]
  }

  // ---------------------------------------------------------------------------------------
  // The connection and the imperative invocation
  // ---------------------------------------------------------------------------------------

  datatype Phase = Created | Open | Refused | Ended

  datatype QueryResult<R> = Rows(rows: R) | Failed(error: string)

  /** A database connection: created, then open or refused, then ended. `End` may only be
      called on an open connection, so it cannot be called twice. */
  class Connection {
    var phase: Phase
    var endCalls: nat

    constructor ()
      ensures phase == Created && endCalls == 0
    {
      phase := Created;
      endCalls := 0;
    }

    method Connect(error: Option<string>)
      requires phase == Created
      modifies this
      ensures phase == (if error.None? then Open else Refused)
      ensures endCalls == old(endCalls)
    {
      if error.None? {
        phase := Open;
      } else {
        phase := Refused;
      }
    }

    /** A query on an open connection: the result set, or the error the database reports. */
    method Query<R>(error: Option<string>, rows: R) returns (result: QueryResult<R>)
      requires phase == Open
      ensures result == if error.Some? then Failed(error.value) else Rows(rows)
    {
      if error.Some? {
        result := Failed(error.value);
      } else {
        result := Rows(rows);
      }
    }

    method End()
      requires phase == Open
      modifies this
      ensures phase == Ended && endCalls == old(endCalls) + 1
    {
      phase := Ended;
      endCalls := endCalls + 1;
    }
  }

  /** `sendMessage`: returns the effects it issued and the connection it opened, which is
      ended exactly once whenever the connect succeeded and is never ended otherwise. */
  method SendMessage(w: World) returns (trace: seq<Effect>, connection: Connection)
    ensures fresh(connection)
    ensures trace == SendMessageTrace(w)
    ensures w.connectError.Some? ==> connection.phase == Refused && connection.endCalls == 0
    ensures w.connectError.None? ==> connection.phase == Ended && connection.endCalls == 1
  {
    connection := new Connection();
    trace := [Connect];
    connection.Connect(w.connectError);
    if w.connectError.Some? {
      trace := trace + [Log(ConnectErrorText(w.connectError.value)), ScheduleRetry(RetryDelayMs)];
      return;
    }

    trace := trace + [RunQuery(NoTokenQuery)];
    var noTokensAccs := connection.Query(w.noTokenError, NoTokenRows(w.noTokenTable));
    if noTokensAccs.Failed? {
      trace := trace + [Log(NoTokenErrorText(noTokensAccs.error))];
      connection.End();
      trace := trace + [End];
      return;
    }

    trace := trace + [RunQuery(ReadyToUseQuery)];
    var readyToUseAccs := connection.Query(w.readyToUseError, ReadyToUseRows(w.readyToUseTable, w.now));
    if readyToUseAccs.Failed? {
      trace := trace + [Log(ReadyToUseErrorText(readyToUseAccs.error))];
      connection.End();
      trace := trace + [End];
      return;
    }

    var embed := BuildEmbed(noTokensAccs.rows, readyToUseAccs.rows);
    if w.channelFound {
      trace := trace + [Send(embed)];
      if w.sendError.None? {
        trace := trace + [Log(SentText)];
      } else {
        trace := trace + [Log(SendErrorText(w.sendError.value))];
      }
    } else {
      trace := trace + [Log(ChannelMissingText)];
    }
    connection.End();
    trace := trace + [End];
  }

  // ---------------------------------------------------------------------------------------
  // Properties of the effect trace
  // ---------------------------------------------------------------------------------------

  /** A failed connect logs the error and schedules exactly one retry after 30 s; no query
      runs, nothing is sent and the connection is never ended. */
  lemma ConnectFailureSchedulesOneRetry(w: World)
    requires w.connectError.Some?
    ensures var t := SendMessageTrace(w);
            Log(ConnectErrorText(w.connectError.value)) in t &&
            t[|t| - 1] == ScheduleRetry(30000) &&
            (forall i :: 0 <= i < |t| && t[i].ScheduleRetry? ==> i == |t| - 1) &&
            forall i :: 0 <= i < |t| ==> !t[i].RunQuery? && !t[i].Send? && t[i] != End
  {
  }

  /** A retry is scheduled exactly when the connect failed. */
  lemma RetryOnlyOnConnectFailure(w: World)
    ensures var t := SendMessageTrace(w);
            (exists i :: 0 <= i < |t| && t[i].ScheduleRetry?) <==> w.connectError.Some?
  {
    var t := SendMessageTrace(w);
    if w.connectError.Some? {
      assert t[2].ScheduleRetry?;
    }
  }

  /** After a successful connect the connection is ended exactly once, as the very last
      effect, on each of the five paths (no other position holds an end). */
  lemma EndExactlyOnceAfterConnect(w: World)
    requires w.connectError.None?
    ensures var t := SendMessageTrace(w);
            |t| > 0 && t[|t| - 1] == End &&
            forall i :: 0 <= i < |t| && t[i] == End ==> i == |t| - 1
  {
  }

  /** When either query fails nothing is sent, and the failure is logged before the end. */
  lemma NoSendAfterQueryError(w: World)
    requires w.connectError.None?
    requires w.noTokenError.Some? || w.readyToUseError.Some?
    ensures var t := SendMessageTrace(w);
            (forall i :: 0 <= i < |t| ==> !t[i].Send?) &&
            t[|t| - 2] == (if w.noTokenError.Some?
                           then Log(NoTokenErrorText(w.noTokenError.value))
                           else Log(ReadyToUseErrorText(w.readyToUseError.value)))
  {
  }

  /** The second query runs only after the first succeeded, and the first only after a
      successful connect; when both run, the no-token query comes first. */
  lemma QueriesInOrder(w: World)
    ensures var t := SendMessageTrace(w);
            (RunQuery(NoTokenQuery) in t <==> w.connectError.None?) &&
            (RunQuery(ReadyToUseQuery) in t <==> w.connectError.None? && w.noTokenError.None?)
    ensures var t := SendMessageTrace(w);
            forall i, j ::
              (0 <= i < |t| && 0 <= j < |t| &&
               t[i] == RunQuery(NoTokenQuery) && t[j] == RunQuery(ReadyToUseQuery)) ==> i < j
  {
  }

  /** A message is sent exactly when the connect and both queries succeeded and the channel
      was found; then it is sent once, and it is the embed built from the two result sets. */
  lemma SendOnlyOnFullSuccess(w: World)
    ensures var t := SendMessageTrace(w);
            (exists i :: 0 <= i < |t| && t[i].Send?) <==>
              (w.connectError.None? && w.noTokenError.None? && w.readyToUseError.None? &&
               w.channelFound)
    ensures var t := SendMessageTrace(w);
            forall i, j :: 0 <= i < |t| && 0 <= j < |t| && t[i].Send? && t[j].Send? ==> i == j
    ensures var t := SendMessageTrace(w);
            forall i :: 0 <= i < |t| && t[i].Send? ==>
              t[i].embed == BuildEmbed(NoTokenRows(w.noTokenTable), ReadyToUseRows(w.readyToUseTable, w.now))
  {
    var t := SendMessageTrace(w);
    if w.connectError.None? && w.noTokenError.None? && w.readyToUseError.None? && w.channelFound {
      assert t[3].Send?;
    }
  }

  /** The embed that is sent, in terms of the table each query saw: the description is red
      exactly when the no-token query's table has an account with an empty token, the field
      title is the warning one, and the field body shows the ready query's total. */
  lemma SentEmbedContents(w: World)
    ensures var t := SendMessageTrace(w);
            forall i :: 0 <= i < |t| && t[i].Send? ==>
              var e := t[i].embed;
              e.title == Title && e.color == Color &&
              (RedCircle in e.description <==>
                 exists k :: 0 <= k < |w.noTokenTable| && HasNoToken(w.noTokenTable[k])) &&
              (GreenCircle in e.description <==>
                 forall k :: 0 <= k < |w.noTokenTable| ==> !HasNoToken(w.noTokenTable[k])) &&
              e.fieldName == WarningFieldName &&
              e.fieldValue == ReadyFieldValue(ReadyTotal(w.readyToUseTable, w.now))
  {
    DescriptionSignals(NoTokenCount(w.noTokenTable));
    NoTokenCountPositive(w.noTokenTable);
  }

  /** Every path begins with the connect attempt and ends either with the retry or with the
      end of the connection. */
  lemma TraceShape(w: World)
    ensures var t := SendMessageTrace(w);
            |t| >= 3 && t[0] == Connect &&
            (t[|t| - 1] == End || t[|t| - 1] == ScheduleRetry(RetryDelayMs))
  {
  }
}
