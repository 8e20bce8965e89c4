/**
  What the script sees of Synchronet: the per-message globals a mail-processing
  script is started with, and the effects it has on the outside world, which
  this model records as a sequence of events instead of performing them.
 */
module Synchronet {
  import opened JsValues
  import opened JsObject

  /** The `client` global: the connecting SMTP client. */
  datatype Client = Client(ipAddress: string, hostName: string)

  /** The per-message globals the script reads. */
  datatype Message = Message(
    messageTextFilename: string,      // message_text_filename
    reversePath: string,              // reverse_path
    helloName: string,                // hello_name
    client: Client,                   // client
    recipientAddress: string,         // recipient_address
    processingErrorFilename: string)  // processing_error_filename

  /** Outcome of `File.open(...)`: the handle's `error` number when it fails. */
  datatype OpenResult = Opened | OpenFailed(errno: int)

  /** Log levels passed to `log()`: LOG_ERROR, LOG_ERR and LOG_INFO. */
  datatype Level = LogError | LogErr | LogInfo

  /** Arguments of `system.spamlog(protocol, action, reason, host, ip, to, from)`. */
  datatype SpamLogRecord = SpamLogRecord(
    protocol: string, action: string, reason: string,
    host: string, ip: string, to: string, from: string)

  datatype Event =
    | Log(level: Level, text: string)              // log(level, text)
    | HttpGet(url: string, headers: Object)        // HTTPRequest(..., hdrs).Get(url)
    | WriteErrorLine(text: string)                 // writeln on the processing error file
    | SpamLog(record: SpamLogRecord)               // system.spamlog(...)
    | Uncaught(error: string)                      // an exception that ends the script

  /** The values `pick` extracts from `events`, in order. */
  function Select<T>(events: seq<Event>, pick: Event -> Option<T>): seq<T>
  {
    if events == [] then []
    else
      var rest := Select(events[1..], pick);
      match pick(events[0])
      case Some(x) => [x] + rest
      case None => rest
  }

  lemma {:induction false} SelectAppend<T>(a: seq<Event>, b: seq<Event>, pick: Event -> Option<T>)
    ensures Select(a + b, pick) == Select(a, pick) + Select(b, pick)
  {
    if a == [] {
      assert a + b == b;
    } else {
      var ab := a + b;
      assert ab[0] == a[0] && ab[1..] == a[1..] + b;
      SelectAppend(a[1..], b, pick);
    }
  }

  /** Nothing is selected from events that `pick` passes over. */
  lemma {:induction false} SelectNone<T>(events: seq<Event>, pick: Event -> Option<T>)
    requires forall k :: 0 <= k < |events| ==> pick(events[k]).None?
    ensures Select(events, pick) == []
  {
    if events != [] {
      SelectNone(events[1..], pick);
    }
  }

  function WrittenLine(e: Event): Option<string>
  {
    if e.WriteErrorLine? then Some(e.text) else None
  }

  function SpamLogged(e: Event): Option<SpamLogRecord>
  {
    if e.SpamLog? then Some(e.record) else None
  }

  function Requested(e: Event): Option<(string, Object)>
  {
    if e.HttpGet? then Some((e.url, e.headers)) else None
  }

  /** A request between log lines: nothing is written or spamlogged, and the
      request is the only one sent. */
  lemma RequestBetweenLogs(a: seq<Event>, get: Event, c: seq<Event>)
    requires forall k :: 0 <= k < |a| ==> a[k].Log?
    requires forall k :: 0 <= k < |c| ==> c[k].Log?
    requires get.HttpGet?
    ensures Writes(a + [get] + c) == []
    ensures SpamLogs(a + [get] + c) == []
    ensures Requests(a + [get] + c) == [(get.url, get.headers)]
  {
    var p := a + [get] + c;
    assert forall k :: 0 <= k < |p| ==> p[k].Log? || p[k] == get;
    SelectNone(p, WrittenLine);
    SelectNone(p, SpamLogged);
    SelectNone(a, Requested);
    SelectNone(c, Requested);
    SelectAppend(a + [get], c, Requested);
    SelectAppend(a, [get], Requested);
  }

  /** Lines written to the processing error file. */
  function Writes(events: seq<Event>): seq<string> { Select(events, WrittenLine) }

  /** Records handed to `system.spamlog`. */
  function SpamLogs(events: seq<Event>): seq<SpamLogRecord> { Select(events, SpamLogged) }

  /** HTTP requests sent, as (url, headers). */
  function Requests(events: seq<Event>): seq<(string, Object)> { Select(events, Requested) }
}
