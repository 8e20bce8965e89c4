/**
  The whole of `main()` in rspamc.js: parse the arguments, build the headers,
  ask rspamd at `/checkv2`, and act on the answer. The Synchronet globals and
  everything the script learns from the outside world (whether a file opens,
  what it holds, what rspamd answers) come in as one explicit `Context`.
 */
module Rspamc {
  import opened JsValues
  import opened JsObject
  import opened Synchronet
  import opened Arguments
  import opened Request
  import opened VerdictDispatch

  datatype Context = Context(
    message: Message,                              // the per-message globals
    recipientList: Option<seq<IniRecord>>,         // None when recipient_list_filename does not open
    responseCode: int,                             // http_request.response_code
    verdict: Verdict,                              // JSON.parse of the answer
    errorFile: OpenResult)                         // opening processing_error_filename for writing

  /** What a response code other than 200 logs. */
  function ResponseLog(code: int): (r: seq<Event>)
    ensures |r| <= 1 && (r != [] <==> code != 200)
    ensures forall k :: 0 <= k < |r| ==> r[k].Log? && r[k].level == LogError
  {
    if code != 200 then [Log(LogError, "bad response code from rspamd: " + IntText(code))] else []
  }

  /** What the script does before it looks at the answer: the recipient file
      log, the request itself and the response code log. */
  function Prelude(args: seq<string>, ctx: Context): seq<Event>
  {
    var options := ParseArgs(args);
    RecipientLog(ctx.recipientList)
    + [HttpGet(RequestUrl(options.address, options.port), RequestHeaders(ctx.message, ctx.recipientList))]
    + ResponseLog(ctx.responseCode)
  }

  /** Everything the script does, in order, for the arguments `args`. */
  function ScriptEvents(args: seq<string>, ctx: Context): seq<Event>
  {
    Prelude(args, ctx) + Dispatch(ctx.verdict, ctx.errorFile, ctx.message)
  }

  /** `main()`, on the argument array it edits in place. */
  method Run(argv: array<string>, ctx: Context) returns (events: seq<Event>)
    modifies argv
    ensures events == ScriptEvents(old(argv[..]), ctx)
    ensures argv[..] == ProcessFrom(old(argv[..]), 0, Defaults).argv
  {
    var address, tcpPort := ParseArguments(argv);
    var hdrs, logs := BuildHeaders(ctx.message, ctx.recipientList);
    var url := RequestUrl(address, tcpPort);
    events := logs + [HttpGet(url, hdrs)] + ResponseLog(ctx.responseCode);
    events := events + Dispatch(ctx.verdict, ctx.errorFile, ctx.message);
  }

  // ---------------------------------------------------------------------------
  // Properties of the whole script

  /** The prelude writes nothing, spamlogs nothing and sends the one request. */
  lemma PreludeProjections(args: seq<string>, ctx: Context)
    ensures var options := ParseArgs(args);
      && Writes(Prelude(args, ctx)) == []
      && SpamLogs(Prelude(args, ctx)) == []
      && Requests(Prelude(args, ctx))
           == [(RequestUrl(options.address, options.port), RequestHeaders(ctx.message, ctx.recipientList))]
  {
    var options := ParseArgs(args);
    var get := HttpGet(RequestUrl(options.address, options.port), RequestHeaders(ctx.message, ctx.recipientList));
    var a := RecipientLog(ctx.recipientList);
    var c := ResponseLog(ctx.responseCode);
    RequestBetweenLogs(a, get, c);
  }

  /** The writes, the spamlog records and the requests of the whole script:
      the dispatch's, after the one request. */
  lemma EventProjections(args: seq<string>, ctx: Context)
    ensures var events := ScriptEvents(args, ctx);
      var d := Dispatch(ctx.verdict, ctx.errorFile, ctx.message);
      var options := ParseArgs(args);
      && Writes(events) == Writes(d)
      && SpamLogs(events) == SpamLogs(d)
      && Requests(events) == [(RequestUrl(options.address, options.port),
                               RequestHeaders(ctx.message, ctx.recipientList))] + Requests(d)
  {
    var p := Prelude(args, ctx);
    var d := Dispatch(ctx.verdict, ctx.errorFile, ctx.message);
    PreludeProjections(args, ctx);
    SelectAppend(p, d, WrittenLine);
    SelectAppend(p, d, SpamLogged);
    SelectAppend(p, d, Requested);
  }

  /** The script sends exactly one request, to the URL built from the parsed
      destination and port, carrying the headers built from the message. */
  lemma SingleRequest(args: seq<string>, ctx: Context)
    ensures var options := ParseArgs(args);
      Requests(ScriptEvents(args, ctx))
        == [(RequestUrl(options.address, options.port), RequestHeaders(ctx.message, ctx.recipientList))]
  {
    EventProjections(args, ctx);
    DispatchSendsNothing(ctx.verdict, ctx.errorFile, ctx.message);
  }

  /** The dispatch never uses the LOG_ERROR name: its open failure is logged with
      LOG_ERR. This is about the names the script passes, not about severity. */
  lemma DispatchLogLevels(v: Verdict, errorFile: OpenResult, m: Message)
    ensures forall e :: e in Dispatch(v, errorFile, m) ==> !(e.Log? && e.level == LogError)
  {
  }

  /** A response code other than 200 is only logged: what is requested, written
      and spamlogged does not depend on it, and the log line appears exactly
      when the code is not 200. */
  lemma ResponseCodeOnlyLogs(args: seq<string>, ctx: Context, code: int)
    ensures Writes(ScriptEvents(args, ctx.(responseCode := code))) == Writes(ScriptEvents(args, ctx))
    ensures SpamLogs(ScriptEvents(args, ctx.(responseCode := code))) == SpamLogs(ScriptEvents(args, ctx))
    ensures Requests(ScriptEvents(args, ctx.(responseCode := code))) == Requests(ScriptEvents(args, ctx))
    ensures (Log(LogError, "bad response code from rspamd: " + IntText(code))
             in ScriptEvents(args, ctx.(responseCode := code))) <==> code != 200
  {
    EventProjections(args, ctx);
    EventProjections(args, ctx.(responseCode := code));
    var e := Log(LogError, "bad response code from rspamd: " + IntText(code));
    var options := ParseArgs(args);
    var a := RecipientLog(ctx.recipientList);
    var b := [HttpGet(RequestUrl(options.address, options.port), RequestHeaders(ctx.message, ctx.recipientList))];
    var d := Dispatch(ctx.verdict, ctx.errorFile, ctx.message);
    assert ScriptEvents(args, ctx.(responseCode := code)) == a + b + ResponseLog(code) + d;
    assert e !in a by {
      assert e.text[0] == 'b';
    }
    assert e !in b;
    DispatchLogLevels(ctx.verdict, ctx.errorFile, ctx.message);
    assert e !in d;
  }

  /** The URL the script uses when given the arguments `args`. */
  function UrlFor(args: seq<string>): string
  {
    RequestUrl(ParseArgs(args).address, ParseArgs(args).port)
  }

  lemma DefaultPortText()
    ensures NumberText(Finite(11333)) == "11333"
  {
    assert NatText(1) == "1";
    assert NatText(11) == "11";
    assert NatText(113) == "113";
    assert NatText(1133) == "1133";
  }

  /** With no arguments the URL is http://127.0.0.1:11333/checkv2. */
  lemma DefaultUrl()
    ensures UrlFor([]) == "http://127.0.0.1:11333/checkv2"
  {
    DefaultPortText();
    DefaultsWithoutOptions([]);
  }

  /** With `-d` as the last argument the address is `undefined`, and so is the
      host of the URL. */
  lemma DanglingDestinationUrl()
    ensures UrlFor(["-d"]) == "http://undefined:11333/checkv2"
  {
    DanglingDestinationOptions();
    DefaultPortText();
  }

  lemma DanglingDestinationOptions()
    ensures ParseArgs(["-d"]) == Options(Undefined, Finite(11333))
  {
    assert Consumed([]);
    assert [] + ["-d"] == ["-d"];
    assert StripDashes("-d") == "d";
    DanglingOption([], "-d");
  }

  /** The script sends its one request to http://127.0.0.1:11333/checkv2 when
      it has no arguments. */
  lemma DefaultDestination(ctx: Context)
    ensures Requests(ScriptEvents([], ctx))
      == [("http://127.0.0.1:11333/checkv2", RequestHeaders(ctx.message, ctx.recipientList))]
  {
    SingleRequest([], ctx);
    DefaultUrl();
  }

  /** A rejected message with an operator message "550 spam" gets exactly that
      line in its error file and a REJECTED spamlog record. */
  lemma RejectWithOperatorMessage(args: seq<string>, ctx: Context)
    requires ctx.verdict == Verdict(Some("reject"), Some(Messages(Some("550 spam"))), Some(["BAYES_SPAM"]))
    requires ctx.errorFile.Opened?
    ensures Writes(ScriptEvents(args, ctx)) == ["550 spam"]
    ensures SpamLogs(ScriptEvents(args, ctx))
      == [SpamLogRecord("SMTP", "REJECTED", "Rspamd BAYES_SPAM", ctx.message.client.hostName,
                        ctx.message.client.ipAddress, ctx.message.recipientAddress, ctx.message.reversePath)]
  {
    EventProjections(args, ctx);
    RejectOutcome(ctx.verdict, ctx.errorFile, ctx.message);
    assert HasOverride(ctx.verdict.messages);
    BayesReason();
  }

  lemma BayesReason()
    ensures "Rspamd " + Join(["BAYES_SPAM"], ",") == "Rspamd BAYES_SPAM"
  {
    assert Join(["BAYES_SPAM"], ",") == "BAYES_SPAM";
  }
}
