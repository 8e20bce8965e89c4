/**
  What the script does with rspamd's answer (rspamc.js lines 76-107). Only
  two actions have an effect: "reject" writes an SMTP error line and records
  a spamlog entry, "soft reject" writes an SMTP error line only. Every other
  action, including a missing one, leaves the message alone.
 */
module VerdictDispatch {
  import opened JsValues
  import opened Synchronet

  /** The `messages` object of the decoded answer. */
  datatype Messages = Messages(smtpMessage: Option<string>)

  /** The decoded answer: `action`, `messages` and the keys of `symbols`, in
      the order the answer lists them (None when `symbols` is missing). */
  datatype Verdict = Verdict(action: Option<string>, messages: Option<Messages>, symbols: Option<seq<string>>)

  datatype Disposition = Reject | SoftReject | NoChange

  const RejectDefault := "Rejected as spam"
  const SoftRejectDefault := "450 Try again later"

  function Classify(action: Option<string>): Disposition
  {
    if action == Some("reject") then Reject
    else if action == Some("soft reject") then SoftReject
    else NoChange
  }

  /** `(presult.messages || {}).smtp_message || fallback`: an empty string is
      falsy, so it falls back as a missing message does. */
  function SmtpMessage(messages: Option<Messages>, fallback: string): (r: string)
    ensures r == fallback || (messages.Some? && messages.value.smtpMessage == Some(r) && r != "")
    ensures fallback != "" ==> r != ""
  {
    match messages
    case Some(Messages(Some(text))) => if text != "" then text else fallback
    case _ => fallback
  }

  /** The operator supplied a usable SMTP message. */
  predicate HasOverride(messages: Option<Messages>)
  {
    messages.Some? && messages.value.smtpMessage.Some? && messages.value.smtpMessage.value != ""
  }

  function OpenErrorText(errno: int, filename: string): string
  {
    "!ERROR " + IntText(errno) + " opening processing error file: " + filename
  }

  /** The spamlog entry of a rejection: note that it names `recipient_address`,
      not the recipient list sent to rspamd. */
  function RejectRecord(m: Message, symbols: seq<string>): SpamLogRecord
  {
    SpamLogRecord("SMTP", "REJECTED", "Rspamd " + Join(symbols, ","),
                  m.client.hostName, m.client.ipAddress, m.recipientAddress, m.reversePath)
  }

  /** The events of the dispatch on `v`, given how opening the processing
      error file for writing turns out. */
  function Dispatch(v: Verdict, errorFile: OpenResult, m: Message): (r: seq<Event>)
    ensures r == [] <==> Classify(v.action) == NoChange
    ensures |r| <= 3
  {
    match Classify(v.action)
    case Reject =>
      [Log(LogInfo, "rejecting SPAM with SMTP error")] +
      (match errorFile
       case OpenFailed(errno) => [Log(LogErr, OpenErrorText(errno, m.processingErrorFilename))]
       case Opened =>
         [WriteErrorLine(SmtpMessage(v.messages, RejectDefault))] +
         (match v.symbols
          case Some(names) => [SpamLog(RejectRecord(m, names))]
          case None => [Uncaught("TypeError: Object.keys called on undefined")]))
    case SoftReject =>
      [Log(LogInfo, "defering mail with SMTP error")] +
      (match errorFile
       case OpenFailed(errno) => [Log(LogErr, OpenErrorText(errno, m.processingErrorFilename))]
       case Opened => [WriteErrorLine(SmtpMessage(v.messages, SoftRejectDefault))])
    case NoChange => []
  }

  // ---------------------------------------------------------------------------
  // Properties of the dispatch

  /** The line chosen is the operator's message when it is present and not
      empty, and the fallback otherwise; with a non-empty fallback it is never
      empty. */
  lemma SmtpMessageChoice(messages: Option<Messages>, fallback: string)
    ensures HasOverride(messages) ==> SmtpMessage(messages, fallback) == messages.value.smtpMessage.value
    ensures !HasOverride(messages) ==> SmtpMessage(messages, fallback) == fallback
    ensures fallback != "" ==> SmtpMessage(messages, fallback) != ""
  {
  }

  /** "reject": when the error file opens, exactly one line is written, the
      operator's message or "Rejected as spam", followed (when the answer
      lists symbols) by one spamlog record REJECTED whose reason is "Rspamd "
      and the symbol names joined by ",". When the file does not open, nothing
      is written, nothing is spamlogged and the failure is logged. */
  lemma RejectOutcome(v: Verdict, errorFile: OpenResult, m: Message)
    requires v.action == Some("reject")
    ensures var events := Dispatch(v, errorFile, m);
      && (errorFile.Opened? ==>
            && Writes(events) == [if HasOverride(v.messages) then v.messages.value.smtpMessage.value
                                  else "Rejected as spam"]
            && SpamLogs(events) == (if v.symbols.Some? then [RejectRecord(m, v.symbols.value)] else []))
      && (errorFile.OpenFailed? ==>
            && Writes(events) == [] && SpamLogs(events) == []
            && Log(LogErr, OpenErrorText(errorFile.errno, m.processingErrorFilename)) in events)
  {
    SmtpMessageChoice(v.messages, RejectDefault);
    var events := Dispatch(v, errorFile, m);
    var head := [Log(LogInfo, "rejecting SPAM with SMTP error")];
    var tail := events[1..];
    assert events == head + tail;
    SelectAppend(head, tail, WrittenLine);
    SelectAppend(head, tail, SpamLogged);
    if errorFile.Opened? {
      var line := [WriteErrorLine(SmtpMessage(v.messages, RejectDefault))];
      assert tail == line + tail[1..];
      SelectAppend(line, tail[1..], WrittenLine);
      SelectAppend(line, tail[1..], SpamLogged);
    }
  }

  /** "soft reject": when the error file opens, exactly one line is written,
      the operator's message or "450 Try again later"; no spamlog record is
      ever made. When the file does not open, nothing is written and the
      failure is logged. */
  lemma SoftRejectOutcome(v: Verdict, errorFile: OpenResult, m: Message)
    requires v.action == Some("soft reject")
    ensures var events := Dispatch(v, errorFile, m);
      && Writes(events) == (if errorFile.Opened? then
                              [if HasOverride(v.messages) then v.messages.value.smtpMessage.value
                               else "450 Try again later"]
                            else [])
      && SpamLogs(events) == []
      && (errorFile.OpenFailed? ==>
            Log(LogErr, OpenErrorText(errorFile.errno, m.processingErrorFilename)) in events)
  {
    SmtpMessageChoice(v.messages, SoftRejectDefault);
    var events := Dispatch(v, errorFile, m);
    var head := [Log(LogInfo, "defering mail with SMTP error")];
    assert events == head + events[1..];
    SelectAppend(head, events[1..], WrittenLine);
    SelectAppend(head, events[1..], SpamLogged);
  }

  /** The dispatch sends no request of its own. */
  lemma DispatchSendsNothing(v: Verdict, errorFile: OpenResult, m: Message)
    ensures Requests(Dispatch(v, errorFile, m)) == []
  {
    var d := Dispatch(v, errorFile, m);
    assert forall k :: 0 <= k < |d| ==> !d[k].HttpGet?;
    SelectNone(d, Requested);
  }

  /** Any other action, or none, has no effect at all. */
  lemma OtherActionsAreInert(v: Verdict, errorFile: OpenResult, m: Message)
    requires v.action != Some("reject") && v.action != Some("soft reject")
    ensures Dispatch(v, errorFile, m) == []
  {
  }

  /** The error file gets at most one line, and gets one exactly when the
      action is "reject" or "soft reject" and the file opens; a spamlog record
      is made exactly when the action is "reject", the file opens and the
      answer lists its symbols. */
  lemma EffectsIff(v: Verdict, errorFile: OpenResult, m: Message)
    ensures var events := Dispatch(v, errorFile, m);
      && |Writes(events)| <= 1
      && (Writes(events) != [] <==>
            (v.action == Some("reject") || v.action == Some("soft reject")) && errorFile.Opened?)
      && (SpamLogs(events) != [] <==>
            v.action == Some("reject") && errorFile.Opened? && v.symbols.Some?)
  {
    if v.action == Some("reject") {
      RejectOutcome(v, errorFile, m);
    } else if v.action == Some("soft reject") {
      SoftRejectOutcome(v, errorFile, m);
    } else {
      OtherActionsAreInert(v, errorFile, m);
    }
  }
}
