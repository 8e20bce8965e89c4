# rspamc.js — a Dafny model

`rspamc.js` is a Synchronet mail-processing (`mailproc.ini`) script that asks a
running rspamd daemon for a verdict on each incoming message. For every
message it

1. reads its options from `argv` (`d`/`dest` for rspamd's address, `p`/`port`
   for its TCP port, each with any number of leading dashes), defaulting to
   127.0.0.1 and 11333;
2. builds the request headers `File`, `From`, `Helo`, `IP`, `Rcpt` from the
   message globals, adds `Hostname` unless the client's host name is
   `<no name>`, and replaces `Rcpt` by the comma-joined `To` values of the
   recipient list file when that file opens;
3. sends `GET http://<address>:<port>/checkv2` with those headers and logs a
   response code other than 200;
4. acts on the answer's `action`: "reject" writes the operator's SMTP message
   (or "Rejected as spam") to the processing error file and records a
   REJECTED spamlog entry naming the matched symbols; "soft reject" writes the
   operator's message (or "450 Try again later") and nothing else; any other
   action does nothing.

The model keeps the script's own shape. The option loop is a method over the
argument array that strips dashes in place (`Arguments.ParseArguments`) and is
proved equal to a recursive definition of the loop (`Arguments.ProcessFrom`).
The header construction is a method that mutates a header object and collects
the recipients in a loop (`Request.BuildHeaders`), proved equal to
`Request.RequestHeaders`. `main()` is `Rspamc.Run`. JavaScript objects are
insertion-ordered property lists (`JsObject`). The script's effects (log
lines, the HTTP request, the error-file line, the spamlog record, an uncaught
exception) are recorded as a sequence of `Synchronet.Event`s rather than
performed. Everything the script learns from the outside world is a
parameter (`Rspamc.Context`): whether each file opens, what the recipient file
holds, the response code, the decoded answer.

Files: `js_values.dfy` (JavaScript strings, numbers, `Number()`, `join`,
`split`), `js_object.dfy` (objects), `synchronet.dfy` (globals and events),
`arguments.dfy` (lines 21-36), `request.dfy` (lines 38-66),
`verdict_dispatch.dfy` (lines 76-107), `rspamc.dfy` (`main()` as a whole).

Behaviour worth noting, which the model keeps as the script has it:

- a "soft reject" without an operator message writes "450 Try again later"
  exactly as written; no further "450 " prefix is added;
- a "soft reject" makes no spamlog record (there is no DEFERRED entry);
- the answer's error field is never examined, and there is no handling of
  "greylist", "add header" or "rewrite subject", no `User` header and no
  POST request;
- a recipient file that opens but holds no sections sets `Rcpt` to the empty
  string, and a section without a `To` key contributes an empty entry;
- failing to open the processing error file is only logged; the script then
  returns without writing or spamlogging.

## Model

| member | source | states |
|---|---|---|
| Arguments.ParseArguments | rspamc.js:21-36 | the loop over the argument array leaves in `argv` exactly what the recursive loop definition leaves (each examined argument stripped of its leading dashes, option values untouched) and returns the address and port that definition computes |
| Arguments.ProcessFrom | rspamc.js:25-36 | running the loop never changes the number of arguments |
| Arguments.StripDashes | rspamc.js:28-29 | after stripping, the argument is empty or does not start with '-' |
| Arguments.DashesIgnored | rspamc.js:28-29 | any number of leading dashes strip to the same option: `---d` is `d` |
| Arguments.StripDashesShape | rspamc.js:28-29 | stripping removes only a run of leading dashes: the original is that many dashes followed by the result |
| Arguments.ProcessBounds | rspamc.js:25-36 | the loop stops at the end of `argv` or one past it (when an option reads its value past the end) |
| Arguments.ProcessShift | rspamc.js:25-36 | the loop's progress over the arguments after a prefix does not depend on that prefix |
| Arguments.ProcessAppend | rspamc.js:25-36 | when no option is left waiting for its value at the end of `x`, the loop over `x + q` is the loop over `x` followed by the loop over `q` from the settings `x` produced |
| Arguments.OptionTakesNextArgument | rspamc.js:32-35 | an option takes the following argument as its value, that value is never stripped or examined as an option, and the loop continues after it |
| Arguments.LastOptionWins | rspamc.js:32-35 | a later `d`/`dest` overrides the address and a later `p`/`port` the port, each leaving the other setting alone |
| Arguments.DanglingOption | rspamc.js:32-35 | an option as the last argument reads past the end: the address becomes `undefined`, the port `Number(undefined)`, NaN |
| Arguments.NoOptionsFrom | rspamc.js:25-36 | arguments that are neither `d`/`dest` nor `p`/`port` change no setting |
| Arguments.DefaultsWithoutOptions | rspamc.js:21-22 | without any address or port option (in particular with no arguments) the settings are 127.0.0.1 and 11333 |
| Arguments.UnrecognisedIgnored | rspamc.js:31-35 | removing an argument that is not an option, after a completed prefix, does not change the settings |
| Arguments.SingleOption | rspamc.js:32-35 | an option followed by its value, alone, applies that value to the defaults |
| Arguments.OptionSpellings | rspamc.js:27-35 | `d`, `dest`, `p` and `port` with any number of leading dashes each set exactly their own setting |
| JsValues.NatText | rspamc.js:66 | a non-negative integer prints as a non-empty run of decimal digits without a leading zero |
| JsValues.DecimalValueOfNatText | rspamc.js:66 | reading the printed digits back gives the integer |
| JsValues.ToNumber | rspamc.js:35 | `Number(argv[++i])`: `undefined` gives NaN and a run of decimal digits (after trimming white space) a non-negative integer; `NumberTextRoundTrip` states it reads back every number the model prints |
| JsValues.NumberTextRoundTrip | rspamc.js:35 | `Number(String(n))` is `n` for every number the model holds, NaN included |
| JsValues.Join | rspamc.js:60 | `addr_list.join(",")`: the first element is a prefix of the result, followed by the separator when there is more than one element; `SplitJoin` states that it can be inverted |
| JsValues.Split | rspamc.js:60 | the inverse used to read a joined header back (the script itself never splits): it always yields at least one part |
| JsValues.SplitJoin | rspamc.js:60 | splitting a joined non-empty list whose elements do not contain the separator gives the list back |
| JsValues.JoinEmptyIsAmbiguous | rspamc.js:56-60 | an empty list and a list of one empty string join to the same "", so the join cannot be inverted in general |
| JsObject.Keys | rspamc.js:38-49 | the keys are the properties' keys, one per property, in insertion order |
| JsObject.Put | rspamc.js:48 | after the assignment the key reads back as the new value; an existing key keeps its place, a new key is appended |
| JsObject.PutOther | rspamc.js:60 | assigning to one key leaves every other key's value unchanged |
| JsObject.GetListedKey | rspamc.js:38-44 | in an object with distinct keys every listed property reads back its value |
| JsObject.GetUnlistedKey | rspamc.js:46-49 | a key the object does not list reads as missing |
| Request.BuildHeaders | rspamc.js:38-63 | the mutating header construction with its recipient loop produces exactly `RequestHeaders`, and logs "couldn't open SMTP recipient file" exactly when that file does not open |
| Request.RequestHeaders | rspamc.js:38-63 | the headers sent to rspamd; `HeaderNames` states their names and order, `HeaderValues` their values, and `BuildHeaders` is proved to build exactly them |
| Request.RecipientEntries | rspamc.js:57-60 | for any non-empty recipient file whose `To` values contain no comma, splitting Rcpt on "," gives one entry per section in file order: the section's `To` value, or "" for a section without `To`, which so keeps its place |
| Request.HeaderNames | rspamc.js:38-49 | the header names are File, From, Helo, IP, Rcpt in that order, followed by Hostname exactly when the host name is not `<no name>`; replacing Rcpt keeps its position |
| Request.InitialKeys | rspamc.js:38-44 | the literal header object lists File, From, Helo, IP, Rcpt, all distinct, and not Hostname |
| Request.InitialHeaderValues | rspamc.js:38-44 | the literal header object holds the five message globals under their names and no Hostname |
| Request.NamedHeaderValues | rspamc.js:46-49 | adding Hostname keeps the five values and makes Hostname the host name, only when it is not `<no name>` |
| Request.HeaderValues | rspamc.js:38-63 | File, From, Helo and IP come from the message; Hostname is present exactly when the host name is real; Rcpt is the joined recipient list when the file opened and `recipient_address` otherwise |
| Request.RecipientHeaderJoinsAddresses | rspamc.js:56-60 | with every section addressed, Rcpt is the `To` values joined by "," in file order, zero sections give "", and splitting on "," recovers the addresses when none contains a comma |
| Request.MissingToLeavesEmptyEntry | rspamc.js:58-60 | example: with three sections of which the middle one lacks `To`, Rcpt is the first and third `To` values with an empty entry between two commas |
| Request.LastIndexOf | rspamc.js:66 | the search used by `SplitUrl`, the inverse of the URL built at line 66 (the script itself never searches a string): a found position holds the character searched for and no later position does; None means the character does not occur |
| Request.RequestUrl | rspamc.js:66 | the URL `http://<address>:<port>/checkv2`; `UrlRoundTrip` states that address and port can be read back from it, `DefaultUrl` and `DanglingDestinationUrl` give it for no arguments and for a lone `-d` |
| Request.UrlRoundTrip | rspamc.js:66 | the URL splits back into the destination (everything between "http://" and the last ':') and the port text, and the port text reads back as the port |
| Synchronet.SelectAppend | rspamc.js:65-107 | support for the ordered event record: what is selected (writes, spamlog records, requests) from consecutive runs of events is what is selected from each, in order, so the effects of the script's steps compose |
| VerdictDispatch.SmtpMessage | rspamc.js:84 | `(messages || {}).smtp_message || fallback`: the result is the fallback or the operator's non-empty message, and never empty with a non-empty fallback (the same expression with "450 Try again later" is line 102); `SmtpMessageChoice` says which one is chosen |
| VerdictDispatch.Dispatch | rspamc.js:76-107 | the effects of acting on the answer: none exactly when the action is neither "reject" nor "soft reject", at most three events; `RejectOutcome`, `SoftRejectOutcome`, `OtherActionsAreInert`, `DispatchSendsNothing` and `EffectsIff` describe them |
| VerdictDispatch.SmtpMessageChoice | rspamc.js:84 | the error line is the operator's message when present and non-empty, the fallback otherwise, and never empty with a non-empty fallback |
| VerdictDispatch.RejectOutcome | rspamc.js:76-92 | "reject" with the file open writes exactly one line (operator's message or "Rejected as spam") and, when the answer has `symbols`, one REJECTED record whose reason is "Rspamd " and the symbol names joined by ","; with the file not open it writes and spamlogs nothing and logs the error |
| VerdictDispatch.SoftRejectOutcome | rspamc.js:93-106 | "soft reject" writes exactly one line (operator's message or "450 Try again later") when the file opens, nothing otherwise, never spamlogs, and logs the error when the file does not open |
| VerdictDispatch.OtherActionsAreInert | rspamc.js:76-107 | any other action, or none, has no effect at all |
| VerdictDispatch.DispatchSendsNothing | rspamc.js:76-107 | acting on the answer sends no further request |
| VerdictDispatch.EffectsIff | rspamc.js:76-107 | at most one line is written; a line is written iff the action is "reject" or "soft reject" and the file opens; a spamlog record is made iff the action is "reject", the file opens and the answer lists symbols |
| Rspamc.ResponseLog | rspamc.js:68-70 | at most one event, present exactly when the code is not 200, and logged at LOG_ERROR |
| Rspamc.ScriptEvents | rspamc.js:19-112 | everything `main()` does, in order; `Run` is proved to produce it, and `EventProjections`, `SingleRequest`, `ResponseCodeOnlyLogs`, `DefaultDestination` and `RejectWithOperatorMessage` describe it |
| Rspamc.Run | rspamc.js:19-112 | `main()` produces exactly the events of `ScriptEvents` for the original arguments and leaves the argument array stripped as the loop definition says |
| Rspamc.EventProjections | rspamc.js:65-107 | the writes and spamlog records of the whole script are those of the dispatch, and its requests are the one request followed by the dispatch's |
| Rspamc.SingleRequest | rspamc.js:65-66 | the script sends exactly one request, to the URL built from the parsed destination and port, with the built headers |
| Rspamc.DispatchLogLevels | rspamc.js:76-107 | the dispatch never uses the LOG_ERROR name (its open failure is logged with LOG_ERR); a statement about the names only, not about severity |
| Rspamc.ResponseCodeOnlyLogs | rspamc.js:68-70 | the response code changes nothing that is written, spamlogged or requested, and "bad response code from rspamd: <code>" is logged iff the code is not 200 |
| Rspamc.DefaultUrl | rspamc.js:21-22 | with no arguments the URL is http://127.0.0.1:11333/checkv2 |
| Rspamc.DanglingDestinationOptions | rspamc.js:33 | a lone `-d` sets the address to `undefined` and keeps port 11333 |
| Rspamc.DanglingDestinationUrl | rspamc.js:66 | with a lone `-d` the URL is http://undefined:11333/checkv2 |
| Rspamc.DefaultDestination | rspamc.js:65-66 | with no arguments the one request goes to http://127.0.0.1:11333/checkv2 |
| Rspamc.RejectWithOperatorMessage | rspamc.js:84-91 | a "reject" answer with message "550 spam" and symbol BAYES_SPAM writes exactly "550 spam" and records REJECTED with reason "Rspamd BAYES_SPAM", the client's host and IP, `recipient_address` and `reverse_path` |

## Left out

- The HTTP transport (`http.js`, `HTTPRequest`): the request is recorded as an event and the response code and decoded answer are inputs; a request that throws is not modelled.
- `JSON.parse` of the answer (line 73) and its failures: the model starts from the decoded answer's `action`, `messages.smtp_message` and the keys of `symbols`.
- A non-string `smtp_message`, a non-string `action` compared with `==`, a `null` answer and a `symbols` value that is not an object are not modelled; only a missing `symbols` is (its `Object.keys` throws after the line is written).
- `Object.keys` lists integer-like keys first in JavaScript; the model takes the symbol names in the order given.
- File I/O: opening, `writeln`'s line terminator and `close` are reduced to whether the file opens and the line written; `iniGetAllObjects` is reduced to the list of sections it returns.
- `log`, `format` and `system.spamlog` are recorded as events, not performed; LOG_ERROR and LOG_ERR are kept as two levels, as the script names them.
- JsValues.ToNumber: only blank text and optionally signed decimal integers are read exactly; fractions, exponents, hexadecimal/binary/octal literals and Infinity become NaN, and integers beyond 2^53 are not rounded.
- JsValues.NumberText: prints only integers and NaN, the numbers this model holds.
- The `main();` invocation (line 114) and the `XXX` placeholders (lines 108-111), which have no behaviour.
