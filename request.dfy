/**
  The scan request (rspamc.js lines 38-66): the header object handed to the
  HTTP request, with the recipient list gathered from the per-message
  recipient file, and the URL of rspamd's `/checkv2` endpoint.
 */
module Request {
  import opened JsValues
  import opened JsObject
  import opened Synchronet

  /** The value Synchronet gives `client.host_name` when the host has no name. */
  const NoName := "<no name>"

  /** One section of the recipient list file, as `iniGetAllObjects` returns it. */
  type IniRecord = map<string, string>

  /** `record["To"]`, which is `undefined` when the section has no `To` key. */
  function ToField(record: IniRecord): JsString
  {
    if "To" in record then Text(record["To"]) else Undefined
  }

  /** How `Array.prototype.join` prints an element: `undefined` as "". */
  function JoinText(v: JsString): string
  {
    match v
    case Undefined => ""
    case Text(s) => s
  }

  /** The `To` fields of the records, in file order. */
  function ToFields(records: seq<IniRecord>): seq<JsString>
  {
    seq(|records|, k requires 0 <= k < |records| => ToField(records[k]))
  }

  /** `addr_list.join(",")`. */
  function RecipientHeader(records: seq<IniRecord>): string
  {
    var fields := ToFields(records);
    Join(seq(|fields|, k requires 0 <= k < |fields| => JoinText(fields[k])), ",")
  }

  /** The header object as first built, before any property is added or replaced. */
  function InitialHeaders(m: Message): Object
  {
    [ Property("File", m.messageTextFilename),
      Property("From", m.reversePath),
      Property("Helo", m.helloName),
      Property("IP", m.client.ipAddress),
      Property("Rcpt", m.recipientAddress) ]
  }

  /** The headers sent to rspamd. `recipientList` is None when the recipient
      file does not open, and otherwise holds its records in file order. */
  function RequestHeaders(m: Message, recipientList: Option<seq<IniRecord>>): Object
  {
    var named :=
      if m.client.hostName != NoName then Put(InitialHeaders(m), "Hostname", m.client.hostName)
      else InitialHeaders(m);
    match recipientList
    case Some(records) => Put(named, "Rcpt", RecipientHeader(records))
    case None => named
  }

  /** What the header step logs. */
  function RecipientLog(recipientList: Option<seq<IniRecord>>): seq<Event>
  {
    if recipientList.None? then [Log(LogError, "couldn't open SMTP recipient file")] else []
  }

  /** Builds the header object the way the script does, mutating it after
      creation and collecting the recipients one record at a time. */
  method BuildHeaders(m: Message, recipientList: Option<seq<IniRecord>>)
    returns (hdrs: Object, logs: seq<Event>)
    ensures hdrs == RequestHeaders(m, recipientList)
    ensures logs == RecipientLog(recipientList)
  {
    hdrs := InitialHeaders(m);
    logs := [];
    // Omit the host name when it is really missing
    if m.client.hostName != NoName {
      hdrs := Put(hdrs, "Hostname", m.client.hostName);
    }
    match recipientList {
      case Some(objs) =>
        var addrList: seq<JsString> := [];
        var i := 0;
        while i < |objs|
          invariant 0 <= i <= |objs|
          invariant |addrList| == i
          invariant forall k :: 0 <= k < i ==> addrList[k] == ToField(objs[k])
        {
          addrList := addrList + [ToField(objs[i])];
          i := i + 1;
        }
        assert addrList == ToFields(objs);
        hdrs := Put(hdrs, "Rcpt", Join(seq(|addrList|, k requires 0 <= k < |addrList| => JoinText(addrList[k])), ","));
      case None =>
        logs := logs + [Log(LogError, "couldn't open SMTP recipient file")];
    }
  }

  // ---------------------------------------------------------------------------
  // Properties of the headers

  /** The five fixed headers, in their order, followed by `Hostname` exactly
      when the client's host name is not "<no name>"; replacing `Rcpt` keeps
      its position. */
  lemma HeaderNames(m: Message, recipientList: Option<seq<IniRecord>>)
    ensures Keys(RequestHeaders(m, recipientList))
      == ["File", "From", "Helo", "IP", "Rcpt"] + (if m.client.hostName != NoName then ["Hostname"] else [])
  {
    var h0 := InitialHeaders(m);
    var fixed := ["File", "From", "Helo", "IP", "Rcpt"];
    assert Keys(h0) == fixed;
    assert "Hostname" !in fixed;
    var named := if m.client.hostName != NoName then Put(h0, "Hostname", m.client.hostName) else h0;
    assert Keys(named) == fixed + (if m.client.hostName != NoName then ["Hostname"] else []);
    assert Keys(named)[4] == "Rcpt";
  }

  /** The values of the headers: `File`, `From`, `Helo` and `IP` come from the
      message, `Hostname` is present exactly when the host name is real and
      then equals it, and `Rcpt` is the joined recipient list when the file
      opened and `recipient_address` otherwise. */
  lemma HeaderValues(m: Message, recipientList: Option<seq<IniRecord>>)
    ensures var h := RequestHeaders(m, recipientList);
      && Get(h, "File") == Some(m.messageTextFilename)
      && Get(h, "From") == Some(m.reversePath)
      && Get(h, "Helo") == Some(m.helloName)
      && Get(h, "IP") == Some(m.client.ipAddress)
      && Get(h, "Hostname") == (if m.client.hostName != NoName then Some(m.client.hostName) else None)
      && Get(h, "Rcpt") == Some(if recipientList.Some? then RecipientHeader(recipientList.value)
                                else m.recipientAddress)
  {
    var h0 := InitialHeaders(m);
    InitialHeaderValues(m);
    var named := if m.client.hostName != NoName then Put(h0, "Hostname", m.client.hostName) else h0;
    NamedHeaderValues(m, h0, named);
    match recipientList
    case None =>
    case Some(records) =>
      var rcpt := "Rcpt";
      HeaderNamesDiffer();
      var h := Put(named, rcpt, RecipientHeader(records));
      PutOther(named, rcpt, RecipientHeader(records), "File");
      PutOther(named, rcpt, RecipientHeader(records), "From");
      PutOther(named, rcpt, RecipientHeader(records), "Helo");
      PutOther(named, rcpt, RecipientHeader(records), "IP");
      PutOther(named, rcpt, RecipientHeader(records), "Hostname");
      assert RequestHeaders(m, recipientList) == h;
  }

  /** The header names are pairwise different. */
  lemma HeaderNamesDiffer()
    ensures "File" != "Hostname" && "From" != "Hostname" && "Helo" != "Hostname"
    ensures "IP" != "Hostname" && "Rcpt" != "Hostname"
    ensures "File" != "Rcpt" && "From" != "Rcpt" && "Helo" != "Rcpt" && "IP" != "Rcpt"
    ensures "File" != "IP" && "From" != "IP" && "Helo" != "IP"
    ensures "File" != "From" && "File" != "Helo" && "From" != "Helo"
  {
    assert "Hostname"[1] == 'o' && "Rcpt"[0] == 'R';
    assert "File"[0] == 'F' && "From"[0] == 'F' && "Helo"[1] == 'e' && "IP"[0] == 'I';
    assert "File"[1] == 'i' && "From"[1] == 'r' && "Helo"[0] == 'H';
    assert "Hostname"[0] == 'H';
  }

  lemma NamedHeaderValues(m: Message, h0: Object, named: Object)
    requires Get(h0, "File") == Some(m.messageTextFilename)
    requires Get(h0, "From") == Some(m.reversePath)
    requires Get(h0, "Helo") == Some(m.helloName)
    requires Get(h0, "IP") == Some(m.client.ipAddress)
    requires Get(h0, "Rcpt") == Some(m.recipientAddress)
    requires Get(h0, "Hostname") == None
    requires named == if m.client.hostName != NoName then Put(h0, "Hostname", m.client.hostName) else h0
    ensures Get(named, "File") == Some(m.messageTextFilename)
    ensures Get(named, "From") == Some(m.reversePath)
    ensures Get(named, "Helo") == Some(m.helloName)
    ensures Get(named, "IP") == Some(m.client.ipAddress)
    ensures Get(named, "Rcpt") == Some(m.recipientAddress)
    ensures Get(named, "Hostname") == if m.client.hostName != NoName then Some(m.client.hostName) else None
  {
    if m.client.hostName != NoName {
      var host := "Hostname";
      HeaderNamesDiffer();
      PutOther(h0, host, m.client.hostName, "File");
      PutOther(h0, host, m.client.hostName, "From");
      PutOther(h0, host, m.client.hostName, "Helo");
      PutOther(h0, host, m.client.hostName, "IP");
      PutOther(h0, host, m.client.hostName, "Rcpt");
    }
  }

  /** The literal header object lists five distinct names, Hostname not among them. */
  lemma InitialKeys(m: Message)
    ensures DistinctKeys(InitialHeaders(m))
    ensures Keys(InitialHeaders(m)) == ["File", "From", "Helo", "IP", "Rcpt"]
    ensures "Hostname" !in Keys(InitialHeaders(m))
  {
    HeaderNamesDiffer();
  }

  lemma InitialHeaderValues(m: Message)
    ensures var h0 := InitialHeaders(m);
      && Get(h0, "File") == Some(m.messageTextFilename)
      && Get(h0, "From") == Some(m.reversePath)
      && Get(h0, "Helo") == Some(m.helloName)
      && Get(h0, "IP") == Some(m.client.ipAddress)
      && Get(h0, "Rcpt") == Some(m.recipientAddress)
      && Get(h0, "Hostname") == None
  {
    var h0 := InitialHeaders(m);
    InitialKeys(m);
    GetListedKey(h0, 0);
    GetListedKey(h0, 1);
    GetListedKey(h0, 2);
    GetListedKey(h0, 3);
    GetListedKey(h0, 4);
    GetUnlistedKey(h0, "Hostname");
  }

  /** Every record carries a `To` field. */
  predicate AllAddressed(records: seq<IniRecord>)
  {
    forall k :: 0 <= k < |records| ==> "To" in records[k]
  }

  /** The `To` values of records that all carry one. */
  function Addresses(records: seq<IniRecord>): (tos: seq<string>)
    requires AllAddressed(records)
    ensures |tos| == |records|
  {
    seq(|records|, k requires 0 <= k < |records| => records[k]["To"])
  }

  /** With every record addressed, `Rcpt` is the `To` values joined by "," in
      file order; when no address contains a comma, splitting the header on ","
      gives the addresses back. Zero records give the empty string. */
  lemma RecipientHeaderJoinsAddresses(records: seq<IniRecord>)
    requires AllAddressed(records)
    ensures RecipientHeader(records) == Join(Addresses(records), ",")
    ensures records == [] ==> RecipientHeader(records) == ""
    ensures records != [] && FreeOf(Addresses(records), ',')
      ==> Split(RecipientHeader(records), ',') == Addresses(records)
  {
    var fields := ToFields(records);
    assert seq(|fields|, k requires 0 <= k < |fields| => JoinText(fields[k])) == Addresses(records);
    if records != [] && FreeOf(Addresses(records), ',') {
      SplitJoin(Addresses(records), ',');
    }
  }

  /** The entries of the recipient header: one per section, in file order, the
      section's `To` value or the empty string when it has none. When no `To`
      value contains a comma, splitting the header on "," gives exactly these
      entries back, so a section without `To` keeps its place. */
  function Entries(records: seq<IniRecord>): seq<string>
  {
    seq(|records|, k requires 0 <= k < |records| => JoinText(ToField(records[k])))
  }

  lemma RecipientEntries(records: seq<IniRecord>)
    requires records != [] && FreeOf(Entries(records), ',')
    ensures Split(RecipientHeader(records), ',') == Entries(records)
    ensures forall k :: 0 <= k < |records| && "To" !in records[k] ==> Entries(records)[k] == ""
    ensures forall k :: 0 <= k < |records| && "To" in records[k] ==> Entries(records)[k] == records[k]["To"]
  {
    var fields := ToFields(records);
    assert seq(|fields|, k requires 0 <= k < |fields| => JoinText(fields[k])) == Entries(records);
    SplitJoin(Entries(records), ',');
  }

  /** A record without a `To` key still takes a place in the list, as an empty
      entry between commas. */
  lemma MissingToLeavesEmptyEntry(a: IniRecord, b: IniRecord, c: IniRecord)
    requires "To" in a && "To" !in b && "To" in c
    ensures RecipientHeader([a, b, c]) == a["To"] + ",," + c["To"]
  {
    var fields := ToFields([a, b, c]);
    var texts := seq(|fields|, k requires 0 <= k < |fields| => JoinText(fields[k]));
    assert texts == [a["To"], "", c["To"]];
    assert texts[1..] == ["", c["To"]] && texts[1..][1..] == [c["To"]];
    assert Join(texts[1..][1..], ",") == c["To"];
    assert Join(texts[1..], ",") == "" + "," + c["To"];
    assert Join(texts, ",") == a["To"] + "," + ("" + "," + c["To"]);
  }

  // ---------------------------------------------------------------------------
  // The request URL

  /** `"http://" + address + ":" + tcp_port + "/checkv2"`. */
  function RequestUrl(address: JsString, port: JsNumber): string
  {
    "http://" + ToText(address) + ":" + NumberText(port) + "/checkv2"
  }

  /** Index of the last occurrence of `c` in `s`. */
  function LastIndexOf(s: string, c: char): (r: Option<nat>)
    ensures r.Some? ==> r.value < |s| && s[r.value] == c && c !in s[r.value + 1..]
    ensures r.None? ==> c !in s
  {
    if s == [] then None
    else if s[|s| - 1] == c then Some(|s| - 1)
    else LastIndexOf(s[..|s| - 1], c)
  }

  /** Reads host and port back out of a `/checkv2` URL, splitting the authority
      at its last ':'. */
  function SplitUrl(url: string): Option<(string, string)>
  {
    if |url| < 15 || url[..7] != "http://" || url[|url| - 8..] != "/checkv2" then None
    else
      var authority := url[7..|url| - 8];
      match LastIndexOf(authority, ':')
      case None => None
      case Some(k) => Some((authority[..k], authority[k + 1..]))
  }

  lemma {:induction false} LastIndexAfterPrefix(h: string, c: char, t: string)
    requires c !in t
    ensures LastIndexOf(h + [c] + t, c) == Some(|h|)
    decreases |t|
  {
    var s := h + [c] + t;
    if t != [] {
      assert s[..|s| - 1] == h + [c] + t[..|t| - 1];
      assert s[|s| - 1] == t[|t| - 1];
      LastIndexAfterPrefix(h, c, t[..|t| - 1]);
    }
  }

  lemma NumberTextHasNoColon(n: JsNumber)
    ensures ':' !in NumberText(n)
  {
    match n
    case NaN =>
    case Finite(v) =>
      var digits := NatText(if v < 0 then -v else v);
      assert ':' !in digits by {
        assert forall k :: 0 <= k < |digits| ==> IsDigit(digits[k]);
      }
  }

  /** Splitting a `/checkv2` URL whose port text has no ':' gives back the
      host and the port text. */
  lemma SplitUrlOf(host: string, portText: string)
    requires ':' !in portText
    ensures SplitUrl("http://" + host + ":" + portText + "/checkv2") == Some((host, portText))
  {
    var authority := host + ":" + portText;
    UrlFrame(authority);
    assert "http://" + host + ":" + portText + "/checkv2" == "http://" + authority + "/checkv2";
    LastIndexAfterPrefix(host, ':', portText);
    assert authority[..|host|] == host && authority[|host| + 1..] == portText;
  }

  /** The scheme and the path of a `/checkv2` URL frame its authority. */
  lemma UrlFrame(authority: string)
    ensures var url := "http://" + authority + "/checkv2";
      |url| >= 15 && url[..7] == "http://" && url[|url| - 8..] == "/checkv2" && url[7..|url| - 8] == authority
  {
  }

  /** The URL names the destination and port it was built from: the host is
      everything between "http://" and the last ':' (so even a host with
      colons comes back whole), the port text follows that colon, and reading
      the port text with `Number(...)` gives the port back. */
  lemma UrlRoundTrip(address: JsString, port: JsNumber)
    ensures SplitUrl(RequestUrl(address, port)) == Some((ToText(address), NumberText(port)))
    ensures ToNumber(Text(NumberText(port))) == port
  {
    NumberTextHasNoColon(port);
    SplitUrlOf(ToText(address), NumberText(port));
    NumberTextRoundTrip(port);
  }
}
