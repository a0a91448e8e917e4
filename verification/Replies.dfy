/** A finished reply as `httpFinished` sees it, the order in which it is
    classified, the status text for a transport error, and the detail block
    shown under the warning dialogs. */
module Replies {
  import opened Wrappers
  import opened Text

  /** The `QNetworkReply::NetworkError` values the dialog tells apart. */
  datatype ErrorKind =
    | AuthenticationRequired
    | ConnectionRefused
    | UnknownContent
    | HostNotFound
    | UnknownNetwork
    | Other

  /** A reply whose `error()` is not `NoError`: the kind, the enum's numeric
      value as the transport reports it, and `errorString()`. */
  datatype TransportError = TransportError(kind: ErrorKind, code: nat, message: string)

  /** One entry of `rawHeaderList()` with its `rawHeader` value. */
  datatype Header = Header(name: string, value: string)

  /** Everything `httpFinished` reads from the reply. `status` is the HTTP
      status code attribute and `redirect` the redirection target attribute,
      `None` where Qt reports a null attribute; `body` is `readAll()`. */
  datatype Reply = Reply(
    body: string,
    error: Option<TransportError>,
    status: Option<nat>,
    headers: seq<Header>,
    redirect: Option<string>)

  /** How a credential-stage reply is handled. */
  datatype Outcome =
    | Failed(error: TransportError)  // transport error: status text and warning
    | Redirected(target: string)     // redirect target, still to be resolved
    | Matched                        // body is the expected search result
    | Unrecognized                   // body is anything else

  /** The body of a successful search for zero rows. */
  const AcceptableResponse: string :=
    "<?xml version=\"1.0\" encoding=\"utf-8\"?>\n<results><keywords> </keywords><show_rows>0</show_rows><filters></filters><result/></results>\n"

  /** A transport error decides first, then a redirect target, and only then
      the exact comparison of the body. */
  function Classify(r: Reply): (o: Outcome)
    ensures o.Failed? <==> r.error.Some?
    ensures o.Failed? ==> o.error == r.error.value
    ensures o.Redirected? <==> r.error.None? && r.redirect.Some?
    ensures o.Redirected? ==> o.target == r.redirect.value
    ensures o.Matched? <==> r.error.None? && r.redirect.None? && r.body == AcceptableResponse
  {
    if r.error.Some? then Failed(r.error.value)
    else if r.redirect.Some? then Redirected(r.redirect.value)
    else if r.body == AcceptableResponse then Matched
    else Unrecognized
  }

  const SslContextPrefix := "Error creating SSL context"
  const OfflineStatus := "Network Error: Offline.  Check your internet connection"
  const HostNotFoundStatus := "Network Error: Host Not Found"
  const SslStatus := "DLL Error: SSL unavailable"
  const UnknownNetworkStatus := "Network Error: Unknown Network Error"
  const NetworkErrorLead := "Network Error: "

  /** The status-label text for a transport error. `ip` is the address the
      IP stage recorded ("" when none) and `status` the HTTP status code. */
  function ErrorStatus(e: TransportError, ip: string, status: Option<nat>): string {
    match e.kind
    case AuthenticationRequired => "Invalid Auth Key"
    case ConnectionRefused => "Network Error: Connection Refused"
    case UnknownContent => "Network Error: Unknown Content. Verify the User-Agent header"
    case HostNotFound => if ip == "" then OfflineStatus else HostNotFoundStatus
    case UnknownNetwork =>
      if StartsWith(e.message, SslContextPrefix) then SslStatus else UnknownNetworkStatus
    case Other =>
      if status.Some? then NetworkErrorLead + NatToDecimal(status.value) + " - " + e.message
      else NetworkErrorLead + e.message
  }

  /** The recorded IP address matters only to a host-not-found error, which
      reads "Offline" exactly when no address was recorded. */
  lemma HostNotFoundOfflineIff(e: TransportError, ip: string, ip': string, status: Option<nat>)
    ensures e.kind == HostNotFound ==>
              (ErrorStatus(e, ip, status) == OfflineStatus <==> ip == "")
              && (ErrorStatus(e, ip, status) == HostNotFoundStatus <==> ip != "")
    ensures e.kind != HostNotFound ==> ErrorStatus(e, ip, status) == ErrorStatus(e, ip', status)
  {
  }

  /** An unknown network error is reported as missing SSL support exactly
      when its message starts with the SSL-context failure text. */
  lemma UnknownNetworkSslIff(e: TransportError, ip: string, status: Option<nat>)
    requires e.kind == UnknownNetwork
    ensures ErrorStatus(e, ip, status) == SslStatus <==> StartsWith(e.message, SslContextPrefix)
    ensures ErrorStatus(e, ip, status) != SslStatus ==> ErrorStatus(e, ip, status) == UnknownNetworkStatus
  {
  }

  /** Any other error shows its message last, preceded by the HTTP status
      code in decimal and " - " exactly when a status code is present. */
  lemma OtherErrorStatus(e: TransportError, ip: string, status: Option<nat>)
    requires e.kind == Other
    ensures var s := ErrorStatus(e, ip, status);
            StartsWith(s, NetworkErrorLead) && s[|NetworkErrorLead|..] == StatusPrefix(status) + e.message
    ensures status.Some? ==> var code := StatusPrefix(status)[..|StatusPrefix(status)| - 3];
                             AllDigits(code) && DigitsValue(code) == status.value
  {
    var s := ErrorStatus(e, ip, status);
    assert s == NetworkErrorLead + (StatusPrefix(status) + e.message);
    if status.Some? {
      var d := NatToDecimal(status.value);
      assert StatusPrefix(status)[..|StatusPrefix(status)| - 3] == d;
    }
  }

  /** The "<code> - " part of a default error status. */
  function StatusPrefix(status: Option<nat>): string {
    if status.Some? then NatToDecimal(status.value) + " - " else ""
  }

  /** The status text depends on the error message only for an unknown
      network error and for the default case. */
  lemma ErrorStatusIgnoresMessage(e: TransportError, message': string, ip: string, status: Option<nat>)
    requires e.kind != UnknownNetwork && e.kind != Other
    ensures ErrorStatus(e, ip, status) == ErrorStatus(e.(message := message'), ip, status)
  {
  }

  /** One `name: value` line per header, in list order. */
  function HeaderLines(hs: seq<Header>): string {
    if |hs| == 0 then "" else HeaderLines(hs[..|hs| - 1]) + HeaderLine(hs[|hs| - 1])
  }

  function HeaderLine(h: Header): string {
    h.name + ": " + h.value + "\n"
  }

  /** The header block distributes over concatenation of header lists, so
      every header contributes its own line, in order. */
  lemma {:induction false} HeaderLinesAppend(hs: seq<Header>, gs: seq<Header>)
    ensures HeaderLines(hs + gs) == HeaderLines(hs) + HeaderLines(gs)
    decreases |gs|
  {
    if |gs| == 0 {
      assert hs + gs == hs;
    } else {
      var g, last := gs[..|gs| - 1], gs[|gs| - 1];
      var all := hs + gs;
      assert all[..|all| - 1] == hs + g;
      assert all[|all| - 1] == last;
      assert HeaderLines(all) == HeaderLines(hs + g) + HeaderLine(last);
      HeaderLinesAppend(hs, g);
      ConcatAssoc(HeaderLines(hs), HeaderLines(g), HeaderLine(last));
    }
  }

  /** Every header's line sits between the lines of the headers before it
      and those after it. */
  lemma HeaderLineAt(hs: seq<Header>, i: nat)
    requires i < |hs|
    ensures HeaderLines(hs) == HeaderLines(hs[..i]) + HeaderLine(hs[i]) + HeaderLines(hs[i + 1..])
  {
    var a, m, b := hs[..i], [hs[i]], hs[i + 1..];
    var mb := m + b;
    SplitAt(hs, i);
    HeaderLinesAppend(a, mb);
    HeaderLinesAppend(m, b);
    HeaderLinesSingle(hs[i]);
    var x, y, z := HeaderLines(a), HeaderLine(hs[i]), HeaderLines(b);
    assert HeaderLines(hs) == x + (y + z);
    ConcatAssoc(x, y, z);
  }

  lemma SplitAt<T>(s: seq<T>, i: nat)
    requires i < |s|
    ensures s == s[..i] + ([s[i]] + s[i + 1..])
  {
    assert s[i..] == [s[i]] + s[i + 1..];
  }

  lemma HeaderLinesSingle(h: Header)
    ensures HeaderLines([h]) == HeaderLine(h)
  {
    assert [h][..0] == [];
    assert HeaderLines([h]) == "" + HeaderLine(h);
  }

  const KeyLead := "BCL Key: \""
  const IpLead := "IP Address: "
  const ErrorLead := "QNetworkReply Error "
  const StatusLead := "HTTP Status: "
  const BodyLead := "\nResponse Body:\n"

  function KeyLine(key: string): string { KeyLead + key + "\"\n" }

  function IpSection(ip: string): string {
    if ip != "" then IpLead + ip + "\n" else ""
  }

  function ErrorSection(error: Option<TransportError>): string {
    if error.Some? then ErrorLead + ErrorTail(error.value) else ""
  }

  /** The error line after its lead: the numeric code, then the message. */
  function ErrorTail(e: TransportError): string {
    NatToDecimal(e.code) + ": " + e.message + "\n"
  }

  function StatusSection(status: Option<nat>): string {
    StatusLead + (if status.Some? then NatToDecimal(status.value) else "N/A") + "\n\n"
  }

  /** The status line shows the HTTP status code in decimal, or "N/A"
      when the reply carries none. */
  lemma StatusSectionShowsCode(status: Option<nat>)
    ensures StartsWith(StatusSection(status), StatusLead)
    ensures status.None? ==> StatusSection(status) == StatusLead + "N/A\n\n"
    ensures status.Some? ==>
              var digits := StatusSection(status)[|StatusLead|..|StatusSection(status)| - 2];
              AllDigits(digits) && DigitsValue(digits) == status.value
  {
    var t := if status.Some? then NatToDecimal(status.value) else "N/A";
    assert StatusSection(status) == StatusLead + (t + "\n\n");
    StartsWithSelf(StatusLead, t + "\n\n");
    assert StatusSection(status)[|StatusLead|..|StatusSection(status)| - 2] == t;
  }

  const HeadersLead := "Response Headers:\n"
  const NoHeadersLine := "Response Headers: N/A\n"
  const NoBodyLine := "\nResponse Body: N/A"

  function HeadersSection(hs: seq<Header>): string {
    if |hs| > 0 then HeadersLead + HeaderLines(hs) else NoHeadersLine
  }

  function BodySection(body: string): string {
    if |body| > 0 then BodyLead + body else NoBodyLine
  }

  /** The detail block shown under the credential-stage warnings. */
  function DetailReport(key: string, ip: string, r: Reply): string {
    KeyLine(key) + (IpSection(ip) + AfterIpSection(r))
  }

  /** Everything of the report after its IP section. */
  function AfterIpSection(r: Reply): string {
    ErrorSection(r.error) + AfterErrorSection(r)
  }

  /** Everything of the report after its error section. */
  function AfterErrorSection(r: Reply): string {
    StatusSection(r.status) + (HeadersSection(r.headers) + BodySection(r.body))
  }

  /** The report always opens with the key line. */
  lemma DetailReportKeyLine(key: string, ip: string, r: Reply)
    ensures StartsWith(DetailReport(key, ip, r), KeyLine(key))
  {
    StartsWithSelf(KeyLine(key), IpSection(ip) + AfterIpSection(r));
  }

  /** The IP line follows the key line exactly when an address was
      recorded. */
  lemma DetailReportIpLine(key: string, ip: string, r: Reply)
    ensures StartsWith(DetailReport(key, ip, r), KeyLine(key) + IpLead) <==> ip != ""
  {
    StartsWithConcat(KeyLine(key), IpSection(ip) + AfterIpSection(r), IpLead);
    AfterIpSectionFirst(r);
    IpSectionOpening(ip, AfterIpSection(r));
  }

  lemma IpSectionOpening(ip: string, rest: string)
    requires |rest| > 0 && rest[0] != IpLead[0]
    ensures StartsWith(IpSection(ip) + rest, IpLead) <==> ip != ""
  {
    if ip != "" {
      ConcatAssoc(IpLead, ip + "\n", rest);
      StartsWithSelf(IpLead, ip + "\n" + rest);
    } else {
      assert IpSection(ip) + rest == rest;
      FirstCharExcludes(rest, IpLead);
    }
  }

  /** What follows the IP section opens with "QNetworkReply Error " or
      "HTTP Status: ". */
  lemma AfterIpSectionFirst(r: Reply)
    ensures |AfterIpSection(r)| > 0
    ensures AfterIpSection(r)[0] == (if r.error.Some? then ErrorLead[0] else StatusLead[0])
  {
    var rest := AfterErrorSection(r);
    FirstOfConcat(StatusLead, (if r.status.Some? then NatToDecimal(r.status.value) else "N/A") + "\n\n");
    FirstOfConcat(StatusSection(r.status), HeadersSection(r.headers) + BodySection(r.body));
    if r.error.Some? {
      FirstOfConcat(ErrorLead, ErrorTail(r.error.value));
      FirstOfConcat(ErrorSection(r.error), rest);
    } else {
      assert AfterIpSection(r) == rest;
    }
  }

  lemma AfterIpSectionOpening(r: Reply)
    ensures StartsWith(AfterIpSection(r), ErrorLead) <==> r.error.Some?
  {
    var rest := AfterErrorSection(r);
    if r.error.Some? {
      var tail := ErrorTail(r.error.value);
      ConcatAssoc(ErrorLead, tail, rest);
      StartsWithSelf(ErrorLead, tail + rest);
    } else {
      AfterIpSectionFirst(r);
      FirstCharExcludes(AfterIpSection(r), ErrorLead);
    }
  }

  /** The error line follows the key and IP lines exactly when the reply
      has a transport error. */
  lemma DetailReportErrorLine(key: string, ip: string, r: Reply)
    ensures StartsWith(DetailReport(key, ip, r), KeyLine(key) + IpSection(ip) + ErrorLead) <==> r.error.Some?
  {
    var x := KeyLine(key) + IpSection(ip);
    var y := AfterIpSection(r);
    ConcatAssoc(KeyLine(key), IpSection(ip), y);
    StartsWithConcat(x, y, ErrorLead);
    AfterIpSectionOpening(r);
  }

  /** The report ends with the body section: the body itself when it is not
      empty, "N/A" otherwise. */
  lemma DetailReportBody(key: string, ip: string, r: Reply)
    ensures EndsWith(DetailReport(key, ip, r), BodySection(r.body))
    ensures |r.body| > 0 ==> EndsWith(DetailReport(key, ip, r), BodyLead + r.body)
    ensures |r.body| == 0 ==> EndsWith(DetailReport(key, ip, r), NoBodyLine)
  {
    var b := BodySection(r.body);
    assert EndsWith(b, b);
    EndsWithConcat(HeadersSection(r.headers), b, b);
    EndsWithConcat(StatusSection(r.status), HeadersSection(r.headers) + b, b);
    EndsWithConcat(ErrorSection(r.error), AfterErrorSection(r), b);
    EndsWithConcat(IpSection(ip), AfterIpSection(r), b);
    EndsWithConcat(KeyLine(key), IpSection(ip) + AfterIpSection(r), b);
  }

  /** The sections before the header block, in report order. */
  function ReportHead(key: string, ip: string, r: Reply): string {
    KeyLine(key) + IpSection(ip) + ErrorSection(r.error) + StatusSection(r.status)
  }

  /** After the key, IP, error and status sections the report goes on with
      the header block and then the body section. */
  lemma DetailReportLayout(key: string, ip: string, r: Reply)
    ensures DetailReport(key, ip, r) == ReportHead(key, ip, r) + (HeadersSection(r.headers) + BodySection(r.body))
  {
    var a, b, c, d := KeyLine(key), IpSection(ip), ErrorSection(r.error), StatusSection(r.status);
    var x := HeadersSection(r.headers) + BodySection(r.body);
    ConcatAssoc(c, d, x);
    ConcatAssoc(b, c + d, x);
    ConcatAssoc(b, c, d);
    ConcatAssoc(a, b + c + d, x);
    ConcatAssoc(a, b + c, d);
    ConcatAssoc(a, b, c);
  }

  /** The status section is followed by "Response Headers: N/A" exactly
      when the reply has no headers, and by "Response Headers:" and the
      header lines otherwise. */
  lemma DetailReportHeaders(key: string, ip: string, r: Reply)
    ensures var pre := ReportHead(key, ip, r);
            StartsWith(DetailReport(key, ip, r), pre + NoHeadersLine) <==> |r.headers| == 0
    ensures var pre := ReportHead(key, ip, r);
            |r.headers| > 0 ==> StartsWith(DetailReport(key, ip, r), pre + (HeadersLead + HeaderLines(r.headers)))
  {
    var pre := ReportHead(key, ip, r);
    var rest := HeadersSection(r.headers) + BodySection(r.body);
    DetailReportLayout(key, ip, r);
    StartsWithConcat(pre, rest, NoHeadersLine);
    if |r.headers| == 0 {
      StartsWithSelf(NoHeadersLine, BodySection(r.body));
    } else {
      var hl := HeaderLines(r.headers);
      ConcatAssoc(HeadersLead, hl, BodySection(r.body));
      assert rest == HeadersLead + (hl + BodySection(r.body));
      assert rest[17] == HeadersLead[17];
      DiffersAt(rest, NoHeadersLine, 17);
      StartsWithConcat(pre, rest, HeadersLead + hl);
      StartsWithSelf(HeadersLead + hl, BodySection(r.body));
    }
  }

  /** Header `i` contributes its own line to the report, right after the
      lines of the headers before it. */
  lemma DetailReportHeaderLine(key: string, ip: string, r: Reply, i: nat)
    requires i < |r.headers|
    ensures var pre := ReportHead(key, ip, r) + HeadersLead;
            StartsWith(DetailReport(key, ip, r), pre + (HeaderLines(r.headers[..i]) + HeaderLine(r.headers[i])))
  {
    var hs := r.headers;
    var p := ReportHead(key, ip, r);
    var hl := HeaderLines(hs);
    var front := HeaderLines(hs[..i]) + HeaderLine(hs[i]);
    DetailReportHeaders(key, ip, r);
    HeaderLineAt(hs, i);
    StartsWithSelf(front, HeaderLines(hs[i + 1..]));
    StartsWithConcat(p + HeadersLead, hl, front);
    ConcatAssoc(p, HeadersLead, hl);
    StartsWithPrefix(DetailReport(key, ip, r), p + HeadersLead + hl, p + HeadersLead + front);
  }
}
