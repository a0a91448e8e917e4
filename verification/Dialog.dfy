/** The dialog's verification flow: the slots `connectClicked`,
    `cancelRequest` and `httpFinished` as pure steps over one session value.
    A step returns the new session and the effects it has on the outside
    world, in order: requests to start, dialogs to show, a request to abort. */
module Dialog {
  import opened Wrappers
  import opened Text
  import opened AuthKey
  import opened Ipv4
  import opened Replies

  const IpUrl := "http://axelstudios.com/ip.php"
  const SearchUrlLead := "http://bcl.nrel.gov/api/search/?api_version=1.1&show_rows=0&oauth_consumer_key="

  /** The credential check: the search URL with the key as
      `oauth_consumer_key`. */
  function SearchUrl(key: string): string {
    SearchUrlLead + key
  }

  /** The dialog's state. `input` is the key line edit's text, `statusText` the
      status label's text and `connectEnabled` the Connect button's enabled
      flag; the other fields are the members `m_url`, `m_key`, `m_ip`,
      `m_checkingIp` and `m_httpRequestAborted`. */
  datatype Session = Session(
    input: string,
    statusText: string,
    connectEnabled: bool,
    url: string,
    key: string,
    ip: string,
    checkingIp: bool,
    aborted: bool)

  /** The modal message boxes the dialog opens. */
  datatype MessageBox =
    | MalformedKey(check: KeyCheck)                    // warning about the key
    | ConnectionFailed(status: string, detail: string) // warning about a transport error
    | UnrecognizedResponse(detail: string)             // warning about the body
    | RedirectQuestion(target: string)                 // yes/no: follow the redirect?

  /** What a step asks of the outside world. */
  datatype Effect =
    | Request(url: string)   // start a GET of `url`
    | Show(box: MessageBox)  // open a modal box
    | Abort                  // abort the current reply
  {
    predicate Exchange() { Request? || Abort? }
  }

  datatype Step = Step(state: Session, effects: seq<Effect>)

  const MalformedTitle := "Malformed Auth Key"
  const SuccessLabel := "Success!"
  const UnrecognizedLabel := "Unrecognized Response."
  const CanceledLabel := "Canceled."

  /** A box's window title. */
  function BoxTitle(b: MessageBox): string {
    match b
    case MalformedKey(_) => MalformedTitle
    case ConnectionFailed(_, _) => "Connection Failed"
    case UnrecognizedResponse(_) => "Unrecognized Response"
    case RedirectQuestion(_) => "Connection Redirect"
  }

  /** A box's main text. */
  function BoxText(b: MessageBox): string {
    match b
    case MalformedKey(c) => if c.Valid? then "" else KeyWarning(c)
    case ConnectionFailed(status, _) => "Connection failed: " + status + "."
    case UnrecognizedResponse(_) => "Server returned OK, but the response body is unrecognized"
    case RedirectQuestion(target) => "Redirect to " + target + "?"
  }

  /** The expandable detail text: the report, for the credential-stage
      warnings only. */
  function BoxDetail(b: MessageBox): (d: Option<string>)
    ensures d.Some? <==> b.ConnectionFailed? || b.UnrecognizedResponse?
    ensures b.ConnectionFailed? || b.UnrecognizedResponse? ==> d == Some(b.detail)
  {
    match b
    case ConnectionFailed(_, detail) => Some(detail)
    case UnrecognizedResponse(detail) => Some(detail)
    case _ => None
  }

  /** The dialog as constructed: empty key, IP stage next, Connect disabled. */
  const Init := Session("", "Please enter your BCL Auth Key:", false, "", "", "", false, false)

  /** `enableConnectButton`: Connect is enabled exactly when the line edit
      is not empty. */
  function EnableConnect(s: Session): Session {
    s.(connectEnabled := s.input != "")
  }

  /** The user edits the key; the `textChanged` signal re-evaluates the
      Connect button. */
  function Edit(s: Session, text: string): Session {
    EnableConnect(s.(input := text))
  }

  /** `connectClicked`: check the line-edit text, then start the next stage's
      request, toggling between the IP stage and the credential stage. */
  function Connect(s: Session): Step {
    var raw := s.input;
    var c := CheckKey(raw);
    if c.Accepted() then StartStage(s, c.key, KeyNotice(c))
    else Step(s.(key := raw, statusText := MalformedTitle), KeyNotice(c))
  }

  /** The "Malformed Auth Key" warning box, shown for every key but one
      that is valid as typed. */
  function KeyNotice(c: KeyCheck): (notice: seq<Effect>)
    ensures |notice| <= 1 && (|notice| == 0 <==> c.Valid?)
    ensures forall e :: e in notice ==> e == Show(MalformedKey(c))
  {
    if c.Valid? then [] else [Show(MalformedKey(c))]
  }

  /** The part of `connectClicked` after an accepted key `k`: flip the
      stage and request its URL, after the dialogs in `notice`. */
  function StartStage(s: Session, k: string, notice: seq<Effect>): Step {
    var url := if s.checkingIp then SearchUrl(k) else IpUrl;
    var t := s.(input := k, key := k, url := url, checkingIp := !s.checkingIp,
                statusText := if s.checkingIp then "Connecting..." else "Checking IP...",
                connectEnabled := false, aborted := false);
    Step(t, notice + [Request(url)])
  }

  /** `cancelRequest`: mark the reply aborted and abort it. */
  function Cancel(s: Session): Step {
    Step(s.(statusText := CanceledLabel, aborted := true, connectEnabled := true), [Abort])
  }

  /** `httpFinished` for reply `r`. `resolve` stands for resolving a
      redirect target against the current URL and `confirm` for the user's
      answer to the redirect question. */
  function Finished(s: Session, r: Reply, resolve: (string, string) -> string, confirm: bool): Step {
    if s.aborted then
      Step(s.(checkingIp := false), [])
    else if s.checkingIp then
      Connect(s.(ip := if IsIpv4(r.body) then r.body else ""))
    else
      var detail := DetailReport(s.key, s.ip, r);
      match Classify(r)
      case Failed(e) =>
        var status := ErrorStatus(e, s.ip, r.status);
        Step(EnableConnect(s.(statusText := status)), [Show(ConnectionFailed(status, detail))])
      case Redirected(target) =>
        var newUrl := resolve(s.url, target);
        var ask := Show(RedirectQuestion(newUrl));
        if confirm then Step(s.(url := newUrl), [ask, Request(newUrl)])
        else
          var c := Cancel(s);
          Step(c.state, [ask] + c.effects)
      case Matched =>
        Step(EnableConnect(s.(statusText := SuccessLabel)), [])
      case Unrecognized =>
        Step(EnableConnect(s.(statusText := UnrecognizedLabel)), [Show(UnrecognizedResponse(detail))])
  }

  // ---------------------------------------------------------------------
  // Properties of a single step
  // ---------------------------------------------------------------------

  /** At most one request is started or aborted per step, and only as the
      step's last effect. */
  predicate OneExchangeLast(effects: seq<Effect>) {
    forall i :: 0 <= i < |effects| && effects[i].Exchange() ==> i == |effects| - 1
  }

  function Requests(effects: seq<Effect>): seq<string> {
    if |effects| == 0 then []
    else Requests(effects[..|effects| - 1])
         + (if effects[|effects| - 1].Request? then [effects[|effects| - 1].url] else [])
  }

  /** A key that fails the check, raw and trimmed, changes only `m_key` and
      the status label, shows the warning for its kind of failure, and starts no
      request. */
  lemma ConnectRejected(s: Session)
    requires !CheckKey(s.input).Accepted()
    ensures Connect(s).state == s.(key := s.input, statusText := MalformedTitle)
    ensures Connect(s).effects == [Show(MalformedKey(CheckKey(s.input)))]
    ensures forall e :: e in Connect(s).effects ==> !e.Exchange()
  {
  }

  /** An accepted key flips the stage, clears the abort flag, disables
      Connect and starts exactly one request: the IP endpoint when leaving
      the idle stage, the search URL carrying the key otherwise. A warning
      precedes it exactly when the key had to be trimmed. */
  lemma ConnectAccepted(s: Session)
    requires CheckKey(s.input).Accepted()
    ensures Connect(s).state.checkingIp == !s.checkingIp
    ensures !Connect(s).state.aborted && !Connect(s).state.connectEnabled
    ensures Connect(s).state.key == CheckKey(s.input).key
    ensures ValidKey(Connect(s).state.key) && Connect(s).state.input == Connect(s).state.key
    ensures Connect(s).state.url == (if s.checkingIp then SearchUrl(Connect(s).state.key) else IpUrl)
    ensures Connect(s).state.statusText == (if s.checkingIp then "Connecting..." else "Checking IP...")
    ensures Connect(s).state.ip == s.ip
    ensures Requests(Connect(s).effects) == [Connect(s).state.url]
    ensures Connect(s).effects == KeyNotice(CheckKey(s.input)) + [Request(Connect(s).state.url)]
    ensures Connect(s).effects[|Connect(s).effects| - 1] == Request(Connect(s).state.url)
    ensures |Connect(s).effects| == 2 <==> CheckKey(s.input).Trimmed?
  {
    var c := CheckKey(s.input);
    var notice := KeyNotice(c);
    assert Connect(s) == StartStage(s, c.key, notice);
    StartStageShape(s, c.key, notice);
    assert |notice| == 1 <==> c.Trimmed?;
  }

  lemma StartStageShape(s: Session, k: string, notice: seq<Effect>)
    requires |notice| <= 1 && forall e :: e in notice ==> e.Show?
    ensures var t := StartStage(s, k, notice);
            && t.state == s.(input := k, key := k, url := t.state.url, checkingIp := !s.checkingIp,
                             statusText := t.state.statusText, connectEnabled := false, aborted := false)
            && t.state.url == (if s.checkingIp then SearchUrl(k) else IpUrl)
            && t.effects == notice + [Request(t.state.url)]
            && Requests(t.effects) == [t.state.url]
            && OneExchangeLast(t.effects)
  {
    var t := StartStage(s, k, notice);
    var es := t.effects;
    assert es[..|es| - 1] == notice;
    assert Requests(es) == Requests(notice) + [t.state.url];
    if |notice| == 1 {
      assert notice[..0] == [];
      assert notice[0] in notice;
      assert Requests(notice) == [];
    }
  }

  /** The search URL names the key: it can be read back after the fixed
      lead. */
  lemma SearchUrlCarriesKey(k: string)
    ensures StartsWith(SearchUrl(k), SearchUrlLead)
    ensures SearchUrl(k)[|SearchUrlLead|..] == k
  {
    StartsWithSelf(SearchUrlLead, k);
  }

  /** Two clicks with a valid key return to the stage the session started
      in. */
  lemma ConnectAlternates(s: Session)
    requires ValidKey(s.input)
    ensures Connect(Connect(s).state).state.checkingIp == s.checkingIp
    ensures !s.checkingIp ==> Connect(s).state.url == IpUrl
                              && Connect(Connect(s).state).state.url == SearchUrl(s.input)
  {
    ConnectAccepted(s);
    ConnectAccepted(Connect(s).state);
  }

  /** `cancelRequest` shows "Canceled.", sets the abort flag, re-enables
      Connect and aborts the reply, leaving the stage, key, IP and URL as
      they were. */
  lemma CancelMarksAborted(s: Session)
    ensures var t := Cancel(s);
            && t.state.aborted && t.state.statusText == CanceledLabel && t.state.connectEnabled
            && t.state.(statusText := s.statusText, aborted := s.aborted, connectEnabled := s.connectEnabled) == s
            && t.effects == [Abort]
  {
  }

  /** A completion that arrives while the abort flag is set is discarded,
      whatever the reply: nothing but the stage flag changes, and it is
      reset to the idle stage. */
  lemma AbortedCompletionDiscarded(s: Session, r: Reply, resolve: (string, string) -> string, confirm: bool)
    requires s.aborted
    ensures Finished(s, r, resolve, confirm) == Step(s.(checkingIp := false), [])
  {
  }

  /** Cancelling and then receiving the reply leaves the cancelled state in
      place apart from the stage flag, and has no effect. */
  lemma LateCompletionAfterCancel(s: Session, r: Reply, resolve: (string, string) -> string, confirm: bool)
    ensures var c := Cancel(s).state;
            Finished(c, r, resolve, confirm) == Step(c.(checkingIp := false), [])
            && Finished(c, r, resolve, confirm).state.statusText == CanceledLabel
  {
  }

  /** The IP stage records the body as the address when it is a dotted
      quad and "" otherwise, and re-enters `connectClicked`; nothing else of
      the reply is looked at. */
  lemma IpStageRecordsAndProceeds(s: Session, r: Reply, resolve: (string, string) -> string, confirm: bool)
    requires !s.aborted && s.checkingIp
    ensures Finished(s, r, resolve, confirm) == Connect(s.(ip := if IsIpv4(r.body) then r.body else ""))
  {
  }

  /** In the IP stage a transport error, a redirect, the status code and
      the headers make no difference: two replies with the same body give
      the same step, and the redirect answer is never consulted. */
  lemma IpStageIgnoresAllButBody(s: Session, r: Reply, r': Reply,
                                 resolve: (string, string) -> string, resolve': (string, string) -> string,
                                 confirm: bool, confirm': bool)
    requires !s.aborted && s.checkingIp && r.body == r'.body
    ensures Finished(s, r, resolve, confirm) == Finished(s, r', resolve', confirm')
  {
  }

  /** When the key is still the one the IP request was made with, the IP
      stage goes straight on to the credential check: it records the
      address and starts exactly the search request for that key. */
  lemma IpStageThenSearch(s: Session, r: Reply, resolve: (string, string) -> string, confirm: bool)
    requires !s.aborted && s.checkingIp && ValidKey(s.input)
    ensures var t := Finished(s, r, resolve, confirm);
            && t.effects == [Request(SearchUrl(s.input))]
            && !t.state.checkingIp && t.state.url == SearchUrl(s.input)
            && (IsIpv4(r.body) ==> t.state.ip == r.body)
            && (t.state.ip == "" <==> !IsIpv4(r.body))
  {
    ConnectAccepted(s.(ip := if IsIpv4(r.body) then r.body else ""));
    if IsIpv4(r.body) {
      assert r.body != "" by {
        assert |Split(r.body, '.')| == 4;
      }
    }
  }

  /** In the credential stage a transport error wins: the statusText is the
      error's status, one warning box carries it and the detail report, no
      request starts, and a redirect target in the same reply is ignored. */
  lemma TransportErrorWins(s: Session, r: Reply, target: Option<string>,
                           resolve: (string, string) -> string, confirm: bool)
    requires !s.aborted && !s.checkingIp && r.error.Some?
    ensures var t := Finished(s, r, resolve, confirm);
            var status := ErrorStatus(r.error.value, s.ip, r.status);
            && t.state == s.(statusText := status, connectEnabled := s.input != "")
            && t.effects == [Show(ConnectionFailed(status, DetailReport(s.key, s.ip, r)))]
            && t == Finished(s, r.(redirect := target), resolve, confirm)
  {
  }

  /** A redirect without a transport error asks whether to follow the
      resolved target, whatever the body. Yes: `m_url` becomes the target
      and it is requested, in the same stage. No: exactly `cancelRequest`. */
  lemma RedirectBeforeBody(s: Session, r: Reply, body: string,
                           resolve: (string, string) -> string, confirm: bool)
    requires !s.aborted && !s.checkingIp && r.error.None? && r.redirect.Some?
    ensures var t := Finished(s, r, resolve, confirm);
            var newUrl := resolve(s.url, r.redirect.value);
            var ask := Show(RedirectQuestion(newUrl));
            && (confirm ==> t == Step(s.(url := newUrl), [ask, Request(newUrl)]))
            && (!confirm ==> t == Step(Cancel(s).state, [ask] + Cancel(s).effects))
            && t == Finished(s, r.(body := body), resolve, confirm)
  {
  }

  /** With neither a transport error nor a redirect the statusText is
      "Success!" exactly when the body is the expected document, and
      "Unrecognized Response." with a warning carrying the detail report
      otherwise; no request starts and Connect is re-evaluated. */
  lemma BodyDecidesSuccess(s: Session, r: Reply, resolve: (string, string) -> string, confirm: bool)
    requires !s.aborted && !s.checkingIp && r.error.None? && r.redirect.None?
    ensures var t := Finished(s, r, resolve, confirm);
            && (t.state.statusText == SuccessLabel <==> r.body == AcceptableResponse)
            && (t.state.statusText == UnrecognizedLabel <==> r.body != AcceptableResponse)
            && (t.effects == [] <==> r.body == AcceptableResponse)
            && (r.body != AcceptableResponse ==>
                  t.effects == [Show(UnrecognizedResponse(DetailReport(s.key, s.ip, r)))])
            && t.state == s.(statusText := t.state.statusText, connectEnabled := s.input != "")
  {
  }

  /** Every step starts or aborts at most one request, as its last effect. */
  lemma StepsExchangeOnce(s: Session, r: Reply, resolve: (string, string) -> string, confirm: bool)
    ensures OneExchangeLast(Connect(s).effects)
    ensures OneExchangeLast(Cancel(s).effects)
    ensures OneExchangeLast(Finished(s, r, resolve, confirm).effects)
  {
    ConnectExchangesOnce(s);
    FinishedExchangesOnce(s, r, resolve, confirm);
  }

  lemma FinishedExchangesOnce(s: Session, r: Reply, resolve: (string, string) -> string, confirm: bool)
    ensures OneExchangeLast(Finished(s, r, resolve, confirm).effects)
  {
    if s.aborted {
    } else if s.checkingIp {
      ConnectExchangesOnce(s.(ip := if IsIpv4(r.body) then r.body else ""));
    } else {
      var es := Finished(s, r, resolve, confirm).effects;
      assert |es| <= 2 && forall i :: 0 <= i < |es| - 1 ==> es[i].Show?;
    }
  }

  lemma ConnectExchangesOnce(s: Session)
    ensures OneExchangeLast(Connect(s).effects)
  {
    var c := CheckKey(s.input);
    if c.Accepted() {
      StartStageShape(s, c.key, KeyNotice(c));
    } else {
      ConnectRejected(s);
    }
  }

  // ---------------------------------------------------------------------
  // An invariant of every reachable session
  // ---------------------------------------------------------------------

  /** The recorded IP address is "" or a dotted quad, and while the IP
      stage is pending the URL is the IP endpoint. */
  predicate Inv(s: Session) {
    && (s.ip == "" || IsIpv4(s.ip))
    && (s.checkingIp ==> s.url == IpUrl)
  }

  lemma InitInv()
    ensures Inv(Init)
  {
  }

  lemma ConnectPreservesInv(s: Session)
    requires Inv(s)
    ensures Inv(Connect(s).state)
  {
    if CheckKey(s.input).Accepted() {
      ConnectAccepted(s);
    } else {
      ConnectRejected(s);
    }
  }

  /** Every slot and every edit of the key preserves the invariant. */
  lemma StepsPreserveInv(s: Session, text: string, r: Reply, resolve: (string, string) -> string, confirm: bool)
    requires Inv(s)
    ensures Inv(Edit(s, text))
    ensures Inv(Connect(s).state)
    ensures Inv(Cancel(s).state)
    ensures Inv(Finished(s, r, resolve, confirm).state)
  {
    ConnectPreservesInv(s);
    FinishedPreservesInv(s, r, resolve, confirm);
  }

  lemma FinishedPreservesInv(s: Session, r: Reply, resolve: (string, string) -> string, confirm: bool)
    requires Inv(s)
    ensures Inv(Finished(s, r, resolve, confirm).state)
  {
    if s.aborted {
    } else if s.checkingIp {
      var s' := s.(ip := if IsIpv4(r.body) then r.body else "");
      assert Inv(s');
      ConnectPreservesInv(s');
    } else {
      var t := Finished(s, r, resolve, confirm).state;
      assert !t.checkingIp && t.ip == s.ip;
    }
  }
}
