/** Whole runs of the dialog from its initial state, with the replies a
    server would give. */
module Scenarios {
  import opened Wrappers
  import opened Text
  import opened AuthKey
  import opened Ipv4
  import opened Replies
  import opened Dialog

  const SampleIp := "203.0.113.5"

  /** A plain 200 reply with the given body. */
  function OkReply(body: string): Reply {
    Reply(body, None, Some(200), [], None)
  }

  lemma SampleIpIsIpv4()
    ensures IsIpv4(SampleIp)
  {
    ThreeDigitValue("203");
    ThreeDigitValue("113");
    assert "0"[..0] == [] && "5"[..0] == [];
    IsIpv4OfOctets("203", "0", "113", "5");
    assert Quad("203", "0", "113", "5") == SampleIp;
  }

  /** A five-character key is rejected with the plural length warning and
      no request. */
  lemma ShortKeyRejected()
    ensures var t := Connect(Edit(Init, "not32"));
            && t.state.statusText == MalformedTitle
            && t.effects == [Show(MalformedKey(WrongLength(5)))]
            && StartsWith(BoxText(t.effects[0].box), LengthLead + "5")
            && !StartsWith(BoxText(t.effects[0].box), LengthLead + "5" + " character.")
  {
    var s := Edit(Init, "not32");
    assert s.input == "not32";
    TrimStartKeeps("not32");
    TrimEndKeeps("not32");
    assert CheckKey(s.input) == WrongLength(5);
    ConnectRejected(s);
    assert NatToDecimal(5) == "5";
    WrongLengthWarningNamesLength(5);
    WrongLengthWarningSingular(5);
  }

  /** A valid key typed with surrounding blanks is repaired: the line edit
      shows the bare key, the warning names it, and the IP request starts. */
  lemma PaddedKeyRepaired(k: string)
    requires ValidKey(k)
    ensures var t := Connect(Edit(Init, "  " + k + " "));
            && t.state.input == k && t.state.key == k && t.state.checkingIp
            && t.effects == [Show(MalformedKey(Trimmed(k))), Request(IpUrl)]
  {
    PaddedKeyAccepted("  ", k, " ");
    var s := Edit(Init, "  " + k + " ");
    ConnectAccepted(s);
    StartStageShape(s, k, KeyNotice(Trimmed(k)));
  }

  /** The IP stage and then the credential check, with the expected
      search result: the address is recorded and the run ends in
      "Success!" with Connect enabled again. */
  lemma SuccessfulRun(k: string, resolve: (string, string) -> string, confirm: bool)
    requires ValidKey(k)
    ensures var t1 := Connect(Edit(Init, k));
            var t2 := Finished(t1.state, OkReply(SampleIp), resolve, confirm);
            var t3 := Finished(t2.state, OkReply(AcceptableResponse), resolve, confirm);
            && t1.effects == [Request(IpUrl)]
            && t2.effects == [Request(SearchUrl(k))]
            && t3.effects == []
            && t3.state.ip == SampleIp
            && t3.state.statusText == SuccessLabel
            && t3.state.connectEnabled
  {
    var s0 := Edit(Init, k);
    ConnectAccepted(s0);
    StartStageShape(s0, k, []);
    var t1 := Connect(s0);
    SampleIpIsIpv4();
    IpStageThenSearch(t1.state, OkReply(SampleIp), resolve, confirm);
  }

  /** The reply a server gives for a key it does not know. */
  const Denied := Reply("", Some(TransportError(AuthenticationRequired, 204, "Host requires authentication")),
                        Some(401), [], None)

  /** A 401 from the search ends the run with "Invalid Auth Key" and a
      warning box carrying the detail report. */
  lemma RejectedKeyRun(k: string, resolve: (string, string) -> string, confirm: bool)
    requires ValidKey(k)
    ensures var t1 := Connect(Edit(Init, k));
            var t2 := Finished(t1.state, OkReply(SampleIp), resolve, confirm);
            var t3 := Finished(t2.state, Denied, resolve, confirm);
            && t3.state.statusText == "Invalid Auth Key"
            && t3.effects == [Show(ConnectionFailed("Invalid Auth Key", DetailReport(k, SampleIp, Denied)))]
  {
    var s0 := Edit(Init, k);
    ConnectAccepted(s0);
    StartStageShape(s0, k, []);
    var t1 := Connect(s0);
    SampleIpIsIpv4();
    IpStageThenSearch(t1.state, OkReply(SampleIp), resolve, confirm);
    var t2 := Finished(t1.state, OkReply(SampleIp), resolve, confirm);
    assert t2.state.key == k && t2.state.ip == SampleIp && !t2.state.aborted && !t2.state.checkingIp;
    TransportErrorWins(t2.state, Denied, None, resolve, confirm);
  }

  /** The box shown for an unknown key. */
  lemma InvalidKeyBox(detail: string)
    ensures BoxTitle(ConnectionFailed("Invalid Auth Key", detail)) == "Connection Failed"
    ensures BoxText(ConnectionFailed("Invalid Auth Key", detail)) == "Connection failed: Invalid Auth Key."
    ensures BoxDetail(ConnectionFailed("Invalid Auth Key", detail)) == Some(detail)
  {
  }

  /** Declining a redirect cancels the run, and the aborted reply's late
      completion changes nothing but the stage flag. */
  lemma DeclinedRedirectRun(s: Session, r: Reply, late: Reply, resolve: (string, string) -> string, confirm: bool)
    requires !s.aborted && !s.checkingIp && r.error.None? && r.redirect.Some?
    ensures var t := Finished(s, r, resolve, false);
            var u := Finished(t.state, late, resolve, confirm);
            && t.effects == [Show(RedirectQuestion(resolve(s.url, r.redirect.value))), Abort]
            && t.state.statusText == CanceledLabel && t.state.aborted
            && u == Step(t.state, [])
  {
  }
}
