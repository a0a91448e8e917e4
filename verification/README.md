# BCL Auth Test dialog — a Dafny model of its verification flow

BCLDiag is a small Qt dialog. It checks a Building Component Library (BCL)
auth key against the BCL search API. The user types a key and presses
Connect. The dialog then:

1. checks the key's format, repairing surrounding whitespace;
2. asks a fixed endpoint for the machine's public IPv4 address (the IP stage);
3. runs a zero-row search with the key as `oauth_consumer_key` (the credential stage);
4. turns the reply into a status text, and for failures a warning box with a detail report.

This project models that decision logic as pure functions over one session
value and proves properties of it. Widgets, the network and message boxes stay
outside: the model emits them as effects.

- `Text` — character classes (`[A-Za-z0-9]`, digits, the whitespace `QString::trimmed` strips), trimming, decimal spelling of numbers.
- `AuthKey` — the key rule, the trim repair, and the three warning texts.
- `Ipv4` — the dotted-quad recogniser. An executable split-based test is proved equal to the whole-string match of the source's regular expression.
- `Replies` — the reply record, the fixed order of classification, the error-to-status mapping, and the detail report.
- `Dialog` — the session record (`m_url`, `m_key`, `m_ip`, `m_checkingIp`, `m_httpRequestAborted`, plus the status label, the line-edit text and the Connect button flag), the steps `Connect`, `Cancel`, `Finished` and `Edit`, and their properties.
- `Scenarios` — whole runs from the initial dialog.

A step returns the new session and its effects in order:
- `Request(url)`: start a GET;
- `Show(box)`: open a modal box, which is either a warning or the redirect question;
- `Abort`: abort the current reply.

The user's answer to the redirect question is the `confirm` parameter of `Finished`.

What the code does, as modelled:
- The IP stage looks only at the body. Transport errors, redirects, status codes and headers are ignored there. The flow always goes on to the credential check, and an IP failure never aborts it.
- Redirects are acted on only in the credential stage.
- `cancelRequest` is wired to no widget. The only caller is the "No" answer to the redirect question. It is still modelled as a step of its own.
- A rejected key's warning reads "Your key is N character(s).  The key can only contain 32 non-whitespace alphanumeric characters." It uses the singular only for N = 1. A 32-character key with a bad character gets the second sentence alone.
- On its re-entry from the IP stage, `connectClicked` reads the line edit again. If the user has meanwhile typed a bad key, the check rejects it and no request starts. `m_checkingIp` then stays set, so the next Connect goes straight to the credential stage.
- Editing the key re-enables Connect through `textChanged`, even while a request is out.

## Model

| member | source | states |
|---|---|---|
| Text.Trim | BCLDiag.cpp:64-65 | the trimmed key has no whitespace at either end and is no longer than the raw text |
| Text.TrimIsInfix | BCLDiag.cpp:64-65 | the trimmed key is an infix of the raw text and everything cut off on either side is whitespace |
| Text.TrimOfPadded | BCLDiag.cpp:64-65 | trimming a string without edge whitespace, padded by whitespace on both sides, gives back exactly that string |
| Text.TrimIdempotent | BCLDiag.cpp:64-65 | trimming twice is the same as trimming once |
| Text.NatToDecimal | BCLDiag.cpp:70 | the decimal spelling of a number is non-empty, all digits, has no leading zero and reads back as the number |
| AuthKey.CheckKey | BCLDiag.cpp:60-73 | the raw key is accepted iff it is 32 characters of `[A-Za-z0-9]`, and then as the raw text itself; otherwise the trimmed key is accepted iff it passes the rule; otherwise the rejection is a length rejection iff the raw length is not 32, and an alphanumeric rejection names a 32-character key with a bad character; an accepted key always satisfies the rule |
| AuthKey.PaddedKeyAccepted | BCLDiag.cpp:61-68 | a valid key surrounded by whitespace is accepted as the bare key, unchanged without padding and via the trim repair with padding |
| AuthKey.WrongLengthWarningNamesLength | BCLDiag.cpp:69-70 | the length warning spells the raw length in decimal after "Your key is ", so the length reads back from it |
| AuthKey.WrongLengthWarningSingular | BCLDiag.cpp:70 | the length warning says "character." exactly when the length is 1 |
| Ipv4.Split | BCLDiag.cpp:117 | splitting at dots gives fields without dots that join back to the input |
| Ipv4.SplitJoin | BCLDiag.cpp:117 | joining dot-free fields with dots and splitting again returns the fields |
| Ipv4.OctetPatternIsOctet | BCLDiag.cpp:116 | the three octet alternatives match exactly the strings of one to three digits whose value is at most 255, leading zeros allowed |
| Ipv4.IsIpv4MatchesPattern | BCLDiag.cpp:116-117 | the executable recogniser accepts a body iff the four-octet dotted pattern matches the whole body |
| Ipv4.IsIpv4OfOctets | BCLDiag.cpp:116-117 | four octets joined by dots are accepted and split back into those four octets |
| Replies.Classify | BCLDiag.cpp:153-154 | a transport error decides first; a redirect target decides only without an error; the body is compared with the expected document only when there is neither |
| Replies.HostNotFoundOfflineIff | BCLDiag.cpp:165-171 | host-not-found reads "Offline" iff no IP address was recorded and "Host Not Found" otherwise; for every other kind the recorded address makes no difference |
| Replies.UnknownNetworkSslIff | BCLDiag.cpp:172-178 | an unknown network error reads "DLL Error: SSL unavailable" iff its message starts with "Error creating SSL context", and "Unknown Network Error" otherwise |
| Replies.OtherErrorStatus | BCLDiag.cpp:179-184 | any other error reads "Network Error: " then the message, with the HTTP status code in decimal and " - " in between exactly when a code is present |
| Replies.ErrorStatusIgnoresMessage | BCLDiag.cpp:156-171 | the error message affects the status text only for the unknown-network and default cases |
| Replies.HeaderLinesAppend | BCLDiag.cpp:139-143 | the header block of a concatenated header list is the concatenation of the two blocks |
| Replies.HeaderLineAt | BCLDiag.cpp:137-143 | each header contributes its own `name: value` line, after the lines of the headers before it and before those after it |
| Replies.StatusSectionShowsCode | BCLDiag.cpp:127-136 | the status line shows the HTTP status code, reading back as that code, or "N/A" when there is none |
| Replies.DetailReportKeyLine | BCLDiag.cpp:129 | the detail report always opens with the key line |
| Replies.DetailReportIpLine | BCLDiag.cpp:130-132 | the IP line follows the key line iff an IP address was recorded |
| Replies.DetailReportErrorLine | BCLDiag.cpp:133-135 | the error line follows the key and IP lines iff the reply has a transport error |
| Replies.DetailReportBody | BCLDiag.cpp:147-151 | the report ends with the body itself after "Response Body:" when the body is not empty, and with "Response Body: N/A" when it is empty |
| Replies.DetailReportLayout | BCLDiag.cpp:129-151 | the report is the key, IP, error and status sections, then the header block, then the body section, in that order |
| Replies.DetailReportHeaders | BCLDiag.cpp:137-146 | after the status section the report reads "Response Headers: N/A" iff the reply has no headers, and otherwise "Response Headers:" followed by the header lines |
| Replies.DetailReportHeaderLine | BCLDiag.cpp:137-143 | every header's `name: value` line appears in the report's header block, right after the lines of the headers before it |
| Dialog.BoxDetail | BCLDiag.cpp:187-218 | only the two credential-stage warnings have a detail text, and it is the report the box was built with |
| Dialog.ConnectRejected | BCLDiag.cpp:60-76 | a key rejected both raw and trimmed changes only `m_key` and the label, shows the key warning, and starts no request |
| Dialog.ConnectAccepted | BCLDiag.cpp:62-94 | an accepted key flips the stage, clears the abort flag, disables Connect and starts exactly one request, as the step's last effect: `m_key` and the line edit become the key the check accepted, the raw text or its trimmed form; the request goes to the IP endpoint when leaving the idle stage, the search URL for the accepted key otherwise; the effects are the key notice followed by that request, so the repair warning for the trimmed key precedes it iff the key was repaired by trimming |
| Dialog.StartStageShape | BCLDiag.cpp:79-94 | starting a stage changes only the key, line edit, URL, stage, label, button and abort flag, and requests the stage's URL after the notices |
| Dialog.SearchUrlCarriesKey | BCLDiag.cpp:87 | the credential URL is the fixed search URL followed by the key, which reads back from it |
| Dialog.ConnectAlternates | BCLDiag.cpp:81-88 | two clicks with a valid key return to the original stage, requesting the IP endpoint and then the search URL |
| Dialog.CancelMarksAborted | BCLDiag.cpp:97-103 | cancelling sets the abort flag, shows "Canceled.", re-enables Connect, aborts the reply and changes nothing else |
| Dialog.AbortedCompletionDiscarded | BCLDiag.cpp:109-113 | a completion with the abort flag set, whatever the reply, only resets the stage flag and has no effect |
| Dialog.LateCompletionAfterCancel | BCLDiag.cpp:97-113 | after a cancel, the late completion keeps "Canceled." and the cancelled state, apart from the stage flag |
| Dialog.IpStageRecordsAndProceeds | BCLDiag.cpp:115-124 | the IP stage records the body when it is a dotted quad and "" otherwise, then re-enters `connectClicked` |
| Dialog.IpStageIgnoresAllButBody | BCLDiag.cpp:115-124 | in the IP stage two replies with equal bodies give the same step, whatever their errors, redirects, codes, headers or the redirect answer |
| Dialog.IpStageThenSearch | BCLDiag.cpp:81-124 | with the key unchanged, the IP stage starts exactly the search request for that key and records a non-empty address iff the body is a dotted quad |
| Dialog.TransportErrorWins | BCLDiag.cpp:154-191 | in the credential stage a transport error sets the mapped status, opens one warning with the detail report, starts no request and ignores any redirect target |
| Dialog.RedirectBeforeBody | BCLDiag.cpp:192-205 | without a transport error a redirect always asks about the resolved target, whatever the body; yes replaces `m_url` and requests it in the same stage, no is exactly `cancelRequest` |
| Dialog.BodyDecidesSuccess | BCLDiag.cpp:206-220 | with neither error nor redirect the label is "Success!" iff the body is the expected document, else "Unrecognized Response." with a warning carrying the report; Connect is re-evaluated |
| Dialog.StepsExchangeOnce | BCLDiag.cpp:94-200 | every step starts or aborts at most one request, and only as its last effect |
| Dialog.InitInv | BCLDiag.cpp:12-14 | the constructed dialog satisfies the session invariant |
| Dialog.StepsPreserveInv | BCLDiag.cpp:58-230 | the recorded IP is "" or a dotted quad, and the IP stage pending implies the IP endpoint URL; every edit, click, cancel and completion preserves this |
| Scenarios.ShortKeyRejected | BCLDiag.cpp:69-76 | the five-character key "not32" is rejected with the plural length warning naming 5, and no request starts |
| Scenarios.PaddedKeyRepaired | BCLDiag.cpp:64-84 | a valid key typed with blanks is shown bare in the line edit, the repair warning is shown, and the IP request starts |
| Scenarios.SuccessfulRun | BCLDiag.cpp:81-209 | IP request, then an address reply, then a search request, then the expected document: the address is recorded and the run ends in "Success!" |
| Scenarios.RejectedKeyRun | BCLDiag.cpp:155-189 | an authentication-required reply to the search ends the run with "Invalid Auth Key" and one warning carrying the detail report |
| Scenarios.InvalidKeyBox | BCLDiag.cpp:187-188 | the unknown-key box is titled "Connection Failed" and reads "Connection failed: Invalid Auth Key." |
| Scenarios.DeclinedRedirectRun | BCLDiag.cpp:97-205 | declining a redirect asks, then aborts and shows "Canceled."; the late completion changes nothing |

## Left out

- Widget construction, layout and signal wiring (BCLDiag.cpp:12-46). Only the initial values of the label, the stage flag and the Connect button become `Dialog.Init`.
- `startRequest` (BCLDiag.cpp:48-56): the GET and its Accept and User-Agent headers are foreign I/O, emitted as the effect `Request(url)`.
- `QUrl::resolved`, the reference resolution of section 5.2 of RFC 3986, is the parameter `resolve` of `Finished`. URLs are plain strings, and `QUrl::toString` is taken as the identity.
- The modal boxes are `Show` effects. The answer to the redirect question is the parameter `confirm`.
- The numeric values of the `QNetworkReply` error enum are not tabulated. A transport error carries its numeric code as the transport reports it. Kinds other than the five the dialog tells apart are `Other`.
- `readAll()` returns bytes that Qt converts to a `QString`. The model takes the body as an already-decoded string.
- Headers are `(name, value)` pairs in list order. Qt's merging of repeated header names happens before the list reaches the dialog.
- `QString::length` counts UTF-16 code units, while the model counts Unicode scalar values. The two differ for keys with characters outside the Basic Multilingual Plane. For such keys the model can pick a different warning: a 31-character key with one such character has `QString::length` 32, so the code gives the alphanumeric-only text, while the model gives the length warning for 31. It can also spell a different length in that warning.
- The whitespace set of `QString::trimmed` is written out explicitly: TAB to CR, SPACE, NEL, NO-BREAK SPACE, and the Unicode space, line and paragraph separators. Qt's set follows its Unicode tables.
- A slot may set the label more than once. The session keeps the text it holds when the slot returns. For example, "Malformed Auth Key" is visible while the repair warning is open, but the model records only the final "Checking IP..." or "Connecting...".
- The constructor leaves `m_httpRequestAborted` uninitialised. The model starts it as false. It is only read after `connectClicked` has set it.
- Reply ownership (`deleteLater`, `m_reply = 0`) is not modelled. The model does not track whether a request is outstanding, so it cannot show what happens with two replies in flight. Editing the key re-enables Connect while the IP request is out. A click then starts a second GET, and `startRequest` overwrites `m_reply` (BCLDiag.cpp:54). When the first reply finishes, `httpFinished` reads `m_reply`, which is then the second reply (BCLDiag.cpp:107). The model treats every completion as the completion of the latest request.
- `enableConnectButton` is modelled as `Dialog.EnableConnect`, but no lemma of its own states it.
- Scenarios.ShortKeyRejected: states the opening of the warning and its plural form, not the full literal text. Comparing long string literals is beyond the solver's budget. The full text is the body of `AuthKey.KeyWarning`.
