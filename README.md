# honeypot-api: the scam classifier, the extractor and the report gate in Dafny

This project models the core of the honeypot service in `main.py`, a responder
that receives a message purportedly from a scammer. For each turn,
`handle_message`:

- classifies the text with `is_it_a_scam`;
- extracts UPI ids and links with `extract_info`;
- once per conversation, posts a final report to an evaluation service
  (`send_final_report`). It does this only after at least three history
  messages, and only for a text classified as a scam.

The model is split into five modules:

- `Text` (`text.dfy`): the string primitives. These are the three character
  classes of the two patterns, ASCII lower-casing, and substring search
  (`Contains`), proved equal to "is a substring" (`Occurs`).
- `Classifier` (`classifier.dfy`): `is_it_a_scam`. It searches for the six
  keywords, in order, in the lower-cased text.
- `Extractor` (`extractor.dfy`): `extract_info`. The two patterns are
  hand-written scanners.
  - `[a-zA-Z0-9.\-_]+@[a-zA-Z]+` takes the maximal run of local characters,
    then an `@`, then the run of letters.
  - `https?://\S+` takes a scheme, then the run of non-whitespace.
  - Each scanner is proved to find the longest text in the pattern's language
    at a position, and nothing when there is no such text.
  - `re.findall` is the scan that resumes after each match. It is proved to be
    the only list of spans that are matches, in left-to-right order, with no
    overlap and no skipped match.
- `Report` (`report.dfy`): the payload of `send_final_report` and the reply of
  `handle_message`.
- `Gate` (`gate.dfy`): the module-level set `reported_sessions`, modelled as
  the class `ReportGate`, and the guarded block of `handle_message`.
  - The class keeps ghost logs of the reports sent and of those whose POST
    returned.
  - Its invariant is that the set holds exactly the sessions whose POST
    returned, and that no session's POST returned twice.
  - `TurnStep` and `GateStep` state one turn as a value.
  - `Run` folds the guarded block over a sequence of turns, for the trace
    lemmas.

The POST of `send_final_report` is the boolean `postRaises`. When it raises,
the exception leaves `handle_message` before the session is added to the set,
and the turn ends with `CallbackRaised`.

Facts about `main.py` that the model makes explicit:

- "equipment" contains "uip", not "upi", and no other keyword, so it is not a
  scam (`EquipmentIsNotScam`).
- The report's `suspiciousKeywords` is always `["urgent", "verify", "blocked"]`,
  whichever keywords the text contains (`ReportedKeywordsIgnoreText`).
- There is no atomic claim. The code checks the set, sends, and only then adds
  the session. So a report whose POST raised is sent again on the next
  qualifying turn (`RetryAfterFailure`).
- `bankAccounts` and `phoneNumbers` are always empty.

## Model

| member | source | states |
|---|---|---|
| Text.RunEndSpec | main.py:25 | the run of class characters a `+` consumes from a position is all in the class and stops at the end of the text or at the first character outside it |
| Text.ContainsOccurs | main.py:35 | the substring search succeeds exactly when the word is a substring of the text (`word in text`) |
| Text.Lower | main.py:35 | `lower()` gives the same text up to ASCII case, with no capital left |
| Text.InClass | main.py:25-26 | the classes `[a-zA-Z0-9.\-_]`, `[a-zA-Z]` and `\S`; their runs are stated by `Text.RunEndSpec` |
| Text.IsSpace | main.py:26 | the ASCII whitespace that `\S` excludes: tab to carriage return, 0x1c-0x1f and space; used by `NonSpace` in `Text.RunEndSpec` |
| Text.Contains | main.py:35 | `word in text`; its contract is `Text.ContainsOccurs` |
| Classifier.AnyOccurs | main.py:35 | `any(word in t for word in words)`; its contract is `Classifier.AnyOccursSpec` |
| Classifier.AnyOccursSpec | main.py:35 | `any(...)` over the words is true exactly when some word of the list occurs in the text |
| Classifier.IsItAScam | main.py:33-35 | `is_it_a_scam`; its contract is `Classifier.IsItAScamSpec` |
| Classifier.IsItAScamSpec | main.py:33-35 | a text is a scam exactly when one of the six keywords occurs in its lower-cased form |
| Classifier.ScamCaseInsensitive | main.py:35 | two texts that differ only in ASCII case get the same verdict |
| Classifier.ScamOfLower | main.py:35 | lower-casing the text first does not change the verdict |
| Classifier.ShortTextNotScam | main.py:34-35 | texts shorter than three characters, the empty text included, are never scams, as every keyword has at least three |
| Classifier.CupidIsScam | main.py:35 | there is no word-boundary check: "cupid" is a scam because it contains "upi" |
| Classifier.EquipmentIsNotScam | main.py:34-35 | "equipment" contains none of the six keywords, so it is not a scam |
| Classifier.ScamInContext | main.py:35 | text added before or after a scam text never clears the verdict |
| Extractor.UpiMatchAt | main.py:25 | a UPI match from a position is non-empty and ends inside the text |
| Extractor.LinkMatchAt | main.py:26 | a link match from a position is non-empty and ends inside the text |
| Extractor.UpiMatchShaped | main.py:25 | what the UPI scanner finds has local characters, one `@` and letters |
| Extractor.LinkMatchShaped | main.py:26 | what the link scanner finds is `http://` or `https://` followed by at least one non-whitespace character |
| Extractor.UpiMatchLongest | main.py:25 | the UPI scanner finds the longest text from the position in the pattern's language, and nothing exactly when none exists |
| Extractor.LinkMatchLongest | main.py:26 | the link scanner finds the longest text from the position that is `http://` or `https://` and then non-whitespace, and nothing exactly when none exists |
| Extractor.MatchAt | main.py:25-26 | a match of either pattern from a position is non-empty and ends inside the text; `Extractor.MatchAtLongest` pins it down |
| Extractor.MatchAtLongest | main.py:25-26 | the same greedy-match property for either pattern |
| Extractor.LinkKeepsTrailingComma | main.py:26 | a link runs to the next whitespace: in "http://x.in, hi" the match keeps the comma |
| Extractor.UpiStopsAtDigit | main.py:25 | the handle after `@` is letters only: in "pay.me@ok9" the match stops before the digit |
| Extractor.Scan | main.py:28-29 | the left-to-right scan over all match positions; its contract is `Extractor.ScanIsFindAll` |
| Extractor.ScanIsFindAll | main.py:28-29 | the resume-after-match scan yields spans that are matches at their starts, left to right, non-overlapping, with no match start left uncovered |
| Extractor.FindSpans | main.py:28-29 | the spans of all matches of a pattern have the `re.findall` properties and lie inside the text |
| Extractor.FindAllUnique | main.py:28-29 | any list of spans with the `re.findall` properties is the scan's list |
| Extractor.SpansFrom | main.py:28-29 | the spans `re.findall` visits from a position lie inside the text; `Extractor.SpansFromScan` ties them to the scan |
| Extractor.SpansFromScan | main.py:28-29 | the lazy scan `findall` runs, trying the pattern and resuming after each match, gives the same spans as the scan over all positions |
| Extractor.FindAll | main.py:28-29 | `re.findall`; its contract is `Extractor.FindAllShaped` and, with `Extractor.ExtractInfoIsFindAll`, uniqueness |
| Extractor.FindAllShaped | main.py:28-29 | every text `findall` returns is in the pattern's language and occurs in the text |
| Extractor.ExtractInfo | main.py:30 | `bankAccounts` is always empty |
| Extractor.ExtractInfoShaped | main.py:24-31 | every UPI id has the UPI shape and every link the link shape, and each is a substring of the text |
| Extractor.ExtractInfoIsFindAll | main.py:24-31 | the two lists are the texts of exactly the spans with the `re.findall` properties, and `bankAccounts` is empty |
| Extractor.UpiIdsNeedAtSign | main.py:28 | a text that yields a UPI id contains an `@` |
| Extractor.NoAtSignNoUpiIds | main.py:28 | a text without `@` yields no UPI ids |
| Extractor.LinksNeedScheme | main.py:29 | a text that yields a link contains "://" |
| Report.BuildPayload | main.py:70-84 | the payload carries the session id, `scamDetected` true, the given count, the three extracted lists unchanged, no phone numbers, and the fixed keyword list |
| Report.BuildResponse | main.py:57-68 | the reply carries the classifier's verdict, the extraction, and the count history length + 1, which is positive |
| Report.PayloadAgreesWithResponse | main.py:54-66 | a report built from the turn's extraction and count agrees with the reply on the count and on the three lists, and bank accounts are empty |
| Report.ReportedKeywordsIgnoreText | main.py:81 | the reported keywords are classifier keywords but need not occur in the text: the report for "kyc" lists "urgent" |
| Gate.Assess | main.py:44-45 | the verdict and the extraction of the turn; `Gate.TurnStep` states what the guard does with them |
| Gate.GateStep | main.py:52-55 | the block sends exactly when history ≥ 3, the session is not in the set and the text is a scam; the payload has the session, extraction and count + 1; the session joins the set exactly when the send returned |
| Gate.TurnStep | main.py:43-68 | one turn sends the report exactly under the guard; the set grows by the session only when the report went out; the turn ends with the callback's exception or with the reply |
| Gate.StepSends | main.py:52-54 | a turn that passes the guard sends the payload built from its own extraction and count |
| Gate.ReportGate.constructor | main.py:22 | the set starts empty, with no report sent and no POST returned |
| Gate.ReportGate.SendFinalReport | main.py:70-85 | the payload is logged as sent in any case, and as returned only when the POST does not raise |
| Gate.ReportGate.ReportAndMark | main.py:54-55 | send, then add the session to the set only if the send returned; the invariant is kept |
| Gate.ReportGate.HandleTurn | main.py:43-68 | the new set, the outcome and the sent and returned logs are those of `TurnStep`, and the invariant is kept |
| Gate.ReturnKeepsOnce | main.py:55 | a returned POST for a session not in the set adds exactly that session and keeps each session returned once |
| Gate.OncePerSessionDistinct | main.py:52-55 | under the invariant, no two returned reports are for the same session |
| Gate.StepKeepsOnce | main.py:52-55 | one turn never removes a session and keeps the set equal to the sessions of the returned reports, each once |
| Gate.Run | main.py:52-55 | over a sequence of turns the set only grows and at most one POST returns per turn; `Gate.RunKeepsOnce` states the invariant |
| Gate.RunKeepsOnce | main.py:52-55 | over any sequence of turns the set only grows, holds exactly the sessions of the returned reports, and no session's POST returns twice |
| Gate.RunReportsAfterHistory | main.py:52-54 | every report whose POST returned over a sequence of turns is the report of one of those turns, which had at least three history messages and was classified as a scam |
| Gate.AtMostOneReturnedReportPerSession | main.py:22-55 | from an empty set, the reports whose POST returned are for pairwise distinct sessions, and the set is exactly their sessions |
| Gate.ReportedSessionIsQuiet | main.py:52 | a session already in the set sends nothing and leaves the set unchanged, and the turn replies |
| Gate.RetryAfterFailure | main.py:54-55 | a report whose POST raised leaves the session out of the set, so the next qualifying turn sends again |

## Left out

- FastAPI, routing and the request schemas (main.py:1-19, 37-38): transport and schema glue. The model's `Turn` holds the session id, the current text and the history length.
- TurnStep, ReportGate.HandleTurn: a `null` `conversationHistory` (main.py:18) makes `len()` raise at main.py:52, after classification and extraction. That turn ends in an exception and changes no state. It is not modelled, because `historyLen` is a `nat`.
- The API-key check (main.py:40-41): an authentication wrapper with no logic beyond string equality.
- The HTTP POST itself (main.py:71, 85): network I/O. It is the parameter `postRaises`. A non-2xx status does not raise in `requests`, so it counts as returned.
- RunKeepsOnce, AtMostOneReturnedReportPerSession, ReportGate.Valid: at most once is proved for POSTs that returned, not for what the evaluation service receives. A POST that raised (a read timeout, say) may still have reached the service, and the retry then reports the same session a second time.
- Concurrency: the turns are sequential. The check-then-add of main.py:52-55 is not atomic, and the model does not claim at-most-once under concurrent turns.
- Lower: ASCII capitals only. `str.lower()` on other Unicode letters is not modelled.
- Text.IsSpace: the ASCII whitespace of Python's `\s` only. Unicode spaces beyond the ASCII range are not modelled.
- The reply strings, `engagementDurationSeconds` 45, `status` and the two `agentNotes` texts (main.py:48, 58, 60, 63, 67, 83): fixed literals. The only decision among them, the choice of reply, follows `scam_detected`, which the reply carries.
