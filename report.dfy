/** The records `handle_message` returns and `send_final_report` posts. */
module Report {
  import opened Text
  import opened Classifier
  import opened Extractor

  /** The keyword list every final report carries, whatever the text says. */
  const SuspiciousKeywords: seq<string> := ["urgent", "verify", "blocked"]

  /** The `extractedIntelligence` object of the final report. */
  datatype ReportIntelligence = ReportIntelligence(
    bankAccounts: seq<string>,
    upiIds: seq<string>,
    phishingLinks: seq<string>,
    phoneNumbers: seq<string>,
    suspiciousKeywords: seq<string>)

  /** The body `send_final_report` posts. */
  datatype Payload = Payload(
    sessionId: string,
    scamDetected: bool,
    totalMessagesExchanged: int,
    extractedIntelligence: ReportIntelligence)

  /** The reply of `handle_message`: the verdict, the message count its
      engagement metrics report, and the extraction. */
  datatype Response = Response(
    scamDetected: bool,
    totalMessagesExchanged: int,
    extractedIntelligence: Intelligence)

  /** The payload of `send_final_report`: a confirmed scam, the message count
      it is given, the extraction's three lists unchanged, no phone numbers,
      and the fixed keyword list. */
  function BuildPayload(sessionId: string, intel: Intelligence, totalMsgs: int): (p: Payload)
    ensures p.sessionId == sessionId && p.scamDetected && p.totalMessagesExchanged == totalMsgs
    ensures p.extractedIntelligence.bankAccounts == intel.bankAccounts
    ensures p.extractedIntelligence.upiIds == intel.upiIds
    ensures p.extractedIntelligence.phishingLinks == intel.phishingLinks
    ensures p.extractedIntelligence.phoneNumbers == []
    ensures p.extractedIntelligence.suspiciousKeywords == SuspiciousKeywords
  {
    Payload(sessionId, true, totalMsgs,
      ReportIntelligence(intel.bankAccounts, intel.upiIds, intel.phishingLinks, [], SuspiciousKeywords))
  }

  /** The reply of `handle_message` for `text` after `historyLen` earlier
      messages: the classifier's verdict, the extraction, and a count that
      includes the current message. */
  function BuildResponse(text: string, historyLen: nat): (r: Response)
    ensures r.scamDetected == IsItAScam(text)
    ensures r.extractedIntelligence == ExtractInfo(text)
    ensures r.totalMessagesExchanged == historyLen + 1 && r.totalMessagesExchanged > 0
  {
    Response(IsItAScam(text), historyLen + 1, ExtractInfo(text))
  }

  /** A report built from the turn's own extraction and count agrees with the
      turn's reply: the same count and the same three lists. */
  lemma PayloadAgreesWithResponse(sessionId: string, text: string, historyLen: nat)
    ensures var p := BuildPayload(sessionId, ExtractInfo(text), historyLen + 1);
      var r := BuildResponse(text, historyLen);
      p.totalMessagesExchanged == r.totalMessagesExchanged &&
      p.extractedIntelligence.upiIds == r.extractedIntelligence.upiIds &&
      p.extractedIntelligence.phishingLinks == r.extractedIntelligence.phishingLinks &&
      p.extractedIntelligence.bankAccounts == r.extractedIntelligence.bankAccounts == []
  {
  }

  /** The reported keywords are classifier keywords, but need not occur in the
      text: "kyc" is a scam text, and its report still lists "urgent". */
  lemma ReportedKeywordsIgnoreText()
    ensures forall w :: w in SuspiciousKeywords ==> w in Keywords
    ensures IsItAScam("kyc")
    ensures "urgent" in BuildPayload("s", ExtractInfo("kyc"), 4).extractedIntelligence.suspiciousKeywords
    ensures !Occurs("urgent", Lower("kyc"))
  {
    var t := "kyc";
    IsItAScamSpec(t);
    assert Lower(t) == t;
    assert OccursAt("kyc", t, 0);
  }
}
