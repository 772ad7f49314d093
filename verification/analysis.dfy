/** The analysis endpoints: request validation, the two mock report
    generators, and the `/api/analyze` and `/api/analysis/history` handlers.
    Every `Math.random()` the generators consume is an explicit draw; a
    shuffle by random comparator is drawn as the permutation it produces. */
module Analysis {
  import opened Util
  import opened Text
  import opened Schema
  import opened OrderedMap
  import opened Storage
  import opened Validation
  import opened Http

  // ----- request schema -----

  datatype AnalysisRequest = AnalysisRequest(
    accountName: string,
    password: string,
    targetAccount: string,
    contentType: string,
    content: string)

  /** `analysisRequestSchema.parse(body)`: five strings of length at least 1. */
  function ParseAnalysisRequest(body: JsonObject): (r: Parsed<AnalysisRequest>)
    ensures r.Parsed? <==>
      && StringAtLeast(body, "accountName", 1) && StringAtLeast(body, "password", 1)
      && StringAtLeast(body, "targetAccount", 1) && StringAtLeast(body, "contentType", 1)
      && StringAtLeast(body, "content", 1)
    ensures r.Parsed? ==>
      r.value == AnalysisRequest(body["accountName"].str, body["password"].str,
                                 body["targetAccount"].str, body["contentType"].str, body["content"].str)
    ensures r.Invalid? ==> |r.issues| > 0 && forall i :: 0 <= i < |r.issues| ==> !StringAtLeast(body, r.issues[i].path, 1)
  {
    var issues :=
      MinLengthField(body, "accountName", 1, "Account name is required")
      + MinLengthField(body, "password", 1, "Password is required")
      + MinLengthField(body, "targetAccount", 1, "Target account is required")
      + MinLengthField(body, "contentType", 1, "Content type is required")
      + MinLengthField(body, "content", 1, "Content is required");
    if issues == [] then
      Parsed(AnalysisRequest(body["accountName"].str, body["password"].str,
                             body["targetAccount"].str, body["contentType"].str, body["content"].str))
    else Invalid(issues)
  }

  // ----- vocabularies -----

  const Topics: seq<string> := ["social", "political", "personal", "business"]
  const Sentiments: seq<string> := ["positive", "negative", "neutral"]
  const Entities: seq<string> := ["person", "organization", "location", "event"]
  const Intensities: seq<string> := ["Low", "Medium", "High"]
  const ThreatLevels: seq<string> := ["Low", "Medium", "High", "Critical"]
  const Indicators: seq<string> := [
    "Aggressive language",
    "Threatening statements",
    "Radicalization markers",
    "Violent imagery",
    "Conspiratorial rhetoric",
    "Extremist ideology",
    "Targeted harassment"
  ]

  /** `vocab.sort(() => 0.5 - Math.random()).slice(0, count)`, the shuffle
      being drawn as the index `order` it leaves the array in. */
  function Sample(vocab: seq<string>, order: seq<nat>, count: nat): (r: seq<string>)
    requires IsPermutation(order, |vocab|)
    ensures |r| == if count <= |vocab| then count else |vocab|
    ensures forall i :: 0 <= i < |r| ==> r[i] in vocab
    ensures Distinct(vocab) ==> Distinct(r)
  {
    var n := if count <= |vocab| then count else |vocab|;
    seq(n, i requires 0 <= i < n => vocab[order[i]])
  }

  // ----- semantic analysis -----

  /** The random draws of one `performSemanticAnalysis` call.
      `entityDraw` is `Math.floor(Math.random() * 3)`, so one more entity
      than it says is kept; the booleans are the `Math.random() > t` tests. */
  datatype SemanticDraws = SemanticDraws(
    topic: nat,
    sentiment: nat,
    entityOrder: seq<nat>,
    entityDraw: nat,
    formal: bool,
    technical: bool,
    intensity: nat,
    original: bool)

  predicate SemanticDrawsInRange(d: SemanticDraws) {
    && d.topic < |Topics|
    && d.sentiment < |Sentiments|
    && IsPermutation(d.entityOrder, |Entities|)
    && d.entityDraw < 3
    && d.intensity < |Intensities|
  }

  datatype SemanticReport = SemanticReport(
    contentLength: nat,
    wordCount: nat,
    uniqueWords: nat,
    topic: string,
    sentiment: string,
    entities: seq<string>,
    formality: string,
    terminology: string,
    intensity: string,
    originality: string)

  /** `performSemanticAnalysis(content)`: the counts are exact, every label
      is drawn from its vocabulary. */
  function PerformSemanticAnalysis(content: string, d: SemanticDraws): (r: SemanticReport)
    requires SemanticDrawsInRange(d)
    ensures r.contentLength == Utf16Length(content)
    ensures r.wordCount == WhitespaceRuns(content) + 1
    ensures 1 <= r.uniqueWords <= r.wordCount
    ensures r.topic in Topics && r.sentiment in Sentiments && r.intensity in Intensities
    ensures 1 <= |r.entities| <= 3 && Distinct(r.entities)
    ensures forall i :: 0 <= i < |r.entities| ==> r.entities[i] in Entities
  {
    var words := SplitOnWhitespace(content);
    var lowered := SplitOnWhitespace(Lower(content));
    SplitCountsRuns(content);
    SplitLowerSameCount(content);
    DistinctCountBounds(lowered);
    EntitiesDistinct();
    var entities := Sample(Entities, d.entityOrder, d.entityDraw + 1);
    SemanticReport(
      Utf16Length(content),
      |words|,
      DistinctCount(lowered),
      Topics[d.topic],
      Sentiments[d.sentiment],
      entities,
      if d.formal then "Formal" else "Informal",
      if d.technical then "Present" else "Not significant",
      Intensities[d.intensity],
      if d.original then "original" else "potentially derivative")
  }

  function ContentLengthLine(n: nat): string {
    "Content Length: " + Decimal(n) + " characters"
  }

  function WordCountLine(n: nat): string {
    "Word Count: " + Decimal(n) + " words"
  }

  function SemanticLines(r: SemanticReport): seq<string> {
    [ "Semantic Analysis Report",
      "  ",
      ContentLengthLine(r.contentLength),
      WordCountLine(r.wordCount),
      "Unique Words: " + Decimal(r.uniqueWords),
      "",
      "Primary Topic: " + r.topic,
      "Overall Sentiment: " + r.sentiment,
      "Key Entities Detected: " + Join(r.entities, ", "),
      "",
      "Language Patterns:",
      "- Formality: " + r.formality,
      "- Technical terminology: " + r.terminology,
      "- Emotional intensity: " + r.intensity,
      "",
      "Content appears to be " + r.originality + "." ]
  }

  /** The template literal the report is returned as. */
  function RenderSemantic(r: SemanticReport): string {
    Lines(SemanticLines(r))
  }

  /** The semantic report states the exact length and word count of the
      content, as decimal numbers that read back to those counts. */
  lemma SemanticReportStatesCounts(content: string, d: SemanticDraws)
    requires SemanticDrawsInRange(d)
    ensures HasLine(RenderSemantic(PerformSemanticAnalysis(content, d)), ContentLengthLine(Utf16Length(content)))
    ensures HasLine(RenderSemantic(PerformSemanticAnalysis(content, d)), WordCountLine(WhitespaceRuns(content) + 1))
    ensures DecimalValue(Decimal(Utf16Length(content))) == Utf16Length(content)
  {
    var r := PerformSemanticAnalysis(content, d);
    LinesHaveLine(SemanticLines(r), 2);
    LinesHaveLine(SemanticLines(r), 3);
    DecimalRoundTrip(Utf16Length(content));
  }

  /** Any text equal to the rendered report states both counts. */
  lemma SemanticTextStatesCounts(text: string, content: string, d: SemanticDraws)
    requires SemanticDrawsInRange(d)
    requires text == RenderSemantic(PerformSemanticAnalysis(content, d))
    ensures HasLine(text, ContentLengthLine(Utf16Length(content)))
    ensures HasLine(text, WordCountLine(WhitespaceRuns(content) + 1))
  {
    SemanticReportStatesCounts(content, d);
  }

  // ----- threat analysis -----

  /** The random draws of one `performThreatAnalysis` call.
      `indicatorDraw` is `Math.floor(Math.random() * 3)`, the number of
      indicators kept. */
  datatype ThreatDraws = ThreatDraws(level: nat, indicatorOrder: seq<nat>, indicatorDraw: nat)

  predicate ThreatDrawsInRange(d: ThreatDraws) {
    && d.level < |ThreatLevels|
    && IsPermutation(d.indicatorOrder, |Indicators|)
    && d.indicatorDraw < 3
  }

  datatype ThreatReport = ThreatReport(
    level: string,
    indicators: seq<string>,
    recommendation: string,
    timestamp: string)

  /** The nested conditional choosing the recommendation; any level other
      than the first three falls through to the last text. */
  function Recommendation(level: string): string {
    if level == "Low" then "Routine monitoring"
    else if level == "Medium" then "Enhanced monitoring"
    else if level == "High" then "Escalate for review"
    else "Immediate action required"
  }

  /** The recommendation is fixed by the level, and tells the four levels
      apart. */
  lemma RecommendationByLevel()
    ensures Recommendation(ThreatLevels[0]) == "Routine monitoring"
    ensures Recommendation(ThreatLevels[1]) == "Enhanced monitoring"
    ensures Recommendation(ThreatLevels[2]) == "Escalate for review"
    ensures Recommendation(ThreatLevels[3]) == "Immediate action required"
    ensures forall i, j :: 0 <= i < j < |ThreatLevels| ==>
              Recommendation(ThreatLevels[i]) != Recommendation(ThreatLevels[j])
  {
  }

  lemma IndicatorsDistinct()
    ensures Distinct(Indicators)
  {
  }

  lemma EntitiesDistinct()
    ensures Distinct(Entities)
  {
  }

  /** `performThreatAnalysis(content)`: the content is never looked at. */
  function PerformThreatAnalysis(content: string, d: ThreatDraws, timestamp: string): (r: ThreatReport)
    requires ThreatDrawsInRange(d)
    ensures r.level in ThreatLevels
    ensures r.recommendation == Recommendation(r.level)
    ensures |r.indicators| <= 2 && Distinct(r.indicators)
    ensures forall i :: 0 <= i < |r.indicators| ==> r.indicators[i] in Indicators
    ensures r.timestamp == timestamp
  {
    IndicatorsDistinct();
    var level := ThreatLevels[d.level];
    ThreatReport(level, Sample(Indicators, d.indicatorOrder, d.indicatorDraw), Recommendation(level), timestamp)
  }

  /** The threat report does not depend on the content submitted. */
  lemma ThreatIgnoresContent(c1: string, c2: string, d: ThreatDraws, timestamp: string)
    requires ThreatDrawsInRange(d)
    ensures PerformThreatAnalysis(c1, d, timestamp) == PerformThreatAnalysis(c2, d, timestamp)
  {
  }

  const NoIndicatorsText: string := "No specific threat indicators detected."

  function Bullet(s: string): string { "- " + s }

  /** The block between the threat level and the recommendation. */
  function IndicatorSection(indicators: seq<string>): (text: string)
    ensures text == NoIndicatorsText <==> |indicators| == 0
  {
    if |indicators| > 0 then
      var text := "\nIndicators Detected:\n" + Join(seq(|indicators|, i requires 0 <= i < |indicators| => Bullet(indicators[i])), "\n") + "\n";
      assert text[0] != NoIndicatorsText[0];
      text
    else NoIndicatorsText
  }

  function RecommendationLine(level: string): string {
    "Recommendation: " + Recommendation(level)
  }

  /** The template literal the threat report is returned as. */
  function RenderThreat(r: ThreatReport): string {
    Lines(["Threat Analysis Report", "  ", "Threat Level: " + r.level])
    + IndicatorSection(r.indicators) + "\n"
    + Lines(["", "Recommendation: " + r.recommendation, "", "Analysis timestamp: " + r.timestamp])
  }

  /** The threat report names its level and the recommendation that level
      dictates. */
  lemma ThreatReportStatesLevel(content: string, d: ThreatDraws, timestamp: string)
    requires ThreatDrawsInRange(d)
    ensures HasLine(RenderThreat(PerformThreatAnalysis(content, d, timestamp)), "Threat Level: " + ThreatLevels[d.level])
    ensures HasLine(RenderThreat(PerformThreatAnalysis(content, d, timestamp)), RecommendationLine(ThreatLevels[d.level]))
    ensures HasLine(RenderThreat(PerformThreatAnalysis(content, d, timestamp)), "Analysis timestamp: " + timestamp)
  {
    var r := PerformThreatAnalysis(content, d, timestamp);
    var head := ["Threat Analysis Report", "  ", "Threat Level: " + r.level];
    var tail := ["", "Recommendation: " + r.recommendation, "", "Analysis timestamp: " + r.timestamp];
    var section := IndicatorSection(r.indicators);
    LinesHaveLine(head, 2);
    HasLineAppend(Lines(head), head[2], section);
    HasLineAppend(Lines(head) + section, head[2], "\n");
    HasLineAppend(Lines(head) + section + "\n", head[2], Lines(tail));
    LinesHaveLine(tail, 1);
    HasLinePrepend(Lines(tail), tail[1], Lines(head) + section + "\n");
    LinesHaveLine(tail, 3);
    HasLinePrepend(Lines(tail), tail[3], Lines(head) + section + "\n");
  }

  /** "No specific threat indicators detected." is printed exactly when the
      indicator draw is zero. */
  lemma NoIndicatorsIffDrawZero(content: string, d: ThreatDraws, timestamp: string)
    requires ThreatDrawsInRange(d)
    ensures IndicatorSection(PerformThreatAnalysis(content, d, timestamp).indicators) == NoIndicatorsText
            <==> d.indicatorDraw == 0
  {
  }

  // ----- the handlers -----

  const UnauthorizedMessage: string := "Unauthorized"
  const AnalysisErrorMessage: string := "An error occurred during analysis"
  const HistoryNoUserMessage: string := "User not authenticated"
  const HistoryErrorMessage: string := "Failed to retrieve analysis history"

  /** `POST /api/analyze`. `reportTime` and `createdAt` are the two readings
      of the clock; `storageFails` says whether `createAnalysis` throws. */
  function AnalyzeRoute(s: MemStorage, session: Session, body: JsonObject,
                        sd: SemanticDraws, td: ThreatDraws,
                        reportTime: string, createdAt: string, storageFails: bool): (h: Handled)
    requires SemanticDrawsInRange(sd) && ThreatDrawsInRange(td)
    ensures !session.authenticated ==> h == Handled(s, Response(401, Message(UnauthorizedMessage)))
    ensures session.authenticated && ParseAnalysisRequest(body).Invalid? ==>
      h == Handled(s, Response(400, ValidationFailed(ParseAnalysisRequest(body).issues)))
    ensures h.response.status == 200 <==>
      session.authenticated && ParseAnalysisRequest(body).Parsed? && !(session.userId.Some? && storageFails)
    ensures h.response.status == 200 ==> h.response.body.AnalysisResult?
    ensures h.response.status == 500 ==> h == Handled(s, Response(500, Message(AnalysisErrorMessage)))
    ensures h.store != s ==> h.response.status == 200 && session.userId.Some?
  {
    if !session.authenticated then Handled(s, Response(401, Message(UnauthorizedMessage)))
    else
      match ParseAnalysisRequest(body)
      case Invalid(issues) => Handled(s, Response(400, ValidationFailed(issues)))
      case Parsed(req) =>
        var semantic := RenderSemantic(PerformSemanticAnalysis(req.content, sd));
        var threat := RenderThreat(PerformThreatAnalysis(req.content, td, reportTime));
        match session.userId
        case None => Handled(s, Response(200, AnalysisResult(semantic, threat)))
        case Some(uid) =>
          if storageFails then Handled(s, Response(500, Message(AnalysisErrorMessage)))
          else
            var created := CreateAnalysis(s, InsertAnalysis(uid, req.targetAccount, req.contentType, req.content,
                                                            Some(semantic), Some(threat), createdAt));
            assert created.store.currentAnalysisId != s.currentAnalysisId;
            Handled(created.store, Response(200, AnalysisResult(semantic, threat)))
  }

  /** A successful analysis by a signed-in user stores exactly one record,
      after all earlier ones, holding the request's fields and the very
      report texts the response carries; nothing else in the store moves. */
  lemma AnalyzeStoresWhatItReturns(s: MemStorage, uid: int, body: JsonObject,
                                   sd: SemanticDraws, td: ThreatDraws,
                                   reportTime: string, createdAt: string)
    requires Valid(s)
    requires SemanticDrawsInRange(sd) && ThreatDrawsInRange(td)
    requires ParseAnalysisRequest(body).Parsed?
    ensures var h := AnalyzeRoute(s, Session(true, Some(uid)), body, sd, td, reportTime, createdAt, false);
      && Valid(h.store)
      && |h.store.analyses| == |s.analyses| + 1
      && h.store.analyses[..|s.analyses|] == s.analyses
      && h.store.users == s.users && h.store.contactRequests == s.contactRequests
      && h.store.currentId == s.currentId && h.store.currentContactRequestId == s.currentContactRequestId
      && var a := h.store.analyses[|s.analyses|].1;
         && a.id == s.currentAnalysisId && a.userId == uid
         && a.targetAccount == body["targetAccount"].str
         && a.contentType == body["contentType"].str
         && a.content == body["content"].str
         && a.createdAt == createdAt
         && a.semanticAnalysis == Some(h.response.body.semanticAnalysis)
         && a.threatAnalysis == Some(h.response.body.threatAnalysis)
  {
    var req := ParseAnalysisRequest(body).value;
    var semantic := RenderSemantic(PerformSemanticAnalysis(req.content, sd));
    var threat := RenderThreat(PerformThreatAnalysis(req.content, td, reportTime));
    var ins := InsertAnalysis(uid, req.targetAccount, req.contentType, req.content, Some(semantic), Some(threat), createdAt);
    CreateAnalysisAppends(s, ins);
  }

  /** A signed-in request with a valid body and no failing store write is
      answered 200 with the two reports rendered for the submitted content,
      the threat report stamped with the first clock reading. */
  lemma AnalyzeOkBody(s: MemStorage, session: Session, body: JsonObject,
                      sd: SemanticDraws, td: ThreatDraws,
                      reportTime: string, createdAt: string, storageFails: bool)
    requires SemanticDrawsInRange(sd) && ThreatDrawsInRange(td)
    requires session.authenticated && ParseAnalysisRequest(body).Parsed? && !(session.userId.Some? && storageFails)
    ensures "content" in body && body["content"].JString?
    ensures AnalyzeRoute(s, session, body, sd, td, reportTime, createdAt, storageFails).response.status == 200
    ensures AnalyzeRoute(s, session, body, sd, td, reportTime, createdAt, storageFails).response.body
      == AnalysisResult(RenderSemantic(PerformSemanticAnalysis(body["content"].str, sd)),
                        RenderThreat(PerformThreatAnalysis(body["content"].str, td, reportTime)))
  {
    var req := ParseAnalysisRequest(body).value;
    assert req.content == body["content"].str;
  }

  /** The semantic text a successful analysis returns states the length of
      the submitted content. Which requests succeed is given by the
      `AnalyzeRoute` contract. */
  lemma AnalyzeReportsContentLength(s: MemStorage, session: Session, body: JsonObject,
                                    sd: SemanticDraws, td: ThreatDraws,
                                    reportTime: string, createdAt: string, storageFails: bool)
    requires SemanticDrawsInRange(sd) && ThreatDrawsInRange(td)
    requires session.authenticated && ParseAnalysisRequest(body).Parsed? && !(session.userId.Some? && storageFails)
    ensures HasLine(AnalyzeRoute(s, session, body, sd, td, reportTime, createdAt, storageFails).response.body.semanticAnalysis,
                    ContentLengthLine(Utf16Length(body["content"].str)))
  {
    AnalyzeOkBody(s, session, body, sd, td, reportTime, createdAt, storageFails);
    var returned := AnalyzeRoute(s, session, body, sd, td, reportTime, createdAt, storageFails).response.body.semanticAnalysis;
    SemanticTextStatesCounts(returned, body["content"].str, sd);
  }

  /** The threat text a successful analysis returns states the drawn level,
      the recommendation for that level and the first clock reading. */
  lemma AnalyzeReportsThreatLevel(s: MemStorage, session: Session, body: JsonObject,
                                  sd: SemanticDraws, td: ThreatDraws,
                                  reportTime: string, createdAt: string, storageFails: bool)
    requires SemanticDrawsInRange(sd) && ThreatDrawsInRange(td)
    requires session.authenticated && ParseAnalysisRequest(body).Parsed? && !(session.userId.Some? && storageFails)
    ensures var threat := AnalyzeRoute(s, session, body, sd, td, reportTime, createdAt, storageFails).response.body.threatAnalysis;
      && HasLine(threat, "Threat Level: " + ThreatLevels[td.level])
      && HasLine(threat, RecommendationLine(ThreatLevels[td.level]))
      && HasLine(threat, "Analysis timestamp: " + reportTime)
  {
    AnalyzeOkBody(s, session, body, sd, td, reportTime, createdAt, storageFails);
    ThreatReportStatesLevel(body["content"].str, td, reportTime);
  }

  /** `GET /api/analysis/history`. `storageFails` says whether the lookup
      throws. The store is only read. */
  function HistoryRoute(s: MemStorage, session: Session, storageFails: bool): (r: Response)
    ensures !session.authenticated ==> r == Response(401, Message(UnauthorizedMessage))
    ensures session.authenticated && session.userId.None? ==> r == Response(401, Message(HistoryNoUserMessage))
    ensures r.status == 200 <==> session.authenticated && session.userId.Some? && !storageFails
    ensures r.status == 500 ==> r.body == Message(HistoryErrorMessage)
    ensures r.status == 200 ==>
      && r.body.AnalysisList?
      && (forall i :: 0 <= i < |r.body.analyses| ==> r.body.analyses[i].userId == session.userId.value)
      && (forall i :: 0 <= i < |s.analyses| && s.analyses[i].1.userId == session.userId.value ==>
            s.analyses[i].1 in r.body.analyses)
      && IsSubsequence(r.body.analyses, Values(s.analyses))
      && forall a :: multiset(r.body.analyses)[a] ==
           if a.userId == session.userId.value then multiset(Values(s.analyses))[a] else 0
  {
    if !session.authenticated then Response(401, Message(UnauthorizedMessage))
    else
      match session.userId
      case None => Response(401, Message(HistoryNoUserMessage))
      case Some(uid) =>
        if storageFails then Response(500, Message(HistoryErrorMessage))
        else Response(200, AnalysisList(GetAnalysesByUserId(s, uid)))
  }

  /** After a successful analysis the caller's history grows by exactly the
      new record, at the end, and everyone else's history is unchanged. */
  lemma HistoryAfterAnalyze(s: MemStorage, uid: int, other: int, body: JsonObject,
                            sd: SemanticDraws, td: ThreatDraws,
                            reportTime: string, createdAt: string)
    requires Valid(s)
    requires SemanticDrawsInRange(sd) && ThreatDrawsInRange(td)
    requires ParseAnalysisRequest(body).Parsed?
    requires other != uid
    ensures var h := AnalyzeRoute(s, Session(true, Some(uid)), body, sd, td, reportTime, createdAt, false);
      && |h.store.analyses| == |s.analyses| + 1
      && GetAnalysesByUserId(h.store, uid) == GetAnalysesByUserId(s, uid) + [h.store.analyses[|s.analyses|].1]
      && GetAnalysesByUserId(h.store, other) == GetAnalysesByUserId(s, other)
  {
    var h := AnalyzeRoute(s, Session(true, Some(uid)), body, sd, td, reportTime, createdAt, false);
    AnalyzeStoresWhatItReturns(s, uid, body, sd, td, reportTime, createdAt);
    var t := h.store;
    var a := t.analyses[|s.analyses|];
    assert t.analyses == s.analyses + [a] by {
      assert t.analyses == t.analyses[..|s.analyses|] + [a];
    }
    assert a.1.userId == uid;
    AnalysesByUserAfterAppend(s, t, a.0, a.1, uid);
    AnalysesByUserAfterAppend(s, t, a.0, a.1, other);
  }
}
