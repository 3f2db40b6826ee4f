/** The rule-based reply resolver of the NADRA assistant (chatbot/app.py):
    the marker split of the incoming message, the first-match keyword
    cascades of the dashboard and the public chatbot, the replies they
    select, the AI-first wrapper and the `/chat` request handling. */
module Chatbot {
  import opened Wrappers
  import opened Text
  import opened Knowledge

  // ---------------------------------------------------------------------
  // Splitting the message at the ticket marker
  // ---------------------------------------------------------------------

  /** The dashboard appends the user's tickets after this marker. */
  const Marker: string := "User's Recent Tickets:"

  /** `s.split(k)[0]`: the text before the first occurrence of `k`, or all
      of `s` when `k` does not occur. */
  function Before(s: string, k: string): (r: string)
    requires k != []
    ensures |r| <= |s| && r == s[..|r|]
    ensures Contains(s, k) <==> |r| < |s|
    ensures |r| < |s| ==> OccursAt(s, k, |r|)
    ensures !Contains(r, k)
  {
    match IndexOf(s, k)
    case Some(i) =>
      NoOccurrenceInPrefix(s, k, i);
      s[..i]
    case None => s
  }

  /** `s.split(k)[1]` for an `s` that contains `k`: the text after the
      first occurrence, up to the next occurrence or the end. */
  function After(s: string, k: string): (r: string)
    requires k != [] && Contains(s, k)
    ensures !Contains(r, k)
  {
    var i := IndexOf(s, k).value;
    Before(s[i + |k|..], k)
  }

  /** `message.split(marker)[0].strip().lower()`: the text the keyword
      rules are matched against. */
  function Question(message: string): string {
    Lower(PyStrip(Before(message, Marker)))
  }

  /** `message.split(marker)[1].strip()` */
  function TicketSection(message: string): string
    requires Contains(message, Marker)
  {
    PyStrip(After(message, Marker))
  }

  /** The stripped, non-blank lines of the ticket section, in order. */
  function TicketLines(section: string): (r: seq<string>)
    ensures forall i :: 0 <= i < |r| ==> r[i] != ""
    ensures section != "" && !IsPySpace(section[0]) ==> |r| >= 1
    ensures r == Filter(StripAll(SplitOn(section, '\n')), Visible)
    ensures forall t :: t in r <==> t != "" && t in StripAll(SplitOn(section, '\n'))
  {
    var pieces := SplitOn(section, '\n');
    FirstPieceNonBlank(section, pieces);
    NonBlankIsFilter(pieces);
    NonBlank(pieces)
  }

  /** `p.strip() for p in pieces` */
  function StripAll(pieces: seq<string>): (r: seq<string>)
    ensures |r| == |pieces|
    ensures forall i :: 0 <= i < |r| ==> r[i] == PyStrip(pieces[i])
  {
    seq(|pieces|, i requires 0 <= i < |pieces| => PyStrip(pieces[i]))
  }

  /** A stripped piece is truthy. */
  predicate Visible(t: string) {
    t != ""
  }

  /** `NonBlank` keeps exactly the non-empty stripped pieces, in their
      order: it is the filter of the stripped pieces. */
  lemma {:induction false} NonBlankIsFilter(pieces: seq<string>)
    ensures NonBlank(pieces) == Filter(StripAll(pieces), Visible)
    ensures forall t :: t in NonBlank(pieces) <==> t != "" && t in StripAll(pieces)
    decreases |pieces|
  {
    if pieces != [] {
      NonBlankIsFilter(pieces[1..]);
      assert StripAll(pieces)[1..] == StripAll(pieces[1..]);
    }
    FilterMembers(StripAll(pieces), Visible);
  }

  /** `[p.strip() for p in pieces if p.strip()]` */
  function NonBlank(pieces: seq<string>): (r: seq<string>)
    ensures |r| <= |pieces|
    ensures forall i :: 0 <= i < |r| ==> r[i] != ""
    ensures |pieces| > 0 && PyStrip(pieces[0]) != "" ==> |r| >= 1 && r[0] == PyStrip(pieces[0])
    decreases |pieces|
  {
    if pieces == [] then []
    else
      var t := PyStrip(pieces[0]);
      (if t != "" then [t] else []) + NonBlank(pieces[1..])
  }

  /** When the section starts with a non-space character, the first piece
      of its split starts with that character and so is not blank. */
  lemma FirstPieceNonBlank(section: string, pieces: seq<string>)
    requires pieces == SplitOn(section, '\n')
    ensures section != "" && !IsPySpace(section[0]) ==> PyStrip(pieces[0]) != ""
  {
    if section == "" || IsPySpace(section[0]) { return; }
    var p := pieces[0];
    if |pieces| == 1 {
      assert Join(pieces, "\n") == p;
    } else {
      assert Join(pieces, "\n") == p + "\n" + Join(pieces[1..], "\n");
    }
    assert p != "" && p[0] == section[0];
  }

  /** A question written before the marker is read back unchanged, whatever
      the ticket block after the marker holds. */
  lemma QuestionIgnoresTicketBlock(q: string, block: string)
    requires !Contains(q, Marker)
    ensures Question(q + Marker + block) == Lower(PyStrip(q))
    ensures Contains(q + Marker + block, Marker)
    ensures After(q + Marker + block, Marker) == Before(block, Marker)
  {
    var s := q + Marker + block;
    MarkerFoundAfterQuestion(q, block);
    assert s[..|q|] == q;
    assert s[|q| + |Marker|..] == block;
  }

  lemma MarkerFoundAfterQuestion(q: string, block: string)
    requires !Contains(q, Marker)
    ensures IndexOf(q + Marker + block, Marker) == Some(|q|)
  {
    var s := q + Marker + block;
    var m := |Marker|;
    assert s[|q|..|q| + m] == Marker;
    forall j | 0 <= j < |q| ensures !OccursAt(s, Marker, j) {
      if j + m <= |q| {
        assert q[j..j + m] == s[j..j + m];
        assert !OccursAt(q, Marker, j);
      } else {
        // An occurrence at j would overlap the real marker, whose first
        // letter 'U' appears nowhere else in it.
        assert s[|q|] == 'U';
        assert forall e :: 0 < e < m ==> Marker[e] != 'U';
        assert s[j..j + m][|q| - j] == s[|q|];
      }
    }
    FirstOccurrence(s, Marker, |q|);
  }

  // ---------------------------------------------------------------------
  // First-match keyword rules
  // ---------------------------------------------------------------------

  /** One `if any(word in message_lower for word in words)` branch. */
  datatype Rule<T> = Rule(words: seq<string>, out: T)

  predicate Fires<T>(rule: Rule<T>, q: string) {
    ContainsAny(q, rule.words)
  }

  /** Rule `i` fires and no earlier rule does. */
  predicate FirstFiring<T>(rules: seq<Rule<T>>, q: string, i: nat) {
    i < |rules| && Fires(rules[i], q) && forall j :: 0 <= j < i ==> !Fires(rules[j], q)
  }

  /** The index of the first rule that fires, if any. */
  function FirstIndex<T>(rules: seq<Rule<T>>, q: string): (r: Option<nat>)
    ensures r.Some? ==> FirstFiring(rules, q, r.value)
    ensures r.None? ==> forall j :: 0 <= j < |rules| ==> !Fires(rules[j], q)
    decreases |rules|
  {
    if rules == [] then None
    else if Fires(rules[0], q) then Some(0)
    else
      match FirstIndex(rules[1..], q)
      case Some(i) =>
        assert forall j :: 1 <= j <= i ==> rules[j] == rules[1..][j - 1];
        Some(i + 1)
      case None =>
        assert forall j :: 1 <= j < |rules| ==> rules[j] == rules[1..][j - 1];
        None
  }

  /** The output of the first rule that fires, or `default`. */
  function FirstMatch<T>(rules: seq<Rule<T>>, q: string, default: T): T {
    match FirstIndex(rules, q)
    case Some(i) => rules[i].out
    case None => default
  }

  lemma FirstFiringUnique<T>(rules: seq<Rule<T>>, q: string, i: nat, j: nat)
    requires FirstFiring(rules, q, i) && FirstFiring(rules, q, j)
    ensures i == j
  {
  }

  /** No two rules, and no rule and the default, share an output. */
  predicate DistinctOutputs<T(==)>(rules: seq<Rule<T>>, default: T) {
    (forall i, j :: 0 <= i < j < |rules| ==> rules[i].out != rules[j].out)
    && (forall i :: 0 <= i < |rules| ==> rules[i].out != default)
  }

  /** With distinct outputs, the cascade answers rule `i`'s output exactly
      when rule `i` is the first to fire. */
  lemma FirstMatchIff<T>(rules: seq<Rule<T>>, q: string, default: T, i: nat)
    requires DistinctOutputs(rules, default) && i < |rules|
    ensures FirstMatch(rules, q, default) == rules[i].out <==> FirstFiring(rules, q, i)
  {
    match FirstIndex(rules, q)
    case Some(k) =>
      if FirstFiring(rules, q, i) {
        FirstFiringUnique(rules, q, i, k);
      } else if k != i {
        assert rules[k].out != rules[i].out by {
          if k < i { assert 0 <= k < i < |rules|; } else { assert 0 <= i < k < |rules|; }
        }
      }
    case None =>
  }

  /** With distinct outputs, the cascade answers `default` exactly when no
      rule fires. */
  lemma FirstMatchDefaultIff<T>(rules: seq<Rule<T>>, q: string, default: T)
    requires DistinctOutputs(rules, default)
    ensures FirstMatch(rules, q, default) == default
        <==> forall j :: 0 <= j < |rules| ==> !Fires(rules[j], q)
  {
  }

  // ---------------------------------------------------------------------
  // Keyword lists, in source order
  // ---------------------------------------------------------------------

  const UploadWords: seq<string> :=
    ["upload", "document", "file", "attach", "send document", "add document", "اپ لوڈ", "دستاویز"]
  const AgentWords: seq<string> :=
    ["agent", "assigned", "who is", "who handling", "officer", "ایجنٹ", "افسر"]
  const ShowWords: seq<string> :=
    ["show", "my ticket", "my application", "list", "all ticket", "میری درخواست", "دکھائیں"]
  const LatestWords: seq<string> := ["latest", "recent", "last", "newest", "تازہ ترین", "حالیہ"]
  const PaymentWords: seq<string> := ["payment", "pay", "fee", "paid", "ادائیگی", "فیس"]
  const ProgressWords: seq<string> := ["progress", "processing", "working on", "جاری", "عمل"]
  const CompletedWords: seq<string> := ["completed", "finished", "done", "ready", "مکمل", "ختم"]
  const DeliveryWords: seq<string> := ["delivery", "deliver", "ship", "ڈیلیوری", "ترسیل"]

  const OnboardingWords: seq<string> := ["ticket", "application", "status", "track", "show"]
  const HelpWords: seq<string> := ["help", "what can", "how", "مدد", "کیسے"]

  const TrackingWords: seq<string> :=
    ["track", "status", "application", "ticket", "my application", "my ticket"]
  const GreetingWords: seq<string> := ["hello", "hi", "hey", "salam", "السلام علیکم", "assalam"]
  const IdCardWords: seq<string> := ["id card", "cnic", "شناختی کارڈ", "identity"]
  const PassportWords: seq<string> := ["passport", "پاسپورٹ"]
  const VerificationWords: seq<string> := ["verify", "verification", "تصدیق", "check"]
  const FeeWords: seq<string> := ["fee", "cost", "price", "فیس", "قیمت"]
  const DocumentWords: seq<string> := ["document", "required", "need", "دستاویز"]
  const TrackingTopicWords: seq<string> := ["track", "status", "ٹریک", "حیثیت"]
  const CenterWords: seq<string> := ["center", "office", "location", "مرکز"]

  // ---------------------------------------------------------------------
  // Classification
  // ---------------------------------------------------------------------

  /** The dashboard branches taken when the ticket block is non-blank. */
  datatype DashIntent =
    | Upload | AgentStatus | ShowAll | Latest | PaymentStatus
    | InProgress | Completed | Delivery | Overview

  /** Which reply the resolver gives. */
  datatype Reply =
    | Dashboard(intent: DashIntent)
    | Onboarding
    | Capabilities
    | LoginRedirect
    | Answer(topic: Topic)
    | Fallback

  const DashboardRules: seq<Rule<DashIntent>> := [
    Rule(UploadWords, Upload), Rule(AgentWords, AgentStatus), Rule(ShowWords, ShowAll),
    Rule(LatestWords, Latest), Rule(PaymentWords, PaymentStatus),
    Rule(ProgressWords, InProgress), Rule(CompletedWords, Completed),
    Rule(DeliveryWords, Delivery)]

  const TopicRules: seq<Rule<Reply>> := [
    Rule(GreetingWords, Answer(Greeting)), Rule(IdCardWords, Answer(IdCard)),
    Rule(PassportWords, Answer(Passport)), Rule(VerificationWords, Answer(Verification)),
    Rule(FeeWords, Answer(Fee)), Rule(DocumentWords, Answer(Documents)),
    Rule(TrackingTopicWords, Answer(Tracking)), Rule(CenterWords, Answer(Centers))]

  /** The public part of the resolver: the login redirect (only off the
      dashboard), then the knowledge-base topics, then the default. */
  function PublicReply(q: string, isDashboard: bool): Reply {
    if ContainsAny(q, TrackingWords) && !isDashboard then LoginRedirect
    else FirstMatch(TopicRules, q, Fallback)
  }

  /** A dashboard message whose marker is followed by a non-blank block. */
  predicate HasTicketBlock(message: string) {
    Contains(message, Marker) && TicketSection(message) != ""
  }

  /** `get_rule_based_response` up to the choice of reply. */
  function Classify(message: string, isDashboard: bool): Reply {
    var q := Question(message);
    if isDashboard then
      if Contains(message, Marker) then
        if TicketSection(message) != "" then Dashboard(FirstMatch(DashboardRules, q, Overview))
        else PublicReply(q, true)
      else if ContainsAny(q, OnboardingWords) then Onboarding
      else if ContainsAny(q, HelpWords) then Capabilities
      else PublicReply(q, true)
    else PublicReply(q, false)
  }

  /** The ticket lines the dashboard replies are built from. */
  function Lines(message: string): seq<string> {
    if Contains(message, Marker) then TicketLines(TicketSection(message)) else []
  }

  // ---------------------------------------------------------------------
  // Dashboard replies
  // ---------------------------------------------------------------------

  /** `[t for t in lines if p(t)]` */
  function Select(lines: seq<string>, p: string -> bool): (r: seq<string>)
    ensures |r| <= |lines|
    ensures forall t :: t in r <==> t in lines && p(t)
    ensures r == [] <==> forall i :: 0 <= i < |lines| ==> !p(lines[i])
    decreases |lines|
  {
    if lines == [] then []
    else
      assert forall t :: t in lines <==> t == lines[0] || t in lines[1..];
      (if p(lines[0]) then [lines[0]] else []) + Select(lines[1..], p)
  }

  /** The lines containing `token`. */
  function Having(lines: seq<string>, token: string): (r: seq<string>)
    ensures forall t :: t in r <==> t in lines && Contains(t, token)
    ensures r == [] <==> forall i :: 0 <= i < |lines| ==> !Contains(lines[i], token)
  {
    Select(lines, t => Contains(t, token))
  }

  /** The lines with neither an agent nor a completed status: the tickets
      still waiting for assignment. */
  function Waiting(lines: seq<string>): (r: seq<string>)
    ensures forall t :: t in r <==> t in lines && !Contains(t, "Agent:") && !Contains(t, "COMPLETED")
    ensures r == [] <==> forall i :: 0 <= i < |lines| ==> Contains(lines[i], "Agent:") || Contains(lines[i], "COMPLETED")
  {
    Select(lines, t => !Contains(t, "Agent:") && !Contains(t, "COMPLETED"))
  }

  /** `prefix + t + "\n"` for every line, concatenated. */
  function Bullets(prefix: string, lines: seq<string>): string
    decreases |lines|
  {
    if lines == [] then "" else prefix + lines[0] + "\n" + Bullets(prefix, lines[1..])
  }

  /** The `{i}. {t}\n` lines of `enumerate(lines, first)`. */
  function Enumerate(lines: seq<string>, first: nat): string
    decreases |lines|
  {
    if lines == [] then ""
    else NumberedLine(first, lines[0]) + Enumerate(lines[1..], first + 1)
  }

  function NumberedLine(n: nat, line: string): string {
    NatToString(n) + ". " + line + "\n"
  }

  /** `f"{prefix}{n}{suffix}"` when `n` is positive, nothing otherwise. */
  function CountNote(prefix: string, n: nat, suffix: string): (r: string)
    ensures r == "" <==> n == 0
  {
    if n == 0 then "" else prefix + NatToString(n) + suffix
  }

  function AgentText(lines: seq<string>): string {
    var withAgent := Having(lines, "Agent:");
    var waiting := Waiting(lines);
    if withAgent == [] && waiting == [] then AllProcessedText
    else AssignedBlock(withAgent) + WaitingBlock(waiting, withAgent != [])
  }

  function AssignedBlock(withAgent: seq<string>): string {
    if withAgent == [] then "" else AssignedHeader + Bullets("• ", withAgent) + AssignedFooter
  }

  /** The waiting group, set off by a blank line when the assigned group
      precedes it. */
  function WaitingBlock(waiting: seq<string>, separate: bool): string {
    if waiting == [] then ""
    else (if separate then "\n" else "") + WaitingHeader + Bullets("• ", waiting) + WaitingFooter
  }

  function ShowText(lines: seq<string>): string {
    ShowHeader + Enumerate(lines, 1) + SummaryLine(|lines|) + StatusNotes(lines)
  }

  function SummaryLine(n: nat): string {
    "\n📊 **Summary:** " + NatToString(n) + " total applications"
  }

  /** The in-progress, completed and pending-payment counts, each only when
      positive. */
  function StatusNotes(lines: seq<string>): string {
    CountNote("\n🔄 ", |Having(lines, "IN_PROGRESS")|, " in progress")
    + CountNote("\n✅ ", |Having(lines, "COMPLETED")|, " completed")
    + CountNote("\n💰 ", |Having(lines, "Payment: PENDING")|, " pending payment")
  }

  function LatestText(lines: seq<string>): string {
    var latest := if lines != [] then lines[0] else "No tickets found";
    LatestHeader + latest + LatestFooter
  }

  function PaymentText(lines: seq<string>): string {
    var pending := Having(lines, "Payment: PENDING");
    if pending != [] then PaymentHeader + Bullets("⚠️ ", pending) + PaymentFooter
    else AllPaidText
  }

  function ProgressText(lines: seq<string>): string {
    var running := Having(lines, "IN_PROGRESS");
    if running != [] then ProgressHeader + Bullets("• ", running) + ProgressFooter
    else
      NoProgressText
      + (if Having(lines, "OPEN") != [] then PendingNote
         else if Having(lines, "COMPLETED") != [] then CompletedNote
         else "")
  }

  function CompletedText(lines: seq<string>): string {
    var done := Having(lines, "COMPLETED");
    if done != [] then CompletedHeader + Bullets("• ", done) + CompletedFooter
    else NoCompletedText
  }

  function DeliveryText(lines: seq<string>): string {
    var shipped := Having(lines, "Delivery:");
    if shipped != [] then DeliveryHeader + Bullets("• ", shipped) + DeliveryFooter
    else NoDeliveryText
  }

  function Min(a: int, b: int): int {
    if a <= b then a else b
  }

  function OverviewText(lines: seq<string>): string {
    OverviewHeader + Enumerate(lines[..Min(3, |lines|)], 1) + MoreNote(|lines|) + OverviewFooter
  }

  /** How many lines the overview leaves out, when it leaves any out. */
  function MoreNote(n: nat): (r: string)
    ensures r == "" <==> n <= 3
  {
    if n > 3 then "\n...and " + NatToString(n - 3) + " more\n" else ""
  }

  function DashboardText(intent: DashIntent, lines: seq<string>): (r: string)
    ensures r != ""
  {
    match intent
    case Upload => UploadText
    case AgentStatus => AgentText(lines)
    case ShowAll => ShowText(lines)
    case Latest => LatestText(lines)
    case PaymentStatus => PaymentText(lines)
    case InProgress => ProgressText(lines)
    case Completed => CompletedText(lines)
    case Delivery => DeliveryText(lines)
    case Overview => OverviewText(lines)
  }

  // ---------------------------------------------------------------------
  // Rendering and the request
  // ---------------------------------------------------------------------

  /** The text of a reply; a knowledge-base answer under a language tag
      other than "en" or "ur" fails with that tag as the missing key. */
  function Render(reply: Reply, lines: seq<string>, language: string): (r: Result<string, string>)
    ensures r.Ok? ==> r.value != ""
    ensures r.Err? <==> reply.Answer? && language != "en" && language != "ur"
    ensures r.Err? ==> r.error == language
  {
    match reply
    case Dashboard(intent) => Ok(DashboardText(intent, lines))
    case Onboarding => Ok(OnboardingText)
    case Capabilities => Ok(CapabilitiesText)
    case LoginRedirect => Ok(if language == "ur" then RedirectUr else RedirectEn)
    case Answer(topic) => Lookup(topic, language)
    case Fallback => Ok(if language == "ur" then FallbackUr else FallbackEn)
  }

  /** `get_rule_based_response(message, language, isDashboard)` */
  function RuleBasedResponse(message: string, language: string, isDashboard: bool): Result<string, string> {
    Render(Classify(message, isDashboard), Lines(message), language)
  }

  /** `get_response`: a non-empty answer of the AI stage wins; otherwise the
      rule-based resolver answers. The AI stage is an oracle: `ai` is its
      stripped answer, or `None` when it is disabled or fails. */
  function GetResponse(message: string, language: string, isDashboard: bool, ai: Option<string>): (r: Result<string, string>)
    ensures ai.Some? && ai.value != "" ==> r == Ok(ai.value)
    ensures ai.None? || ai.value == "" ==> r == RuleBasedResponse(message, language, isDashboard)
    ensures r.Ok? ==> r.value != ""
  {
    if ai.Some? && ai.value != "" then Ok(ai.value)
    else RuleBasedResponse(message, language, isDashboard)
  }

  /** The JSON body of a `/chat` request: an absent field is `None`, a
      falsy `isDashboard` is `false`, and the message and language are
      strings when present. A JSON `null` language and a non-string
      message are not represented. */
  datatype ChatRequest = ChatRequest(message: Option<string>, language: Option<string>, isDashboard: bool)

  datatype ChatReply =
    | Answered(response: string, language: string)    // 200
    | BadRequest(error: string)                        // 400
    | ServerError(error: string)                       // 500

  /** The `/chat` handler: a missing or empty message is a 400, and the
      `KeyError` of an unknown language tag is a 500 whose text is the
      quoted key; that happens only when the AI stage gives nothing and
      the rules pick a knowledge answer, the one reply looked up by
      language. */
  function Chat(req: ChatRequest, ai: Option<string>): (r: ChatReply)
    ensures (req.message.None? || req.message.value == "") <==> r == BadRequest("Message is required")
    ensures r.Answered? ==> r.response != "" && r.language == req.language.GetOr("en")
    ensures r.ServerError? ==> r.error == "'" + req.language.GetOr("en") + "'"
    ensures r.ServerError? <==>
      req.message.Some? && req.message.value != "" && (ai.None? || ai.value == "")
      && Classify(req.message.value, req.isDashboard).Answer?
      && req.language.GetOr("en") != "en" && req.language.GetOr("en") != "ur"
  {
    var language := req.language.GetOr("en");
    if req.message.None? || req.message.value == "" then BadRequest("Message is required")
    else
      match GetResponse(req.message.value, language, req.isDashboard, ai)
      case Ok(text) => Answered(text, language)
      case Err(key) => ServerError("'" + key + "'")
  }

  // ---------------------------------------------------------------------
  // Properties
  // ---------------------------------------------------------------------

  /** Both rule tables have pairwise distinct outputs. */
  lemma RuleTablesDistinct()
    ensures DistinctOutputs(DashboardRules, Overview)
    ensures DistinctOutputs(TopicRules, Fallback)
  {
  }

  /** Ticket lines never select the intent: two dashboard messages with the
      same question and any two non-blank ticket blocks get the same reply. */
  lemma IntentIgnoresTicketBlock(q: string, block1: string, block2: string)
    requires !Contains(q, Marker)
    requires PyStrip(Before(block1, Marker)) != "" && PyStrip(Before(block2, Marker)) != ""
    ensures Classify(q + Marker + block1, true) == Classify(q + Marker + block2, true)
    ensures Classify(q + Marker + block1, true).Dashboard?
  {
    QuestionIgnoresTicketBlock(q, block1);
    QuestionIgnoresTicketBlock(q, block2);
  }

  /** Off the dashboard the reply, and so the response, depends on the
      question alone: appending a ticket block changes nothing. */
  lemma PublicIgnoresTicketBlock(q: string, block: string, language: string)
    requires !Contains(q, Marker)
    ensures RuleBasedResponse(q + Marker + block, language, false) == RuleBasedResponse(q, language, false)
  {
    var m := q + Marker + block;
    QuestionIgnoresTicketBlock(q, block);
    assert Before(q, Marker) == q;
    assert Classify(m, false) == Classify(q, false);
    PublicNeverDashboard(q);
    RenderIgnoresLines(Classify(q, false), Lines(m), Lines(q), language);
  }

  /** The public path never gives a dashboard reply. */
  lemma PublicNeverDashboard(message: string)
    ensures !Classify(message, false).Dashboard?
  {
    PublicReplyNotDashboard(Question(message), false);
  }

  lemma PublicReplyNotDashboard(q: string, isDashboard: bool)
    ensures !PublicReply(q, isDashboard).Dashboard?
  {
    if !(ContainsAny(q, TrackingWords) && !isDashboard) {
      match FirstIndex(TopicRules, q)
      case Some(i) => TopicOutputsAreAnswers(i);
      case None =>
    }
  }

  lemma TopicOutputsAreAnswers(i: nat)
    requires i < |TopicRules|
    ensures TopicRules[i].out.Answer?
  {
  }

  /** Only dashboard replies look at the ticket lines. */
  lemma RenderIgnoresLines(reply: Reply, lines1: seq<string>, lines2: seq<string>, language: string)
    requires !reply.Dashboard?
    ensures Render(reply, lines1, language) == Render(reply, lines2, language)
  {
  }

  /** Off the dashboard a tracking word always yields the login redirect,
      before any greeting or topic rule is consulted. */
  lemma TrackingWordRedirects(message: string, language: string)
    requires ContainsAny(Question(message), TrackingWords)
    ensures Classify(message, false) == LoginRedirect
    ensures RuleBasedResponse(message, language, false) == Ok(if language == "ur" then RedirectUr else RedirectEn)
  {
  }

  /** The public topic cascade is first-match-wins in table order. */
  lemma TopicCascade(message: string, i: nat)
    requires i < |TopicRules|
    requires !ContainsAny(Question(message), TrackingWords)
    ensures Classify(message, false) == TopicRules[i].out <==> FirstFiring(TopicRules, Question(message), i)
    ensures Classify(message, false) == Fallback
        <==> forall j :: 0 <= j < |TopicRules| ==> !Fires(TopicRules[j], Question(message))
  {
    RuleTablesDistinct();
    FirstMatchIff(TopicRules, Question(message), Fallback, i);
    FirstMatchDefaultIff(TopicRules, Question(message), Fallback);
  }

  /** The dashboard cascade is first-match-wins in table order, with the
      overview when no rule fires. */
  lemma DashboardCascade(message: string, i: nat)
    requires HasTicketBlock(message) && i < |DashboardRules|
    ensures Classify(message, true) == Dashboard(DashboardRules[i].out)
        <==> FirstFiring(DashboardRules, Question(message), i)
    ensures Classify(message, true) == Dashboard(Overview)
        <==> forall j :: 0 <= j < |DashboardRules| ==> !Fires(DashboardRules[j], Question(message))
  {
    RuleTablesDistinct();
    FirstMatchIff(DashboardRules, Question(message), Overview, i);
    FirstMatchDefaultIff(DashboardRules, Question(message), Overview);
  }

  /** A non-blank ticket block on the dashboard always gets a dashboard
      reply built from at least one line, in any language. */
  lemma TicketBlockAnswered(message: string, language: string)
    requires HasTicketBlock(message)
    ensures Classify(message, true).Dashboard?
    ensures |Lines(message)| >= 1
    ensures RuleBasedResponse(message, language, true).Ok?
  {
    var section := TicketSection(message);
    assert !IsPySpace(section[0]);
  }

  /** The "No tickets found" text of the latest branch is unreachable: the
      reply always shows the first ticket line. */
  lemma LatestShowsFirstLine(message: string)
    requires HasTicketBlock(message)
    ensures LatestText(Lines(message)) == LatestHeader + Lines(message)[0] + LatestFooter
  {
    TicketBlockAnswered(message, "en");
  }

  /** On the dashboard without a marker: onboarding words, then help words,
      then the public rules with the redirect switched off. */
  lemma DashboardWithoutMarker(message: string)
    requires !Contains(message, Marker)
    ensures ContainsAny(Question(message), OnboardingWords) ==> Classify(message, true) == Onboarding
    ensures !ContainsAny(Question(message), OnboardingWords) && ContainsAny(Question(message), HelpWords)
        ==> Classify(message, true) == Capabilities
    ensures !ContainsAny(Question(message), OnboardingWords) && !ContainsAny(Question(message), HelpWords)
        ==> Classify(message, true) == FirstMatch(TopicRules, Question(message), Fallback)
  {
  }

  /** A marker followed by a blank block skips both the ticket branches and
      the onboarding and help branches. */
  lemma BlankBlockFallsThrough(message: string)
    requires Contains(message, Marker) && TicketSection(message) == ""
    ensures Classify(message, true) == FirstMatch(TopicRules, Question(message), Fallback)
  {
  }

  /** The dashboard never redirects to the login page. */
  lemma DashboardNeverRedirects(message: string)
    ensures Classify(message, true) != LoginRedirect
  {
    ClassifyOnDashboard(message);
    TopicsNeverRedirect(Question(message));
  }

  /** On the dashboard the reply is a dashboard reply, onboarding, the
      capabilities, or a knowledge-base topic. */
  lemma ClassifyOnDashboard(message: string)
    ensures var r := Classify(message, true);
            r.Dashboard? || r == Onboarding || r == Capabilities
            || r == FirstMatch(TopicRules, Question(message), Fallback)
  {
  }

  lemma TopicsNeverRedirect(q: string)
    ensures FirstMatch(TopicRules, q, Fallback) != LoginRedirect
  {
    assert forall i :: 0 <= i < |TopicRules| ==> TopicRules[i].out != LoginRedirect;
    FirstMatchAvoids(TopicRules, q, Fallback, LoginRedirect);
  }

  /** When no rule and not the default gives `x`, the first match is not `x`. */
  lemma FirstMatchAvoids<T>(rules: seq<Rule<T>>, q: string, default: T, x: T)
    requires default != x && forall i :: 0 <= i < |rules| ==> rules[i].out != x
    ensures FirstMatch(rules, q, default) != x
  {
  }

  /** The agent reply splits the lines into two disjoint groups; a line is
      in neither exactly when it has no agent and is completed. */
  lemma AgentPartition(lines: seq<string>)
    ensures forall t :: !(t in Having(lines, "Agent:") && t in Waiting(lines))
    ensures forall t :: t in lines ==>
      (t !in Having(lines, "Agent:") && t !in Waiting(lines) <==> !Contains(t, "Agent:") && Contains(t, "COMPLETED"))
  {
  }

  /** The "all processed" text is given when every line is completed
      without an agent. */
  lemma AgentAllProcessed(lines: seq<string>)
    requires forall t :: t in lines ==> !Contains(t, "Agent:") && Contains(t, "COMPLETED")
    ensures AgentText(lines) == AllProcessedText
  {
  }

  /** Otherwise the reply opens with the assigned group, or with the
      waiting group when no line names an agent. */
  lemma AgentGroupsShown(lines: seq<string>, i: nat)
    requires i < |lines| && (Contains(lines[i], "Agent:") || !Contains(lines[i], "COMPLETED"))
    ensures IsPrefix(AssignedHeader, AgentText(lines)) || IsPrefix(WaitingHeader, AgentText(lines))
  {
    var withAgent := Having(lines, "Agent:");
    var waiting := Waiting(lines);
    SomeGroupNonEmpty(lines, i);
    var text := AssignedBlock(withAgent) + WaitingBlock(waiting, withAgent != []);
    assert AgentText(lines) == text;
    BlocksOpenWithHeader(withAgent, waiting);
  }

  lemma SomeGroupNonEmpty(lines: seq<string>, i: nat)
    requires i < |lines| && (Contains(lines[i], "Agent:") || !Contains(lines[i], "COMPLETED"))
    ensures Having(lines, "Agent:") != [] || Waiting(lines) != []
  {
  }

  lemma BlocksOpenWithHeader(withAgent: seq<string>, waiting: seq<string>)
    requires withAgent != [] || waiting != []
    ensures var text := AssignedBlock(withAgent) + WaitingBlock(waiting, withAgent != []);
      IsPrefix(AssignedHeader, text) || IsPrefix(WaitingHeader, text)
  {
    if withAgent != [] {
      PrefixOfConcat(AssignedHeader, Bullets("• ", withAgent), AssignedFooter, WaitingBlock(waiting, true));
    } else {
      PrefixOfConcat(WaitingHeader, Bullets("• ", waiting), WaitingFooter, "");
      assert "" + WaitingBlock(waiting, false) == WaitingHeader + Bullets("• ", waiting) + WaitingFooter;
    }
  }

  lemma PrefixOfConcat(h: string, b: string, f: string, w: string)
    ensures IsPrefix(h, h + b + f + w)
    ensures IsPrefix(h, h + b + f)
  {
    assert (h + b + f + w)[..|h|] == h;
    assert (h + b + f)[..|h|] == h;
  }

  /** Enumerating a list splits at any line: the line at position `i` is
      numbered `first + i`. */
  lemma {:induction false} EnumerateSplit(lines: seq<string>, first: nat, i: nat)
    requires i < |lines|
    ensures Enumerate(lines, first)
         == Enumerate(lines[..i], first) + NumberedLine(first + i, lines[i]) + Enumerate(lines[i + 1..], first + i + 1)
    decreases i
  {
    if i == 0 {
      assert lines[..0] == [];
      assert Enumerate(lines[..0], first) == "";
    } else {
      var rest := lines[1..];
      EnumerateSplit(rest, first + 1, i - 1);
      assert rest[..i - 1] == lines[1..i];
      assert rest[i - 1] == lines[i];
      assert rest[i..] == lines[i + 1..];
      assert lines[..i][1..] == lines[1..i];
      var h := NumberedLine(first, lines[0]);
      var a := Enumerate(lines[1..i], first + 1);
      var b := NumberedLine(first + i, lines[i]);
      var c := Enumerate(lines[i + 1..], first + i + 1);
      assert Enumerate(lines, first) == h + (a + b + c);
      assert Enumerate(lines[..i], first) == h + a;
      Regroup(h, a, b, c, "");
      assert c + "" == c;
    }
  }

  /** The show reply numbers every ticket line 1..n in input order and
      reports the total n. */
  lemma ShowListsEveryLine(lines: seq<string>, i: nat)
    requires i < |lines|
    ensures Contains(ShowText(lines), NumberedLine(i + 1, lines[i]))
    ensures Contains(ShowText(lines), SummaryLine(|lines|))
  {
    var e1 := Enumerate(lines[..i], 1);
    var x := NumberedLine(i + 1, lines[i]);
    var e2 := Enumerate(lines[i + 1..], i + 2);
    var tail := SummaryLine(|lines|) + StatusNotes(lines);
    EnumerateSplit(lines, 1, i);
    assert ShowText(lines) == ShowHeader + (e1 + x + e2) + tail;
    Regroup(ShowHeader, e1, x, e2, tail);
    ContainsInfix(ShowHeader + e1, x, e2 + tail);
    ContainsInfix(ShowHeader + Enumerate(lines, 1), SummaryLine(|lines|), StatusNotes(lines));
  }

  /** A status count is reported exactly when some line carries that
      status. */
  lemma ShowCountsOnlyPresentStatuses(lines: seq<string>, token: string)
    ensures Having(lines, token) == [] <==> forall t :: t in lines ==> !Contains(t, token)
  {
    if Having(lines, token) != [] {
      assert Having(lines, token)[0] in Having(lines, token);
    }
  }

  /** The overview numbers the first three lines and mentions how many more
      there are only when there are more. */
  lemma OverviewShowsFirstThree(lines: seq<string>, i: nat)
    requires i < |lines| && i < 3
    ensures Contains(OverviewText(lines), NumberedLine(i + 1, lines[i]))
  {
    var shown := lines[..Min(3, |lines|)];
    EnumerateSplit(shown, 1, i);
    assert shown[i] == lines[i];
    ContainsMiddle(OverviewHeader, Enumerate(shown, 1), NumberedLine(i + 1, lines[i]),
      Enumerate(shown[..i], 1), Enumerate(shown[i + 1..], i + 2), MoreNote(|lines|), OverviewFooter);
  }

  /** A short question with no spaces at its ends and no capitals is
      matched as written. */
  lemma PlainQuestion(s: string)
    requires 0 < |s| < |Marker|
    requires !IsPySpace(s[0]) && !IsPySpace(s[|s| - 1])
    requires forall i :: 0 <= i < |s| ==> !('A' <= s[i] <= 'Z')
    ensures Question(s) == s
  {
    assert Before(s, Marker) == s;
    TrimUnchanged(s, IsPySpace);
    LowerUnchanged(s);
  }

  /** Off the dashboard, with no tracking word, the first topic rule that
      fires gives the reply. */
  lemma PublicTopic(message: string, i: nat)
    requires !ContainsAny(Question(message), TrackingWords)
    requires FirstFiring(TopicRules, Question(message), i)
    ensures Classify(message, false) == TopicRules[i].out
  {
    var k := FirstIndex(TopicRules, Question(message)).value;
    FirstFiringUnique(TopicRules, Question(message), i, k);
  }

  /** Substring matching is not word matching: "which" contains "hi" and
      is answered with the greeting. */
  lemma WhichIsAGreeting()
    ensures Classify("which", false) == Answer(Greeting)
  {
    PlainQuestion("which");
    WhichMatches();
    PublicTopic("which", 0);
  }

  lemma WhichMatches()
    ensures !ContainsAny("which", TrackingWords)
    ensures FirstFiring(TopicRules, "which", 0)
  {
    MissesAll("which", TrackingWords);
    WhichGreets();
  }

  lemma WhichGreets()
    ensures Fires(TopicRules[0], "which")
  {
    ContainsInfix("w", "hi", "ch");
    assert GreetingWords[1] == "hi";
  }

  /** The Urdu tracking words are not tracking keywords of the redirect,
      so the tracking topic is reachable on the public chatbot. */
  lemma UrduTrackingReachesTopic()
    ensures Classify("ٹریک", false) == Answer(Tracking)
  {
    PlainQuestion("ٹریک");
    UrduTrackingMatches();
    PublicTopic("ٹریک", 6);
  }

  lemma UrduTrackingMatches()
    ensures !ContainsAny("ٹریک", TrackingWords)
    ensures FirstFiring(TopicRules, "ٹریک", 6)
  {
    var s := "ٹریک";
    UrduTrackingMissesEarlierRules();
    ContainsInfix("", s, "");
    assert "" + s + "" == s;
    assert TrackingTopicWords[2] == s;
    assert Fires(TopicRules[6], s);
  }

  lemma UrduTrackingMissesEarlierRules()
    ensures !ContainsAny("ٹریک", TrackingWords)
    ensures forall j :: 0 <= j < 6 ==> !Fires(TopicRules[j], "ٹریک")
  {
    UrduTrackingMissesFirstRules();
    UrduTrackingMissesLaterRules();
  }

  lemma UrduTrackingMissesFirstRules()
    ensures !ContainsAny("ٹریک", TrackingWords)
    ensures !ContainsAny("ٹریک", GreetingWords) && !ContainsAny("ٹریک", IdCardWords)
    ensures !ContainsAny("ٹریک", PassportWords)
  {
    var s := "ٹریک";
    MissesAll(s, TrackingWords);
    MissesAll(s, GreetingWords);
    MissesAll(s, IdCardWords);
    MissesAll(s, PassportWords);
  }

  lemma UrduTrackingMissesLaterRules()
    ensures !ContainsAny("ٹریک", VerificationWords)
    ensures !ContainsAny("ٹریک", FeeWords) && !ContainsAny("ٹریک", DocumentWords)
  {
    var s := "ٹریک";
    MissesAll(s, VerificationWords);
    MissesAll(s, FeeWords);
    MissesAll(s, DocumentWords);
  }

  // ---------------------------------------------------------------------
  // Reply texts, verbatim
  // ---------------------------------------------------------------------

  const UploadText: string :=
    "📤 **How to Upload Documents:**\n" +
    "\n" +
    "1️⃣ Go to 'My Tickets' section on this page\n" +
    "2️⃣ Find your ticket card\n" +
    "3️⃣ Look for the 'Upload Document' button at the bottom\n" +
    "4️⃣ Click it and select your file\n" +
    "5️⃣ Supported: PDF, JPG, PNG, DOC (Max 5MB)\n" +
    "\n" +
    "✅ **Required Documents:**\n" +
    "• CNIC copy (front & back)\n" +
    "• Photos (passport size)\n" +
    "• Birth certificate\n" +
    "• Previous documents (if renewal)\n" +
    "\n" +
    "💡 Upload documents as soon as possible to speed up processin" +
    "g!"
  const AssignedHeader: string :=
    "👤 **Assigned Agents:**\n" +
    "\n"
  const AssignedFooter: string :=
    "\n" +
    "✅ These tickets are being handled by our agents.\n"
  const WaitingHeader: string :=
    "⏳ **Waiting for Assignment:**\n" +
    "\n"
  const WaitingFooter: string :=
    "\n" +
    "⏱️ These will be assigned to an agent soon."
  const AllProcessedText: string :=
    "✅ All your tickets have been processed.\n" +
    "\n" +
    "Completed tickets don't require agent assignment."
  const ShowHeader: string :=
    "📋 **Your Applications:**\n" +
    "\n"
  const LatestHeader: string :=
    "🎫 **Your Latest Application:**\n" +
    "\n"
  const LatestFooter: string :=
    "\n" +
    "\n" +
    "💡 This is your most recent request."
  const PaymentHeader: string :=
    "💳 **Payment Status:**\n" +
    "\n"
  const PaymentFooter: string :=
    "\n" +
    "📌 Please complete payment to proceed with processing."
  const AllPaidText: string :=
    "✅ **All Payments Completed!**\n" +
    "\n" +
    "You have no pending payments."
  const ProgressHeader: string :=
    "🔄 **Applications Being Processed:**\n" +
    "\n"
  const ProgressFooter: string :=
    "\n" +
    "⏱️ Your documents are being processed by our team."
  const NoProgressText: string :=
    "📭 No applications are currently in progress.\n" +
    "\n"
  const PendingNote: string := "🔔 You have pending applications waiting for assignment."
  const CompletedNote: string := "✅ Your recent applications are completed!"
  const CompletedHeader: string :=
    "✅ **Completed Applications:**\n" +
    "\n"
  const CompletedFooter: string :=
    "\n" +
    "🎉 These services are ready for collection/delivery!"
  const NoCompletedText: string :=
    "⏳ No completed applications yet.\n" +
    "\n" +
    "Your requests are still being processed."
  const DeliveryHeader: string :=
    "🚚 **Delivery Status:**\n" +
    "\n"
  const DeliveryFooter: string :=
    "\n" +
    "📦 Check 'My Tickets' section for delivery address details."
  const NoDeliveryText: string :=
    "📮 No delivery information available.\n" +
    "\n" +
    "Your applications might not require delivery or are not at t" +
    "hat stage yet."
  const OverviewHeader: string :=
    "📋 **Your Applications Overview:**\n" +
    "\n"
  const OverviewFooter: string :=
    "\n" +
    "💡 **Ask me about:**\n" +
    "• Latest status\n" +
    "• Payment details\n" +
    "• Document upload\n" +
    "• Delivery status"
  const OnboardingText: string :=
    "📭 **No Applications Yet**\n" +
    "\n" +
    "You haven't created any service requests.\n" +
    "\n" +
    "✨ **Get Started:**\n" +
    "1. Use 'Create New Service Request' form above\n" +
    "2. Select a service (ID Card, Passport, etc.)\n" +
    "3. Choose priority (Normal/Urgent)\n" +
    "4. Submit your request\n" +
    "\n" +
    "🎯 I'll help you track it once created!"
  const CapabilitiesText: string :=
    "🤖 **I can help you with:**\n" +
    "\n" +
    "📊 Check application status\n" +
    "💳 View payment details\n" +
    "📤 Guide document upload\n" +
    "🚚 Track delivery\n" +
    "👤 Check agent assignment\n" +
    "⏱️ Processing updates\n" +
    "\n" +
    "💬 **Try asking:**\n" +
    "• 'Show my tickets'\n" +
    "• 'What's my latest status?'\n" +
    "• 'Any pending payments?'\n" +
    "• 'How to upload documents?'"
  const RedirectEn: string :=
    "🔐 To track your applications:\n" +
    "\n" +
    "1️⃣ Login to your account\n" +
    "2️⃣ Go to your dashboard\n" +
    "3️⃣ View all tickets in 'My Tickets' section\n" +
    "\n" +
    "🔒 For security reasons, personal application details are onl" +
    "y available after login."
  const RedirectUr: string :=
    "🔐 اپنی درخواستوں کو ٹریک کرنے کے لیے:\n" +
    "\n" +
    "1️⃣ اپنے اکاؤنٹ میں لاگ ان کریں\n" +
    "2️⃣ اپنے ڈیش بورڈ پر جائیں\n" +
    "3️⃣ 'My Tickets' سیکشن میں تمام درخواستیں دیکھیں\n" +
    "\n" +
    "🔒 سیکیورٹی کی وجہ سے، ذاتی درخواست کی تفصیلات صرف لاگ ان کے " +
    "بعد دستیاب ہیں۔"
  const FallbackEn: string :=
    "I'm sorry, I didn't understand that. Could you rephrase?\n" +
    "\n" +
    "You can ask about:\n" +
    "- ID Card application\n" +
    "- Passport services\n" +
    "- Fees and charges\n" +
    "- Required documents\n" +
    "- Application tracking"
  const FallbackUr: string :=
    "معذرت، میں یہ سمجھ نہیں سکا۔ کیا آپ یہ دوبارہ پوچھ سکتے ہیں؟" +
    "\n" +
    "\n" +
    "آپ پوچھ سکتے ہیں:\n" +
    "- شناختی کارڈ کے بارے میں\n" +
    "- پاسپورٹ کے بارے میں\n" +
    "- فیس کے بارے میں\n" +
    "- دستاویزات کے بارے میں"
}
