/** The rule-based assistant of the AI endpoints: the project report of
    `generate_report` and the keyword-driven replies of `chat_with_ai`.
    Both read one snapshot of the store. Texts are kept as the values the
    f-strings interpolate, percentages as exact ratios, and the message ids
    and clock readings are parameters. */
module Insight {
  import opened Seqs
  import opened Text
  import opened Entities
  import opened Store
  import opened Ranking

  // ---------------------------------------------------------------------
  // Counts and ratios
  // ---------------------------------------------------------------------

  /** `part / whole * 100 if whole else 0`, exactly. */
  function Percentage(part: int, whole: int): (r: real)
    ensures whole != 0 ==> r * (whole as real) == (part as real) * 100.0
    ensures whole == 0 ==> r == 0.0
  {
    if whole != 0 then (part as real) / (whole as real) * 100.0 else 0.0
  }

  /** A share of a positive whole lies between 0 and 100, and is 100
      exactly when the part is the whole. */
  lemma PercentageBounds(part: int, whole: int)
    requires 0 <= part <= whole
    ensures 0.0 <= Percentage(part, whole) <= 100.0
    ensures Percentage(part, whole) == 100.0 <==> whole > 0 && part == whole
  {
    if whole > 0 {
      var r := Percentage(part, whole);
      var w := whole as real;
      assert r * w == (part as real) * 100.0;
      assert (part as real) * 100.0 <= w * 100.0;
    }
  }

  predicate Done(t: Task) { t.status == "done" }
  predicate InProgress(t: Task) { t.status == "in-progress" }
  predicate Pending(t: Task) { t.status == "todo" || t.status == "backlog" }
  predicate Counted(t: Task) { Done(t) || InProgress(t) || Pending(t) }
  predicate DoneOrInProgress(t: Task) { Done(t) || InProgress(t) }

  /** The completed, in-progress and pending counts never add up to more
      than the number of tasks: a task has one status. */
  lemma StatusCountsBounded(tasks: seq<Task>)
    ensures |Filter(tasks, Done)| + |Filter(tasks, InProgress)| + |Filter(tasks, Pending)| <= |tasks|
  {
    FilterDisjointCounts(tasks, Done, InProgress, DoneOrInProgress);
    FilterDisjointCounts(tasks, DoneOrInProgress, Pending, Counted);
  }

  // ---------------------------------------------------------------------
  // The report
  // ---------------------------------------------------------------------

  /** A requirement still open for the report's overview. */
  predicate Active(q: Requirement) { q.status != "done" }

  /** A requirement the report lists among the next focus items. */
  predicate Upcoming(q: Requirement) { q.status == "defined" || q.status == "in-progress" }

  /** One report section: its title and what its content interpolates. */
  datatype Section =
    | ProgressOverview(totalTasks: nat, completedTasks: nat, activeRequirements: nat)
    | RiskAndMitigation(overallRiskScore: real, completionProbability: real, highRiskTasks: int)
    | NextFocusItems(items: seq<Requirement>)

  function Title(s: Section): string {
    match s
    case ProgressOverview(_, _, _) => "Progress Overview"
    case RiskAndMitigation(_, _, _) => "Risk & Mitigation"
    case NextFocusItems(_) => "Next Focus Items"
  }

  /** The report; `summary` interpolates the project name, the completion
      rate and the two task counts. */
  datatype Report = Report(
    projectId: string, projectName: string, completionRate: real,
    totalTasks: nat, completedTasks: nat, sections: seq<Section>,
    generatedAt: string)

  /** The first `n` elements, or all of them when there are fewer. */
  function Take<T>(s: seq<T>, n: nat): (r: seq<T>)
    ensures r <= s && |r| == if |s| < n then |s| else n
  {
    if |s| <= n then s else s[..n]
  }

  /** The requirements the report lists among the next focus items: the
      first five upcoming ones. */
  function FocusItems(requirements: seq<Requirement>): (r: seq<Requirement>)
    ensures |r| <= 5 && r <= Filter(requirements, Upcoming)
    ensures |r| < 5 ==> r == Filter(requirements, Upcoming)
    ensures r == [] <==> forall q :: q in requirements ==> !Upcoming(q)
  {
    var upcoming := Filter(requirements, Upcoming);
    FilterEmptyIff(requirements, Upcoming);
    Take(upcoming, 5)
  }

  /** The sections, in the order the report appends them. */
  function Sections(tasks: seq<Task>, requirements: seq<Requirement>, risk: Option<RiskSnapshot>): (r: seq<Section>)
    ensures 1 <= |r| <= 3
    ensures r[0] == ProgressOverview(|tasks|, |Filter(tasks, Done)|, |Filter(requirements, Active)|)
  {
    Assemble(ProgressOverview(|tasks|, |Filter(tasks, Done)|, |Filter(requirements, Active)|), risk, FocusItems(requirements))
  }

  /** The overview, then a risk section for a snapshot, then the focus
      items when there are any. */
  function Assemble(overview: Section, risk: Option<RiskSnapshot>, items: seq<Requirement>): (r: seq<Section>)
    ensures 1 <= |r| <= 3 && r[0] == overview
  {
    var withRisk :=
      if risk.Some? then
        [overview, RiskAndMitigation(risk.value.overallRiskScore, risk.value.completionProbability, risk.value.highRiskTasks)]
      else [overview];
    if items != [] then withRisk + [NextFocusItems(items)] else withRisk
  }

  /** Where each section lands in an assembled list. */
  lemma AssembleOrder(overview: Section, risk: Option<RiskSnapshot>, items: seq<Requirement>)
    requires overview.ProgressOverview?
    ensures var r := Assemble(overview, risk, items);
            && (forall k :: 0 < k < |r| ==> !r[k].ProgressOverview?)
            && (risk.Some? <==> 2 <= |r| && r[1].RiskAndMitigation?)
            && (forall k :: 0 <= k < |r| && r[k].RiskAndMitigation? ==> k == 1)
            && (risk.Some? ==> r[1] == RiskAndMitigation(risk.value.overallRiskScore, risk.value.completionProbability, risk.value.highRiskTasks))
            && (items != [] <==> r[|r| - 1].NextFocusItems?)
            && (forall k :: 0 <= k < |r| - 1 ==> !r[k].NextFocusItems?)
            && (r[|r| - 1].NextFocusItems? ==> r[|r| - 1].items == items)
  {
  }

  /** The overview comes first and only there; the risk section comes
      second exactly when the project has a risk snapshot; the focus items
      come last exactly when some requirement is upcoming, and list the
      first five upcoming ones in order. */
  lemma SectionsOrder(tasks: seq<Task>, requirements: seq<Requirement>, risk: Option<RiskSnapshot>)
    ensures var r := Sections(tasks, requirements, risk);
            && (forall k :: 0 < k < |r| ==> !r[k].ProgressOverview?)
            && (risk.Some? <==> 2 <= |r| && r[1].RiskAndMitigation?)
            && (forall k :: 0 <= k < |r| && r[k].RiskAndMitigation? ==> k == 1)
            && (risk.Some? ==> r[1] == RiskAndMitigation(risk.value.overallRiskScore, risk.value.completionProbability, risk.value.highRiskTasks))
            && ((exists q :: q in requirements && Upcoming(q)) <==> r[|r| - 1].NextFocusItems?)
            && (forall k :: 0 <= k < |r| - 1 ==> !r[k].NextFocusItems?)
            && (r[|r| - 1].NextFocusItems? ==> r[|r| - 1].items == FocusItems(requirements) != [])
  {
    var items := FocusItems(requirements);
    AssembleOrder(ProgressOverview(|tasks|, |Filter(tasks, Done)|, |Filter(requirements, Active)|), risk, items);
    if items != [] {
      assert items[0] in Filter(requirements, Upcoming);
    }
  }

  /** `generate_report` for `projectId`, on the store contents `s`, at
      time `now`. */
  function GenerateReport(s: Seed, projectId: string, now: string): (r: Result<Report, HttpError>)
    ensures r.Err? <==> forall p :: p in s.projects ==> p.id != projectId
    ensures r.Err? ==> r.error == NotFound
    ensures r.Ok? ==>
              var tasks := ProjectTasks(s.tasks, projectId);
              && r.value.projectId == projectId
              && r.value.projectName == ProjectById(s.projects, projectId).value.name
              && r.value.generatedAt == now
              && r.value.totalTasks == |tasks|
              && r.value.completedTasks == |Filter(tasks, Done)|
              && r.value.completionRate == Percentage(|Filter(tasks, Done)|, |tasks|)
              && r.value.sections == Sections(tasks, ProjectRequirements(s.requirements, projectId), RiskFor(s.risk, projectId))
  {
    match ProjectById(s.projects, projectId)
    case None => Err(NotFound)
    case Some(project) =>
      var tasks := ProjectTasks(s.tasks, projectId);
      var requirements := ProjectRequirements(s.requirements, projectId);
      var completed := |Filter(tasks, Done)|;
      Ok(Report(project.id, project.name, Percentage(completed, |tasks|), |tasks|, completed,
                Sections(tasks, requirements, RiskFor(s.risk, projectId)), now))
  }

  /** The completion rate of a report is a percentage, 100 exactly when
      every task of the project is done (and there is one). */
  lemma ReportRateBounds(s: Seed, projectId: string, now: string)
    requires GenerateReport(s, projectId, now).Ok?
    ensures var report := GenerateReport(s, projectId, now).value;
            && 0.0 <= report.completionRate <= 100.0
            && (report.completionRate == 100.0 <==> report.totalTasks > 0 && report.completedTasks == report.totalTasks)
  {
    var tasks := ProjectTasks(s.tasks, projectId);
    PercentageBounds(|Filter(tasks, Done)|, |tasks|);
  }

  // ---------------------------------------------------------------------
  // Chat: the intent of a message
  // ---------------------------------------------------------------------

  datatype Intent = AskRequirements | AskRequirementDetail | AskSprint | AskTeam | AskRisk | AskOverview

  /** The `if/elif` chain on the lowercased message. */
  function IntentOf(lower: string): Intent {
    if Contains(lower, "요구사항") || Contains(lower, "requirement") then AskRequirements
    else if Contains(lower, "req-") || Contains(lower, "카카오") then AskRequirementDetail
    else if Contains(lower, "스프린트") || Contains(lower, "sprint") || Contains(lower, "진행") then AskSprint
    else if Contains(lower, "팀") || Contains(lower, "멤버") || Contains(lower, "담당자") then AskTeam
    else if Contains(lower, "리스크") || Contains(lower, "위험") then AskRisk
    else AskOverview
  }

  /** A rule of the dispatch: any of its keywords selects its intent. */
  datatype Rule = Rule(keywords: seq<string>, intent: Intent)

  /** The rules in the order they are tried. */
  const Rules: seq<Rule> := [
    Rule(["요구사항", "requirement"], AskRequirements),
    Rule(["req-", "카카오"], AskRequirementDetail),
    Rule(["스프린트", "sprint", "진행"], AskSprint),
    Rule(["팀", "멤버", "담당자"], AskTeam),
    Rule(["리스크", "위험"], AskRisk)
  ]

  predicate Fires(lower: string, rule: Rule) {
    exists k :: 0 <= k < |rule.keywords| && Contains(lower, rule.keywords[k])
  }

  lemma FiresTwo(lower: string, a: string, b: string)
    ensures Fires(lower, Rule([a, b], AskOverview)) <==> Contains(lower, a) || Contains(lower, b)
  {
    var ks := [a, b];
    if Contains(lower, a) { assert Contains(lower, ks[0]); }
    if Contains(lower, b) { assert Contains(lower, ks[1]); }
  }

  lemma FiresThree(lower: string, a: string, b: string, c: string)
    ensures Fires(lower, Rule([a, b, c], AskOverview)) <==> Contains(lower, a) || Contains(lower, b) || Contains(lower, c)
  {
    var ks := [a, b, c];
    if Contains(lower, a) { assert Contains(lower, ks[0]); }
    if Contains(lower, b) { assert Contains(lower, ks[1]); }
    if Contains(lower, c) { assert Contains(lower, ks[2]); }
  }

  /** The `if/elif` chain reads the rules in order. */
  lemma IntentByRules(lower: string)
    ensures IntentOf(lower) == if Fires(lower, Rules[0]) then Rules[0].intent
                               else if Fires(lower, Rules[1]) then Rules[1].intent
                               else if Fires(lower, Rules[2]) then Rules[2].intent
                               else if Fires(lower, Rules[3]) then Rules[3].intent
                               else if Fires(lower, Rules[4]) then Rules[4].intent
                               else AskOverview
  {
    FiresTwo(lower, "요구사항", "requirement");
    FiresTwo(lower, "req-", "카카오");
    FiresThree(lower, "스프린트", "sprint", "진행");
    FiresThree(lower, "팀", "멤버", "담당자");
    FiresTwo(lower, "리스크", "위험");
    assert Fires(lower, Rules[0]) == Fires(lower, Rule(["요구사항", "requirement"], AskOverview));
    assert Fires(lower, Rules[1]) == Fires(lower, Rule(["req-", "카카오"], AskOverview));
    assert Fires(lower, Rules[2]) == Fires(lower, Rule(["스프린트", "sprint", "진행"], AskOverview));
    assert Fires(lower, Rules[3]) == Fires(lower, Rule(["팀", "멤버", "담당자"], AskOverview));
    assert Fires(lower, Rules[4]) == Fires(lower, Rule(["리스크", "위험"], AskOverview));
  }

  /** The intent is that of the first rule with a keyword in the message,
      and the overview when none has. */
  lemma IntentIsFirstFiringRule(lower: string)
    ensures IntentOf(lower) == match FirstSuch(Rules, (rule: Rule) => Fires(lower, rule))
                               case None => AskOverview
                               case Some(rule) => rule.intent
  {
    IntentByRules(lower);
    var fire := (rule: Rule) => Fires(lower, rule);
    if fire(Rules[0]) {
      FirstSuchAt(Rules, fire, 0);
    } else if fire(Rules[1]) {
      FirstSuchAt(Rules, fire, 1);
    } else if fire(Rules[2]) {
      FirstSuchAt(Rules, fire, 2);
    } else if fire(Rules[3]) {
      FirstSuchAt(Rules, fire, 3);
    } else if fire(Rules[4]) {
      FirstSuchAt(Rules, fire, 4);
    }
  }

  // ---------------------------------------------------------------------
  // Chat: the replies
  // ---------------------------------------------------------------------

  datatype Marker = Fire | Yellow | Green

  /** The fixed workloads handed out by member position. */
  const Workloads: seq<int> := [82, 65, 58, 55, 45, 72, 48]

  function MarkerFor(workload: int): (m: Marker)
    ensures m == Fire <==> workload > 80
    ensures m == Yellow <==> 60 < workload <= 80
    ensures m == Green <==> workload <= 60
  {
    if workload > 80 then Fire else if workload > 60 then Yellow else Green
  }

  datatype WorkloadLine = WorkloadLine(member: string, workload: int, marker: Marker)

  /** One line per member, in member order. */
  function WorkloadLines(members: seq<string>): (r: seq<WorkloadLine>)
    ensures |r| == |members|
    ensures forall i :: 0 <= i < |r| ==> r[i].member == members[i] && r[i].workload == Workloads[i % 7]
  {
    seq(|members|, i requires 0 <= i < |members| =>
      WorkloadLine(members[i], Workloads[i % 7], MarkerFor(Workloads[i % 7])))
  }

  /** The marker depends on the position only: 🔥 for the 1st, 8th, ...
      member, 🟡 for the 2nd and 6th of every seven, 🟢 otherwise. */
  lemma MarkersByPosition(members: seq<string>, i: nat)
    requires i < |members|
    ensures WorkloadLines(members)[i].marker == Fire <==> i % 7 == 0
    ensures WorkloadLines(members)[i].marker == Yellow <==> i % 7 == 1 || i % 7 == 5
    ensures WorkloadLines(members)[i].marker == Green <==> i % 7 in {2, 3, 4, 6}
  {
    var w := WorkloadLines(members)[i];
    assert w.marker == MarkerFor(Workloads[i % 7]);
    var k := i % 7;
    assert 0 <= k < 7;
    if k == 0 { assert Workloads[k] == 82; }
    else if k == 1 { assert Workloads[k] == 65; }
    else if k == 2 { assert Workloads[k] == 58; }
    else if k == 3 { assert Workloads[k] == 55; }
    else if k == 4 { assert Workloads[k] == 45; }
    else if k == 5 { assert Workloads[k] == 72; }
    else { assert Workloads[k] == 48; }
  }

  /** What an assistant message says, as the values its text
      interpolates. */
  datatype Reply =
    | LatestRequirements(requirements: seq<Requirement>)
    | RequirementDetail(requirement: Requirement, relatedTasks: nat, completedRelated: nat)
    | SprintProgress(name: string, progress: real, startDate: Option<string>, endDate: Option<string>, goal: string)
    | NoSprint
    | TeamWorkload(lines: seq<WorkloadLine>)
    | NoTeam
    | RiskSummary(overallRiskScore: real, completionProbability: real)
    | NoRisk
    | ProjectOverview(projectName: string, totalTasks: nat, completedTasks: nat, inProgressTasks: nat, pendingTasks: nat)

  /** The `data` attached to an assistant message. */
  datatype Payload =
    | RequirementsData(requirements: seq<Requirement>)
    | TasksData(tasks: seq<Task>)
    | RiskData(risk: RiskSnapshot)
    | CountsData(completed: nat, inProgress: nat, pending: nat)

  /** The `type` of a message. */
  datatype Speaker = FromUser | FromAssistant

  datatype Content = Said(text: string) | Answered(reply: Reply)

  datatype ChatMessage = ChatMessage(
    id: string, speaker: Speaker, content: Content, timestamp: string,
    suggestions: Option<seq<string>>, data: Option<Payload>)

  /** `_build_message`: an assistant message; no suggestions become the
      empty list. */
  function BuildMessage(reply: Reply, suggestions: Option<seq<string>>, data: Option<Payload>,
                        id: string, now: string): (m: ChatMessage)
    ensures m.speaker == FromAssistant && m.content == Answered(reply)
    ensures m.suggestions.Some? && (suggestions.Some? ==> m.suggestions == suggestions)
    ensures m.suggestions.value == [] <==> suggestions.None? || suggestions.value == []
    ensures m.id == id && m.timestamp == now && m.data == data
  {
    ChatMessage(id, FromAssistant, Answered(reply), now,
                Some(if suggestions.Some? && suggestions.value != [] then suggestions.value else []), data)
  }

  const RequirementSuggestions: seq<string> := ["이번 스프린트 진행률은?", "고위험 작업 알려줘", "팀원별 작업 현황"]
  const DetailSuggestions: seq<string> := ["다른 요구사항 상태는?", "김AI개발님 업무 부하 확인", "테스트 일정 알려줘"]
  const SprintSuggestions: seq<string> := ["팀원별 작업 현황", "위험 요소는?", "이번 주 마감 작업"]
  const TeamSuggestions: seq<string> := ["업무 재분배 제안", "김AI개발님 작업 상세", "팀 생산성 분석"]
  const RiskSuggestions: seq<string> := ["고위험 작업 목록", "리스크 완화 전략", "예상 완료일"]
  const OverviewSuggestions: seq<string> := ["요구사항 현황 알려줘", "스프린트 진행률은?", "위험 요소 요약"]

  /** The lowercased requirement code occurs in the message. */
  predicate CodeMentioned(lower: string, q: Requirement) {
    Contains(lower, Lower(q.reqIdString))
  }

  predicate KakaoTitled(q: Requirement) {
    Contains(q.title, "카카오")
  }

  /** The requirement a detail question is about: the first one whose
      code the message mentions, else the first titled with 카카오. */
  function TargetRequirement(requirements: seq<Requirement>, lower: string): (r: Option<Requirement>)
    ensures r.Some? && CodeMentioned(lower, r.value) ==> IsFirst(requirements, q => CodeMentioned(lower, q), r.value)
    ensures r.Some? && !CodeMentioned(lower, r.value) ==>
              (forall q :: q in requirements ==> !CodeMentioned(lower, q))
              && IsFirst(requirements, KakaoTitled, r.value)
    ensures r.None? <==> forall q :: q in requirements ==> !CodeMentioned(lower, q) && !KakaoTitled(q)
  {
    match FirstSuch(requirements, q => CodeMentioned(lower, q))
    case Some(q) => Some(q)
    case None => FirstSuch(requirements, KakaoTitled)
  }

  /** The tasks of a requirement: those whose `requirementId` is its code. */
  function RelatedTasks(tasks: seq<Task>, target: Requirement): (r: seq<Task>)
    ensures forall t :: t in r <==> t in tasks && t.requirementId == Some(target.reqIdString)
    ensures forall t :: multiset(r)[t] == if t.requirementId == Some(target.reqIdString) then multiset(tasks)[t] else 0
    ensures IsSubsequence(r, tasks)
  {
    Filter(tasks, (t: Task) => t.requirementId == Some(target.reqIdString))
  }

  /** Fresh message ids and clock readings, in the order they are drawn. */
  datatype Stamps = Stamps(replyId: string, replyTime: string, echoId: string, echoTime: string)

  /** The assistant's message for one intent, or none. */
  function Answer(projectName: string, tasks: seq<Task>, requirements: seq<Requirement>,
                  sprints: seq<Sprint>, risk: Option<RiskSnapshot>, lower: string,
                  id: string, now: string): (r: Option<ChatMessage>)
    ensures r.None? <==> IntentOf(lower) == AskRequirementDetail && TargetRequirement(requirements, lower).None?
    ensures r.Some? ==> r.value.speaker == FromAssistant && r.value.id == id && r.value.timestamp == now
  {
    match IntentOf(lower)
    case AskRequirements =>
      var latest := Latest(requirements);
      Some(BuildMessage(LatestRequirements(latest), Some(RequirementSuggestions), Some(RequirementsData(latest)), id, now))
    case AskRequirementDetail =>
      (match TargetRequirement(requirements, lower)
       case None => None
       case Some(target) =>
         var related := RelatedTasks(tasks, target);
         Some(BuildMessage(RequirementDetail(target, |related|, |Filter(related, Done)|),
                           Some(DetailSuggestions), Some(TasksData(related)), id, now)))
    case AskSprint =>
      var reply :=
        if sprints == [] then NoSprint
        else
          var current := sprints[|sprints| - 1];
          SprintProgress(current.name, Percentage(current.completed, current.capacity),
                         current.startDate, current.endDate, current.goal);
      Some(BuildMessage(reply, Some(SprintSuggestions), None, id, now))
    case AskTeam =>
      var members := TeamMembers(tasks);
      if members != [] then
        Some(BuildMessage(TeamWorkload(WorkloadLines(members)), Some(TeamSuggestions), None, id, now))
      else
        Some(BuildMessage(NoTeam, None, None, id, now))
    case AskRisk =>
      if risk.Some? then
        Some(BuildMessage(RiskSummary(risk.value.overallRiskScore, risk.value.completionProbability),
                          Some(RiskSuggestions), Some(RiskData(risk.value)), id, now))
      else
        Some(BuildMessage(NoRisk, None, None, id, now))
    case AskOverview =>
      var completed := |Filter(tasks, Done)|;
      var inProgress := |Filter(tasks, InProgress)|;
      var pending := |Filter(tasks, Pending)|;
      Some(BuildMessage(ProjectOverview(projectName, |tasks|, completed, inProgress, pending),
                        Some(OverviewSuggestions), Some(CountsData(completed, inProgress, pending)), id, now))
  }

  /** `chat_with_ai` for `projectId` and `message`, on the store contents
      `s`: the user's message echoed first, then the assistant's answer if
      there is one. */
  function Chat(s: Seed, projectId: string, message: string, stamps: Stamps): (r: Result<seq<ChatMessage>, HttpError>)
    ensures r.Err? <==> forall p :: p in s.projects ==> p.id != projectId
    ensures r.Err? ==> r.error == NotFound
    ensures r.Ok? ==>
              var answer := ProjectAnswer(s, ProjectById(s.projects, projectId).value, message, stamps);
              && 1 <= |r.value| <= 2
              && r.value[0] == ChatMessage(stamps.echoId, FromUser, Said(message), stamps.echoTime, None, None)
              && (|r.value| == 2 <==> answer.Some?)
              && (|r.value| == 1 <==> answer.None?)
              && (answer.Some? ==> r.value[1] == answer.value)
  {
    match ProjectById(s.projects, projectId)
    case None => Err(NotFound)
    case Some(project) =>
      var answer := ProjectAnswer(s, project, message, stamps);
      var echo := ChatMessage(stamps.echoId, FromUser, Said(message), stamps.echoTime, None, None);
      Ok([echo] + if answer.Some? then [answer.value] else [])
  }

  /** The answer to `message` about `project`, from the project's own
      tasks, requirements, sprints and risk snapshot. */
  function ProjectAnswer(s: Seed, project: Project, message: string, stamps: Stamps): Option<ChatMessage> {
    Answer(project.name, ProjectTasks(s.tasks, project.id), ProjectRequirements(s.requirements, project.id),
           ProjectSprints(s.sprints, project.id), RiskFor(s.risk, project.id),
           Lower(message), stamps.replyId, stamps.replyTime)
  }

  /** A question about requirements lists at most three, most recently
      updated first, none older than one left out, equally recent ones in
      store order, and attaches them. */
  lemma RequirementsAnswer(projectName: string, tasks: seq<Task>, requirements: seq<Requirement>,
                           sprints: seq<Sprint>, risk: Option<RiskSnapshot>, lower: string, id: string, now: string)
    requires IntentOf(lower) == AskRequirements
    ensures var m := Answer(projectName, tasks, requirements, sprints, risk, lower, id, now);
            && m.Some? && m.value.content.Answered? && m.value.content.reply.LatestRequirements?
            && var listed := m.value.content.reply.requirements;
               && |listed| == (if |requirements| < 3 then |requirements| else 3)
               && NewestFirst(listed) && multiset(listed) <= multiset(requirements)
               && (forall q :: q in requirements && q !in listed ==>
                     forall p :: p in listed ==> AtMost(q.updatedAt, p.updatedAt))
               && (forall q :: multiset(listed)[q] < multiset(requirements)[q] ==>
                     forall p :: p in listed ==> AtMost(q.updatedAt, p.updatedAt))
               && (forall stamp :: UpdatedAt(listed, stamp) <= UpdatedAt(requirements, stamp))
               && m.value.data == Some(RequirementsData(listed))
               && m.value.suggestions == Some(RequirementSuggestions)
  {
  }

  /** A question about one requirement reports the requirement the message
      names (by code, else by a 카카오 title) with the count of its tasks and
      of those done. */
  lemma DetailAnswer(projectName: string, tasks: seq<Task>, requirements: seq<Requirement>,
                     sprints: seq<Sprint>, risk: Option<RiskSnapshot>, lower: string, id: string, now: string)
    requires IntentOf(lower) == AskRequirementDetail
    ensures var m := Answer(projectName, tasks, requirements, sprints, risk, lower, id, now);
            var target := TargetRequirement(requirements, lower);
            && (m.None? <==> target.None?)
            && (m.Some? ==>
                  var related := RelatedTasks(tasks, target.value);
                  && m.value.content == Answered(RequirementDetail(target.value, |related|, |Filter(related, Done)|))
                  && |Filter(related, Done)| <= |related|
                  && m.value.data == Some(TasksData(related)))
  {
  }

  /** A sprint question reports the project's last sprint, with progress 0
      when it has no capacity, and a fixed message when there is none. */
  lemma SprintAnswer(projectName: string, tasks: seq<Task>, requirements: seq<Requirement>,
                     sprints: seq<Sprint>, risk: Option<RiskSnapshot>, lower: string, id: string, now: string)
    requires IntentOf(lower) == AskSprint
    ensures var m := Answer(projectName, tasks, requirements, sprints, risk, lower, id, now);
            && m.Some? && m.value.content.Answered?
            && m.value.suggestions == Some(SprintSuggestions) && m.value.data.None?
            && (sprints == [] <==> m.value.content.reply == NoSprint)
            && (sprints != [] ==>
                  var reply := m.value.content.reply;
                  var current := sprints[|sprints| - 1];
                  && reply.SprintProgress? && reply.name == current.name && reply.goal == current.goal
                  && (current.capacity == 0 ==> reply.progress == 0.0)
                  && (current.capacity != 0 ==> reply.progress * (current.capacity as real) == (current.completed as real) * 100.0))
  {
  }

  /** A team question lists every truthy assignee once, in ascending order,
      with the workload of its position; without one the answer says so and
      offers no suggestions. */
  lemma TeamAnswer(projectName: string, tasks: seq<Task>, requirements: seq<Requirement>,
                   sprints: seq<Sprint>, risk: Option<RiskSnapshot>, lower: string, id: string, now: string)
    requires IntentOf(lower) == AskTeam
    ensures var m := Answer(projectName, tasks, requirements, sprints, risk, lower, id, now);
            && m.Some? && m.value.content.Answered?
            && ((forall t :: t in tasks ==> AssigneeOf(t).None?) <==> m.value.content.reply == NoTeam)
            && (m.value.content.reply == NoTeam ==> m.value.suggestions == Some([]))
            && (m.value.content.reply.TeamWorkload? ==>
                  var lines := m.value.content.reply.lines;
                  && (forall i, j :: 0 <= i < j < |lines| ==> StrLess(lines[i].member, lines[j].member))
                  && (forall member :: (exists i :: 0 <= i < |lines| && lines[i].member == member) <==>
                                       exists t :: t in tasks && AssigneeOf(t) == Some(member))
                  && forall i :: 0 <= i < |lines| ==>
                       lines[i].workload == Workloads[i % 7] && lines[i].marker == MarkerFor(lines[i].workload))
  {
    var members := TeamMembers(tasks);
    if members == [] {
    } else {
      var lines := WorkloadLines(members);
      assert members[0] in members;
      forall member ensures (exists i :: 0 <= i < |lines| && lines[i].member == member) <==> member in members {
        if member in members {
          var i :| 0 <= i < |members| && members[i] == member;
          assert lines[i].member == member;
        }
      }
    }
  }

  /** A risk question reports the snapshot's score and probability and
      attaches it, or says there is none. */
  lemma RiskAnswer(projectName: string, tasks: seq<Task>, requirements: seq<Requirement>,
                   sprints: seq<Sprint>, risk: Option<RiskSnapshot>, lower: string, id: string, now: string)
    requires IntentOf(lower) == AskRisk
    ensures var m := Answer(projectName, tasks, requirements, sprints, risk, lower, id, now);
            && m.Some? && m.value.content.Answered?
            && (risk.None? <==> m.value.content.reply == NoRisk)
            && (risk.None? ==> m.value.suggestions == Some([]) && m.value.data.None?)
            && (risk.Some? ==> m.value.data == Some(RiskData(risk.value))
                               && m.value.suggestions == Some(RiskSuggestions)
                               && m.value.content.reply.overallRiskScore == risk.value.overallRiskScore
                               && m.value.content.reply.completionProbability == risk.value.completionProbability)
  {
  }

  /** Any other question gets the project's done, in-progress and pending
      task counts, which never add up to more than the number of tasks. */
  lemma OverviewAnswer(projectName: string, tasks: seq<Task>, requirements: seq<Requirement>,
                       sprints: seq<Sprint>, risk: Option<RiskSnapshot>, lower: string, id: string, now: string)
    requires IntentOf(lower) == AskOverview
    ensures var m := Answer(projectName, tasks, requirements, sprints, risk, lower, id, now);
            && m.Some? && m.value.content.Answered? && m.value.content.reply.ProjectOverview?
            && var reply := m.value.content.reply;
               && reply.projectName == projectName && reply.totalTasks == |tasks|
               && reply.completedTasks == |Filter(tasks, Done)|
               && reply.inProgressTasks == |Filter(tasks, InProgress)|
               && reply.pendingTasks == |Filter(tasks, Pending)|
               && reply.completedTasks + reply.inProgressTasks + reply.pendingTasks <= reply.totalTasks
               && m.value.suggestions == Some(OverviewSuggestions)
               && m.value.data == Some(CountsData(reply.completedTasks, reply.inProgressTasks, reply.pendingTasks))
  {
    StatusCountsBounded(tasks);
  }
}
