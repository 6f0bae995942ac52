# PMS back end: store, assistant, access and markdown fixer in Dafny

This project models the core of the PMS project-management back end and
proves properties of it.

- **The in-memory record store** (`DataStore`). It holds projects, users,
  requirements, tasks, sprints, backlog items, integrations, notifications
  and risk snapshots.
  - Create appends one record with its defaults and generated codes
    (`REQ-NNN`, `PB-n`).
  - Update overwrites the given keys of the first record with the id.
  - Deleting a task also removes its direct children.
  - Marking a notification read changes that entry in place.
  - The list operations filter by project.
  - The store is a class whose fields the methods reassign. Values stand in
    for the deep copies the store hands out.
- **The rule-based assistant** of the AI endpoints.
  - `generate_report` builds the progress, risk and focus sections.
  - `chat_with_ai` chooses an intent through a fixed keyword chain.
  - Its answers are the three latest requirements (a stable sort, newest
    first), one requirement with its tasks, the last sprint, the team
    workload table, the risk snapshot, or the task counts.
  - Texts are kept as the values their f-strings interpolate.
- **Role-based project visibility.** This covers the project filter and the
  not-found / forbidden decision of `get_project`.
- **The markdown fixer's line loop.**
  - Each line is right-stripped.
  - Blank lines are inserted around headings, code fences and list blocks.
  - A final `""` is added so the joined text ends in a newline.
  - The language-tagging branch of the loop (fix_markdown.py:50-64) can
    never run: a line whose stripped text is exactly three backticks already
    takes the fence branch at line 41. The model keeps that branch as an
    `assert false`, which the verifier discharges.
- **`paginate`.**

Modules:

- `Text`: whitespace, strip, substring, ASCII lower-casing, code-point string
  order and decimal codes.
- `Seqs`: Option/Result, the order-keeping filter and the first-match search.
- `Entities`: records, create payloads, patches and generated codes.
- `Store`: the store.
- `Ranking`: the two sorts of the chat endpoint.
- `Insight`: report and chat.
- `Access`: visibility.
- `MarkdownPatterns`, `LineLayout` and `MarkdownFix`: the fixer.
- `Pagination`.

The fixer loop `MarkdownFix.FixMarkdownLines` is proved equal to
`Fixed(lines)`. That is the output laid out from a per-line decision
`StepOf`, whose properties are proved on the summaries `fs == Infos(lines)`.
In those lemmas `Output(fs)` is `Fixed(lines)` and `At(fs, i)` is
`Pos(lines, i)` by definition.

## Model

| member | source | states |
|---|---|---|
| Text.RStrip | fix_markdown.py:20 | the result is a prefix of the line, ends in no whitespace, and only whitespace was removed |
| Text.Lower | PMS_BackEnd_v1.0/app/utils/data_store.py:52 | the result has the same length and no capital letter; each capital becomes its small letter and every other character is kept |
| Text.LowerIdempotent | PMS_BackEnd_v1.0/app/utils/data_store.py:52 | lower-casing twice is lower-casing once, so comparing lowered strings is stable |
| Text.ContainsIffOccurs | PMS_BackEnd_v1.0/app/api/v1/endpoints/ai.py:132 | `sub in s` holds exactly when `sub` occurs at some position of `s` |
| Text.StrLessTotal | PMS_BackEnd_v1.0/app/api/v1/endpoints/ai.py:126-127 | the code-point order `sorted` uses is total; with Irreflexive, Asymmetric and Transitive it is a strict total order |
| Text.DecimalRoundTrip | PMS_BackEnd_v1.0/app/utils/data_store.py:93 | the decimal digits of a number read back as that number |
| Seqs.FindFirst | PMS_BackEnd_v1.0/app/utils/data_store.py:51-54 | the `for ... if ...: return` scan returns the index of the first element that passes the test, or none when no element does |
| Entities.ReqCode | PMS_BackEnd_v1.0/app/utils/data_store.py:93 | a generated requirement code starts with `REQ-` and has at least three digits |
| Entities.ReqCodeRoundTrip | PMS_BackEnd_v1.0/app/utils/data_store.py:92-93 | the code of count n reads back as n |
| Entities.ReqCodeInjective | PMS_BackEnd_v1.0/app/utils/data_store.py:92-93 | different counts give different codes |
| Entities.NewRequirement | PMS_BackEnd_v1.0/app/utils/data_store.py:89-107 | the new requirement has the fresh id, the project and the title. Its code is the payload's truthy code, else `REQ-` with (count of all requirements + 1). Its status defaults to `defined`. `createdAt` is the fallback chain of `CreatedAtOf`, and `updatedAt` falls back to it |
| Entities.CreatedAtFallback | PMS_BackEnd_v1.0/app/utils/data_store.py:99-105 | without its own `createdAt`, the first truthy of `timestamp`, `date` and `updatedAt` is taken, else `2025-01-01`; the result is never empty |
| Entities.CreatedAtEmptyIff | PMS_BackEnd_v1.0/app/utils/data_store.py:99-105 | the stored `createdAt` is empty only when the payload gave an empty `createdAt` |
| Entities.DefaultTimestamps | PMS_BackEnd_v1.0/app/utils/data_store.py:102-107 | with no timestamp in the payload both stamps are `2025-01-01` |
| Entities.NewTask | PMS_BackEnd_v1.0/app/utils/data_store.py:132-144 | the new task has the fresh id, project and title. Status defaults to `todo` and priority to `medium`. A missing assignee is `""`. The parent is the payload's |
| Entities.NewSprint | PMS_BackEnd_v1.0/app/utils/data_store.py:176-189 | the new sprint has the fresh id, project and name. Status defaults to `planning`, and capacity and completed default to 0 |
| Entities.BacklogCode | PMS_BackEnd_v1.0/app/utils/data_store.py:203 | a generated backlog id starts with `PB-` |
| Entities.BacklogCodeRoundTrip | PMS_BackEnd_v1.0/app/utils/data_store.py:203 | the backlog id of n reads back as n |
| Entities.NewBacklogItem | PMS_BackEnd_v1.0/app/utils/data_store.py:201-216 | the id is the payload's truthy id, else `PB-` with (count of all backlog items + 200). Status, type and criteria take their defaults |
| Entities.BacklogIdGenerated | PMS_BackEnd_v1.0/app/utils/data_store.py:203 | without a truthy payload id the generated id reads back as count + 200 |
| Entities.ApplyTaskPatch | PMS_BackEnd_v1.0/app/utils/data_store.py:153 | each key given in the payload overwrites its field (title, description, status, assignee, priority, requirement, parent); every other field, including id, project and creation date, is kept |
| Entities.ApplyRequirementPatch | PMS_BackEnd_v1.0/app/utils/data_store.py:116-117 | each given key overwrites its field (title, description, status, tracking number), and after the re-read `updatedAt` is the payload's when given and the old one otherwise; id, code, project and creation date are kept |
| Entities.ApplyIntegrationPatch | PMS_BackEnd_v1.0/app/utils/data_store.py:276 | each given key overwrites its field (status, enabled flag, config, webhook URL); id, name, description, category, last sync and features are kept |
| Entities.PatchesIdempotent | PMS_BackEnd_v1.0/app/utils/data_store.py:116-117 | applying the same payload twice equals applying it once, for tasks, requirements and integrations |
| Store.RawStore.constructor | PMS_BackEnd_v1.0/app/utils/data_store.py:16-18 | the dictionary starts as the seed |
| Store.RawStore.GetMutableCollection | PMS_BackEnd_v1.0/app/utils/data_store.py:23-39 | a missing key is set to the empty list. A list is returned. Any other value fails with the key named, and the dictionary is unchanged. Afterwards `get_collection` reads the returned list, or no list on failure |
| Store.RawStore.GetMutableMapping | PMS_BackEnd_v1.0/app/utils/data_store.py:30-44 | the same for mappings, with `get_mapping` reading the returned mapping afterwards |
| Store.ProjectRequirements | PMS_BackEnd_v1.0/app/utils/data_store.py:82-87 | exactly the project's requirements, each as often as stored, in store order |
| Store.ProjectTasks | PMS_BackEnd_v1.0/app/utils/data_store.py:125-130 | exactly the project's tasks, in store order |
| Store.ProjectSprints | PMS_BackEnd_v1.0/app/utils/data_store.py:169-174 | exactly the project's sprints, in store order |
| Store.ProjectBacklogItems | PMS_BackEnd_v1.0/app/utils/data_store.py:194-199 | exactly the project's backlog items, in store order |
| Store.ProjectById | PMS_BackEnd_v1.0/app/utils/data_store.py:72-77 | the first project with the id, and none exactly when no project has it |
| Store.DeleteRemovesIff | PMS_BackEnd_v1.0/app/utils/data_store.py:158-164 | the list gets shorter exactly when some task has the id or has it as parent |
| Store.DeleteTwiceRemovesNothing | PMS_BackEnd_v1.0/app/utils/data_store.py:158-164 | a second delete with the same id changes nothing, so it reports false |
| Store.DeleteCascadesOneLevel | PMS_BackEnd_v1.0/app/utils/data_store.py:162 | a child of the deleted task is removed and a grandchild survives |
| Store.MarkRead | PMS_BackEnd_v1.0/app/utils/data_store.py:257-264 | same length; the first entry with the id becomes that entry with `read` set, and every other entry is unchanged |
| Store.MarkReadIdempotent | PMS_BackEnd_v1.0/app/utils/data_store.py:257-264 | marking the same notification twice equals marking it once |
| Store.DataStore.constructor | PMS_BackEnd_v1.0/app/utils/data_store.py:16-18 | the store starts with the seed contents |
| Store.DataStore.Reset | PMS_BackEnd_v1.0/app/utils/data_store.py:296-298 | every change is discarded: the contents are the seed again |
| Store.DataStore.GetUserByEmail | PMS_BackEnd_v1.0/app/utils/data_store.py:49-54 | the first user whose e-mail matches up to letter case, and none exactly when no user matches |
| Store.DataStore.GetUser | PMS_BackEnd_v1.0/app/utils/data_store.py:56-61 | the first user with the id, and none exactly when no user has it |
| Store.DataStore.GetProject | PMS_BackEnd_v1.0/app/utils/data_store.py:72-77 | the scan returns the first project with the id (`ProjectById`) |
| Store.DataStore.CreateRequirement | PMS_BackEnd_v1.0/app/utils/data_store.py:89-110 | exactly one record is appended at the end, nothing before it changes, and the returned value is the stored record |
| Store.DataStore.UpdateRequirement | PMS_BackEnd_v1.0/app/utils/data_store.py:112-120 | an unknown id returns none and leaves the list unchanged. Otherwise only the first requirement with the id is patched, in place, and returned |
| Store.DataStore.CreateTask | PMS_BackEnd_v1.0/app/utils/data_store.py:132-147 | one task is appended at the end and returned |
| Store.DataStore.UpdateTask | PMS_BackEnd_v1.0/app/utils/data_store.py:149-156 | unknown id: none and no change; otherwise the first task with the id is patched in place |
| Store.DataStore.DeleteTask | PMS_BackEnd_v1.0/app/utils/data_store.py:158-164 | the tasks left are exactly those that are neither the task nor its children, in order; the result is true exactly when the length changed |
| Store.DataStore.CreateSprint | PMS_BackEnd_v1.0/app/utils/data_store.py:176-192 | one sprint is appended at the end and returned |
| Store.DataStore.CreateBacklogItem | PMS_BackEnd_v1.0/app/utils/data_store.py:201-219 | one item is appended at the end and returned, its id generated from the count before the append |
| Store.DataStore.MarkNotificationRead | PMS_BackEnd_v1.0/app/utils/data_store.py:257-264 | a missing project or id returns none with no change. Otherwise the first entry with the id is marked read in place and returned. Read through `list_notifications`, the project's list becomes `MarkRead` of the old one and every other project's list is unchanged; an entry is returned exactly when one has the id, and it is read |
| Store.DataStore.UpdateIntegration | PMS_BackEnd_v1.0/app/utils/data_store.py:272-279 | unknown id: none and no change; otherwise the first integration with the id is patched in place |
| Access.FilterProjectsForUser | PMS_BackEnd_v1.0/app/api/v1/endpoints/projects.py:14-33 | the visible projects form a subsequence of the input, each kept as often as it occurs; nothing is duplicated or invented |
| Access.AdminSeesAll | PMS_BackEnd_v1.0/app/api/v1/endpoints/projects.py:19-20 | an administrator gets the list unchanged |
| Access.ManagerSees | PMS_BackEnd_v1.0/app/api/v1/endpoints/projects.py:22-27 | a project manager keeps a project exactly when it manages it or is assigned to it |
| Access.MemberSees | PMS_BackEnd_v1.0/app/api/v1/endpoints/projects.py:29-33 | any other role keeps a project exactly when it is on the team or assigned to it |
| Access.OwnProjectsVisible | PMS_BackEnd_v1.0/app/api/v1/endpoints/projects.py:17-33 | a project in the user's own list is visible whatever the role |
| Access.GetProjectAccess | PMS_BackEnd_v1.0/app/api/v1/endpoints/projects.py:52-57 | not found exactly when no project has the id. Forbidden exactly when the project exists but is not visible. Otherwise the visible project is returned |
| Access.AdminNeverForbidden | PMS_BackEnd_v1.0/app/api/v1/endpoints/projects.py:52-57 | an administrator is never refused |
| Pagination.SliceBound | PMS_BackEnd_v1.0/app/utils/pagination.py:16 | a slice bound is clipped into `0..n` |
| Pagination.Paginate | PMS_BackEnd_v1.0/app/utils/pagination.py:15-17 | total is the length of the whole input, and limit and offset are echoed. For non-negative bounds the page is the items from `offset`, of length max(0, min(limit, n - offset)) |
| Pagination.DefaultPage | PMS_BackEnd_v1.0/app/utils/pagination.py:15-16 | with the defaults 50 and 0 the page is the first 50 items |
| Pagination.PagesTile | PMS_BackEnd_v1.0/app/utils/pagination.py:16 | consecutive pages of one limit cover the list exactly once, in order |
| Ranking.InsertNewestFirst | PMS_BackEnd_v1.0/app/api/v1/endpoints/ai.py:127 | insertion adds exactly the one requirement |
| Ranking.InsertKeepsOrder | PMS_BackEnd_v1.0/app/api/v1/endpoints/ai.py:127 | insertion keeps a newest-first list newest first |
| Ranking.InsertStable | PMS_BackEnd_v1.0/app/api/v1/endpoints/ai.py:127 | insertion keeps each group of equal `updatedAt` in list order |
| Ranking.SortNewestFirst | PMS_BackEnd_v1.0/app/api/v1/endpoints/ai.py:127 | the sort is a permutation |
| Ranking.SortOrdered | PMS_BackEnd_v1.0/app/api/v1/endpoints/ai.py:127 | the sorted list has the latest `updatedAt` first |
| Ranking.SortStable | PMS_BackEnd_v1.0/app/api/v1/endpoints/ai.py:127 | requirements with the same `updatedAt` keep their store order |
| Ranking.SortNewestFirstCorrect | PMS_BackEnd_v1.0/app/api/v1/endpoints/ai.py:127 | the sort is ordered, a permutation and stable |
| Ranking.SortedPrefix | PMS_BackEnd_v1.0/app/api/v1/endpoints/ai.py:127 | the first n of the sorted list are ordered, drawn from the input, and at least as recent as every one left out |
| Ranking.Latest | PMS_BackEnd_v1.0/app/api/v1/endpoints/ai.py:127 | the three latest requirements (fewer if there are fewer), ordered, drawn from the input, no copy left out newer than one listed (counted with multiplicity); among equally recent requirements the earlier-stored are kept, in store order |
| Ranking.InsertUnique | PMS_BackEnd_v1.0/app/api/v1/endpoints/ai.py:126 | adding a name keeps the list strictly increasing, with exactly the old names and the new one |
| Ranking.TeamMembers | PMS_BackEnd_v1.0/app/api/v1/endpoints/ai.py:126 | the members are strictly increasing and are exactly the truthy assignees |
| Ranking.TeamMembersDistinct | PMS_BackEnd_v1.0/app/api/v1/endpoints/ai.py:126 | no member appears twice and none is empty |
| Insight.Percentage | PMS_BackEnd_v1.0/app/api/v1/endpoints/ai.py:54 | the rate times the whole is the part times 100; the rate is 0 for an empty whole |
| Insight.PercentageBounds | PMS_BackEnd_v1.0/app/api/v1/endpoints/ai.py:52-54 | a share of a whole lies in 0..100, and is 100 exactly when every item is counted and there is one |
| Insight.StatusCountsBounded | PMS_BackEnd_v1.0/app/api/v1/endpoints/ai.py:121-124 | done, in-progress and pending counts add up to at most the task count |
| Insight.FocusItems | PMS_BackEnd_v1.0/app/api/v1/endpoints/ai.py:86-89 | at most five focus items, the first upcoming requirements in store order; empty exactly when none is upcoming |
| Insight.Sections | PMS_BackEnd_v1.0/app/api/v1/endpoints/ai.py:63-72 | one to three sections, the progress overview first with the task and active-requirement counts |
| Insight.Assemble | PMS_BackEnd_v1.0/app/api/v1/endpoints/ai.py:63-96 | one to three sections with the overview first |
| Insight.AssembleOrder | PMS_BackEnd_v1.0/app/api/v1/endpoints/ai.py:74-96 | the risk section is second exactly when there is a snapshot, and the focus items are last exactly when there are some |
| Insight.SectionsOrder | PMS_BackEnd_v1.0/app/api/v1/endpoints/ai.py:63-96 | the overview is only first. Risk & Mitigation is present exactly when a snapshot exists, and only second. Next Focus Items is present exactly when some requirement is defined or in progress, and only last |
| Insight.GenerateReport | PMS_BackEnd_v1.0/app/api/v1/endpoints/ai.py:38-103 | not found exactly when the project is unknown. The report carries the project id and name, the time `now`, the task and done counts, the completion rate as a percentage of them, and the sections |
| Insight.ReportRateBounds | PMS_BackEnd_v1.0/app/api/v1/endpoints/ai.py:52-54 | the completion rate lies in 0..100, and is 100 exactly when every task is done and there is one |
| Insight.IntentByRules | PMS_BackEnd_v1.0/app/api/v1/endpoints/ai.py:132-212 | the `if/elif` chain tries the five keyword rules in order |
| Insight.IntentIsFirstFiringRule | PMS_BackEnd_v1.0/app/api/v1/endpoints/ai.py:129-227 | the intent is that of the first rule with a keyword in the lowercased message, and the overview when none fires |
| Insight.MarkerFor | PMS_BackEnd_v1.0/app/api/v1/endpoints/ai.py:187 | 🔥 exactly above 80, 🟡 exactly in 61..80, 🟢 otherwise |
| Insight.MarkersByPosition | PMS_BackEnd_v1.0/app/api/v1/endpoints/ai.py:185-187 | 🔥 exactly at positions 0 mod 7, 🟡 at 1 and 5 mod 7, 🟢 at the rest |
| Insight.BuildMessage | PMS_BackEnd_v1.0/app/api/v1/endpoints/ai.py:27-35 | an assistant message with the given id, time and data; missing suggestions become the empty list |
| Insight.TargetRequirement | PMS_BackEnd_v1.0/app/api/v1/endpoints/ai.py:148-150 | the first requirement whose lowercased code the message contains, else the first with 카카오 in its title; none exactly when neither exists |
| Insight.RelatedTasks | PMS_BackEnd_v1.0/app/api/v1/endpoints/ai.py:152 | exactly the tasks whose requirement id is the target's code, each as often as stored, in order |
| Insight.Answer | PMS_BackEnd_v1.0/app/api/v1/endpoints/ai.py:132-227 | no answer exactly when the intent is a requirement detail with no target; otherwise an assistant message with the given id and time |
| Insight.Chat | PMS_BackEnd_v1.0/app/api/v1/endpoints/ai.py:106-236 | not found exactly when the project is unknown. Otherwise the user's original text is echoed first, and it is followed by the assistant's answer exactly when there is one |
| Insight.RequirementsAnswer | PMS_BackEnd_v1.0/app/api/v1/endpoints/ai.py:132-146 | up to three requirements, newest first, no copy left out newer than one listed (counted with multiplicity), equally recent ones in store order, attached as data |
| Insight.DetailAnswer | PMS_BackEnd_v1.0/app/api/v1/endpoints/ai.py:147-164 | the target with its related-task count and done count, the tasks attached; no message without a target |
| Insight.SprintAnswer | PMS_BackEnd_v1.0/app/api/v1/endpoints/ai.py:165-181 | the last sprint with its progress, 0 for zero capacity; the fixed reply when there is no sprint |
| Insight.TeamAnswer | PMS_BackEnd_v1.0/app/api/v1/endpoints/ai.py:182-196 | every truthy assignee once, ascending, with the workload and marker of its position; the fixed reply with no suggestions when there is none |
| Insight.RiskAnswer | PMS_BackEnd_v1.0/app/api/v1/endpoints/ai.py:197-211 | the snapshot's score and probability, with the snapshot attached; the fixed reply when there is none |
| Insight.OverviewAnswer | PMS_BackEnd_v1.0/app/api/v1/endpoints/ai.py:212-227 | the project name, the total, and the done, in-progress and pending counts as the status filters give them (adding up to at most the total), with the overview suggestions and the counts attached |
| MarkdownPatterns.HeadingIffMatch | fix_markdown.py:23 | the heading test holds exactly when the line matches `^#{1,6}\s+` at some split |
| MarkdownPatterns.BulletIffMatch | fix_markdown.py:32 | the bullet test holds exactly when the line matches `^\s*[-*+]\s+` |
| MarkdownPatterns.NumberedIffMatch | fix_markdown.py:32 | the numbered test holds exactly when the line matches `^\s*\d+\.\s+` |
| MarkdownPatterns.ListItemExtends | fix_markdown.py:32-38 | trailing text does not stop a list item from matching, so a line and its right-stripped form agree |
| MarkdownPatterns.ListItemNotHeading | fix_markdown.py:23-32 | no line is both a list item and a heading |
| MarkdownPatterns.InfoConsistent | fix_markdown.py:20-41 | a stripped line has no trailing whitespace, is empty exactly when blank, and is non-empty when it takes a heading, list or fence branch |
| LineLayout.Close | fix_markdown.py:69-70 | the final step appends at most one line and leaves a non-empty output ending in `""` |
| LineLayout.OutputInsertsBlanks | fix_markdown.py:18-70 | the laid-out output is the line texts in order with only `""` lines inserted |
| MarkdownFix.FixBlockLine | fix_markdown.py:23-30 | the heading branch (and the identical fence branch) appends the piece the line's decisions call for |
| MarkdownFix.FixListLine | fix_markdown.py:32-39 | the list branch appends the piece the line's decisions call for |
| MarkdownFix.FixLine | fix_markdown.py:20-66 | one pass of the loop body appends that piece; the language-tagging branch is unreachable |
| MarkdownFix.HeadingOrFenceStep | fix_markdown.py:25-29 | the tests on the output so far and on the next input line are the decisions of a heading or fence line |
| MarkdownFix.ListItemStep | fix_markdown.py:34-38 | the same for a list item, with the neighbour list-item tests |
| MarkdownFix.FixMarkdownLines | fix_markdown.py:15-70 | the loop and the final append produce `Fixed(lines)` |
| MarkdownFix.Output | fix_markdown.py:69-70 | a non-empty output ends in `""`, so the written text ends in a newline |
| MarkdownFix.OnlyBlanksInserted | fix_markdown.py:18-70 | the output is the input lines, each right-stripped, in order, with only `""` lines inserted |
| MarkdownFix.LinePlaced | fix_markdown.py:18-36 | line i, right-stripped, sits at its position, after every earlier line |
| MarkdownFix.NoTrailingWhitespace | fix_markdown.py:20 | no output line ends in whitespace |
| MarkdownFix.BlankBeforePlaced | fix_markdown.py:25-26 | a blank inserted before a line sits just before it |
| MarkdownFix.BlankAfterPlaced | fix_markdown.py:29-30 | a blank inserted after a line sits just after it |
| MarkdownFix.HeadingOrFenceFollowed | fix_markdown.py:29-30 | a `""` line always follows a heading or a fence |
| MarkdownFix.HeadingOrFencePreceded | fix_markdown.py:25-26 | a heading or a fence after the first line comes right after a `""` line |
| MarkdownFix.ListItemFollowed | fix_markdown.py:38-39 | a list item is followed by `""` or directly by the next line, itself a list item |
| MarkdownFix.ListItemPreceded | fix_markdown.py:34-35 | a list item is preceded by `""` or directly by the previous line, itself a list item |
| MarkdownFix.HeadingAndFenceSpacing | fix_markdown.py:23-48 | on the input lines: a heading or fence is followed by `""` and, after the first line, preceded by `""` |
| MarkdownFix.ListItemSpacing | fix_markdown.py:32-39 | on the input lines: a list item is followed by `""` or directly by the next line, itself a list item as written; after the first line it is likewise preceded by `""` or directly by a list item |
| MarkdownFix.ListItemsAdjacent | fix_markdown.py:32-39 | two consecutive list-item lines stay adjacent in the output |

## Left out

- Locking (`RLock`) and the `get_datastore` singleton: concurrency, so the model is one sequential store.
- `uuid4()` identifiers and `datetime.utcnow()` readings are parameters: `newId`, `Stamps` and `now`.
- `load_seed_data` is not part of this model. The seed is an arbitrary `Seed` value.
- `list_users`, `list_projects` and `list_integrations` return a whole collection. In the model that collection is a readable field of the store.
- Not modelled, because their records are free-form dictionaries: the budget getters, `list_risk_insights`, the quality and code-analysis getters, `list_integration_logs` and `get_executive_snapshot` (data_store.py:224-249, 281-291).
- Records are typed datatypes:
  - a missing key in a stored record, and an explicit JSON `null` for a field that is not nullable, are not represented;
  - a risk snapshot or sprint that is an empty (falsy) dictionary is not represented.
- Payload keys are `Field` values (absent or given). `update_requirement` accepts only a string `updatedAt`, so a patch that sets it to `null` is not modelled.
- Report and chat texts are kept as the values they interpolate:
  - the `:.0f` formatting and the string layout are not modelled;
  - percentages are exact ratios, not floating point.
- `RawStore` stands on its own: it models the generic accessors and their shape faults, while `DataStore` keeps one typed field per key, where a wrongly shaped value cannot occur. `_get_mutable_collection` has no caller in data_store.py.
- Text.Lower: lower-cases ASCII letters only. Python's `str.lower` also lower-cases other alphabets; the keywords and codes compared here are ASCII or Hangul, which has no case.
- Text.IsDigit: `\d` is taken as the ASCII digits; Python also accepts other Unicode decimal digits.
- Pagination.Paginate: the page contents are stated for non-negative `limit` and `offset` only. Negative bounds follow Python's slice clipping in `SliceBound`, but nothing further is proved about them.
- The fixer's file reading and writing, `split`/`join` and `main` are not modelled. The loop works on the list of lines.
- Authentication, the FastAPI handlers and the pydantic schemas are not modelled. The schemas give only the field lists of the records.
