# NADRA citizen portal — a Dafny model of its decision logic

This project models the parts of the NADRA citizen-service portal whose
behaviour is decided by the code itself and not by the database or the
browser:

- the rule-based chatbot resolver and its knowledge table (`chatbot/app.py`);
- the WBS to MS Project XML pipeline (`lib/msProjectGenerator.js`) and its
  route (`app/api/msproject/generate/route.js`);
- ticket creation, priority, agent choice and the service queue
  (`lib/ticketHelper.js`, `app/api/tickets/create/route.js`,
  `lib/queueHelper.js`);
- the batch auto-assignment run when an agent is created
  (`app/api/admin/agents/create/route.js`);
- payment processing and the payment form's input normalisers
  (`app/api/payments/process/route.js`, `components/PaymentModal.js`);
- the admin dashboard's stats, filtering, local list updates, chart counts
  and CSV export (`app/admin/dashboard/page.js`);
- login, direct registration and the four OTP routes (`app/api/auth/...`);
- the client-address extraction of the visitor counter
  (`app/api/visitor/route.js`).

Database tables are sequences of immutable records, in storage order. A
query is a pure function over them. A route is a function from the store
and the request to the reply and the new store. Things the code calls but
does not decide are parameters:

- bcrypt: `hash`, `passwordOk`;
- nodemailer: `mailOk`;
- `Math.random`: `roll`, `suffix`;
- `Date.now`: `now`;
- ids the database assigns: `newId`, `agentId`;
- the language model: `ai`;
- `JSON.parse`: an oracle in the MS Project route, a structural
  `MetaText` for OTP metadata;
- the database's order on the `customerPriority` enum: `rank`.

When an `ORDER BY` leaves rows tied, the earlier stored row comes first.
Dates are integers: days in the WBS pipeline, milliseconds elsewhere.

Files:

- `wrappers.dfy`: `Option` and `Result`.
- `text.dfy`: string helpers — Python `strip`, JS `trim`, `split`, lower-casing, decimal digits.
- `js.dfy`: `parseInt` and id truthiness.
- `ranking.dfy`: ranking of distinct sort keys, used for every `ORDER BY`.
- `knowledge.dfy`, `chatbot.dfy`: the resolver.
- `wbs_data.dfy`, `wbs_text.dfy`, `msproject.dfy`, `msproject_route.dfy`: the WBS pipeline.
- `records.dfy`: shared rows.
- `tickets.dfy`, `queue.dfy`, `agent_create.dfy`: tickets and agents.
- `payments.dfy`, `payment_modal.dfy`: payments.
- `csv.dfy`, `dashboard.dfy`: admin dashboard.
- `auth.dfy`, `otp.dfy`: accounts.
- `visitor.dfy`: visitor tracking.

## Model

| member | source | states |
|---|---|---|
| Knowledge.Lookup | chatbot/app.py:53-86 | a topic answer exists exactly for the tags "en" and "ur"; any other tag is an error carrying the tag (Python's KeyError) |
| Chatbot.QuestionIgnoresTicketBlock | chatbot/app.py:229-230 | the question is the stripped, lower-cased text before the first "User's Recent Tickets:" marker, and the ticket section is what follows it |
| Chatbot.TicketLines | chatbot/app.py:247-251 | ticket lines are exactly the non-empty stripped lines of the section, in their order (the filter of the stripped pieces); a section that does not start with white space yields at least one line |
| Chatbot.NonBlankIsFilter | chatbot/app.py:251 | the comprehension keeps a stripped piece iff it is non-empty, in order: it equals the filter of the stripped pieces |
| Chatbot.IntentIgnoresTicketBlock | chatbot/app.py:229-260 | on the dashboard, two messages with the same question and any non-blank ticket blocks select the same dashboard reply |
| Chatbot.PublicIgnoresTicketBlock | chatbot/app.py:378-416 | off the dashboard, appending a ticket block to a question never changes the response |
| Chatbot.TrackingWordRedirects | chatbot/app.py:379-383 | off the dashboard a tracking word gives the login-redirect text (Urdu for "ur", English otherwise) before any topic rule |
| Chatbot.TopicCascade | chatbot/app.py:386-416 | the public reply is topic i iff rule i is the first rule whose keyword occurs in the question; the default reply iff none occurs |
| Chatbot.WhichIsAGreeting | chatbot/app.py:386-388 | substring matching makes "which" a greeting, because it contains "hi" |
| Chatbot.DashboardCascade | chatbot/app.py:259-367 | with a ticket block, dashboard rule i answers iff it is the first rule that fires; the overview answers iff none fires |
| Chatbot.TicketBlockAnswered | chatbot/app.py:246-367 | a non-blank ticket block on the dashboard always gets a dashboard reply built from at least one line, and never an error |
| Chatbot.LatestShowsFirstLine | chatbot/app.py:306-308 | the latest branch always shows the first ticket line, so its "No tickets found" fallback is unreachable |
| Chatbot.DashboardWithoutMarker | chatbot/app.py:369-377 | on the dashboard without a marker: onboarding words, then help words, then the public topics with the redirect disabled |
| Chatbot.BlankBlockFallsThrough | chatbot/app.py:246-248 | a marker followed by a blank section skips the ticket and the onboarding/help branches and goes to the public topics |
| Chatbot.DashboardNeverRedirects | chatbot/app.py:380 | the dashboard never gives the login redirect |
| Chatbot.AgentPartition | chatbot/app.py:265-284 | the agent branch's "assigned" and "waiting" groups are disjoint; a line is in neither iff it has no "Agent:" and contains "COMPLETED" |
| Chatbot.AgentAllProcessed | chatbot/app.py:286-287 | when every line is completed without an agent, the "all processed" text is returned |
| Chatbot.AgentGroupsShown | chatbot/app.py:270-289 | otherwise the reply opens with the assigned group, or with the waiting group when no line names an agent |
| Chatbot.ShowListsEveryLine | chatbot/app.py:292-303 | the show branch lists line i as item i+1 and reports the number of lines |
| Chatbot.ShowCountsOnlyPresentStatuses | chatbot/app.py:296-302 | a status count is omitted exactly when no line contains its token |
| Chatbot.OverviewShowsFirstThree | chatbot/app.py:359-367 | the overview lists each of the first three lines with its number |
| Chatbot.Render | chatbot/app.py:381-416 | rendering fails exactly for a knowledge answer in a tag other than "en"/"ur"; redirect and default replies treat every other tag as English |
| Chatbot.GetResponse | chatbot/app.py:418-426 | a non-empty AI answer is used as is; otherwise the rule-based response |
| Chatbot.Chat | chatbot/app.py:443-457 | a missing or empty message is a 400; a response is non-empty and echoes the language; a 500 happens exactly when the AI stage gives nothing, the rules pick a knowledge answer and the tag is neither en nor ur, and its text is the quoted tag |
| MsProject.EscapeXml | lib/msProjectGenerator.js:199-207 | the output holds none of < > " ' and is never shorter than the input |
| MsProject.EscapeXmlIsChain | lib/msProjectGenerator.js:199-207 | empty text gives empty text; otherwise the result equals the five replace calls chained as written |
| MsProject.Escape | lib/msProjectGenerator.js:199-207 | text without special characters is unchanged, and the output is never shorter |
| MsProject.ChainIsEscape | lib/msProjectGenerator.js:201-206 | the chain of five replaceAll calls, & first, equals escaping each character once |
| MsProject.EscapeRoundTrip | lib/msProjectGenerator.js:199-207 | decoding the five predefined entities of XML 1.0 recovers the escaped text |
| MsProject.ProcessTask | lib/msProjectGenerator.js:89-107 | uid = id = position; the level and parent are as given; a falsy name becomes "Task k" and a falsy duration 1 through `\|\|`, while a truthy duration is kept as it is, readable or not; a falsy start becomes the project start and an unusable one an invalid date; summary iff the task has children |
| MsProject.ProcessTasks | lib/msProjectGenerator.js:81-117 | non-array input gives []; otherwise one processed task per task object, numbered 1..n in pre-order, levels depth+1, each parent the enclosing task's uid; a null entry throws |
| MsProject.ProcessTasksNested | lib/msProjectGenerator.js:81-117 | the processed list is well nested: numbered from 1, roots at level 1 without a parent, every deeper record under the nearest earlier shallower one, and each parent id is the uid of the task whose children held it |
| MsProject.ProcessedInPreOrder | lib/msProjectGenerator.js:109-116 | the processed tasks are the tree's tasks in pre-order |
| MsProject.ValidateWbsData | lib/msProjectGenerator.js:291-331 | non-array and empty input are invalid with one error; otherwise valid iff every task, recursively, has a non-empty string name and a duration that is absent or read by `parseInt` as a number not below 0; a null task throws |
| MsProject.UnusableDurationRejected | lib/msProjectGenerator.js:311-315 | a task whose duration is present but unreadable by `parseInt` makes the data invalid, with at least one error |
| MsProject.UnusableDurations | lib/msProjectGenerator.js:311-315 | `null`, `""` and `"abc"` are not usable durations |
| MsProject.ValidateEntry | lib/msProjectGenerator.js:304-323 | a task with a bad name contributes "`<path>Task[i]: Task must have a valid name`" first among its errors; a null entry throws; no errors iff the task and its children are valid |
| MsProject.BadNameReported | lib/msProjectGenerator.js:307-309 | every top-level task with a bad name is reported at its index |
| MsProject.ValidProcesses | lib/msProjectGenerator.js:291-331 | validated input never makes processTasks throw |
| MsProject.Finish | lib/msProjectGenerator.js:127-130 | the finish exists iff the start is a date and `parseInt` reads the duration; it is never before the start and is start + duration - 1 days for a duration of at least 1 |
| MsProject.Hours | lib/msProjectGenerator.js:145 | the hours of a numeric duration are 8 per day |
| MsProject.HoursMatchFinish | lib/msProjectGenerator.js:127-146 | when the hours are a number, they are 8 times the days the finish spans |
| MsProject.DaysSuffixHasNoHours | lib/msProjectGenerator.js:127-146 | a duration "5 days" passes validation and spans five days, but its hours are NaN |
| MsProject.ProcessedDated | lib/msProjectGenerator.js:127-144 | with a project start, every processed task can be formatted iff every task object has a usable start and a duration `parseInt` reads |
| MsProject.EntriesDated | lib/msProjectGenerator.js:89-117 | the same, for any sub-forest |
| WbsData.EveryTaskFlatten | lib/msProjectGenerator.js:109-116 | a property holds of every task in the tree iff it holds of every element of its pre-order |
| WbsData.NumberMatchesParseInt | lib/msProjectGenerator.js:130-145 | when both `parseInt` and `Number` read a duration, they agree |
| Js.StringToNumber | lib/msProjectGenerator.js:145 | a blank string is 0, and otherwise a number is the integer `parseInt` reads |
| Js.IntegerText | lib/msProjectGenerator.js:130-145 | on white space, an optional sign, decimal digits and white space, `Number` and `parseInt` both read the signed value of the digits |
| MsProject.TaskElement | lib/msProjectGenerator.js:127-182 | the task element carries uid, id, level, start and finish; Duration and Work are 8 hours per day; Summary and Notes appear only when set; one PredecessorLink per predecessor |
| MsProject.ProjectEnd | lib/msProjectGenerator.js:21-29 | the project finish is the largest task finish and never before the project start |
| MsProject.GenerateXml | lib/msProjectGenerator.js:13-72 | a null task throws; an invalid start date throws "Invalid time value"; otherwise the project start is the given day or now, the root runs from it to a finish that is the start or the finish of some task and bounds every task, and the tasks carry IDs 1..n; names default to "Project" / "Project Summary" |
| MsProject.Render | lib/msProjectGenerator.js:21-72 | formatting succeeds iff the project start and every task's dates are valid; the root finish is the start or some task's finish, and bounds every task's finish |
| MsProject.DocumentSpan | lib/msProjectGenerator.js:21-29 | the root task starts at the project start and finishes at the latest task finish, or at the start when no task is later |
| MsProject.GeneratedNames | lib/msProjectGenerator.js:34-49 | the document's name and root name decode to the project name, or to "Project" / "Project Summary" when it is falsy |
| WbsText.ParseLine | lib/msProjectGenerator.js:248-268 | a non-blank line gives a task whose level is floor(indent/2) and whose wbs, when present, starts with a digit |
| WbsText.NumberNeedsSpace | lib/msProjectGenerator.js:256-259 | the outline number is captured only when white space follows it |
| WbsText.MatchFromIsLazy | lib/msProjectGenerator.js:256-261 | the name is the shortest non-empty text after which an optional "(N day[s])" suffix can end the line; the duration digits are that suffix's |
| WbsText.ParseTextWbs | lib/msProjectGenerator.js:242-283 | exactly one task per line that matches the pattern, in line order in pre-order, and no nulls |
| WbsText.NonBlankLinesFilter | lib/msProjectGenerator.js:243 | the kept lines are input lines whose trim is non-empty, and every such line is kept |
| WbsText.PlainLineMatches | lib/msProjectGenerator.js:256-257 | a non-empty trimmed line without a line terminator always matches the pattern |
| WbsText.OneRowPerLine | lib/msProjectGenerator.js:243-258 | when the text's only line terminator is the line feed, every non-blank line gives a task |
| WbsText.BuildFlatten | lib/msProjectGenerator.js:262-280 | the forest the stack builds lists the parsed lines in order when flattened in pre-order |
| WbsText.ForestParents | lib/msProjectGenerator.js:270-280 | in the forest the stack builds, line k's parent is the nearest earlier line with a smaller level |
| WbsText.PlainLineNamed | lib/msProjectGenerator.js:248-261 | a non-blank line without a line terminator gives a task with a non-empty name |
| WbsText.TextRowsNamed | lib/msProjectGenerator.js:243-261 | with LF as the only terminator, every parsed task has a non-empty name |
| WbsText.ParentIsNearestShallower | lib/msProjectGenerator.js:270-280 | each task's parent is the nearest earlier line with a strictly smaller level, or none (the level -1 sentinel is never popped) |
| MsProjectRoute.Filename | app/api/msproject/generate/route.js:73 | the filename keeps the name's length with every non-alphanumeric character replaced by `_`, then ".xml" |
| MsProjectRoute.SanitiseIdempotent | app/api/msproject/generate/route.js:73 | sanitising twice is sanitising once, and an alphanumeric name is unchanged |
| MsProjectRoute.ParseWbsData | lib/msProjectGenerator.js:214-229 | falsy data gives []; an array is taken as is; any other object is wrapped in a one-element array |
| MsProjectRoute.ParseString | lib/msProjectGenerator.js:221-228 | a string that is not JSON is parsed as an indented text outline, one task per line |
| MsProjectRoute.Post | app/api/msproject/generate/route.js:31-91 | missing project data or name is a 400 before parsing; neither wbsText nor tasks is a 400; invalid WBS is a 400 with the validator's errors; XML only for validated tasks, with one element per task; a thrown error is a 500 |
| MsProjectRoute.GenerateFor | app/api/msproject/generate/route.js:70-89 | a file iff there is no null task, the dates are valid and the name is a string; a null task, then a bad date, then a non-string name each give their own 500 details, in that order |
| MsProjectRoute.PostOnValidTasks | app/api/msproject/generate/route.js:44-82 | a request whose chosen tasks are non-empty, valid, null-free and dated, with a string name and a valid start, gets the file with one element per task |
| MsProjectRoute.TextTakesPrecedence | app/api/msproject/generate/route.js:46-49 | when wbsText is given, the tasks field is ignored |
| MsProjectRoute.PlainTextNeverFails | app/api/msproject/generate/route.js:44-70 | a non-JSON text outline, with a string name and a start that is not invalid, gives the file or the validator's 400, never a 500 |
| MsProjectRoute.TextTasksValid | lib/msProjectGenerator.js:241-331 | with LF as the only terminator, the tasks parsed from text always pass validation |
| MsProjectRoute.PlainTextGivesFile | app/api/msproject/generate/route.js:44-82 | a non-JSON outline using LF with at least one non-blank line, a string name and a start that is not invalid, always gives the file, with one task per non-blank line |
| MsProjectRoute.ParsedParentIsNearestShallower | lib/msProjectGenerator.js:270-280 | in the processed output of a text outline, task k's parent id is the uid of the nearest earlier line with a smaller level, or none |
| MsProjectRoute.NullTaskIsServerError | app/api/msproject/generate/route.js:57-90 | a null task makes the validator throw, so the reply is a 500 |
| Tickets.PriorityToNumber | lib/ticketHelper.js:5-10 | HIGH/URGENT give 3, MEDIUM 2, anything else 1 |
| Tickets.HelperFinalPriority | lib/ticketHelper.js:59-63 | min(3, service + customer priority) is always 2 or 3, and 3 exactly when the sum reaches 3 |
| Tickets.RouteFinalPriority | app/api/tickets/create/route.js:56-63 | min(3, max(1, sum)) lies in 1..3 |
| Tickets.FinalPrioritiesAgree | app/api/tickets/create/route.js:56-63 | the route's clamp and the helper's give the same final priority, 2 exactly when neither side is HIGH, URGENT or MEDIUM |
| Tickets.LeastLoaded | lib/ticketHelper.js:66-79 | none iff no agent qualifies; otherwise a qualifying agent of minimal open load, the first stored among equals |
| Tickets.HelperAgentHasRoom | lib/ticketHelper.js:66-79 | the helper's agent has fewer than 5 unfinished tickets and no more than any other agent with room; none only when every agent is full |
| Tickets.RouteAgentLeastLoaded | app/api/tickets/create/route.js:13-34 | the route picks an agent of minimal load with no capacity cap whenever any agent exists |
| Tickets.CreateTicket | lib/ticketHelper.js:47-125 | bad ids or a missing priority throw; an unknown service throws; a ticket is created exactly when the ids and priority are good and the service exists; it is IN_PROGRESS iff an agent was chosen; the agent is one of the agents, has fewer than 5 unfinished tickets and no more than any agent with room, and there is none iff every agent is full; a PENDING payment of fee, else price, else 0 |
| Tickets.Amount | lib/ticketHelper.js:121-123 | the payment amount is the fee, or the price when the fee is 0 |
| Tickets.AssignTicketToAgent | lib/ticketHelper.js:13-18 | exactly the given ticket gets the agent and IN_PROGRESS; an unknown id is an error |
| Tickets.CreateRoute | app/api/tickets/create/route.js:36-104 | bad input is a 400 with nothing written; good input with an unknown service is success:false with nothing written; a ticket is created exactly when the input is good and the service exists; the ticket's agent is one of the agents, of least load, absent iff there are no agents; the status is the default |
| Tickets.RouteLogNamesAgent | app/api/tickets/create/route.js:66-86 | the created log names the least-loaded agent whenever there is one |
| Queue.Recalculate | lib/queueHelper.js:9-52 | OPEN/IN_PROGRESS tickets get their position in the queue order; COMPLETED/CLOSED get null; nothing else changes |
| Queue.PositionsArePermutation | lib/queueHelper.js:19-32 | positions lie in 1..n, are distinct, and follow the (priority, final priority, creation) order |
| Queue.EveryPositionTaken | lib/queueHelper.js:27-32 | every position 1..n is held by some active ticket |
| Queue.AheadAreActive | lib/queueHelper.js:95-117 | only active tickets count as ahead, and a ticket never counts itself |
| Queue.WaitTextByPairs | lib/queueHelper.js:120-129 | with 30 minutes per ticket ahead, the text is "Hh Mm" from 2 tickets on (M is 0 or 30), else "M minutes" |
| Queue.GetQueueInfo | lib/queueHelper.js:57-148 | unknown ticket → not found; COMPLETED/CLOSED → done; IN_PROGRESS with an agent → processing; otherwise the position is the stored one or ahead+1, the total is the active count, and "You're next!" iff the stored position is 1 |
| Queue.WaitingPositionAtLeastOne | lib/queueHelper.js:134 | a waiting ticket's reported position is at least 1 when none is stored |
| Queue.AssignQueuePosition | lib/queueHelper.js:153-196 | stores ahead+1 (between 1 and the ticket count) on exactly that ticket; an unknown ticket is an error |
| AgentCreate.CreateAgent | app/api/admin/agents/create/route.js:48-124 | a missing field is a 400; an email or username in use is a 400; the agent is created exactly when neither holds, and is added with maxTickets defaulting to 5, and the handed-over tickets are updated and logged |
| AgentCreate.CreateAgentLogs | app/api/admin/agents/create/route.js:89-99 | one log line per handed-over ticket, in order, naming the new agent, after the existing logs |
| AgentCreate.AssignCount | app/api/admin/agents/create/route.js:86 | the number handed over is min(candidates, maxTickets) |
| AgentCreate.ChosenByRank | app/api/admin/agents/create/route.js:77-86 | a ticket is handed over iff it is an unassigned OPEN ticket among the first maxTickets by final priority descending, then creation time |
| AgentCreate.AssignedInOrder | app/api/admin/agents/create/route.js:77-83 | the handed-over tickets are distinct and in that order |
| AgentCreate.CreateAgentAssignsPrefix | app/api/admin/agents/create/route.js:89-124 | exactly the chosen tickets get the new agent and IN_PROGRESS, every other ticket is unchanged, and the reply lists them in order |
| Payments.CheckCard | app/api/payments/process/route.js:25-55 | card details pass iff present with 16 digits once white space is removed, a 3-digit CVV and a 4-digit expiry; missing fields are reported first, then the number, then the CVV, then the expiry, each error exactly when the earlier checks pass and its own fails |
| Payments.Process | app/api/payments/process/route.js:9-205 | missing id or method → 400; an unknown method → 400; card checks only for ONLINE, a failing one being a 400 with that check's message and nothing changed; once the checks pass: an unparsable id is the database's 500, no record → 404, a COMPLETED record → 409, and payment happens iff the record is not COMPLETED; ONLINE → COMPLETED with a transaction id and time, COD → PENDING with neither |
| Payments.CashIgnoresCard | app/api/payments/process/route.js:25 | cash on delivery gives the same result whatever card details are sent |
| Payments.SecondOnlinePaymentConflicts | app/api/payments/process/route.js:77-79 | paying online twice gives 409 the second time and leaves the record as it was |
| Payments.CashOnDeliveryRepeatable | app/api/payments/process/route.js:86-96 | choosing cash on delivery leaves the record PENDING, so it can be chosen again |
| Payments.NumberIdLooksUpItself | app/api/payments/process/route.js:60-74 | a numeric ticket id looks up that number |
| PaymentModal.KeepDigits | components/PaymentModal.js:17-33 | the stored value is the first n digits typed, digits only (16 for the card, 4 for the expiry, 3 for the CVV) |
| PaymentModal.ShownCardNumber | components/PaymentModal.js:19-21 | the shown number has one space per full group of four before the last group, and starts with the first group and a space when there are more than four digits |
| PaymentModal.ShownCardNumberLayout | components/PaymentModal.js:19 | digit k is shown at position k + k / 4 and every fifth position is a space: groups of four joined by single spaces |
| PaymentModal.ShownCardNumberRoundTrip | components/PaymentModal.js:17-21 | removing the spaces from the shown number, as the server does, gives the stored digits |
| PaymentModal.ShownExpiry | components/PaymentModal.js:24-28 | from two digits on, a "/" is shown after the month |
| PaymentModal.ShownExpiryRoundTrip | components/PaymentModal.js:24-28 | removing the "/" gives the stored digits |
| PaymentModal.Payload | components/PaymentModal.js:42-49 | card details are sent exactly when the method is ONLINE |
| PaymentModal.FullFormPassesCardChecks | components/PaymentModal.js:17-49 | a fully typed form passes every card check of the payments route |
| Dashboard.ComputeStats | app/admin/dashboard/page.js:47-54 | total is the number of tickets, and each count is the length of the filtered list of tickets with the exact status, or with final priority at least 3 |
| Dashboard.StatusCountsWithinTotal | app/admin/dashboard/page.js:47-54 | completed + pending + in progress never exceed the total |
| Dashboard.FilteredSpec | app/admin/dashboard/page.js:86-105 | the filtered list is an order-preserving subsequence holding exactly the tickets that pass every active filter and the search; no filters keep everything |
| Dashboard.FilteredIsSelect | app/admin/dashboard/page.js:86-105 | the five filter steps amount to one filter by the conjunction |
| Dashboard.AssignLocally | app/admin/dashboard/page.js:119 | after a successful assignment only the tickets with that id change, taking the agent id and the name AssignedName gives; a failed one changes nothing |
| Dashboard.AssignedName | app/admin/dashboard/page.js:119 | the shown name is that of an agent whose id `parseInt` reads from the selection when there is one, else the name the server sent, else the old name |
| Dashboard.ChangeStatusLocally | app/admin/dashboard/page.js:141 | after a successful change only the tickets with that id change, and only their status |
| Dashboard.DeleteRemovesExactly | app/admin/dashboard/page.js:159 | deletion removes exactly the tickets with that id and keeps the order of the rest |
| Dashboard.ChartCountsMatching | app/admin/dashboard/page.js:323-329 | each service's chart count is the number of tickets whose service id equals it |
| Dashboard.ExportTicketsReadsBack | app/admin/dashboard/page.js:288-320 | exporting gives nothing for an empty list; otherwise reading the CSV back gives the export header and each ticket's cells |
| Csv.Export | app/admin/dashboard/page.js:288-296 | no rows give no output |
| Csv.ExportRoundTrip | app/admin/dashboard/page.js:288-296 | reading the output back gives the first row's keys as header and each row's cells in that key order |
| Csv.DocumentRoundTrip | app/admin/dashboard/page.js:295-296 | quoted, quote-doubled fields joined by "," and "\n" read back as the original records |
| Csv.FieldRoundTrip | app/admin/dashboard/page.js:295 | a quoted cell with doubled quotes reads back as the cell |
| Accounts.Login | app/api/auth/login/route.js:8-88 | missing field → 400; USER/ADMIN: no user → 404, a different role → 403, a wrong password → 401, else logged in as that user; AGENT: no agent → 404, a wrong password → 401, else logged in as that agent; other roles → 400; success needs a matching password |
| Accounts.RoleCheckedBeforePassword | app/api/auth/login/route.js:56-61 | an unknown role is refused whatever bcrypt would say |
| Accounts.RegisterDirect | app/api/auth/register-direct/route.js:5-46 | an existing email → success:false and no user; otherwise one USER with the name, email, phone and the password's hash; a thrown error → success:false |
| Accounts.RegisteredUserCanLogIn | app/api/auth/register-direct/route.js:25-33 | a directly registered citizen can sign in as USER with the same email and password |
| Otp.GenerateCode | app/api/auth/send-otp-sms/route.js:6-8 | the code is six decimal digits without a leading zero, in 100000..999999 |
| Otp.ValidEmailMatchesPattern | app/api/auth/send-otp-sms/route.js:23-29 | the route's test accepts exactly the texts matching `^[^\s@]+@[^\s@]+\.[^\s@]+$` |
| Otp.SendOtpSms | app/api/auth/send-otp-sms/route.js:10-151 | missing fields → 400; a bad email → 400; an email in use, else a CNIC in use → 400 naming which; otherwise 429 iff three codes in the last window; all with the store unchanged; success replaces the email's codes by one code expiring in 10 minutes; failed mail deletes it and is a 500 |
| Otp.SendLeavesOneCode | app/api/auth/send-otp-sms/route.js:77-96 | after a successful send the email has exactly one code |
| Otp.RepeatedSendNotLimited | app/api/auth/send-otp-sms/route.js:59-83 | because each send clears the email's codes, this route alone never reaches its own limit |
| Otp.CnicReportedBeforeLaterEmail | app/api/auth/send-otp-sms/route.js:32-56 | the first user matching email or CNIC decides the message, so a taken email can be reported as a taken CNIC |
| Otp.SendOtp | app/api/auth/send-otp/route.js:53-103 | an existing user → success:false with redirect "/login" and nothing written; otherwise one code row with only email and code, kept even when the mail fails |
| Otp.SendOtpCodeCannotRegister | app/api/auth/send-otp/route.js:73-75 | a send-otp code, verified by verify-otp, gives the missing-data error and creates no user |
| Otp.VerifyOtp | app/api/auth/verify-otp/route.js:5-101 | no matching code → "Invalid OTP code" and nothing changes; an expired code → "OTP expired" with the email's codes cleared and no user; then unreadable or incomplete metadata, an email already registered, else an account, in that order; success creates exactly one USER from the metadata and clears the email's codes |
| Otp.MissingEmailClearsAllCodes | app/api/auth/verify-otp/route.js:10-28 | as written, a request without an email can clear the codes of every address |
| Otp.VerifyOtpChecked | app/api/auth/verify-otp/route.js:10-84 | with a missing email treated as no match, codes of other addresses are never removed |
| Otp.SignUpThenVerify | app/api/auth/verify-otp/route.js:63-84 | a send-otp-sms code used within ten minutes registers the citizen with the sign-up data |
| Otp.Newest | app/api/auth/verify-otp-sms/route.js:17-26 | the chosen record is an unverified match of the newest creation time, the earliest stored among ties; none iff no match |
| Otp.VerifyOtpSms | app/api/auth/verify-otp-sms/route.js:5-112 | missing fields → 400; no match → 400; a matched code is expired by expiresAt iff the reply is the expiry 400 with only that record deleted; then unreadable metadata → 400, missing fields → 500, a clash → 400, else registered, in that order; success creates the user with the CNIC, marks the code verified, removes the email's other codes and replies without the password |
| Otp.SignUpThenVerifySms | app/api/auth/verify-otp-sms/route.js:17-96 | a send-otp-sms code always completes the sign-up through verify-otp-sms, at any later time |
| Otp.VerifiedCodeNotReused | app/api/auth/verify-otp-sms/route.js:72-84 | once verified, the same code cannot register a second user |
| Visitor.ClientIp | app/api/visitor/route.js:8-9 | a non-empty x-forwarded-for gives the comma-free prefix up to its first comma; otherwise a non-empty x-real-ip; otherwise "unknown" |
| Visitor.ClientIpOfList | app/api/visitor/route.js:9 | the first address of a forwarded list is taken, whole when there is no comma |
| Visitor.LeadingCommaGivesEmptyIp | app/api/visitor/route.js:9 | a forwarded header starting with a comma yields an empty address, ignoring x-real-ip |
| Visitor.RecordVisit | app/api/visitor/route.js:8-18 | the row holds the client address, the user agent or "unknown", and the page or "home" |

## Left out

- Flask routes, CORS, the MySQL connection, `get_ticket_status` and
  `format_ticket_response` of the chatbot service: I/O or never called by the
  resolver. The Hugging Face call is the oracle `ai`.
- Prisma, MySQL, transactions and concurrency: every route is one sequential
  step over the store. Unique-constraint failures (P2002) that a sequential
  store cannot reach are not modelled as separate paths.
- E-mail sending and bcrypt: parameters. The HTML bodies of the OTP mails are
  left out.
- Date objects, `toISOString` and time zones: dates are integers.
  `new Date(startDate)` is one day number or an invalid date.
- Floating-point fee formatting (`toFixed`).
- React rendering, hooks, `localStorage`, `fetch`, Blob downloads, and all
  pages other than the admin dashboard's helpers.
- The read-only pass-through routes, the visitor `GET` statistics, and the
  seeding and migration scripts.
- The e-mail notification block in the payments route: mail I/O.
- Unicode: strings are sequences of code points; lower-casing is ASCII-only;
  Python's and JavaScript's white-space sets are modelled separately.
- The `customerPriority` sort order of the database is the parameter `rank`.
- The Prisma schema is not part of this model:
  - OTP default values `verified = false` and `attempts = 0` are assumed for
    rows that send-otp writes.
  - The user name and email columns are taken as required.
  - Email and CNIC are taken as unique.
- Otp.VerifyOtpSms: send-otp-sms writes the column `expireat`, while this
  route reads `expiresAt`. The model takes that field as unset (`undefined`),
  so such a code never expires. If the schema stores it as `null`, every code
  is expired at once; the `Null` case of `JsDate` covers that reading.
- Dashboard.FilteredSpec: the name, CNIC and phone fall-back chains of the
  joined rows are resolved to one string each, so the difference between
  `||` and `??` on empty strings is not modelled.
- Csv.ExportRoundTrip: the reader splits records at LF, as the export does,
  and not at CRLF as section 2 of RFC 4180 prescribes.
- MsProject.ProcessTask: `priority` and `percentComplete` are whole
  numbers, so a non-numeric value kept by `||` is not represented; `notes`
  and `wbs` are strings; a fractional duration is not represented; a
  task name that is not a string is read as absent, so a truthy one such
  as `42`, which the source keeps and writes as "42", becomes the default
  "Task k" here (the route's validator rejects such names before
  generation, but the generator is also callable on its own).
- Chatbot.Chat: a JSON `null` language is not represented (the source
  raises `KeyError(None)`, a 500 `{"error": "None"}`, on knowledge answers
  and echoes `null` elsewhere); nor is a non-string language such as `5`
  (a 500 `{"error": "5"}` on knowledge answers, echoed as a number
  elsewhere); a truthy non-string message, which fails
  in the source with a 500, is not represented; the 500 text is the tag in
  single quotes, not Python's `repr`, which differs for a tag holding a
  quote.
- Otp.VerifyOtp: `None` is an absent email; a JSON `null` email, which
  Prisma turns into an `email IS NULL` filter, is not represented, so
  Otp.MissingEmailClearsAllCodes is about absent emails only.
- Tickets.CreateRoute: the ticket status is the schema's default, taken as
  `OPEN`; the schema is not part of this model.
- Queue.GetQueueInfo: the ticket id is an integer; the route's
  `parseInt(ticketId)` at lib/queueHelper.js:60 is not modelled.
- MsProjectRoute.Filename: strings are code points, while the source's
  regular expression has no `u` flag and so replaces each UTF-16 unit; a
  character outside the Basic Multilingual Plane becomes `__` there and
  `_` here, so "keeps the name's length" holds in code points only.
- Js.ParseInt: the source calls `parseInt` without a radix, so a `0x` or
  `0X` prefix is read as hexadecimal there (`"0x10"` is 16) and as the
  digit 0 here.
- Js.StringToNumber: `Number` also reads fractions, exponents (`"1e2"` is
  100), `0x`/`0o`/`0b` prefixes and `Infinity`; here those are NaN
  (`None`), so a duration written that way has no hours in the model.
- Payments.Process: card fields are strings. A non-string field is not
  represented: in the source a numeric `cvv` or `expiryDate` has no
  `length` and gives the 400 of its check, and a numeric `cardNumber`
  makes `.replace` throw, which the handler turns into a 500.
- Tickets.CreateRoute: a body that `req.json()` cannot parse, which the
  handler's `catch` turns into a 500, is not represented; the request is
  always a parsed object.
- The helper `createTicket` and the create route are modelled separately;
  the queue-position write after creation is Queue.AssignQueuePosition.

## Findings

| source | as written | input that shows it | evidently intended | confidence | as-written member | corrected member |
|---|---|---|---|---|---|---|
| app/api/auth/verify-otp/route.js:10-28 | `findFirst` and `deleteMany` filter on `email`, which is `undefined` when the request has none, so the filter drops it | `{ otp: "123456" }` when some address's expired code is 123456: every OTP row in the table is deleted | verify only consumes the codes of the address being verified; a request without an email is "Invalid OTP code" | medium, not executed | Otp.MissingEmailClearsAllCodes | Otp.VerifyOtpChecked |
