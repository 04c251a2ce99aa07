# Activity-tracking app: a Dafny model of its data rules

The application is a Streamlit front end over a SQLite database. Consultants log time on client missions there, leads and the board follow the missions' load and consumption, capacities are adjusted per person and day, and the board builds staffing simulations. A small chatbot answers questions about the data, read-only. This project models the deterministic rules under that front end and proves properties of them:

- **Chatbot** (`src/services/chatbot.py`):
  - question cleaning (`_sanitize_question`, `_normalize`);
  - the ordered keyword intent classifier (`_intent`);
  - the mission-code extractor (`_extract_mission_code`);
  - the mission resolver, with its scoring loop (`_find_mission_by_name_or_code`);
  - the routing of `answer_question` and the gating in `_answer_mission_status`.
- **KPI views and constraints** (`src/services/init_db.py`):
  - `kpi_mission_hours`, `kpi_mission_variance`, `kpi_alert_missions_risk`, `kpi_user_load_daily`, `kpi_finance_mission` and `kpi_simulation_summary`, as functions over the tables;
  - the CHECKs and unique keys of `time_entries` and `capacity_overrides`.
- **Pages of `app.py`**:
  - mission and user visibility per role;
  - the week and month periods;
  - the time-entry form and its `INSERT OR IGNORE`;
  - the capacity grid and the capacity-override upsert;
  - `_overwrite_lines`, which replaces a simulation's lines.
- **`week_bounds`** (`src/utils/dates.py`).

Modules, one per file:

| file | module | what it holds |
|---|---|---|
| `wrappers.dfy` | `Wrappers` | `Option` |
| `calendar.dfy` | `Calendar` | proleptic Gregorian dates, day ordinals and their agreement with ISO date order, weekday, next and previous day |
| `dates.dfy` | `Dates` | `week_bounds`; the identical `_week_bounds` of `app.py` is the same function |
| `periods.dfy` | `Periods` | the day, week and month periods of the time-sheet and capacity pages |
| `text.dfy` | `Text` | ASCII lower-casing, `strip`, whitespace-run collapsing, substring test, `split(" ")` |
| `schema.dfy` | `Schema` | the tables as records, the `Store` of all tables, the table constraints |
| `kpi.dfy` | `Kpi` | the views |
| `intents.dfy` | `Intents` | question cleaning and the intent classifier |
| `codes.dfy` | `MissionCodes` | the `M-dddd-ddd` code pattern |
| `resolver.dfy` | `MissionResolver` | the mission resolver: specification functions, and the imperative scoring loop proved against them |
| `chatbot.dfy` | `Chatbot` | `answer_question` |
| `rbac.dfy` | `Rbac` | `_mission_ids_for_user`, `_visible_user_ids` |
| `entries.dfy` | `TimeEntryForm` | the time-entry form and `INSERT OR IGNORE` |
| `overrides.dfy` | `CapacityOverrides` | the override form and its upsert |
| `lines.dfy` | `SimulationLines` | default filling and empty-row skipping of `_overwrite_lines`, and the delete-then-insert |
| `database.dfy` | `Database` | class `Db` with the tables as fields; its methods are the three writes of the pages |
| `capacity.dfy` | `CapacityGrid` | the capacity grid, built by a nested loop |

How the source is represented:

- The database is a `Store` value of record sequences. The class `Database.Db` holds the same tables as fields and changes them in place.
- The SQL queries become functions of the visible id sets.
- Amounts are exact reals. Hours and capacities are integers.
- Days are day ordinals, as Python's `date.toordinal()` gives them, with `weekday = (n + 6) % 7`. `Calendar.OrdinalOrder` shows that ordinals order dates as the ISO `YYYY-MM-DD` texts the database stores do.
- The current user, the clock, Streamlit's widgets and the SQLite connection become parameters: the role and id of the caller, the reference date of a period, and the values a form submits.

Where the documented behaviour and the code differ, the model follows the code:

- The status answer prints `N/A` for the consumption rate both when nothing was sold and when the rate is exactly 0. This comes from the `pct and …` truthiness test at `src/services/chatbot.py:268`, and `Chatbot.Rate` states it.
- Any role other than ADMIN, BOARD or LEAD gets the consultant's scope (`app.py:132-145`, `app.py:176-177`). The schema allows only the four roles, so `Schema.Role` has four values.
- `_overwrite_lines` fills defaults *before* its all-empty test. With the defaults the simulation page passes, a row whose `hours_per_day` (or, for costs, `cost_type`) cell is empty is therefore never skipped: an editor row left entirely blank is stored with default values. `SimulationLines.PageKeepsRowsMissingTheGuard` states this, and `SimulationLines.EmptyRowDroppedWithoutDefaults` shows that a blank row is skipped only when no defaults apply.
- `app.py:612-618` builds the chatbot context with a `username=` argument. The `ChatContext` dataclass (`src/services/chatbot.py:11-16`) does not declare it, so that call raises a `TypeError`. `Chatbot.ChatContext` is modelled as the dataclass declares it.
- The final "not understood" answer of `answer_question` (`src/services/chatbot.py:405-406`) cannot be reached: every intent `_intent` returns has its own branch.

## Model

| member | source | states |
|---|---|---|
| Text.LowerSpec | src/services/chatbot.py:24 | each character is lower-cased; the result has no upper-case letter; a lower-case string is left unchanged |
| Text.TrimLeftSpec | src/services/chatbot.py:24 | the left trim removes exactly the leading whitespace: the result is a suffix starting with a non-space, and everything dropped was whitespace |
| Text.TrimRightSpec | src/services/chatbot.py:24 | the right trim removes exactly the trailing whitespace: the result is a prefix ending with a non-space, and everything dropped was whitespace |
| Text.StripSpec | src/services/chatbot.py:24 | neither end of a stripped string is whitespace; a string without whitespace at its ends is unchanged; collapsed spacing stays collapsed |
| Text.CollapseRunsSpec | src/services/chatbot.py:25 | after `re.sub(r"\s+", " ", …)` all whitespace is single spaces, never two in a row; non-space first and last characters are kept; no upper case is introduced |
| Text.CollapseRunsFixpoint | src/services/chatbot.py:25 | collapsing a string whose whitespace is already single spaces leaves it unchanged |
| Text.LowerKeepsSpaces | src/services/chatbot.py:24-25 | lower-casing changes no whitespace, so collapsing and lower-casing can happen in either order |
| Text.ContainsAt | src/services/chatbot.py:116-124 | Python's `k in t` holds whenever `k` occurs at some position of `t` |
| Text.ContainsWitness | src/services/chatbot.py:116-124 | when `k in t` holds, there is a position of `t` where `k` occurs |
| Text.Split | src/services/chatbot.py:122 | `split(" ")` gives at least one piece, and no piece contains a space |
| Text.JoinSplit | src/services/chatbot.py:122 | the pieces of `split(" ")` joined with single spaces give back the original string |
| Intents.SanitizeQuestion | src/services/chatbot.py:23-26 | a sanitized question is never longer than the question, and is clean: lower-case, single spaces only, no space at either end |
| Intents.Normalize | src/services/chatbot.py:62-63 | a normalized string is never longer than the input, and is clean: lower-case, single spaces only, no space at either end |
| Intents.CleanIsFixpoint | src/services/chatbot.py:23-26 | both cleaners leave an already-clean string unchanged |
| Intents.SanitizeIdempotent | src/services/chatbot.py:23-26 | sanitizing twice gives what sanitizing once gives |
| Intents.NormalizeIdempotent | src/services/chatbot.py:62-63 | normalizing twice gives what normalizing once gives |
| Intents.BlankCleansToEmpty | src/services/chatbot.py:23-26 | a whitespace-only question cleans to the empty string, under both cleaners |
| Intents.BlankQuestionIsHelp | src/services/chatbot.py:39-40 | an empty or whitespace-only question is a request for help |
| Intents.FirstMatchIsFirst | src/services/chatbot.py:42-60 | in an ordered rule table, the first rule whose keywords match decides, whatever later rules say |
| Intents.FirstMatchFallback | src/services/chatbot.py:42-60 | when no rule matches, the table gives its fallback |
| Intents.ClassifyIntent | src/services/chatbot.py:29-60 | help iff the question is empty or has a help keyword; risk, busy, split and finance each only when one of their keywords occurs and no earlier group's does |
| Intents.ClassifierIsRuleTable | src/services/chatbot.py:39-60 | for a non-empty question, `_intent` is the ordered table help, projects_risk, who_busy, time_split, finance_summary, status_global, with status_global as fallback |
| Intents.StatusGroupIsRedundant | src/services/chatbot.py:57-60 | the status_global keyword group changes nothing, since the fallback is status_global anyway |
| Intents.IntentIsFirstMatchingGroup | src/services/chatbot.py:42-58 | if group `j` matches and no earlier group does, the intent is group `j`'s |
| Intents.IntentDefaultsToStatus | src/services/chatbot.py:57-60 | a non-empty question that matches no group is status_global |
| MissionCodes.MatchAt | src/services/chatbot.py:68-71 | whatever the pattern matches at a position is a canonical `M-dddd-ddd` code |
| MissionCodes.SearchFrom | src/services/chatbot.py:68 | a code found from a position on is canonical |
| MissionCodes.ExtractMissionCode | src/services/chatbot.py:65-71 | an extracted code is always canonical `M-dddd-ddd` |
| MissionCodes.Hits | src/services/chatbot.py:68 | the match result at every position of the text, position by position |
| MissionCodes.FirstHitIsLeftmost | src/services/chatbot.py:68 | the first present entry from `i` on is absent iff all entries are, and otherwise it is the entry at a position with none before it |
| MissionCodes.SearchIsFirstHit | src/services/chatbot.py:68 | the search from `i` is the first match among the positions from `i` on |
| MissionCodes.SearchFromIsLeftmost | src/services/chatbot.py:68 | searching from `i` finds nothing iff no later position matches; otherwise it returns the match at the leftmost matching position |
| MissionCodes.ExtractIsLeftmostMatch | src/services/chatbot.py:68-71 | `re.search` semantics: None iff no position matches, else the code at the leftmost match |
| MissionCodes.CanonicalCodeRoundTrip | src/services/chatbot.py:65-71 | extracting from a canonical code gives that code back |
| MissionCodes.AcceptedSpellings | src/services/chatbot.py:66 | "M-2026-002", "m2026-002" and "M 2026 002" all give "M-2026-002" |
| MissionCodes.CompactSpelling | src/services/chatbot.py:66 | "m2026-002" gives "M-2026-002" |
| MissionCodes.SpacedSpelling | src/services/chatbot.py:66 | "M 2026 002" gives "M-2026-002" |
| MissionCodes.NoCodeInsideWord | src/services/chatbot.py:68 | for every text and position: no match starts after a word character (the leading `\b`), and a match starts only at an `m` or `M` at a word boundary |
| MissionResolver.VisibleMissions | src/services/chatbot.py:101-107 | the candidate rows are exactly the missions whose id is visible: every row is the (id, code, name) of a mission with a visible id, and every such mission has its row |
| MissionResolver.ExactCodeHit | src/services/chatbot.py:84-94 | the exact-code lookup returns a visible row whose code equals the extracted one ignoring case, and returns none iff no such row exists |
| MissionResolver.ScoringWords | src/services/chatbot.py:122 | a mission name's scoring words have at least four letters and are not "mission" |
| MissionResolver.Candidates | src/services/chatbot.py:113-115 | one candidate per visible row, in order, holding that row |
| MissionResolver.CandidateAt | src/services/chatbot.py:113-115 | candidate `i` holds row `i` with its name and code normalized |
| MissionResolver.Scores | src/services/chatbot.py:111-124 | one score per candidate, in order, each the candidate's score |
| MissionResolver.FilterWords | src/services/chatbot.py:122 | the scoring words are name words of at least four letters other than "mission" |
| MissionResolver.WordPoints | src/services/chatbot.py:122-124 | the word points are even and at most two per scoring word |
| MissionResolver.Score | src/services/chatbot.py:114-124 | a score is even, at least 10 when the whole name or code occurs in the question, and at most 20 plus two per scoring word |
| MissionResolver.MaxOf | src/services/chatbot.py:125-128 | the best score bounds every score, and a positive best is some row's score |
| MissionResolver.FirstBest | src/services/chatbot.py:125-128 | the strict `>` update keeps the first row with the best score; there is none iff every score is 0 |
| MissionResolver.ScanStep | src/services/chatbot.py:125-128 | one more row updates the best score and row exactly as the loop body does |
| MissionResolver.PickIndex | src/services/chatbot.py:130 | a row is picked iff some score is at least 4; the pick has the highest score, and every earlier row scores strictly less |
| MissionResolver.ScoredPick | src/services/chatbot.py:98-130 | name scoring finds a mission iff the normalized text has at least 3 characters and some score is at least 4; the pick is the first row with the highest score |
| MissionResolver.ScoredPickScans | src/services/chatbot.py:125-130 | with at least 3 characters and some row, the scored pick is the first best row when the best score is at least 4, and none otherwise |
| MissionResolver.ResolveMission | src/services/chatbot.py:77-130 | no mission is found when none is visible, and a found mission is always a visible one |
| MissionResolver.AddWordPoints | src/services/chatbot.py:122-124 | the inner loop adds two points per scoring word found in the question |
| MissionResolver.WholeMatchPoints | src/services/chatbot.py:116-119 | ten points if the name occurs in the question and ten if the code does |
| MissionResolver.ScoreCandidate | src/services/chatbot.py:114-124 | the loop body's score is the specification score of the row |
| MissionResolver.ScoreRow | src/services/chatbot.py:113-124 | scoring row `i` gives the `i`-th specification score |
| MissionResolver.PickBest | src/services/chatbot.py:110-128 | the scoring loop ends with the maximum score and the first row reaching it |
| MissionResolver.FindMissionByNameOrCode | src/services/chatbot.py:73-130 | the imperative resolver returns exactly `ResolveMission`: empty scope, then exact code, then length guard, then scoring with threshold 4 |
| MissionResolver.ExactCodeWins | src/services/chatbot.py:83-94 | a code that hits a visible mission decides before any name scoring |
| MissionResolver.ScoredChoice | src/services/chatbot.py:96-130 | without a code hit, the result is the name-scoring pick |
| MissionResolver.WordPointsNeedTwoWords | src/services/chatbot.py:122-130 | word points alone reach the threshold only if two positions of the scoring-word list occur in the question (a word the name repeats counts twice) |
| MissionResolver.RepeatedWordCountsTwice | src/services/chatbot.py:122-124 | a name that repeats a scoring word, such as "atlas atlas", keeps both copies and scores 4 from that one word |
| MissionResolver.OneWordPoints | src/services/chatbot.py:122-124 | any word points mean that some scoring word occurs in the question |
| MissionResolver.ThresholdMeaning | src/services/chatbot.py:114-130 | a score of 4 or more means the whole name occurs, or the whole code occurs, or two positions of the scoring-word list occur (a word the name repeats counts twice) |
| Chatbot.RowsIn | src/services/chatbot.py:246-257 | the `WHERE mission_id IN …` filter, one for the hours, risk and finance queries: it keeps exactly the view rows whose mission id is in the set, and no other |
| Chatbot.Rate | src/services/chatbot.py:258-268 | the rate is printed iff sold hours are positive and the rate is non-zero, and then it is consumed × 100 / sold; otherwise it is `N/A` |
| Chatbot.MissionStatusAnswer | src/services/chatbot.py:132-194 | the focus needs the mission's `kpi_mission_hours` row, else the "no KPI" text with no table; finance is shown iff the role is BOARD or ADMIN; the category table appears iff the mission has time entries |
| Chatbot.HelpAnswer | src/services/chatbot.py:230-242 | help has no table, and has the finance example iff the role is BOARD or ADMIN |
| Chatbot.StatusAnswer | src/services/chatbot.py:245-287 | the status counts the visible missions' KPI rows and prints the rate rule; the variance table appears iff that count is non-zero |
| Chatbot.RiskAnswer | src/services/chatbot.py:290-312 | "no risky project" with no table iff no visible mission is in the risk view; otherwise the count and the risk table |
| Chatbot.WhoBusyAnswer | src/services/chatbot.py:315-335 | no visible user, no logged load, or the busiest user with the load table, each exactly in its case |
| Chatbot.TimeSplitAnswer | src/services/chatbot.py:338-358 | the split table appears iff the visible users have time entries; otherwise the "no data" text with no table |
| Chatbot.FinanceAnswer | src/services/chatbot.py:361-403 | refused with no table iff the role is not BOARD or ADMIN; otherwise the sold, cost and margin totals are the sums over the visible missions' finance rows, with the lowest-margin table |
| Chatbot.Route | src/services/chatbot.py:209-219 | a resolved mission short-circuits every intent; without one, an empty mission scope with status, risk or finance gives the no-mission text and no table |
| Chatbot.AnswerQuestion | src/services/chatbot.py:197-219 | the answer routes the mission found in the raw question and the intent of the cleaned question; its tables stay in the caller's scope, and a role without finance access gets no finance |
| Chatbot.MissionFocusComesFirst | src/services/chatbot.py:209-212 | a question naming a visible mission gets that mission's focus, even "aide" |
| Chatbot.EmptyScopeIsRefused | src/services/chatbot.py:214-219 | with no visible mission, status, risk and finance questions get only the no-mission text |
| Chatbot.BlankQuestionGetsHelp | src/services/chatbot.py:204-242 | a whitespace-only question names no mission and gets the help answer |
| Chatbot.RouteFinanceFree | src/services/chatbot.py:173-189 | for roles other than BOARD and ADMIN, no route shows finance totals, a finance block or the finance help line |
| Chatbot.NoFinanceForOtherRoles | src/services/chatbot.py:361-366 | for roles other than BOARD and ADMIN, no answer to any question contains finance data |
| Chatbot.FinanceQuestionRefused | src/services/chatbot.py:361-366 | such a role asking a finance question, with missions visible and no mission named, gets only the refusal |
| Chatbot.RouteInScope | src/services/chatbot.py:221-227 | every table of a routed answer is labelled with the caller's mission or user set, or with a visible mission; labels carry the set the query filters on, so this holds by construction |
| Chatbot.TablesStayInScope | src/services/chatbot.py:209-403 | every table of every answer is labelled with the caller's own mission or user set, or one of its missions |
| Chatbot.StatusCountsVisibleMissions | src/services/chatbot.py:245-262 | the status answer counts and sums exactly the visible missions' KPI rows |
| Chatbot.FinanceSumsVisibleMissions | src/services/chatbot.py:368-384 | for BOARD or ADMIN asking a finance question with missions visible and none named, the totals are the sums over the visible missions' finance rows |
| Chatbot.FinanceSumsBalance | src/services/chatbot.py:368-384 | summed margin plus summed cost equals summed sold amount |
| Chatbot.FinanceTotalsBalance | src/services/chatbot.py:368-384 | in every finance answer, margin + cost = sold |
| Chatbot.RouteFinanceBalances | src/services/chatbot.py:361-384 | in every routed finance answer, margin + cost = sold |
| Chatbot.FinanceViewBalances | src/services/init_db.py:251-253 | each `kpi_finance_mission` row has margin + cost = sold amount |
| Chatbot.FinanceRowsBalance | src/services/init_db.py:243-261 | each finance row built from the missions has margin + cost = sold amount |
| Kpi.ConsumedHours | src/services/init_db.py:184-191 | consumed hours are non-negative for non-negative entries, and 0 when no entry counts against the mission |
| Kpi.ConsumedHoursAppend | src/services/init_db.py:184 | consumed hours add up over concatenated entry lists |
| Kpi.InternalTimeNotConsumed | src/services/init_db.py:188-191 | an `internal` entry never adds to a mission's consumed hours |
| Kpi.ConsumedPct | src/services/init_db.py:185 | the percentage is NULL iff sold hours are 0, and otherwise pct × sold = consumed × 100 |
| Kpi.HoursRowOf | src/services/init_db.py:174-193 | a mission has a row iff it is active and its client exists; the row has sold = days × 8 and the consumed hours |
| Kpi.HoursRows | src/services/init_db.py:174-193 | every row is the hours row of one of the missions, every mission with a row has it in the view, and consumed hours are non-negative for non-negative entries |
| Kpi.MissionHoursView | src/services/init_db.py:174-193 | `kpi_mission_hours` holds the row of every active mission with a client, no more rows than missions and, with distinct mission ids, at most one row per mission, with no negative consumption when no entry is negative |
| Kpi.HoursRowsOnePerMission | src/services/init_db.py:174-193 | with distinct mission ids (src/services/init_db.py:26), no two hours rows share a mission id |
| Kpi.RowFor | src/services/chatbot.py:136-147 | the `WHERE mission_id = ?` lookup, one for the hours and finance views: it finds a row with that mission id, or none iff no row has it |
| Kpi.VarianceHours | src/services/init_db.py:203 | variance + sold = consumed; the variance is positive iff consumed exceeds sold |
| Kpi.Risk | src/services/init_db.py:215-220 | risk levels in order: sold = 0 gives no_sold_load; consumed > sold gives overrun; 10·consumed ≥ 9·sold gives near_limit; otherwise ok, each iff |
| Kpi.RiskViewDropsExactlyOk | src/services/init_db.py:215-222 | for non-negative consumption, a row is in the risk view iff its level is not ok |
| Kpi.RiskRows | src/services/init_db.py:206-222 | every output row passes the `WHERE` (sold = 0 or 10·consumed ≥ 9·sold) with its level, and every hours row that passes it gives its risk row |
| Kpi.RiskRowsFromHours | src/services/init_db.py:206-222 | every risk row is the risk row of some hours row: the view invents no row |
| Kpi.RiskView | src/services/init_db.py:206-222 | `kpi_alert_missions_risk` has the risk row of every `kpi_mission_hours` row passing the `WHERE`, each with its level; with valid time entries no row is ok |
| Kpi.RiskRowsNotOk | src/services/init_db.py:215-222 | rows that pass the `WHERE`, carry their level and consume nothing negative are never ok |
| Kpi.DailyLoad | src/services/init_db.py:224-233 | a user–day row exists iff the user exists, is active and has an entry that day; its hours are that day's sum |
| Kpi.FinanceRowOf | src/services/init_db.py:243-261 | a finance row exists iff the hours row does; it carries the mission's id, code, name, client name, sold amount and daily cost, the consumed hours, cost = consumed / 8 × daily cost, and margin + cost = sold amount |
| Kpi.FinanceRows | src/services/init_db.py:243-261 | no more finance rows than missions and, with distinct mission ids, at most one per mission (what the rows are is `FinanceRowsFromMissions`) |
| Kpi.PresentOnePerKey | src/services/init_db.py:243-261 | keeping the present rows of options whose keys differ keeps the keys different |
| Kpi.Present | src/services/init_db.py:243-261 | keeping the present values never lengthens a list |
| Kpi.PresentFrom | src/services/init_db.py:243-261 | every kept value was present in the list |
| Kpi.PresentComplete | src/services/init_db.py:243-261 | every present value is kept |
| Kpi.FinanceOptions | src/services/init_db.py:243-261 | one entry per mission, its finance row or none |
| Kpi.FinanceRowsFromMissions | src/services/init_db.py:243-261 | every finance row is the finance row of one of the missions, and every mission with a finance row has it in the view |
| Kpi.FinanceView | src/services/init_db.py:243-261 | `kpi_finance_mission` holds the finance row of every mission that has one, no more rows than missions and, with distinct mission ids, at most one per mission |
| Kpi.FinanceRowIffHoursRow | src/services/init_db.py:243-261 | the finance lookup finds mission `mid` iff the hours lookup does |
| Kpi.FinanceRowGivesHoursRow | src/services/init_db.py:243-261 | a mission found in the finance view is found in the hours view |
| Kpi.HoursRowGivesFinanceRow | src/services/init_db.py:243-261 | a mission found in the hours view is found in the finance view |
| Kpi.HoursRowMission | src/services/init_db.py:174-193 | a mission found in the hours view is a mission of the table with an hours row |
| Kpi.FinanceRowFound | src/services/init_db.py:243-261 | a mission with a finance row is found by its id among the finance rows |
| Kpi.Mul | src/services/init_db.py:271-282 | an SQL product is NULL iff a factor is NULL, and otherwise it is the product |
| Kpi.TotalAppend | src/services/init_db.py:268-293 | the per-simulation sums add up over concatenated line lists |
| Kpi.TotalIgnoresOthers | src/services/init_db.py:268-293 | lines of other simulations or other tables add nothing to a sum |
| Kpi.AddedLineTotals | src/services/init_db.py:268-293 | a new line of the simulation adds its own summand to each of its sums |
| Kpi.ExternalLineAdds | src/services/init_db.py:278-285 | an external line adds days × sell rate to revenue and days × buy rate to cost |
| Kpi.InternalLineAdds | src/services/init_db.py:268-277 | an internal line adds days × h/day × rate × billable ratio to revenue and days × h/day × cost rate to cost |
| Kpi.MarginPct | src/services/init_db.py:316-326 | margin_pct is NULL iff revenue is 0, and otherwise pct × revenue = (revenue − cost) × 100 |
| Kpi.SummaryOf | src/services/init_db.py:294-333 | margin = revenue − cost, and margin_pct is NULL iff revenue is 0 |
| Kpi.SimulationSummaryView | src/services/init_db.py:266-333 | one summary row per simulation, lines or not |
| Kpi.SimulationWithoutLines | src/services/init_db.py:294-333 | a simulation without lines keeps its summary row (the LEFT JOINs), with every total 0 and margin_pct NULL |
| Kpi.SummaryUnchangedByOtherLines | src/services/init_db.py:266-333 | swapping lines of one simulation does not change any other simulation's summary |
| Schema.UserById | app.py:285-291 | the lookup finds a user with that id, or none iff no user has it |
| Schema.ClientName | src/services/init_db.py:188-189 | a client name is found iff some client has that id, and a found name is the name of a client with that id |
| Schema.OverrideFor | app.py:402-406 | the override lookup finds the (user, day) override, or none iff no override has that key |
| Calendar.DaysBeforeMonth | app.py:396-397 | the days before a month are never negative |
| Calendar.DaysBeforeYear | app.py:396-397 | the days before a year are never negative |
| Calendar.DaysBeforeYearFormula | src/utils/dates.py:5 | the year-by-year count equals CPython's closed formula p·365 + p/4 − p/100 + p/400 with p = y − 1 |
| Calendar.LeapDayCount | src/utils/dates.py:5 | a year has 365 days, plus one if 4 divides it, less one if 100 does, plus one if 400 does |
| Calendar.MonthsFillYear | app.py:274-275 | the months of a year add up to its length |
| Calendar.MonthsWithinYear | app.py:274-275 | every month ends within its year |
| Calendar.MonthsGrow | app.py:396-397 | a month ends no later than any later month of the year begins |
| Calendar.YearsGrow | app.py:396-397 | a year ends no later than any later year begins |
| Calendar.ToOrdinal | app.py:396 | `toordinal()` puts each date after the days of the years before it and within its own year |
| Calendar.NewMonth | app.py:274-275 | the first day of a month is one day after the last day of the month before |
| Calendar.NewYear | app.py:274-275 | New Year's Day is one day after the 31st of December |
| Calendar.BeforeHasSmallerOrdinal | app.py:349 | a date earlier in (year, month, day) order has the smaller ordinal |
| Calendar.OrdinalOrder | app.py:349 | ordinals order dates exactly as their ISO texts do, so the `BETWEEN` on ISO dates selects the days between in time; equal ordinals mean equal dates |
| Calendar.Weekday | src/utils/dates.py:5 | `weekday()` lies in 0..6, Mondays are the ordinals 1 modulo 7 (0001-01-01 is a Monday) and Sundays the multiples of 7 |
| Calendar.NextDay | app.py:274 | `d + timedelta(days=1)` is a valid date whose ordinal is one more |
| Calendar.PrevDay | app.py:275 | `d - timedelta(days=1)` is a valid date whose ordinal is one less |
| Calendar.AddDays | app.py:397 | `d + timedelta(days=n)` is a valid date whose ordinal is n more |
| Calendar.FourSteps | app.py:274 | adding four days is four single-day steps |
| Calendar.Day28PlusFour | app.py:274 | day 28 plus four days is day 1 to 4 of the next month |
| Dates.WeekBounds | src/utils/dates.py:4-7 | start is a Monday, end = start + 6, start ≤ d ≤ end, and d − start is d's weekday |
| Dates.SameWeekSameBounds | src/utils/dates.py:4-7 | every day of a week has that week's bounds |
| Dates.WeeksAreDisjoint | app.py:188-191 | distinct bounds mean disjoint weeks |
| Periods.MonthBounds | app.py:272-275 | the month period runs from day 1 to the last day of d's month |
| Periods.Period | app.py:264-275 | each period holds its date: a day view is one day, a week runs Monday to Sunday, a month has as many days as the month |
| Periods.PeriodDayCount | app.py:364-397 | `nb_days` of the period is 1 for a day, 7 for a week and the month's length for a month |
| Rbac.MissionIdsForUser | app.py:108-145 | visible missions are always active missions, and are all of them for ADMIN and BOARD |
| Rbac.LeadSeesLedMissions | app.py:119-130 | a LEAD sees exactly the active missions they lead |
| Rbac.ConsultantSeesOwnMissions | app.py:132-145 | any other role sees exactly the active missions assigned to them or carrying one of their time entries |
| Rbac.MissionScopesNest | app.py:108-145 | every role's missions are within the ADMIN scope, and BOARD's equal ADMIN's |
| Rbac.VisibleUserIds | app.py:148-177 | ADMIN and BOARD see all active users; a LEAD sees their team (the active users working on one of their missions) plus themselves; others see only themselves; anyone else shown is an active user |
| Rbac.EmptyTeam | app.py:157-158 | no user works on an empty set of missions |
| Rbac.LeadShortcutAgrees | app.py:157-158 | the `[uid]` shortcut for a LEAD without missions agrees with the general rule |
| Rbac.LeadTeamGrows | app.py:159-174 | more missions never hide a user from a LEAD |
| Rbac.LeadSeesExactlyTheTeam | app.py:154-174 | a LEAD sees a user iff it is themselves or an active user assigned to, or logging time on, one of their missions |
| Rbac.LeadSeesLoggingUsers | app.py:159-174 | an active user with a time entry on one of the LEAD's missions is visible to them |
| Rbac.LeadSeesAssignedUsers | app.py:159-174 | an active user assigned to one of the LEAD's missions is visible to them |
| TimeEntryForm.PrepareEntry | app.py:280-324 | only CONSULTANT and ADMIN can log time; an ADMIN logs for the user they pick, others for themselves; `internal` drops the mission, other categories without one are refused; an empty description is NULL |
| TimeEntryForm.InsertOrIgnore | app.py:320-324 | the entry is appended iff its hours pass the CHECK and its key is free; otherwise the table is unchanged |
| TimeEntryForm.InsertKeepsConstraints | src/services/init_db.py:66-75 | an insert keeps the unique key and the hours CHECK |
| TimeEntryForm.InsertTakesKey | app.py:320-324 | after an insert with allowed hours, the entry's key is in the table |
| TimeEntryForm.InsertOrIgnoreIdempotent | app.py:320-324 | submitting an entry twice stores what submitting it once does |
| CapacityOverrides.CleanReason | app.py:439 | the stored reason is None iff the stripped reason is empty, and otherwise the stripped reason |
| CapacityOverrides.StoredReasonTrimmed | app.py:439 | a stored reason is never blank and has no whitespace at either end |
| CapacityOverrides.PrepareOverride | app.py:417-439 | only ADMIN and LEAD can override; a capacity outside 0..24 is refused by the CHECK; otherwise the override row of the form |
| CapacityOverrides.Upsert | app.py:431-439 | the upsert changes at most one row or adds one |
| CapacityOverrides.UpsertStoresOverride | app.py:431-439 | afterwards the override for (user, day) is the new one |
| CapacityOverrides.UpsertKeepsOthers | app.py:431-439 | every other (user, day) keeps its override or its lack of one |
| CapacityOverrides.UpsertGrowsOnlyForNewKey | app.py:431-439 | a row is added iff (user, day) had no override |
| CapacityOverrides.UpsertKeys | app.py:431-439 | the keys afterwards are the old rows' keys plus the new key |
| CapacityOverrides.UpsertKeepsConstraints | src/services/init_db.py:84-86 | the upsert keeps `UNIQUE (user_id, cap_date)` and the 0..24 CHECK, and exactly the new override holds the key |
| CapacityOverrides.UpsertIdempotent | app.py:431-439 | submitting an override twice stores what submitting it once does |
| SimulationLines.CleanValue | app.py:749-757 | None, "" and NaN take the column default; any other value is kept |
| SimulationLines.CleanRow | app.py:748-762 | the cleaned values follow the column list, each cleaned with its column's default |
| SimulationLines.KeptRows | app.py:743-767 | every kept row belongs to the simulation and table, has one value per column, and is not all blank |
| SimulationLines.KeptRowsAppend | app.py:743-767 | rows are kept in input order, each exactly when its cleaned values are not all in (None, "", 0) |
| SimulationLines.CleanCells | app.py:745-762 | the column loop builds the cleaned values, and its `all_empty` flag is true iff they are all blank |
| SimulationLines.KeptRowsStep | app.py:743-767 | one more editor row adds its line at the end iff it is not all blank |
| SimulationLines.BuildRows | app.py:743-767 | the row loop builds exactly the kept rows |
| SimulationLines.OtherLines | app.py:733 | the DELETE removes exactly the simulation's lines of that table and keeps every other line |
| SimulationLines.ReplaceLines | app.py:733-776 | after the delete and insert, every other line stays, none of the simulation's old lines of that table does, and the kept rows come last |
| SimulationLines.OtherLinesTotal | app.py:733 | the delete changes no sum of another simulation or another table |
| SimulationLines.KeptAddNothingElsewhere | app.py:774-775 | the inserted lines add nothing to another simulation's or table's sums |
| SimulationLines.OtherLinesDropTarget | app.py:733 | after the delete, the simulation's sums over that table are 0 |
| SimulationLines.ReplacedTotals | app.py:733-776 | after the replacement, the simulation's sums over that table are those of the kept rows |
| SimulationLines.UntouchedTotals | app.py:733-776 | every other sum is unchanged by the replacement |
| SimulationLines.OtherSummariesUnchanged | app.py:733-776 | every other simulation's summary is unchanged by the replacement |
| SimulationLines.GuardColumn | app.py:1028-1059 | the guard column is a column of the table |
| SimulationLines.PageDefaults | app.py:1022-1060 | every default the page passes is for a column of its table and is not itself missing; the guard column has a non-blank default |
| SimulationLines.PageKeepsRowsMissingTheGuard | app.py:1022-1060 | with the page's defaults, a row whose `hours_per_day` (or `cost_type`) cell is missing is never skipped |
| SimulationLines.EmptyRowDroppedWithoutDefaults | app.py:731-765 | without defaults, a row whose every cell is blank is skipped |
| Database.Db.constructor | src/services/init_db.py:8-170 | the database object holds the given tables, and is valid exactly when they meet the schema's constraints |
| Database.Db.SubmitTimeEntry | app.py:312-324 | the form's decision is `PrepareEntry`; only a submitted entry is inserted-or-ignored; the key is then taken; the constraints are kept |
| Database.Db.SaveOverride | app.py:430-440 | the form's decision is `PrepareOverride`; a saved override is the (user, day) override afterwards, every other key is unchanged, and the constraints are kept |
| Database.Db.OverwriteLines | app.py:713-776 | nothing changes without an id or for an unknown simulation; otherwise the simulation's lines of the table are replaced by the kept rows, their count is returned, and every other simulation's summary is unchanged |
| CapacityGrid.CapacityOn | app.py:402-406 | the capacity is the override's if there is one, else 8 |
| CapacityGrid.CellFor | app.py:406-413 | a cell has its user and day, the capacity, the logged hours (0 when the load view has no row), and delta = capacity − logged |
| CapacityGrid.RowCells | app.py:401-407 | a user's row has one cell per day of the period, day by day |
| CapacityGrid.GridShape | app.py:399-407 | the grid has one row of n cells per user, users in list order |
| CapacityGrid.CellPosition | app.py:399-407 | the cell of user i on day j is at i·n + j |
| CapacityGrid.BuildGrid | app.py:399-413 | the nested loop builds exactly the grid |
| CapacityGrid.GridDays | app.py:396-407 | every cell falls on one of the n days from the period's start |
| CapacityGrid.CapacityPage | app.py:358-413 | the page takes the period of the chosen view, lists `nb_days = (end - start).days + 1` days, and builds the grid of |users|·nb_days cells, each dated within the period |
| CapacityGrid.GridBounds | app.py:402-413 | with the tables' constraints, each capacity is within 0..24 and no logged hours are negative |
| CapacityGrid.SummaryBalances | app.py:413 | summed delta = summed capacity − summed logged hours |
| CapacityGrid.GridCellsBalance | app.py:413 | every grid cell has delta = capacity − logged |
| CapacityGrid.GridSummaryBalances | app.py:413 | the grid's summed delta is summed capacity minus summed logged hours |

## Left out

- User interface: Streamlit rendering, widgets, session state, reruns and navigation are presentation. The values a form submits are parameters.
- Passwords, settings, seeding and import: password hashing, settings loading, CSV seeding, demo reset and ZIP import are I/O.
- Text rendering: the chatbot's texts, the tables' titles and columns, thousands separators and `:.0f`/`:.1f` formatting are not modelled. An answer is a reply constructor and a list of table names, each with the id set it is filtered on.
- Query order: ORDER BY and LIMIT in the chatbot's tables and on the pages' user and mission lists. A table is named by its filter, not its rows in order.
- Kpi.HoursRowOf: `ROUND(…, 2)` on sold hours and `ROUND(…, 1)` on the percentage are not applied; amounts are exact reals.
- Kpi.FinanceRowOf: `ROUND(…, 2)` on cost and margin is not applied, so margin + cost = sold amount holds exactly.
- Kpi.SummaryOf: `ROUND(…, 1)` on margin_pct is not applied.
- Kpi.NumberOf: SQLite's type affinity is not modelled. A text value in a numeric line column counts as NULL in the sums.
- Text.Lower: lower-casing and whitespace are ASCII only. The whitespace set is the ten ASCII characters `str.strip()` and `\s` both accept: space, tab, newline, carriage return, vertical tab, form feed and the separators 0x1C to 0x1F. Python's `str.lower()` and `\s` also cover non-ASCII letters such as "À" and Unicode spaces.
- MissionCodes.MatchAt: `\d` is the ASCII digits, and `\b` uses ASCII word characters.
- Chatbot.WhoBusyAnswer: the busiest user is not named. Grouping `kpi_user_load_daily` by `user_name` and taking the top row are left out with the ordering.
- Chatbot.ChatContext: the `username=` argument the chatbot section passes is not modelled, since the dataclass does not accept it.
- Rbac.MissionIdsForUser: the result is a set. The order of SQL rows, and the sorting of the LEAD's user list, are not represented.
- TimeEntryForm.PrepareEntry: the picked user and mission come from lists the form builds (active users, visible missions). These are taken as given and not re-checked. Hours come from the list 1, 4, 8, and the model still lets the CHECK reject any other value.
- Database.Db.OverwriteLines:
  - it assumes the column list passed is the table's own, as at all three call sites (`app.py:1022-1060`);
  - NOT NULL, CHECK and foreign-key failures of the executed insert are not modelled;
  - a failing insert raises before `conn.commit()` (`app.py:774-775`) and the connection rolls back (`src/db.py:15-17`), so that call changes nothing; the tables replaced by earlier calls of the same save (`app.py:1022-1060`) stay replaced. The model has no failing insert, so it does not show this partial save.
- Calendar.Valid: the upper date limit (year 9999) and Python's `OverflowError` are not modelled. Dates are proleptic Gregorian from year 1.
- CapacityGrid.CapacityPage: takes any of the three views, while the capacity page's radio offers only the week and the month; the day view gives a one-day grid.
- Kpi.MissionHoursView, Kpi.FinanceRows, Kpi.FinanceView: one row per mission is stated under `MissionIdsUnique`, the primary key of `missions`, because the store value does not carry that key as a type invariant.
- CapacityGrid.BuildGrid: the user list is a parameter, since it is the ordered query result over the visible users. Each cell's override lookup is the table function `OverrideFor`, not a query.
- Transactions and concurrency: concurrent sessions and SQLite transactions are not modelled; every write is atomic.
