# HR risk backend: a verified model

This project models the decision logic of an HR analytics backend. The backend is a FastAPI
service over DynamoDB tables and pandas frames. It scores employee surveys into risk rates and
bands, watches those scores for threshold crossings, and pushes alerts to dashboards over
WebSockets. It also serves filtered, sorted and paginated views of employees, departments,
feedback, themes and interventions, and it cleans up the JSON replies of language models.

The model has one Dafny module per source file, plus a few shared modules:

- **Alerts.** `RiskMonitor` models the two "already alerted" sets as the fields of a class.
  Each scan raises an alert only when an id enters the alarming state: department risk
  "critical", or employee stress above 40. An id that leaves that state is re-armed.
- **Broadcast.** `WebsocketAlerts` models the connection registry as a class over a sequence
  of sockets. A broadcast drops exactly the sockets whose send failed.
- **Sync.** `DbSync` models the survey synchronisation as an event log. Table writes and the
  two risk checks are the events, in order.
- **Scoring.** `RiskEngineHelpers`, `RiskEngine`, `Upload`, `UploadCells`, `Team`,
  `Departments`, `Employees`, `Metrics`, `MetricsAggregate`, `Theme` and `Insight` model the
  scoring rules and the route logic:
  - Likert-to-percentage formulas with clipping, count-based tiers and a TTL cache;
  - risk bands and newest-record-per-key selection;
  - group-by maps, offset/limit pages, and update-expression strings;
  - the life cycle of the upload task registry.
- **Model replies.** `LlmJson`, `RecommendationAgent` and `NlpEngine` model the clean-up of a
  language model's reply as composed string functions. Post-processing of the decoded
  micro-actions is a loop proved against a specification function.
- **Classification.** `Filters`, `Quarter` and `SeasonDetect` model the filter menus, the
  quarter of a date, and the festival classification of a date.
- **Shared.**
  - `Calendar`: Python's `datetime` arithmetic, `strptime("%Y-%m-%d")` and
    `isocalendar()`.
  - `PyText`: the `str` methods used.
  - `Sorting`: stable sorting, sorted-unique lists and keep-first de-duplication.
  - `Stats`: sums, means and counts over exact reals.
  - `Store` and `Frames`: DynamoDB items and frames.
  - `Wrappers`: Option, Result and Outcome.

External effects are parameters of the operations. This covers table reads, language-model and
translator replies, send failures, the clock, and generated ids. An exception is an `Err` or
`Raised` value carrying its message.

## Model

| member | source | states |
|---|---|---|
| RiskMonitor.EmployeeStep | backend/utils/risk_monitor.py:95-127 | one employee item: no `stress_rate` is skipped with nothing changed; a text rate raises; a number alerts iff it is above 40 and the id is not yet alerted, and afterwards the id is alerted iff the rate is above 40 (added when it rises, removed when it is at most 40) |
| RiskMonitor.DepartmentStep | backend/utils/risk_monitor.py:40-65 | one department item: a non-text `overall_risk` raises; otherwise an alert iff the lower-cased risk is "critical" and the id is not yet alerted, and afterwards the id is alerted iff the risk is "critical" |
| RiskMonitor.ScanAgrees | backend/utils/risk_monitor.py:40-65 | after an error-free scan of a snapshot with distinct keys, a key is in the alerted set exactly when its item is in the alarming state |
| RiskMonitor.ScanOfAgreeingIsQuiet | backend/utils/risk_monitor.py:47-65 | scanning items that the alerted set already agrees with raises no alert and leaves the set unchanged |
| RiskMonitor.RescanIsQuiet | backend/utils/risk_monitor.py:106-127 | scanning the same snapshot a second time raises no alert and leaves the alerted set as the first scan left it |
| RiskMonitor.FirstRaise | backend/utils/risk_monitor.py:30-68 | the index of the first item whose processing raises: every item before it is error-free, and the item at it raises |
| RiskMonitor.ScanStopsAtError | backend/utils/risk_monitor.py:30-68 | an error ends the loop where it happens: the alerts and set changes made before it are kept, and the scan fails exactly when some item raises |
| RiskMonitor.RaiseFreeNeverFails | backend/utils/risk_monitor.py:85-130 | a scan in which no item raises never reports failure |
| RiskMonitor.ScanFrame | backend/utils/risk_monitor.py:59-64 | a key that no scanned item carries keeps its alerted status |
| RiskMonitor.AlertsBounded | backend/utils/risk_monitor.py:47-59 | a scan raises at most one alert per item, and the alerted set grows only by keys of scanned items |
| RiskMonitor.StopIsFinal | backend/utils/risk_monitor.py:67-68 | once a prefix of the scan has failed, the rest of the items change nothing |
| RiskMonitor.BroadcastAlerts | backend/utils/risk_monitor.py:70-74 | the alerts are broadcast one after the other in production order: registry and sent messages are those of the broadcasts in sequence |
| RiskMonitor.Monitor.constructor | backend/utils/risk_monitor.py:11-12 | both alerted sets start empty |
| RiskMonitor.Monitor.CheckDepartmentRisks | backend/utils/risk_monitor.py:22-74 | the returned alerts and the new department set are those of the scan of the snapshot (none when the read fails); the employee set is unchanged; the alerts are exactly what is broadcast |
| RiskMonitor.Monitor.CheckEmployeeStress | backend/utils/risk_monitor.py:77-136 | the returned alerts and the new employee set are those of the scan of the snapshot; the department set is unchanged; the alerts are exactly what is broadcast |
| RiskMonitor.Monitor.ResetAlertState | backend/utils/risk_monitor.py:164-168 | both alerted sets become empty |
| RiskMonitor.DetectAndNotify | backend/utils/risk_monitor.py:139-161 | departments are checked before employees, each check's alerts are those of its scan, all department broadcasts precede the employee broadcasts, and total is the sum of both counts |
| RiskMonitor.StressCrossingScenario | backend/utils/risk_monitor.py:105-127 | one employee at stress 65.5, 65.5, 35, 50 over four scans: alert, silence, re-arm, alert again |
| WebsocketAlerts.RemoveFirstAbsent | backend/api/v1/routes/websocket_alerts.py:23-27 | `disconnect` of a socket that is not registered leaves the registry unchanged |
| WebsocketAlerts.IndexOf | backend/api/v1/routes/websocket_alerts.py:25-26 | the position of the first registration of a registered socket |
| WebsocketAlerts.RemoveFirstRemovesOne | backend/api/v1/routes/websocket_alerts.py:25-26 | `list.remove` takes out the first registration only; the sockets before and after it keep their order |
| WebsocketAlerts.RemoveFirstMultiset | backend/api/v1/routes/websocket_alerts.py:23-27 | as a multiset, the registry loses exactly one registration of the socket (none if it had none) |
| WebsocketAlerts.BroadcastStep | backend/api/v1/routes/websocket_alerts.py:38-43 | one more socket visited by the send loop: it gets the message, or it is appended to `disconnected` when its send fails |
| WebsocketAlerts.RemoveNextFailed | backend/api/v1/routes/websocket_alerts.py:46-47 | removing the failed sockets one at a time, each removal takes out the next failed registration |
| WebsocketAlerts.DropAllFailed | backend/api/v1/routes/websocket_alerts.py:45-47 | after the clean-up loop the registry is the surviving sockets in their original order |
| WebsocketAlerts.SplitMembers | backend/api/v1/routes/websocket_alerts.py:38-47 | a socket survives a broadcast iff it was registered and its send did not fail; it is in `disconnected` iff its send failed; survivors and failures add up to the registry |
| WebsocketAlerts.BroadcastAccounting | backend/api/v1/routes/websocket_alerts.py:35-47 | every registered socket either accepted the one serialised message or was dropped; each delivery carries that message to a survivor |
| WebsocketAlerts.MessagesToConcat | backend/api/v1/routes/websocket_alerts.py:38-40 | the messages one socket receives from two successive runs of sends are those of the first run followed by those of the second |
| WebsocketAlerts.OneDeliveryEach | backend/api/v1/routes/websocket_alerts.py:38-43 | a socket registered once whose send succeeds receives the broadcast message exactly once |
| WebsocketAlerts.SurvivorCount | backend/api/v1/routes/websocket_alerts.py:45-47 | a socket whose send succeeds keeps all its registrations |
| WebsocketAlerts.NotRegisteredNoDelivery | backend/api/v1/routes/websocket_alerts.py:38-40 | a socket that is not registered receives nothing from a broadcast |
| WebsocketAlerts.HealthySocketStays | backend/api/v1/routes/websocket_alerts.py:29-47 | a socket registered once whose sends never fail is still registered once after any run of broadcasts |
| WebsocketAlerts.HealthySocketGetsEveryMessage | backend/api/v1/routes/websocket_alerts.py:29-47 | such a socket receives every broadcast message, once each, in broadcast order |
| WebsocketAlerts.SessionEnd | backend/api/v1/routes/websocket_alerts.py:102-114 | the index of the first client event that ends the receive loop: every event before it is a received text and the one at it is a disconnect or a receive error |
| WebsocketAlerts.PingRepliesSpec | backend/api/v1/routes/websocket_alerts.py:103-109 | every reply is a pong; there is a reply iff some text of the session was "ping"; other text is ignored |
| WebsocketAlerts.PersonalSnoc | backend/api/v1/routes/websocket_alerts.py:49-54 | one more personal message appends one delivery to that socket (none when it is unreachable) |
| WebsocketAlerts.PersonalOnlyToItsSocket | backend/api/v1/routes/websocket_alerts.py:49-54 | personal messages reach no other socket, and a reachable socket gets them all in order |
| WebsocketAlerts.ConnectionManager.constructor | backend/api/v1/routes/websocket_alerts.py:14-15 | a fresh manager has no connections and has sent nothing |
| WebsocketAlerts.ConnectionManager.Connect | backend/api/v1/routes/websocket_alerts.py:17-21 | the socket is appended at the end of the registry; nothing is sent |
| WebsocketAlerts.ConnectionManager.Disconnect | backend/api/v1/routes/websocket_alerts.py:23-27 | the first registration of the socket is removed if there is one; nothing is sent |
| WebsocketAlerts.ConnectionManager.Broadcast | backend/api/v1/routes/websocket_alerts.py:29-47 | the registry becomes the sockets whose send did not fail, in order, and the sent log grows by one delivery per such socket in registry order; an empty registry changes nothing; it never raises |
| WebsocketAlerts.ConnectionManager.SendAll | backend/api/v1/routes/websocket_alerts.py:35-43 | the send loop: the registry is untouched, the failed sockets are returned in registry order, the others each get one delivery |
| WebsocketAlerts.ConnectionManager.RemoveDisconnected | backend/api/v1/routes/websocket_alerts.py:45-47 | `disconnect` of each failed socket leaves exactly the survivors, in order |
| WebsocketAlerts.ConnectionManager.SendPersonal | backend/api/v1/routes/websocket_alerts.py:49-54 | a personal message is delivered to that socket only, is dropped silently when the send fails, and never changes the registry |
| WebsocketAlerts.AlertsEndpoint | backend/api/v1/routes/websocket_alerts.py:61-114 | the client is registered and greeted, each "ping" up to the end of the session is answered with a pong to that client only, and on a disconnect or receive error the socket's registration is removed |
| DbSync.LatestKeys | backend/utils/db_sync.py:28-35 | after the sort and `drop_duplicates`, every employee of the input appears exactly once and every kept row is an input row |
| DbSync.LatestIsNewest | backend/utils/db_sync.py:30-35 | with a date column nothing an employee submitted is newer than the row kept for them (missing dates sort last) |
| DbSync.LatestIsFirst | backend/utils/db_sync.py:34-35 | without a date column the row kept for an employee is their first row |
| DbSync.NewestRow | backend/utils/db_sync.py:28-35 | the submission used for an employee: one of their rows, the newest one when there is a date column, else the first |
| DbSync.Alias | backend/utils/db_sync.py:64-66 | the placeholder `#col` / `:col` is the marker followed by the column name |
| DbSync.ColumnValues | backend/utils/db_sync.py:106 | the non-NaN values of one metric column in a department's rows, at most one per row |
| DbSync.SetColumnsNames | backend/utils/db_sync.py:58-66 | the metric loop names `#c` and binds `:c` exactly for the listed columns that have a value |
| DbSync.SetColumnsBindings | backend/utils/db_sync.py:58-66 | each listed column with a value has `#c` naming `c` and `:c` bound to that value |
| DbSync.SetColumnsKeys | backend/utils/db_sync.py:64-65 | the metric loop adds no name other than `#` followed by a listed column |
| DbSync.MetricsOnlyColumn | backend/utils/db_sync.py:58-66 | for one of the eleven metric columns: named iff it has a value, and then bound to it |
| DbSync.AliasDiffers | backend/utils/db_sync.py:64-78 | no metric placeholder collides with `#div`, `:div`, `#ua` or `:ua` |
| DbSync.SetOther | backend/utils/db_sync.py:64-78 | adding one assignment leaves every other name and value as it was |
| DbSync.SourceUpdateColumn | backend/utils/db_sync.py:57-78 | in the full update a metric column is named iff it has a value, and is then bound to that value |
| DbSync.SourceUpdateColumns | backend/utils/db_sync.py:57-78 | the metric part of an update: exactly the metric columns with a non-NaN value, each bound to its value |
| DbSync.SourceUpdateDivisionAndTime | backend/utils/db_sync.py:68-78 | `#div` is named iff it is an employee row with a department, and then binds the department text to `division`; `#ua` always names `metrics_updated_at`, bound to the sync time |
| DbSync.SetNames | backend/utils/db_sync.py:64-78 | one assignment adds only its own name |
| DbSync.MetricsOnlyKeys | backend/utils/db_sync.py:58-66 | the metric part names only metric columns |
| DbSync.SourceUpdateNamesOnly | backend/utils/db_sync.py:57-78 | an update names nothing but metric columns, `#div` and `#ua` |
| DbSync.SourceUpdateExpression | backend/utils/db_sync.py:76-84 | the update expression starts with "SET " and ends with the timestamp assignment `#ua = :ua` |
| DbSync.EmployeeEvents | backend/utils/db_sync.py:49-89 | every event of the employee loop is an employee update for a usable id |
| DbSync.EmployeeEventsCover | backend/utils/db_sync.py:49-51 | a usable id is written iff it occurs among the newest rows; ids that are empty or "nan" are never written |
| DbSync.EmployeeEventsDistinct | backend/utils/db_sync.py:49-89 | over rows with distinct ids no employee is written twice |
| DbSync.EmployeeEventsFromRows | backend/utils/db_sync.py:49-87 | over rows with distinct ids each employee update is built from that employee's row |
| DbSync.IdsOf | backend/utils/db_sync.py:101-102 | the name-to-id map holds every department name that some scanned item carries |
| DbSync.NamesOf | backend/utils/db_sync.py:106 | the department groups are exactly the non-NaN department names of the newest rows |
| DbSync.DepartmentEvents | backend/utils/db_sync.py:108-142 | the department loop writes at most one update per group, each under a true-valued id |
| DbSync.DepartmentEventsCover | backend/utils/db_sync.py:108-138 | each department whose name has a true-valued id is written with that id and the column means of its newest rows |
| DbSync.DepartmentEventsFromNames | backend/utils/db_sync.py:108-142 | every department write is that of a listed department whose name has an id; the others are skipped |
| DbSync.PhasesConcatenated | backend/utils/db_sync.py:49-146 | employee updates, then the stress check, then department updates, then (when reached) the department check: each kind follows every event of an earlier kind |
| DbSync.FullSync | backend/utils/db_sync.py:20-146 | an empty input writes nothing and triggers no check; a missing employee id column, or a date column that does not parse, raises before any write (lines 31, 35); otherwise the stress check runs after all employee updates; the sync raises exactly when one of those steps, the department scan or the department grouping (line 106) raises, and the department check runs exactly when nothing raised |
| DbSync.SyncedEmployees | backend/utils/db_sync.py:28-89 | the sync writes exactly the input employees with a usable id, each once, each from their newest submission |
| DbSync.PerformFullSync | backend/utils/db_sync.py:12-148 | the loops produce exactly the writes and checks of `FullSync`, in order, and report whether a frame step, the department scan or the grouping raised |
| DbSync.SyncEmployees | backend/utils/db_sync.py:49-89 | the employee loop produces exactly `EmployeeEvents` of the newest rows |
| DbSync.SyncDepartments | backend/utils/db_sync.py:108-142 | the department loop produces exactly `DepartmentEvents` of the groups |
| DbSync.BuildUpdate | backend/utils/db_sync.py:53-78 | the `update_parts`/`expr_names`/`expr_vals` loop builds exactly `SourceUpdate` of the row |
| RiskEngineHelpers.Clip | backend/utils/risk_engine_helpers.py:61 | `clip(lo, hi)` lies in [lo, hi] and leaves a value already in range unchanged |
| RiskEngineHelpers.LikertPercent | backend/utils/risk_engine_helpers.py:68-72 | the engagement formula `((x-1)/4*100).clip(0,100)` always lies in [0, 100] |
| RiskEngineHelpers.InverseRate | backend/utils/risk_engine_helpers.py:55-61 | the inverse formula `((6-(a+b)/2)-1)/4*100` clipped always lies in [0, 100] |
| RiskEngineHelpers.LikertPercentLinear | backend/utils/risk_engine_helpers.py:68-72 | on the 1..5 scale the rate is (x-1)*25, so 1 maps to 0 and 5 to 100; below 1 it is 0 and above 5 it is 100 |
| RiskEngineHelpers.LikertPercentMonotone | backend/utils/risk_engine_helpers.py:72 | the engagement rate never decreases as the dimension score grows |
| RiskEngineHelpers.InverseRateComplement | backend/utils/risk_engine_helpers.py:57-61 | on the 1..5 scale the stress rate is 100 minus the Likert percentage of the mean support score |
| RiskEngineHelpers.InverseRateAntitone | backend/utils/risk_engine_helpers.py:55-61 | the stress rate never increases as enablement + culture grows |
| RiskEngineHelpers.TurnoverLabel | backend/utils/risk_engine_helpers.py:88-94 | "High" iff the rate is at least 75, "Medium" iff it is in [50, 75), "Low" otherwise, including NaN |
| RiskEngineHelpers.TurnoverLabelOfAnswers | backend/utils/risk_engine_helpers.py:81-94 | in terms of the answers: High iff Q1+Q12 <= 4, Medium iff 4 < Q1+Q12 <= 6, Low iff Q1+Q12 > 6 |
| RiskEngineHelpers.FirstMatch | backend/utils/risk_engine_helpers.py:33-34 | `candidates[0]`: the first column satisfying the test, with none before it; None iff no column does |
| RiskEngineHelpers.FirstColumn | backend/utils/risk_engine_helpers.py:33-34 | a matching column of the frame, or None iff no column matches |
| RiskEngineHelpers.GetCol | backend/utils/risk_engine_helpers.py:31-34 | `get_col(n)` returns a column that starts with "Q{n}_" or equals "Q{n}", None iff there is none |
| RiskEngineHelpers.QuestionColumnUnique | backend/utils/risk_engine_helpers.py:33 | a column name is the column of at most one question number, so the lookup for Q1 never picks "Q12_…" |
| RiskEngineHelpers.QuestionDigits | backend/utils/risk_engine_helpers.py:33 | a question column is "Q", the digits of n, then the end of the name or "_" |
| RiskEngineHelpers.GetColDistinct | backend/utils/risk_engine_helpers.py:31-34 | the columns found for two different question numbers are different |
| RiskEngineHelpers.LooseColumn | backend/utils/risk_engine_helpers.py:174-178 | the loose lookup returns a column that contains the query or starts with its text before the first "_", None iff none does |
| RiskEngineHelpers.LooseMatchTakesPrefix | backend/utils/risk_engine_helpers.py:176 | a query such as "Q1_Recommend" matches the first column that starts with "Q1", so "Q10_Sup_Informed" ahead of it is taken |
| RiskEngineHelpers.LooseColumnFirst | backend/utils/risk_engine_helpers.py:176-178 | the first column that matches loosely is the one used |
| RiskEngineHelpers.TwoCharacterPrefix | backend/utils/risk_engine_helpers.py:176 | `q.split('_')[0]` of a query whose third character is "_" is its first two characters |
| RiskEngineHelpers.GetColTakesOwnQuestion | backend/utils/risk_engine_helpers.py:31-34 | with "Q10_Sup_Informed" listed before "Q1_Recommend", `get_col(1)` returns "Q1_Recommend" |
| RiskEngineHelpers.RenameColumns | backend/utils/risk_engine_helpers.py:143-146 | the rename keeps the number of columns |
| RiskEngineHelpers.RenameColumnsNormalises | backend/utils/risk_engine_helpers.py:143-146 | afterwards neither 'mployee_id' nor 'Employee_ID' is left; 'employee_id' is present iff one of the three names was; other columns are untouched |
| RiskEngineHelpers.Present | backend/utils/risk_engine_helpers.py:38-39 | the found columns with the missing ones filtered out |
| RiskEngineHelpers.Answers | backend/utils/risk_engine_helpers.py:43 | the non-NaN answers of a row in the dimension's columns; empty iff the row has none of them |
| RiskEngineHelpers.AnswersOnScale | backend/utils/risk_engine_helpers.py:43 | on a row of 1..5 answers every collected answer is on the scale |
| RiskEngineHelpers.DimensionScoreOnScale | backend/utils/risk_engine_helpers.py:41-45 | a dimension score of 1..5 answers is on the 1..5 scale, except the 0.0 that the survey calculation gives a dimension without columns |
| RiskEngineHelpers.DimensionTableQuestionNamed | backend/utils/risk_engine_helpers.py:150-159 | every query of the survey dimension table starts with "Q" |
| RiskEngineHelpers.NoColumnDimension | backend/utils/risk_engine_helpers.py:41-45 | a dimension with no matching column is None in the row calculation but 0.0 in the survey calculation (lines 180-183) |
| RiskEngineHelpers.NonePresent | backend/utils/risk_engine_helpers.py:39 | when no question column was found, nothing is left after the filter |
| RiskEngineHelpers.NoQuestionColumn | backend/utils/risk_engine_helpers.py:33 | a name without "Q" is the column of no question |
| RiskEngineHelpers.NoLooseMatch | backend/utils/risk_engine_helpers.py:176 | a name without "Q" matches no "Q…" query loosely |
| RiskEngineHelpers.DimensionScoresLookup | backend/utils/risk_engine_helpers.py:37-45 | one entry per dimension of the table, each holding that dimension's score |
| RiskEngineHelpers.ScoresByLookup | backend/utils/risk_engine_helpers.py:171-183 | a map built dimension by dimension holds exactly the dimensions' names, each with its own score |
| RiskEngineHelpers.DimensionScoresStep | backend/utils/risk_engine_helpers.py:37-45 | one more pass of the dimension loop adds that dimension's column |
| RiskEngineHelpers.DimensionTableNames | backend/utils/risk_engine_helpers.py:19-28 | the eight dimension names are distinct |
| RiskEngineHelpers.ScoreDimension | backend/utils/risk_engine_helpers.py:38-45 | one dimension's column cell: the row mean of its found columns, None or 0.0 when none was found |
| RiskEngineHelpers.AddDimensionColumns | backend/utils/risk_engine_helpers.py:37-45 | the dimension loop gives exactly the map of dimension scores |
| RiskEngineHelpers.InverseOf | backend/utils/risk_engine_helpers.py:55-64 | the inverse rate is defined iff both inputs are (NaN propagates) |
| RiskEngineHelpers.RowAttrition | backend/utils/risk_engine_helpers.py:78-96 | the row attrition rate is a percentage; a turnover label is written iff both the Q1 and the Q12 column exist, and it is the label of the rate |
| RiskEngineHelpers.SurveyAttrition | backend/utils/risk_engine_helpers.py:199-206 | the survey attrition rate is a percentage |
| RiskEngineHelpers.ScoresOf | backend/utils/risk_engine_helpers.py:6-128 | the three rates of a row are percentages, its dimensions are the dimension scores, and the survey calculation writes no turnover label |
| RiskEngineHelpers.RowTurnoverLabel | backend/utils/risk_engine_helpers.py:81-94 | with both columns the label is High iff Q1+Q12 <= 4 and Medium iff 4 < Q1+Q12 <= 6, and Low when an answer is NaN |
| RiskEngineHelpers.MissingAttritionColumns | backend/utils/risk_engine_helpers.py:199-206 | without Q1/Q12 columns the survey attrition falls back to 0.0, while the row calculation writes NaN and no label (lines 95-96) |
| RiskEngineHelpers.StressOfDimensions | backend/utils/risk_engine_helpers.py:55-61 | the stress rate from enablement and culture is 100 minus the Likert percentage of their mean, and it never increases as their sum grows |
| RiskEngineHelpers.TemporalPresence | backend/utils/risk_engine_helpers.py:101-126 | without a date column all four fields are None and the event season is present exactly when there is one; the quarter is present iff the cell parses as `YYYY-MM-DD` (`get_quarter`), month and year iff `pd.to_datetime` parses it, two parses that need not agree |
| RiskEngineHelpers.TemporalFields | backend/utils/risk_engine_helpers.py:99-126 | a quarter is one of Q1..Q4, a month a month name, a year in 1..9999, and month and year are present together |
| RiskEngineHelpers.TemporalParsesDiffer | backend/utils/risk_engine_helpers.py:104-120 | a day-first date such as "15/03/2024" that `pd.to_datetime` reads gets month March and year 2024 but no quarter, because `get_quarter` only reads `YYYY-MM-DD` |
| RiskEngineHelpers.SeasonNormalDay | backend/utils/risk_engine_helpers.py:108-115 | the event season is "normal day" iff the date does not parse or lies more than 15 days from every holiday |
| RiskEngineHelpers.Season | backend/utils/risk_engine_helpers.py:108-112 | "normal day" when the date does not parse, and never the empty text |
| RiskEngineHelpers.TemporalOfIsoDate | backend/utils/risk_engine_helpers.py:101-120 | a `YYYY-MM-DD` date gets its quarter, its season, its month name and its year |
| RiskEngine.CachedCall | backend/utils/risk_engine.py:47-63 | the wrapped function is called iff the entry is missing or at least 300 s old; afterwards the key has an entry and every other entry is unchanged |
| RiskEngine.CachedCallResult | backend/utils/risk_engine.py:53-63 | a hit returns a copy of the cached data and leaves the cache alone; a miss returns the fresh result and stores it with the time after the call |
| RiskEngine.RepeatWithinTtl | backend/utils/risk_engine.py:53-56 | a second call within 300 s of the stored time does not call the function and returns the same data |
| RiskEngine.ExpiredEntryRefetched | backend/utils/risk_engine.py:55-59 | an entry 300 s old or older is refetched |
| RiskEngine.DataCache.constructor | backend/utils/risk_engine.py:41 | the cache starts empty |
| RiskEngine.DataCache.Call | backend/utils/risk_engine.py:43-65 | one call of the wrapper: result, whether the function was called, and the new cache are those of `CachedCall`; the key is the prefix only, so the arguments play no part |
| RiskEngine.PercentWithin | backend/utils/risk_engine.py:326-330 | a count out of a non-empty total is a percentage in [0, 100] |
| RiskEngine.PercentMonotone | backend/utils/risk_engine.py:381-383 | a larger count out of the same total gives a larger or equal percentage |
| RiskEngine.RatioWithin | backend/utils/risk_engine.py:269-273 | a difference bounded by the total gives a ratio in [-1, 1], reaching the ends exactly at the ends |
| RiskEngine.EnpsScore | backend/utils/risk_engine.py:257-273 | the eNPS is NaN iff there are no scores |
| RiskEngine.PromotersAreNotDetractors | backend/utils/risk_engine.py:269-270 | a score is never both a promoter (== 5) and a detractor (<= 3) |
| RiskEngine.EnpsWithin | backend/utils/risk_engine.py:262-273 | the eNPS of a non-empty sample lies in [-100, 100]; all promoters give 100 and all detractors -100 |
| RiskEngine.Aligned | backend/utils/risk_engine.py:317-320 | the index intersection keeps only the rows where both answers exist |
| RiskEngine.RateOf | backend/utils/risk_engine.py:322-330 | a tier rate is NaN iff no row is aligned, else a percentage |
| RiskEngine.BurnoutTiersNest | backend/utils/risk_engine.py:373-387 | severe <= moderate <= at-risk <= total, the rates in the same order, and the severe rate equals `calculate_burnout_rate` |
| RiskEngine.BurnoutScoreOnScale | backend/utils/risk_engine.py:275-290 | the burnout score is defined iff some row is aligned, and then lies on the 1..5 scale |
| RiskEngine.TurnoverTiers | backend/utils/risk_engine.py:476-492 | high-risk <= detractors and high-risk <= low-growth; the moderate count is detractors + low-growth - high-risk; the rate of `calculate_turnover_risk` (both <= 2) is at most the detailed high-risk rate (<= 6 and <= 2) |
| RiskEngine.ResponseRate | backend/utils/risk_engine.py:494-501 | the response rate is NaN iff there are no employees |
| RiskEngine.ResponseRateWithin | backend/utils/risk_engine.py:494-501 | with at most as many responses as employees the rate lies in [0, 100], and it is 100 iff everyone responded |
| RiskEngine.Season | backend/utils/risk_engine.py:670-674 | months 12, 1, 2 are Winter, 3-5 Spring, 6-8 Summer, anything else Fall |
| RiskEngine.FirstScored | backend/utils/risk_engine.py:639-645 | the first listed survey column present in the row with a non-zero value, None iff there is none |
| RiskEngine.HasValidSurveyScoresIff | backend/utils/risk_engine.py:621-645 | `has_valid_survey_scores` holds iff one of the five listed columns is present with a non-null, non-zero value |
| RiskEngine.GroupColumns | backend/utils/risk_engine.py:712-719 | the grouping columns are the requested (or default Department, Year, Quarter) columns that exist; None, where a ValueError is raised, iff none of them exists |
| RiskEngine.KeepPresent | backend/utils/risk_engine.py:716 | the filter keeps exactly the requested columns that the frame has |
| RiskEngine.SurveyResponses | backend/utils/risk_engine.py:739-741 | the survey responses of a group are its records with valid survey scores |
| RiskEngine.RespondentsBounded | backend/utils/risk_engine.py:743-750 | there are never more distinct respondents than records |
| RiskEngine.GroupCountsOf | backend/utils/risk_engine.py:730-777 | the total feedback count is the group size, the open-text-only count is the records without valid scores, and responses + open-text-only never exceed the total |
| RiskEngine.AggregateGroups | backend/utils/risk_engine.py:721-807 | the group loop gives one result per group, each the counts of that group |
| RiskEngine.RiskSummaryFilter | backend/utils/risk_engine.py:870-871 | `get_risk_summary` raises ValueError iff neither a department nor a position is given |
| Upload.OverallRisk | backend/api/v1/routes/upload.py:86-100 | "critical" iff engagement < 55, stress > 50 or attrition > 50 (a missing or zero value counting as 0); "warning" iff not critical and engagement < 65, stress > 35 or attrition > 35; otherwise "healthy" |
| Upload.MissingEngagementIsCritical | backend/api/v1/routes/upload.py:90-97 | a missing or zero engagement is always critical |
| Upload.OverallRiskMonotone | backend/api/v1/routes/upload.py:96-100 | more engagement and less attrition and stress never make the status more severe |
| Upload.UploadColumn | backend/api/v1/routes/upload.py:75-77 | the chosen column is a frame column starting with the question's part before its first `_`, followed by `_`; None iff no column starts so |
| Upload.UploadColumnsDistinct | backend/api/v1/routes/upload.py:73-77 | questions with different stems never pick the same column |
| Upload.FoundColumns | backend/api/v1/routes/upload.py:72-77 | at most one column per mapped question, each a frame column; none iff no mapped question matches |
| Upload.UploadDimensionOnScale | backend/api/v1/routes/upload.py:79-82 | a dimension score of Likert answers is 0.0 (no column) or lies on the 1..5 scale |
| Upload.FindColumns | backend/api/v1/routes/upload.py:72-77 | the loop collects the first match of each mapped question, as `Found` says |
| Upload.ScoreUploadDimension | backend/api/v1/routes/upload.py:72-82 | the score of one dimension is `UploadDimensionScore`: the row-wise mean of the found columns, or 0.0 |
| Upload.UploadDimensionsStep | backend/api/v1/routes/upload.py:70-82 | each pass of the dimension loop sets exactly that dimension's column |
| Upload.CalculateDimensions | backend/api/v1/routes/upload.py:68-84 | the loop gives every dimension of the table its score |
| Upload.SafeString | backend/api/v1/routes/upload.py:53-55 | the string is empty for a missing (None or NaN) cell, and a missing cell is the only non-text, non-number cell that gives "" |
| Upload.EmployeeIdChoice | backend/api/v1/routes/upload.py:112 | the id is the `mployee_id` cell when that is truthy, else the `employee_id` cell, both through `safe_string` |
| Upload.WrittenSplit | backend/api/v1/routes/upload.py:134-145 | the keys the update writes for two runs of entries are those of each run in turn |
| Upload.EntriesUpdateNames | backend/api/v1/routes/upload.py:134-145 | one SET part per written key; the names map `#k` to exactly the written keys |
| Upload.EntriesUpdateValue | backend/api/v1/routes/upload.py:136-145 | the last entry of a key, when present, sets `:k` to its value (the timestamp as text, others through `safe_decimal`) |
| Upload.DimensionEntriesKeys | backend/api/v1/routes/upload.py:128-131 | the dimension entries are dimension columns of the row with the row's values |
| Upload.UploadDimensionNames | backend/api/v1/routes/upload.py:30-39 | every dimension name starts with "D" |
| Upload.EmployeeUpdateContents | backend/api/v1/routes/upload.py:120-145 | every update writes `metrics_updated_at` with the timestamp, so none is empty; `stress_rate` is written iff the row's burnout rate is present, and then with its value |
| Upload.RateEntriesThenOthers | backend/api/v1/routes/upload.py:120-145 | adding the dimension entries after the four metric entries keeps the timestamp and stress facts |
| Upload.WrittenOfDims | backend/api/v1/routes/upload.py:128-139 | dimension entries never write the timestamp or stress keys themselves |
| Upload.WrittenOfRates | backend/api/v1/routes/upload.py:120-139 | of the four metric entries the timestamp is always written and stress iff present |
| Upload.WrittenKeys | backend/api/v1/routes/upload.py:134-139 | every written key comes from some entry |
| Upload.BuildEmployeeUpdate | backend/api/v1/routes/upload.py:114-145 | the loop builds `EmployeeUpdate` of the row |
| Upload.EmployeeUpdatesCover | backend/api/v1/routes/upload.py:111-155 | one update call per row with a non-empty id, each for a non-empty id with a non-empty SET |
| Upload.EmployeeUpdates | backend/api/v1/routes/upload.py:111-155 | at most one update per row, and exactly one per row when every row has an employee id |
| Upload.UpdateEmployeesFromSurvey | backend/api/v1/routes/upload.py:102-158 | the calls of the row loop are `EmployeeUpdates`, rows without an id skipped |
| Upload.SavedCount | backend/api/v1/routes/upload.py:283-318 | no more rows are saved than processed |
| Upload.ProcessedTaskFinished | backend/api/v1/routes/upload.py:246-353 | a processed task ends completed or failed; completed iff no step raised, then with a result saving no more rows than it processed; a failure message starts with "Error: " |
| Upload.ProcessedTask | backend/api/v1/routes/upload.py:246-353 | a failure marks the task failed and keeps its result; otherwise it is completed with a result naming the file and counting every processed row |
| Upload.AllSaved | backend/api/v1/routes/upload.py:316-318 | when no save raises, every row is counted as saved |
| Upload.UploadTasks.constructor | backend/api/v1/routes/upload.py:26 | the task registry starts empty |
| Upload.UploadTasks.UploadCsv | backend/api/v1/routes/upload.py:358-382 | a non-.csv name is a 400 and a failed copy a 500, both leaving the registry alone; otherwise the new task is registered pending and its id returned |
| Upload.UploadTasks.ProcessFileBackground | backend/api/v1/routes/upload.py:246-356 | the task's entry becomes `ProcessedTask` of it; no other entry changes |
| Upload.UploadTasks.GetUploadStatus | backend/api/v1/routes/upload.py:384-388 | a known id returns its task, an unknown one is a 404 |
| UploadCells.Round2Bounds | backend/api/v1/routes/upload.py:49 | quantizing to 0.01 moves a value by at most half a cent and gives a whole number of cents |
| UploadCells.Round2Keeps | backend/api/v1/routes/upload.py:49 | a value already in cents is unchanged |
| UploadCells.Round2HalfUp | backend/api/v1/routes/upload.py:49 | an exact half cent rounds away from zero (ROUND_HALF_UP) |
| UploadCells.DigitsOnly | backend/api/v1/routes/upload.py:47-49 | an all-digits string holds only '0'..'9' |
| UploadCells.ParseSigned | backend/api/v1/routes/upload.py:47-49 | a leading sign negates (or keeps) the value of the body read without its underscores, and an unparsable body stays unparsable |
| UploadCells.ParsePoint | backend/api/v1/routes/upload.py:47-49 | a number with a point parses as its whole and fraction parts |
| UploadCells.ParseDecimalPoint | backend/api/v1/routes/upload.py:47-49 | "w.f" of digits parses to w + f/10^|f| |
| UploadCells.PartsValue | backend/api/v1/routes/upload.py:47-49 | digit parts with at least one digit have the decimal value |
| UploadCells.ParseDecimalBarePoint | backend/api/v1/routes/upload.py:47-51 | a bare "." is not a number |
| UploadCells.ParseGrouped | backend/api/v1/routes/upload.py:47-49 | an underscore between two parts of the text does not change the number, as `Decimal` drops it |
| UploadCells.ExponentValue | backend/api/v1/routes/upload.py:47-49 | an exponent of digits with an optional sign reads as the signed integer |
| UploadCells.ParseScientific | backend/api/v1/routes/upload.py:47-49 | digits followed by `e` or `E` and an exponent parse as the digits' value times ten to the exponent |
| UploadCells.QuantizeRange | backend/api/v1/routes/upload.py:49 | quantizing fails (InvalidOperation) exactly when the half-up cents reach 28 digits, and otherwise gives the rounded value |
| UploadCells.SafeNumber | backend/api/v1/routes/upload.py:49-51 | with `allow_none` false there is always a value, and a non-zero value is in whole cents |
| UploadCells.SafeDecimal | backend/api/v1/routes/upload.py:41-51 | with `allow_none` false there is always a value; any non-zero value is in whole cents |
| UploadCells.SafeDecimalCases | backend/api/v1/routes/upload.py:41-51 | None, NaN, blank and unparsable text give the fallback (None, or 0 when not allowed); parsed text is treated as the number it denotes; a float whose cents fit in 28 digits is rounded half-up to cents and moves by at most half a cent, a larger one (quantize raises InvalidOperation) gives the fallback; an integer is kept when its cents fit in 28 digits, else the fallback |
| Team.RiskLabel | backend/api/v1/routes/team.py:63-79 | a missing value is healthy; a score is healthy above 75, watch in (65, 75], warning in [55, 65] and critical below 55; a rate is healthy up to 20, watch in (20, 35], warning in (35, 50] and critical above 50 |
| Team.Weight | backend/api/v1/routes/team.py:82 | every band weighs 1 to 4 |
| Team.BandOfWeight | backend/api/v1/routes/team.py:88 | the inverted weight table maps each weight back to the band of that weight |
| Team.RiskLabelMonotone | backend/api/v1/routes/team.py:68-79 | a higher score never gives a worse band, a higher rate never a better one |
| Team.ParseBand | backend/api/v1/routes/team.py:82-87 | a label parses to the band of that name, and to nothing when no band has that name |
| Team.WeightOf | backend/api/v1/routes/team.py:83-87 | every label weighs 1 to 4, unknown labels 1 |
| Team.DetermineOverallRisk | backend/api/v1/routes/team.py:81-88 | the overall label is a band whose weight is the largest of the three weights |
| Team.OverallBand | backend/api/v1/routes/team.py:81-88 | the overall band is one of the three and at least as severe as each |
| Team.OverallRiskOfBands | backend/api/v1/routes/team.py:81-88 | on band names the overall label is the name of the worst band |
| Team.UnknownLabelCountsHealthy | backend/api/v1/routes/team.py:83-87 | an unknown engagement label counts as healthy |
| Team.DriverScoresContents | backend/api/v1/routes/team.py:91-94 | the scores are the driver columns the row holds, with the row's values, each one present |
| Team.ByScoreStrict | backend/api/v1/routes/team.py:99 | ordering by score, ties by column order, is a strict order |
| Team.CleanName | backend/api/v1/routes/team.py:103 | a name without `_` is kept; otherwise exactly the text after its first `_` (`k.split('_', 1)[1]`), a strict suffix |
| Team.CleanNames | backend/api/v1/routes/team.py:102-104 | each chosen column gives its cleaned name, in order |
| Team.SortedScores | backend/api/v1/routes/team.py:99 | the sorted scores are in ascending order of score |
| Team.LowestThreeTaken | backend/api/v1/routes/team.py:99-102 | the first three (or all, if fewer) of the sorted scores, each one of the scores |
| Team.LowestThree | backend/api/v1/routes/team.py:99-102 | the chosen three are ascending and no score left out is lower than any chosen one |
| Team.TopDriversCount | backend/api/v1/routes/team.py:90-106 | at most three names, exactly three when three drivers are scored, none when the row has no driver |
| Team.LowestDriversChosen | backend/api/v1/routes/team.py:90-102 | the chosen drivers are the row's own, ascending, and no unchosen driver scores lower than a chosen one |
| Team.GetTopDrivers | backend/api/v1/routes/team.py:90-106 | the loop returns `TopDrivers` of the row |
| Team.CollectScores | backend/api/v1/routes/team.py:91-94 | the loop collects `DriverScores` of the row |
| Team.LocationDisplay | backend/api/v1/routes/team.py:229 | the location filter when one is given, else "Various" |
| Team.Items | backend/api/v1/routes/team.py:207-245 | one item per kept group |
| Team.KeptStep | backend/api/v1/routes/team.py:220-222 | each pass keeps the group iff it passes the risk filter |
| Team.TeamResultsStep | backend/api/v1/routes/team.py:207-245 | each pass appends the group's item, with the next id, iff it passes the filter |
| Team.ItemsSnoc | backend/api/v1/routes/team.py:231-245 | one more kept group adds its item at the end |
| Team.KeptFilter | backend/api/v1/routes/team.py:220-222 | the kept groups are exactly those passing the filter; without an active filter all groups are kept |
| Team.ItemsFromKept | backend/api/v1/routes/team.py:231-244 | each item carries its id, its group's department and overall risk, position "All", trend "stable", the displayed location and at most three drivers |
| Team.TeamResultsFiltered | backend/api/v1/routes/team.py:207-245 | with an active filter every item's overall risk is the lower-cased filter; without one there is an item per group |
| Team.TeamResults | backend/api/v1/routes/team.py:207-245 | never more items than groups, and one per group when no risk filter is active |
| Team.GroupItem | backend/api/v1/routes/team.py:208-245 | a group passing the filter yields its item, any other none |
| Team.GetTeamRiskData | backend/api/v1/routes/team.py:205-262 | the response reports the number of results and, as data, the Python slice `[offset:offset+limit]` of them |
| Team.PageBounds | backend/api/v1/routes/team.py:248-251 | a page holds at most `limit` results, and in range it is the plain sub-sequence |
| Departments.RiskLabel | backend/api/v1/routes/departments.py:31-49 | this route's label rule, written out on its own, agrees with the team route's for every value and metric type, 'inverse' banding as a rate |
| Departments.Members | backend/api/v1/routes/departments.py:125-130 | a division's member list is no longer than the employee list |
| Departments.Divisions | backend/api/v1/routes/departments.py:126-128 | the `division` of each employee, in scan order |
| Departments.MembersCount | backend/api/v1/routes/departments.py:125-130 | a division has as many members as employees carrying that division |
| Departments.MembersOfDivision | backend/api/v1/routes/departments.py:125-130 | every member id belongs to an employee of that division; the list is empty iff no employee has it |
| Departments.BuildDivisionMap | backend/api/v1/routes/departments.py:124-130 | the map's keys are exactly the divisions seen, each mapped to its members in scan order |
| Departments.LaterDateIsStrictOrder | backend/api/v1/routes/departments.py:132 | newest-first by submission date, ties by scan order, is a strict order |
| Departments.FirstPerEmployeeIsFirst | backend/api/v1/routes/departments.py:134-138 | the map holds every employee id of the sequence, each with its first feedback |
| Departments.LatestFeedbackKeys | backend/api/v1/routes/departments.py:132-138 | the latest-feedback map has an entry exactly for the ids that gave feedback |
| Departments.LatestFeedbackIsLatest | backend/api/v1/routes/departments.py:132-138 | each entry is a feedback of that id and no feedback of that id has a later date |
| Departments.BuildFeedbackMap | backend/api/v1/routes/departments.py:132-138 | the sort-and-first-seen loop builds `LatestFeedback` |
| Departments.Comment | backend/api/v1/routes/departments.py:159 | the rephrased comment when it is truthy, else the original comment |
| Departments.MemberText | backend/api/v1/routes/departments.py:156-162 | a member contributes a text iff they have a latest feedback with a truthy comment, and it is that comment |
| Departments.DepartmentTexts | backend/api/v1/routes/departments.py:153-162 | at most one text per member |
| Departments.DepartmentTextsChosen | backend/api/v1/routes/departments.py:153-162 | every text is non-empty and some member's comment, and every member's comment is among them |
| Departments.CollectTexts | backend/api/v1/routes/departments.py:153-162 | the member loop collects `DepartmentTexts` |
| Departments.SummaryFields | backend/api/v1/routes/departments.py:142-180 | the member count is the number of employees of the division; the three labels are the labels of the rates with absent as 0, so an absent engagement is critical and absent stress or attrition healthy |
| Departments.Summarize | backend/api/v1/routes/departments.py:142-180 | the summary keeps the department name, counts no more members than employees, and has no more feedback texts than members |
| Departments.SummarizeOne | backend/api/v1/routes/departments.py:142-185 | one pass of the department loop computes `Summarize` of that department |
| Departments.GetDepartmentsDashboard | backend/api/v1/routes/departments.py:101-191 | one entry per department, in order, each `Summarize` of it with the latest feedback of every employee |
| Metrics.CutoffDays | backend/api/v1/routes/metrics.py:24-36 | week 7 days, month 30, quarter 90, year 365, any other range 30 |
| Metrics.Cutoff | backend/api/v1/routes/metrics.py:24-36 | the cutoff lies between one year and one week before now; an unknown range behaves as "month" |
| Metrics.NewerIsStrictOrder | backend/api/v1/routes/metrics.py:124 | newest-first by date, ties by row order, is a strict order |
| Metrics.SnapshotDistinct | backend/api/v1/routes/metrics.py:124 | the snapshot holds at most one row per employee, each a row of the input |
| Metrics.SnapshotNewest | backend/api/v1/routes/metrics.py:124 | no row of an employee is newer than that employee's snapshot row |
| Metrics.Engagements | backend/api/v1/routes/metrics.py:132-134 | the non-NaN engagement values, at most one per row |
| Metrics.ResponseRate | backend/api/v1/routes/metrics.py:158-172 | 0 when the employee count is unknown or zero, else responses * 100 / employees |
| Metrics.InRange | backend/api/v1/routes/metrics.py:90-102 | the kept rows are rows of the input on or after the cutoff and of the requested department (case-insensitively) |
| Metrics.SummaryEmpty | backend/api/v1/routes/metrics.py:68-114 | with no rows, or none surviving the filters, every figure is zero; the status is "No Data Available" iff there were no rows at all |
| Metrics.SummaryCounts | backend/api/v1/routes/metrics.py:184-188 | the read-only status counts the dated rows, and final <= after-date <= raw <= rows |
| Metrics.SummaryAlerts | backend/api/v1/routes/metrics.py:124-145 | the total is the snapshot size, and neither the burnout alerts nor the attrition count exceeds it |
| Metrics.Summary | backend/api/v1/routes/metrics.py:59-192 | a 500 "Calculation Error: …" iff there are rows and either the date column is missing or rows survive the filters without an employee-id column (the KeyErrors of lines 85 and 124); otherwise the read-only status's final count is the total employees |
| Metrics.TeamsAtRiskBound | backend/api/v1/routes/metrics.py:147-155 | no more teams at risk than departments, the groups being exactly the departments seen; without a department column none |
| Metrics.AverageEngagementWithin | backend/api/v1/routes/metrics.py:131-134 | the average engagement, 0 when there is none, lies within any bounds the rows' values share |
| Metrics.EngagementsWithin | backend/api/v1/routes/metrics.py:131-134 | every collected engagement lies within bounds the rows share |
| Metrics.Page | backend/api/v1/routes/metrics.py:442-466 | the total is the number of raw items and `returned` the size of the data; a single fetch or name lookup returns everything, otherwise the slice `[offset:offset+limit]` |
| Metrics.Dimensions | backend/api/v1/routes/metrics.py:379-466 | corrected (single-department test case-insensitive, see Findings): an error iff paging is out of range (422) or the category is neither departments nor employees in any case (400); otherwise the total is the raw item count |
| Metrics.DimensionsPaging | backend/api/v1/routes/metrics.py:405-452 | for the corrected `Dimensions`: a department name lookup returns all matches, an employee id its item or nothing, and the unfiltered listings the requested slice |
| Metrics.MixedCaseLookupFacts | backend/api/v1/routes/metrics.py:395-445 | "Departments" passes the case-insensitive validation, but only the case-insensitive lookup test treats it as a name lookup |
| Metrics.DimensionsAsWrittenDropsLookup | backend/api/v1/routes/metrics.py:445 | as written, a mixed-case category with a department name and offset >= 1 pages past the single match and returns nothing |
| Metrics.DimensionsAsWritten | backend/api/v1/routes/metrics.py:379-466 | as written: the same errors and total as the corrected `Dimensions`, the same answer except for a mixed-case category with a department name, whose page is `[offset:offset+limit]` of the single match |
| Metrics.DimensionsKeepsLookup | backend/api/v1/routes/metrics.py:405-452 | with the lookup test lower-cased, the single match is returned whatever the offset |
| Metrics.ConvertDecimals | backend/api/v1/routes/metrics.py:367-375 | no decimal is left; every number keeps its value; lists and dicts keep their length and keys; other values are unchanged |
| Metrics.ConvertDecimalsIdempotent | backend/api/v1/routes/metrics.py:367-375 | converting twice is converting once |
| MetricsAggregate.Numbers | backend/api/v1/routes/metrics.py:326-329 | the numeric (non-NaN) values of a column, at most one per row, each taken from some row |
| MetricsAggregate.Trunc | backend/api/v1/routes/metrics.py:327 | `int()` truncates toward zero: within one below a non-negative value, within one above a negative one |
| MetricsAggregate.SumColumnTotal | backend/api/v1/routes/metrics.py:299-327 | a sum column aggregates to the column total truncated toward zero |
| MetricsAggregate.MeanColumnMean | backend/api/v1/routes/metrics.py:307-331 | a mean column aggregates to None iff it has no number, else to the mean of its numbers |
| MetricsAggregate.OtherColumnAll | backend/api/v1/routes/metrics.py:332-333 | any other column aggregates to "All" |
| MetricsAggregate.ColumnMeanWithin | backend/api/v1/routes/metrics.py:328-331 | a column mean lies within any bounds its values share |
| MetricsAggregate.AggregateOf | backend/api/v1/routes/metrics.py:298-339 | one entry per frame column plus Department, Quarter and Year, which carry the given labels; every other column holds its own aggregate |
| MetricsAggregate.AggregateDataframe | backend/api/v1/routes/metrics.py:298-339 | the column loop computes `AggregateOf` |
| MetricsAggregate.ByYear | backend/api/v1/routes/metrics.py:206-207 | the year filter keeps the columns and exactly the rows of that year |
| MetricsAggregate.ByDepartment | backend/api/v1/routes/metrics.py:216-217 | the department filter keeps exactly the rows whose department matches, case-insensitively |
| MetricsAggregate.ByQuarter | backend/api/v1/routes/metrics.py:227 | the quarter filter keeps exactly the rows of that quarter, upper-cased; no such row gives an empty frame |
| MetricsAggregate.QuarterTrend | backend/api/v1/routes/metrics.py:219-251 | the trend has exactly one record per quarter |
| MetricsAggregate.QuarterRecordLabels | backend/api/v1/routes/metrics.py:229-249 | each quarter's record carries the department label, the quarter and the year |
| MetricsAggregate.EmptyQuarterNulls | backend/api/v1/routes/metrics.py:229-241 | a quarter without rows has a zero response count and null rates |
| MetricsAggregate.QuarterAggregate | backend/api/v1/routes/metrics.py:242-249 | a quarter with rows gets the aggregate of those rows |
| MetricsAggregate.QuarterResult | backend/api/v1/routes/metrics.py:227-249 | one pass of the quarter loop computes `QuarterRecord` |
| MetricsAggregate.QuarterTrendLoop | backend/api/v1/routes/metrics.py:210-251 | the quarter loop computes `QuarterTrend` |
| MetricsAggregate.Details | backend/api/v1/routes/metrics.py:263-265 | one detail record per row, exactly the rows |
| MetricsAggregate.FilterMetrics | backend/api/v1/routes/metrics.py:196-293 | the route's branches compute `FilterMetricsOf` |
| MetricsAggregate.QuarterTrendShape | backend/api/v1/routes/metrics.py:210-251 | grouping by quarter gives four aggregate records for Q1..Q4, with the year and the department (or "All") |
| MetricsAggregate.FilterMetricsErrors | backend/api/v1/routes/metrics.py:207-260 | the call fails (500) iff a department is filtered on without a Department column, or a quarter is needed without a Quarter column |
| MetricsAggregate.DetailRows | backend/api/v1/routes/metrics.py:254-265 | department and quarter together give the detail records of exactly the rows of that year, quarter and department |
| MetricsAggregate.SingleAggregate | backend/api/v1/routes/metrics.py:276-293 | without a department there is a single aggregate labelled "All", with the quarter or "All" and the year |
| Employees.EmployeeRisk | backend/api/v1/routes/employees.py:54-66 | never "watch"; no score is healthy; a negative label is critical; otherwise the score, divided by 100 when above 1, is healthy from 0.6, warning from 0.35 and critical below |
| Employees.EmployeeRiskMonotone | backend/api/v1/routes/employees.py:59-66 | a higher normalised score never gives a worse band |
| Employees.RawScaleNotMonotone | backend/api/v1/routes/employees.py:59 | on raw scores the rule is not monotone: 1.0 is healthy, 2.0 (read as 0.02) critical, and so is 5.0 |
| Employees.Select | backend/api/v1/routes/employees.py:93-107 | the comprehension keeps exactly the items of the given owner, in order |
| Employees.SelectIdempotent | backend/api/v1/routes/employees.py:177-190 | selecting an owner from an owner's list changes nothing, so pre-grouping is harmless |
| Employees.SelectAppend | backend/api/v1/routes/employees.py:177-183 | selecting from a concatenation is concatenating the selections |
| Employees.LaterDateIsStrictOrder | backend/api/v1/routes/employees.py:96 | newest-first by date, ties by order, is a strict order |
| Employees.LatestOfIsLatest | backend/api/v1/routes/employees.py:95-98 | there is a latest feedback iff there is a feedback; it is one of them and none is dated later |
| Employees.CommentOf | backend/api/v1/routes/employees.py:103-105 | the rephrased comment when non-empty, else the original |
| Employees.WeekOf | backend/api/v1/routes/employees.py:119-121 | the intended (ISO year, ISO week) key of a date: the date lies in the seven days from that ISO week's Monday |
| Employees.WeekKeyAsWritten | backend/api/v1/routes/employees.py:121 | as written the key pairs the date's calendar year with its ISO week number; it is the ISO key exactly when the ISO year is the calendar year |
| Employees.EntryWeek | backend/api/v1/routes/employees.py:115-124 | an entry has a week exactly when its date is present, non-empty and parses; the week number is the ISO week; keyed by calendar year (as written) the year is the date's own, keyed by ISO year the key is the ISO key |
| Employees.IntendedWeeksAreCalendarWeeks | backend/api/v1/routes/employees.py:115-124 | keyed by ISO year, two entries with the same key fall in the same Monday-to-Sunday week |
| Employees.WeekOfSameWeek | backend/api/v1/routes/employees.py:116-122 | two dates with the same ISO (year, week) key fall in the same Monday-to-Sunday week |
| Employees.WeekKeyAsWrittenMerges | backend/api/v1/routes/employees.py:121 | as written, 2024-12-30 and 2024-01-01 get the same key though they are in different ISO weeks |
| Employees.AddHours | backend/api/v1/routes/employees.py:122 | adding hours to a week adds at most one new week |
| Employees.Weeks | backend/api/v1/routes/employees.py:110 | the week keys of the totals, in order |
| Employees.AddHoursFacts | backend/api/v1/routes/employees.py:122 | weeks stay distinct, the week is added to the keys, and the total grows by the hours |
| Employees.WeeklyTotals | backend/api/v1/routes/employees.py:112-124 | never more weeks than entries |
| Employees.WeeklyTotalsFacts | backend/api/v1/routes/employees.py:108-124 | under either week key: distinct weeks, the total of the weeks equals the dated hours, and the weeks are exactly those of the dated entries |
| Employees.AverageWeekly | backend/api/v1/routes/employees.py:126-131 | zero with no week, else the total divided by the number of weeks |
| Employees.LatestWeekEntry | backend/api/v1/routes/employees.py:121-134 | `max(workload_map.keys())`: the entry whose key text `f"{year}-{week:02d}"` no other key exceeds in Python string order |
| Employees.CurrentWeekly | backend/api/v1/routes/employees.py:121-135 | zero with no week, else the hours of a week whose key text no other key text exceeds in Python string order |
| Employees.ShortYearSortsLast | backend/api/v1/routes/employees.py:121-134 | key texts compare as strings, so year 999 week 1 ("999-01") sorts after year 2024 week 19 ("2024-19") |
| Employees.WeeklyWorkload | backend/api/v1/routes/employees.py:108-135 | under either week key, the loop gives `AverageWeekly` and `CurrentWeekly` of the weekly totals |
| Employees.EnrichFeedback | backend/api/v1/routes/employees.py:83-150 | there is a latest feedback iff the employee gave one; without it the risk is healthy and the score absent; with it the score, risk and comment are those of a feedback no other of theirs postdates |
| Employees.WeeklyAverage | backend/api/v1/routes/employees.py:129-131 | the average times the number of weeks is the dated hours |
| Employees.NoDatedEntries | backend/api/v1/routes/employees.py:113-135 | with no dated entry both workloads are zero |
| Employees.EnrichOnGroups | backend/api/v1/routes/employees.py:177-190 | enrichment depends only on the employee's own feedback and workload entries |
| Employees.Enrich | backend/api/v1/routes/employees.py:83-150 | the record keeps the employee's own fields; without a feedback the score is absent and the risk healthy |
| Employees.EnrichEmployee | backend/api/v1/routes/employees.py:83-150 | the method computes `Enrich` under the given week key |
| Employees.InDivision | backend/api/v1/routes/employees.py:170-173 | the employees whose stripped, lower-cased division equals the target, in order |
| Employees.FilterByDepartment | backend/api/v1/routes/employees.py:163-175 | no filter (or "all departments") keeps everyone; otherwise exactly the employees of the stripped, lower-cased division |
| Employees.GroupByOwner | backend/api/v1/routes/employees.py:177-183 | each key maps to that owner's items in order; owners not in the map have none |
| Employees.GetAllEmployees | backend/api/v1/routes/employees.py:158-200 | one enriched record per kept employee, in order, each `Enrich` of it with all feedback and workloads, weeks keyed by calendar year as written |
| Employees.EnrichFromGroups | backend/api/v1/routes/employees.py:185-189 | enriching from the grouped lists gives the same record as from the full lists |
| Employees.GetEmployeesPage | backend/api/v1/routes/employees.py:221-262 | one enriched record per employee of the page, in order, weeks keyed by calendar year as written |
| Employees.WorkloadContextOf | backend/api/v1/routes/employees.py:302-309 | overworked iff current exceeds average by more than 5 hours, underutilised iff it is more than 5 below, stable otherwise |
| Employees.RecommendationWorkload | backend/api/v1/routes/employees.py:377-388 | an entry without `hours_logged` raises `KeyError` (answered 500 at lines 399-401); otherwise no entry gives (0, 0), and entries give the plain average of all of them and the hours of the last |
| ActionsLog.FirstIdMatch | backend/api/v1/routes/actions_log.py:75 | the first row whose id equals the identifier case-insensitively; None iff no row's id does |
| ActionsLog.FirstNameMatch | backend/api/v1/routes/actions_log.py:81 | the first row whose name equals the identifier case-insensitively; None iff no row's name does |
| ActionsLog.DepartmentName | backend/api/v1/routes/actions_log.py:58-91 | "Unknown" when the table cannot be read, is empty, or lacks either column |
| ActionsLog.DepartmentNameLookup | backend/api/v1/routes/actions_log.py:74-87 | an id match gives the first matching row's name; failing that a name match gives the first matching row's id; failing both the identifier comes back unchanged |
| ActionsLog.UpdateValues | backend/api/v1/routes/actions_log.py:153-166 | `:ua` always holds the update time; `:s` and `:o` are present exactly when a status or outcome is given, holding it |
| ActionsLog.UpdateExpressionClauses | backend/api/v1/routes/actions_log.py:152-166 | the expression always starts with the update-time clause, ends with the outcome clause iff an outcome is given, and is as long as the clauses it holds |
| ActionsLog.UpdateExpressionInjective | backend/api/v1/routes/actions_log.py:152-166 | the same expression text means the same clauses were added |
| ActionsLog.BuildUpdate | backend/api/v1/routes/actions_log.py:150-166 | the clause-by-clause building yields `UpdateExpression` and `UpdateValues` |
| ActionsLog.PatchDataOf | backend/api/v1/routes/actions_log.py:185-200 | the body built from the returned attributes has every field the response model declares as `str` exactly when the item holds the five attributes behind them; the id and outcome are the item's |
| ActionsLog.Validated | backend/api/v1/routes/actions_log.py:45-52 | validation against the response model passes exactly when the body is complete, leaving it unchanged, and otherwise answers a 500 |
| ActionsLog.UpsertedAttributes | backend/api/v1/routes/actions_log.py:152-177 | the `ALL_NEW` attributes always hold the key and the update time; for an unknown id they hold exactly the key and the clauses set; a stored item keeps all its attributes |
| ActionsLog.UpdateInterventionAsWritten | backend/api/v1/routes/actions_log.py:171-207 | as written every error is a 500, and a client error is answered with its own text |
| ActionsLog.UpdateIntervention | backend/api/v1/routes/actions_log.py:144-207 | with the 404 passed through: a 404 iff the reply has no (or empty) attributes; a client error is a 500 with its text; with attributes, success iff all five required attributes are present; a success is complete and echoes the item's id and outcome |
| ActionsLog.UpdateAsWrittenNever404 | backend/api/v1/routes/actions_log.py:179-207 | a reply without attributes is a 500 "404: Intervention not found" as written, against a 404 "Intervention not found" with the 404 passed through |
| ActionsLog.UnknownIdIs500 | backend/api/v1/routes/actions_log.py:171-200 | the upsert of an unknown id creates an item without `Activity_title` or `createdAt`, so both versions answer a 500, never a 404 |
| ActionsLog.StoredItemAnswered | backend/api/v1/routes/actions_log.py:171-200 | updating a stored item holding every required attribute succeeds, identically in both versions, with the new update time |
| ActionsLog.ItemOf | backend/api/v1/routes/actions_log.py:288-298 | the outcome is None iff the row has no Outcome; a missing Department shows "Unknown" and a missing status "planned" |
| ActionsLog.LaterIsStrictOrder | backend/api/v1/routes/actions_log.py:276-278 | newest-first by creation time, NaT last, ties by order, is a strict order |
| ActionsLog.SelectedRows | backend/api/v1/routes/actions_log.py:252-278 | the selected rows are exactly the rows passing the case-insensitive status and department filters and the inclusive date range, a permutation of the filtered rows, newest first when there is a createdAt column |
| ActionsLog.ListPaging | backend/api/v1/routes/actions_log.py:280-310 | the total counts every selected row and the page is the window `[offset, offset+limit)` of them, each rendered by `ItemOf` |
| ActionsLog.ListInterventions | backend/api/v1/routes/actions_log.py:232-314 | a 422 exactly when `limit` is outside 1..100 or `offset` negative; a page holds at most `limit` items and echoes limit and offset; an empty table gives an empty page with total 0 |
| ActionsLog.ListEmptyTable | backend/api/v1/routes/actions_log.py:245-250 | an empty table lists nothing with total 0, whatever the filters |
| ActionsLog.BuildItems | backend/api/v1/routes/actions_log.py:286-299 | one rendered item per paged row, in order |
| ActionsLog.GetInterventions | backend/api/v1/routes/actions_log.py:232-314 | the route computes `ListInterventions` |
| Feedback.StartOfRanges | backend/api/v1/routes/feedback.py:136-148 | week, month, quarter and year (in any case) start 7, 30, 90 and 365 days back; anything else ten years back |
| Feedback.StartOfBounds | backend/api/v1/routes/feedback.py:136-148 | the start lies between ten years and one week back, and depends only on the lower-cased range |
| Feedback.LookbackDays | backend/api/v1/routes/feedback.py:136-148 | between 7 and 3650 days, and 3650 exactly for a range that is none of the four |
| Feedback.Matching | backend/api/v1/routes/feedback.py:103-113 | the employees whose stripped id equals the join key |
| Feedback.JoinRow | backend/api/v1/routes/feedback.py:108-113 | the left join keeps a feedback row once unmatched, or once per matching employee, always with the row's own fields |
| Feedback.MergeKeepsRows | backend/api/v1/routes/feedback.py:108-113 | the left join loses no feedback row |
| Feedback.MergeSound | backend/api/v1/routes/feedback.py:108-113 | every joined row comes from a feedback row, with a matching employee when it has one |
| Feedback.MergeComplete | backend/api/v1/routes/feedback.py:108-113 | every (row, employee) pair with equal stripped keys is in the join |
| Feedback.Merged | backend/api/v1/routes/feedback.py:103-113 | the columns are kept; the employee table is joined iff it was fetched, is non-empty with its columns, and the feedback has an `employee_id` column; a join never loses rows, and no join keeps each row with no employee |
| Feedback.Prepared | backend/api/v1/routes/feedback.py:117-131 | rows with an unparsable date are dropped; the others keep their fields and parsed date and get a department and position |
| Feedback.NewerIsStrictOrder | backend/api/v1/routes/feedback.py:172 | newest-first by submission date, ties by order, is a strict order |
| Feedback.RankedRows | backend/api/v1/routes/feedback.py:153-172 | the ranked rows are a permutation of the rows passing the date and case-insensitive sentiment, theme and department filters, newest first |
| Feedback.SelectedRows | backend/api/v1/routes/feedback.py:172-173 | `head(limit)` keeps the first `limit` ranked rows (all when fewer), none older than a dropped one |
| Feedback.TextOf | backend/api/v1/routes/feedback.py:180-184 | a non-empty rephrased comment is the text; the text is empty only for an empty original comment; with neither column it is "No content" |
| Feedback.Samples | backend/api/v1/routes/feedback.py:75-209 | an empty table gives no samples; on a non-empty table the route fails (500) iff the submission dates, or a column filtered on, are missing; a non-negative limit bounds the number of samples |
| Feedback.SamplesItems | backend/api/v1/routes/feedback.py:170-198 | one item per selected row, in order |
| Feedback.ItemOf | backend/api/v1/routes/feedback.py:186-196 | each item shows the row's date, department, position and text, with a fresh id, "neutral" and "Uncategorized" for missing columns |
| Feedback.SamplesEmpty | backend/api/v1/routes/feedback.py:92-93 | an empty table gives no samples |
| Feedback.BuildSamples | backend/api/v1/routes/feedback.py:176-198 | the loop builds one item per selected row |
| Feedback.GetFeedbackSamples | backend/api/v1/routes/feedback.py:75-209 | the route computes `Samples` |
| Feedback.CategoriesBound | backend/api/v1/routes/feedback.py:286-287 | there are no more distinct categories than rows |
| Feedback.PolarCount | backend/api/v1/routes/feedback.py:280-282 | positive and negative counts together count the polar rows |
| Feedback.Figures | backend/api/v1/routes/feedback.py:260-290 | mentions count the rows in range, and positive + negative + neutral equals them, neutral being the rows neither positive nor negative/critical; detected themes never exceed mentions; no category column means no themes, and no sentiment column means no positive and no negative rows |
| Feedback.CountNone | backend/api/v1/routes/feedback.py:280-281 | a predicate no row satisfies counts zero |
| Feedback.CountComplement | backend/api/v1/routes/feedback.py:282 | a predicate and its complement count all rows |
| Feedback.SummaryOf | backend/api/v1/routes/feedback.py:218-306 | an empty table gives all zeros; the route fails with 500 `'submission_date'` exactly when a non-empty table lacks that column; a summary's positive, negative and neutral counts add up to its mentions, and themes never exceed mentions |
| Feedback.SummaryCases | backend/api/v1/routes/feedback.py:218-306 | the summary is zero iff nothing is in range; otherwise mentions count the dated rows in range, and all of them are on or after the start |
| Theme.ImpactIsQuotient | backend/api/v1/routes/theme.py:14-29 | the real-valued impact formula truncated to an int equals the integer quotient the themes use |
| Theme.ImpactQuotientPositive | backend/api/v1/routes/theme.py:25-29 | for a non-empty total the impact is `frequency * 100 / total` rounded down |
| Theme.ImpactBounds | backend/api/v1/routes/theme.py:21-29 | a zero total gives 0; otherwise impact * total <= frequency * 100 < (impact + 1) * total, and a frequency within the total gives 0..100 |
| Theme.ImpactMonotone | backend/api/v1/routes/theme.py:25-29 | a more frequent theme never has a smaller impact |
| Theme.Impact | backend/api/v1/routes/theme.py:14-29 | never negative; 0 with no feedback or no mention; 100 when every feedback mentions the theme |
| Theme.TrendFromNothing | backend/api/v1/routes/theme.py:39-40 | with no previous mentions the trend is up iff there are current ones, and never down |
| Theme.TrendThresholds | backend/api/v1/routes/theme.py:43-50 | up iff the count grew by more than 2 %, down iff it fell by more than 2 %, stable otherwise |
| Theme.TrendIsByCounts | backend/api/v1/routes/theme.py:31-50 | the percentage-change rule agrees with the integer comparison the themes use |
| Theme.ChangeBeyond | backend/api/v1/routes/theme.py:43-47 | a change above +2 % means c > 1.02 p, below -2 % means c < 0.98 p |
| Theme.Trend | backend/api/v1/routes/theme.py:31-50 | "up" only for a rising count, "down" only for a falling one, "stable" for an equal one |
| Theme.WindowShape | backend/api/v1/routes/theme.py:71-99 | the previous window is as long as the current one and ends where it starts; an unknown range gives empty windows at today; a week starts 7 days back |
| Theme.WindowDays | backend/api/v1/routes/theme.py:71-84 | 0 exactly for a range that is none of week, month, quarter, year (case-insensitively), and never more than 365 days |
| Theme.Mentions | backend/api/v1/routes/theme.py:66-68 | one mention per row; an unparsable date is a 500 |
| Theme.Named | backend/api/v1/routes/theme.py:116-118 | the non-empty categories mentioned |
| Theme.Labels | backend/api/v1/routes/theme.py:123 | the sentiment labels present |
| Theme.ModeFromBest | backend/api/v1/routes/theme.py:123-124 | the scan keeps a label that occurs at least as often as every other |
| Theme.DominantIsMode | backend/api/v1/routes/theme.py:123-124 | "neutral" with no labels; otherwise a most frequent label |
| Theme.Dominant | backend/api/v1/routes/theme.py:123-124 | "neutral" without labels, otherwise one of the labels |
| Theme.Latest | backend/api/v1/routes/theme.py:136 | the latest submission time of a group, reached by one of its mentions |
| Theme.MoreFrequentIsStrictOrder | backend/api/v1/routes/theme.py:150 | descending frequency, ties by order, is a strict order |
| Theme.Themes | backend/api/v1/routes/theme.py:115-148 | one theme per category |
| Theme.WindowsOf | backend/api/v1/routes/theme.py:85-104 | every current mention has a date |
| Theme.ThemesRanked | backend/api/v1/routes/theme.py:150-154 | the output is the first `limit` themes (all when fewer), in non-increasing frequency |
| Theme.ThemeAt | backend/api/v1/routes/theme.py:115-148 | the i-th theme is its category's, with the id i and the category's count as frequency |
| Theme.CategoriesNamed | backend/api/v1/routes/theme.py:115-118 | the categories are exactly the non-empty ones mentioned |
| Theme.ThemesSound | backend/api/v1/routes/theme.py:115-150 | every output theme is a mentioned category with its true frequency |
| Theme.ThemesComplete | backend/api/v1/routes/theme.py:115-150 | every non-empty mentioned category has a theme |
| Theme.ThemeOf | backend/api/v1/routes/theme.py:115-148 | a theme keeps its id and category and counts the category's current mentions; its trend compares its count with its previous-window count, its frequency is within the total, and its impact, in 0..100, is that of its frequency |
| Theme.ThemeAnalysis | backend/api/v1/routes/theme.py:53-159 | errors are 500s; an empty table gives no themes; a table without submission dates fails with `'submission_date'`; a non-negative limit bounds the themes, which come most frequent first |
| Theme.TopThemes | backend/api/v1/routes/theme.py:150-154 | sorted most frequent first and cut to `limit`: for a non-negative limit at most `limit` rows, with non-increasing frequencies |
| Theme.ThemeRow | backend/api/v1/routes/theme.py:115-148 | one loop pass builds `ThemeOf` the category |
| Theme.BuildThemes | backend/api/v1/routes/theme.py:115-148 | the grouping loop builds `Themes` |
| Theme.GetThemeAnalysis | backend/api/v1/routes/theme.py:53-159 | the route computes `ThemeAnalysis` |
| Insight.PeriodOf | backend/api/v1/routes/insight.py:47-62 | a period exists iff the lower-cased range is week, month, quarter or year |
| Insight.DateRangeShape | backend/api/v1/routes/insight.py:47-65 | an unknown range raises "Invalid date range: " followed by the range; a known one gives a window ending today of the period's length, and a previous window of the same length ending where it starts |
| Insight.ModeIndex | backend/api/v1/routes/insight.py:88 | the scan for the mode stays within the candidates |
| Insight.ModeIndexFirst | backend/api/v1/routes/insight.py:88 | the scan ends at the first candidate of maximal count |
| Insight.SmallestModeIsMode | backend/api/v1/routes/insight.py:88 | `mode()[0]` is a label of maximal count, and the smallest such label in sort order |
| Insight.CountOrder | backend/api/v1/routes/insight.py:81 | the categories in `value_counts()` order: a permutation of the window's named categories, most mentioned first |
| Insight.RowOf | backend/api/v1/routes/insight.py:84-89 | a category's theme has its share of the window's mentions as a truncated percentage in 0..100, and a sentiment that is "neutral" without a label column and otherwise a most frequent label of the group; there is none exactly when the table has labels and the group has none |
| Insight.Dominant | backend/api/v1/routes/insight.py:88 | "neutral" without a label column; otherwise a label of the group no other label outnumbers, and none when the group has no label |
| Insight.ThemeRows | backend/api/v1/routes/insight.py:81-89 | one row per category in count order, each `RowOf` its category; the only failure is the `mode()[0]` of no label, a 500 |
| Insight.RankedSorted | backend/api/v1/routes/insight.py:91-94 | the ranked themes are a permutation of the rows in non-increasing impact; there is a top theme iff there is a row, and none has a higher impact |
| Insight.ByCountIsStrictOrder | backend/api/v1/routes/insight.py:81 | descending count, ties by name, is a strict order |
| Insight.ImpactSortKeepsCountOrder | backend/api/v1/routes/insight.py:81-91 | sorting rows already in count order by impact leaves them as they are |
| Insight.ImpactQuotientMonotone | backend/api/v1/routes/insight.py:86 | more mentions never give a smaller impact |
| Insight.ThemeRowsNamed | backend/api/v1/routes/insight.py:81-89 | the rows name exactly the non-empty categories mentioned |
| Insight.NamesCover | backend/api/v1/routes/insight.py:81-89 | rows named after a permutation of the categories name exactly the categories |
| Insight.ThemeRowsImpact | backend/api/v1/routes/insight.py:85-89 | each row's impact is its mention share as a truncated percentage, in 0..100 |
| Insight.ThemeRowsFail | backend/api/v1/routes/insight.py:88 | the rows fail iff the sentiment column exists and some category has no label at all |
| Insight.ThemeRowsFailSticks | backend/api/v1/routes/insight.py:84-89 | a failure on a prefix of the categories is a failure of the whole loop |
| Insight.BuildThemes | backend/api/v1/routes/insight.py:84-89 | the loop computes `ThemeRows` |
| Insight.ThemeRowsStep | backend/api/v1/routes/insight.py:84-89 | each pass either appends the category's row or fails |
| Insight.ThemeDataOf | backend/api/v1/routes/insight.py:67-96 | an empty table gives no themes; a missing date column is a 500 `'submission_date'`; every failure is a 500; the themes come highest impact first and the top theme is the first, present iff there is a theme |
| Insight.GetThemeData | backend/api/v1/routes/insight.py:67-96 | the function computes `ThemeDataOf` |
| Insight.ScoredOf | backend/api/v1/routes/insight.py:107 | the row metrics are percentages |
| Insight.ScoredRows | backend/api/v1/routes/insight.py:107 | one scored row per survey row, every rate a percentage |
| Insight.Engagements | backend/api/v1/routes/insight.py:112 | the engagement values, percentages when the rows' are |
| Insight.TrendOfSign | backend/api/v1/routes/insight.py:113-115 | the trend is 0 without a positive previous mean; otherwise it has the sign of current minus previous |
| Insight.DepartmentNames | backend/api/v1/routes/insight.py:118-120 | exactly the departments of the window |
| Insight.Departments | backend/api/v1/routes/insight.py:119 | the grouping keys are exactly the departments of the window |
| Insight.MeanEngagementRange | backend/api/v1/routes/insight.py:112 | a mean of percentages is a percentage |
| Insight.MetricsDataOf | backend/api/v1/routes/insight.py:98-128 | an empty table gives zeros; the route fails with 500 `'submission_date'` exactly when a non-empty table lacks that column; otherwise the average engagement is a percentage, alert counts never exceed the rows, and missing columns give zero critical teams or burnout alerts |
| Insight.CriticalTeamsCount | backend/api/v1/routes/insight.py:117-120 | no more critical teams than departments; none when no department is below 55, all when every one is |
| Insight.TrendWithoutHistory | backend/api/v1/routes/insight.py:113-115 | an empty previous window gives a zero trend |
| Insight.TrendOf | backend/api/v1/routes/insight.py:113-115 | no trend exactly when a positive previous average meets a window with no engagement; an unchanged average gives trend 0 |
| Insight.TrendComparesWindows | backend/api/v1/routes/insight.py:108-115 | with rows in both windows the average is the current mean and the trend compares it with the previous mean |
| Insight.StraightenDoubleQuotes | backend/api/v1/routes/insight.py:141 | the corrected replacement keeps the length, leaves no curly double quote, and changes nothing else |
| Insight.CurlyQuotesKeptAsWritten | backend/api/v1/routes/insight.py:130-142 | as written, a clean object text without an apostrophe passes through unchanged, curly quotes included |
| Insight.CleanSummaryTextAsWritten | backend/api/v1/routes/insight.py:130-142 | as written, the last replacement changes nothing unless the text holds an apostrophe, so curly quotes survive |
| Insight.CleanSummaryText | backend/api/v1/routes/insight.py:130-142 | the corrected clean-up leaves no curly double quote, keeps the length of the shared steps' output and changes no other character |
| Insight.NoCurlyDoubleQuotesLeft | backend/api/v1/routes/insight.py:141 | the corrected clean-up leaves no curly double quote |
| Insight.ApostropheInPattern | backend/api/v1/routes/insight.py:141 | the pattern the line actually replaces contains an apostrophe |
| Insight.CommonStepsKeep | backend/api/v1/routes/insight.py:131-140 | fence stripping, brace extraction and control-character removal leave a clean object text unchanged |
| Insight.CurlyQuotesExample | backend/api/v1/routes/insight.py:141 | `{“}` comes out of the as-written clean-up with its curly quote, and out of the corrected one without |
| Insight.InsightsCases | backend/api/v1/routes/insight.py:169-206 | 400 iff the range is unknown, every other failure 500; a response carries the window's critical team count, trend and top theme; without a model reply the summary is the fallback |
| Insight.InsightsWith | backend/api/v1/routes/insight.py:169-206 | only 400 or 500 errors, the 400 exactly for a range that is none of the four; a success carries the timestamp, the AI summary or "Summary unavailable", and its observations or none |
| Insight.AiSummaryOf | backend/api/v1/routes/insight.py:130-163 | as written: without a model reply the summary is the fallback; otherwise it is the fallback or what the decoder made of some text |
| Insight.AiSummaryOfCorrected | backend/api/v1/routes/insight.py:130-163 | with the intended clean-up: the fallback without a reply; otherwise the fallback or the decoding of a text free of curly double quotes |
| Insight.Insights | backend/api/v1/routes/insight.py:169-206 | as written: 400 exactly for an unknown range, any other failure 500; a response carries the request's timestamp, and the fallback summary without a model reply |
| Insight.InsightsCorrected | backend/api/v1/routes/insight.py:169-206 | with the intended clean-up the route fails exactly when, and as, the as-written route does, and answers the same counts, top theme, trend and timestamp |
| Insight.SummaryOnlyDiffers | backend/api/v1/routes/insight.py:190-203 | two summaries give the same outcome, error, counts, top theme, trend and timestamp |
| Insight.TopThemeIsHighest | backend/api/v1/routes/insight.py:91-94 | there is a top theme iff there is a theme, and none has a higher impact |
| LlmJson.DropLetters | backend/utils/recommendation_agent.py:164 | the `[a-zA-Z]*` of the opening-fence pattern: the longest prefix of ASCII letters is dropped, and the rest does not start with one |
| LlmJson.StripFencesWrapped | backend/utils/recommendation_agent.py:163-165 | a reply wrapped in fences, the opening one tagged, comes out as the text between them without the surrounding whitespace |
| LlmJson.StripFences | backend/utils/recommendation_agent.py:163-165 | a reply without a fence is unchanged, and stripping never lengthens it |
| LlmJson.OpeningFenceOff | backend/utils/recommendation_agent.py:164 | the opening fence, its tag and the whitespace after it are removed |
| LlmJson.ClosingFenceOff | backend/utils/recommendation_agent.py:165 | a closing fence and the whitespace before it are removed |
| LlmJson.SpanOrdered | backend/utils/recommendation_agent.py:173 | `s[i:j+1]` with i <= j is the characters from i to j |
| LlmJson.SpanCrossed | backend/utils/recommendation_agent.py:173 | `s[i:j+1]` with j < i is empty |
| LlmJson.ExtractObjectWithoutBraces | backend/utils/recommendation_agent.py:169-173 | a text lacking '{' or '}' is left as it is |
| LlmJson.ExtractObjectSpan | backend/utils/recommendation_agent.py:168-173 | with the first '{' before the last '}', the text becomes the span from one to the other, which starts with '{' and ends with '}' |
| LlmJson.ExtractObjectCrossed | backend/utils/recommendation_agent.py:169-173 | when the last '}' precedes the first '{' the text becomes empty |
| LlmJson.ExtractObject | backend/utils/recommendation_agent.py:168-173 | without both braces the text is kept; otherwise the result is empty or runs from a `{` to a `}`, never longer than the text |
| LlmJson.FindIs | backend/utils/recommendation_agent.py:169 | `find` returns the first index of the character |
| LlmJson.RFindIs | backend/utils/recommendation_agent.py:170 | `rfind` returns the last index of the character |
| LlmJson.DropControls | backend/utils/recommendation_agent.py:176 | the characters 0x00-0x1F and 0x7F are removed and every other character kept |
| LlmJson.DropControlsClean | backend/utils/recommendation_agent.py:176 | a text without control characters is unchanged |
| LlmJson.StraightenQuotes | backend/utils/recommendation_agent.py:179-180 | the length is kept, no curly quote is left, and every other character is unchanged |
| LlmJson.NewlineBeforeQuote | backend/utils/recommendation_agent.py:184 | where the lazy `([^"]*?)\n` stops: the first newline when no quote precedes it, else none |
| LlmJson.CloseQuotesWithoutNewline | backend/utils/recommendation_agent.py:184 | without a newline the quote repair changes nothing |
| LlmJson.CloseQuotes | backend/utils/recommendation_agent.py:184 | the repair only inserts characters, and the result is empty exactly when the text is |
| LlmJson.DropTrailingCommaBefore | backend/utils/recommendation_agent.py:187 | a comma followed by whitespace and a closing bracket is dropped along with the whitespace |
| LlmJson.DropTrailingCommasKeepsText | backend/utils/recommendation_agent.py:187 | removing trailing commas changes only commas and whitespace: every other character stays, in order |
| LlmJson.DropTrailingCommasWithoutComma | backend/utils/recommendation_agent.py:187 | a text without a comma is unchanged |
| LlmJson.DropTrailingCommas | backend/utils/recommendation_agent.py:187 | removing trailing commas never lengthens the text |
| RecommendationAgent.CleanedText | backend/utils/recommendation_agent.py:156-187 | step 3 removes every newline, so the quote repair of step 5 never fires and the clean-up is the other five steps |
| RecommendationAgent.CleanLlmJson | backend/utils/recommendation_agent.py:156-216 | decoding succeeds exactly when the cleaned text decodes, with that value; otherwise a `ValueError` "Failed to clean/parse JSON: " followed by the decoder's message |
| RecommendationAgent.DropTrailingCommasSubset | backend/utils/recommendation_agent.py:187 | the comma removal adds no character |
| RecommendationAgent.CleanedTextIsPlain | backend/utils/recommendation_agent.py:156-187 | the cleaned text holds no control character and no curly quote |
| RecommendationAgent.Kept | backend/utils/recommendation_agent.py:327-332 | every action kept passes the case-insensitive priority and category filters and comes from the reply, and no more are kept than were given |
| RecommendationAgent.DefaultPositions | backend/utils/recommendation_agent.py:338-342 | an action's own target positions when it has some; otherwise never empty (the department, or "All Positions") |
| RecommendationAgent.StampAll | backend/utils/recommendation_agent.py:334-344 | one stamped action per kept action |
| RecommendationAgent.CountAsWritten | backend/utils/recommendation_agent.py:344-347 | the loop as written never returns more actions than pass the filters |
| RecommendationAgent.CountWithin | backend/utils/recommendation_agent.py:344-347 | the corrected count never exceeds the actions passing the filters |
| RecommendationAgent.ActionsAsWritten | backend/utils/recommendation_agent.py:326-349 | as written: the corrected actions whenever the limit is at least 1, and at most one action more than them otherwise |
| RecommendationAgent.Actions | backend/utils/recommendation_agent.py:326-349 | the corrected post-processing keeps no more actions than pass the filters and no more than a non-negative limit, and none for a limit of 0 or less |
| RecommendationAgent.LimitBelowOneAsWritten | backend/utils/recommendation_agent.py:344-347 | as written a limit of 0 or less still returns one action when one passes the filters; the corrected post-processing returns none |
| RecommendationAgent.KeptHasMatch | backend/utils/recommendation_agent.py:327-332 | an action passing the filters means something is kept |
| RecommendationAgent.ActionsMeetRequest | backend/utils/recommendation_agent.py:326-349 | at most `limit` actions, the first ones passing the filters, in order, each with a fresh id, a creation time and its target positions defaulted, otherwise unchanged |
| RecommendationAgent.KeptPrefix | backend/utils/recommendation_agent.py:326-347 | the actions kept from a prefix are a prefix of those kept from all |
| RecommendationAgent.KeptStep | backend/utils/recommendation_agent.py:327-332 | each pass keeps the action iff it passes the filters |
| RecommendationAgent.StampAllPrefix | backend/utils/recommendation_agent.py:334-344 | stamping a prefix gives a prefix of the stamped actions |
| RecommendationAgent.AppendStep | backend/utils/recommendation_agent.py:327-344 | each pass appends the stamped action iff it passes the filters |
| RecommendationAgent.StopAfter | backend/utils/recommendation_agent.py:346-347 | stopping early leaves a prefix of the stamped actions |
| RecommendationAgent.BreakAsWritten | backend/utils/recommendation_agent.py:346-347 | the `break` after the append stops with what the as-written count says |
| RecommendationAgent.PostProcessAsWritten | backend/utils/recommendation_agent.py:326-349 | the loop as written computes `ActionsAsWritten`, which `LimitBelowOneAsWritten` separates from the corrected result |
| RecommendationAgent.PostProcess | backend/utils/recommendation_agent.py:326-349 | the corrected loop computes `Actions`, whose properties `ActionsMeetRequest` states |
| RecommendationAgent.GenerateMicroActions | backend/utils/recommendation_agent.py:219-357 | as written: a truthy department raises NameError (`get_risk_summary` is never imported, line 120), which reaches the route as a 500; otherwise a failure carries a message and no action, a success no message |
| RecommendationAgent.GenerateMicroActionsCorrected | backend/utils/recommendation_agent.py:219-357 | with the department context built without the missing call and the limit checked before each append: success iff the reply decodes to actions; without a department the same success and message as written, the same answer for a limit of at least 1, never more actions than a non-negative limit, none for a limit of 0 or less |
| RecommendationAgent.DepartmentRequestRaises | backend/utils/recommendation_agent.py:120 | with a department the as-written call raises the NameError of the missing `get_risk_summary`, while the corrected call succeeds exactly when the reply decodes, with the department as the default position |
| RecommendationAgent.GenerateCases | backend/utils/recommendation_agent.py:306-357 | a failure at any step answers success False with its message and no actions, a parse failure with the "Failed to clean/parse JSON: " message; a success answers the as-written post-processing of the decoded reply |
| NlpEngine.SentimentLabel | backend/utils/nlp_engine.py:74-83 | "negative" iff the score is at most 4, "neutral" iff 5 or 6, "positive" iff at least 7 |
| NlpEngine.SentimentLabelMonotone | backend/utils/nlp_engine.py:74-83 | a higher score never gives a more negative label |
| NlpEngine.UntilFence | backend/utils/nlp_engine.py:156 | the longest prefix before the first fence: the second part of `split("```")` |
| NlpEngine.FencedContentBetween | backend/utils/nlp_engine.py:155-159 | a reply fenced as "```x```y" yields x, without a leading "json", stripped |
| NlpEngine.FencedContentOf | backend/utils/nlp_engine.py:155-159 | a fenced reply yields its first fenced part, without a leading "json", stripped |
| NlpEngine.FencedContent | backend/utils/nlp_engine.py:155-159 | unfenced content is kept; fenced content loses at least the three fence characters |
| NlpEngine.UntilFenceStops | backend/utils/nlp_engine.py:156 | the split stops at the first fence |
| NlpEngine.FencedContentUnfenced | backend/utils/nlp_engine.py:155 | a reply not starting with a fence is left as it is |
| NlpEngine.Rephrase | backend/utils/nlp_engine.py:87-111 | the stripped reply of the model, or the translation when the call fails |
| NlpEngine.EvaluateSentiment | backend/utils/nlp_engine.py:171-231 | the score is always 1 to 10 |
| NlpEngine.ExtractCategories | backend/utils/nlp_engine.py:114-168 | a failed call or undecodable reply gives ""; a non-empty answer is the decoded "categories" string, and a decoded string is always the answer |
| NlpEngine.EvaluateSentimentCases | backend/utils/nlp_engine.py:171-231 | a failed call or undecodable reply gives 5, "neutral"; a decoded score and label are taken when the score is 1 to 10, else 5, "neutral" |
| NlpEngine.Analyse | backend/utils/nlp_engine.py:271-311 | the analysis's score is always 1 to 10 |
| NlpEngine.ProcessSingleComment | backend/utils/nlp_engine.py:257-311 | the analysis's score is always 1 to 10 |
| NlpEngine.ProcessSingleCommentCases | backend/utils/nlp_engine.py:257-311 | a blank comment gets the defaults; a failing normaliser or translator gives the comment as its own rephrasing with category "Error"; otherwise the three model answers are joined |
| NlpEngine.ProcessSingleCommentAsWritten | backend/utils/nlp_engine.py:262-269 | as written and corrected agree on strings and falsy values; on a truthy non-string (NaN) the as-written version raises |
| NlpEngine.Head | backend/utils/nlp_engine.py:324 | `head(4)`: the first four comments, or all when fewer |
| NlpEngine.Processed | backend/utils/nlp_engine.py:329-331 | one analysis per comment, each `ProcessSingleComment` of it |
| NlpEngine.ProcessedStep | backend/utils/nlp_engine.py:329-331 | each pass appends the analysis of its comment |
| NlpEngine.FirstInvalid | backend/utils/nlp_engine.py:262 | the first truthy non-string comment; none iff every comment is a string or falsy |
| NlpEngine.PipelineOf | backend/utils/nlp_engine.py:313-339 | a missing file and other read errors give error objects; a table fails iff it lacks "Comments"; otherwise the analyses of the first four comments, in order, each scored 1 to 10 |
| NlpEngine.BlankCellFailsAsWritten | backend/utils/nlp_engine.py:262-269 | as written a table whose one comment is a NaN cell fails as a whole; the corrected pipeline gives that comment the default analysis |
| NlpEngine.AnalyseAll | backend/utils/nlp_engine.py:329-331 | the loop raises at the first truthy non-string comment, and otherwise gives `Processed` |
| NlpEngine.PipelineAsWritten | backend/utils/nlp_engine.py:313-339 | the pipeline as written computes `PipelineAsWrittenOf`, which `BlankCellFailsAsWritten` separates from the corrected result |
| NlpEngine.PipelineAsWrittenOf | backend/utils/nlp_engine.py:262-339 | as written the pipeline answers what the corrected one does, or the validation error; it is the validation error when a truthy non-string is among the first four comments, and the corrected answer when none is |
| NlpEngine.HeadInvalid | backend/utils/nlp_engine.py:324-330 | the first four comments hold a value `CommentAnalysis` rejects exactly when one of the first four cells is such a value |
| NlpEngine.Pipeline | backend/utils/nlp_engine.py:313-339 | the corrected pipeline computes `PipelineOf` |
| Filters.ColumnsOf | backend/api/v1/routes/filters.py:31 | a column of `pd.DataFrame(data)` is exactly an attribute some item holds |
| Filters.ColumnValues | backend/api/v1/routes/filters.py:45-48 | a value is listed exactly when some row holds the column and that value is its stripped text; never more values than rows |
| Filters.UniqueValues | backend/api/v1/routes/filters.py:34-51 | strictly increasing, so sorted and free of repeats; empty for a missing column; a value is in it exactly when some row holds it, stripped; every value is stripped |
| Filters.ColumnValuesStripped | backend/api/v1/routes/filters.py:48 | every listed value is already stripped |
| Filters.UniqueValuesEmpty | backend/api/v1/routes/filters.py:34-51 | a list is empty exactly when no employee holds its attribute |
| Filters.StripStripped | backend/api/v1/routes/filters.py:48 | stripping is idempotent |
| Filters.GetFilterOptions | backend/api/v1/routes/filters.py:13-66 | no employee data gives five empty lists without the success wrapper; otherwise success with each list the unique values of its column (departments from "division"), each non-empty exactly when some employee has that attribute |
| Quarter.QuarterOfMonth | backend/utils/quarter.py:30-37 | "Q1" exactly for months 1-3, "Q2" for 4-6, "Q3" for 7-9, "Q4" for 10-12 |
| Quarter.GetQuarter | backend/utils/quarter.py:22-39 | a quarter exactly when the text is a valid `YYYY-MM-DD` date, and then the quarter of its month; otherwise the ValueError |
| Quarter.QuarterOfIsoDate | backend/utils/quarter.py:22-37 | every valid date written `YYYY-MM-DD` gets quarter "Q" followed by (month - 1) / 3 + 1 |
| Quarter.QuarterExamples | backend/utils/quarter.py:17-20 | the documented examples: "2024-03-15" is Q1 and "2024-07-01" is Q3 |
| Quarter.QuarterRejects | backend/utils/quarter.py:24 | a date that does not exist ("2024-02-30") and the D/M/Y form of the docstring ("15/03/2024") raise |
| SeasonDetect.LabelFor | backend/utils/season_detect.py:34-42 | one holiday gives at most one label, and none exactly when the date is more than 15 days before or after it |
| SeasonDetect.ClassifyFestivalDate | backend/utils/season_detect.py:4-48 | a text that is not a valid `YYYY-MM-DD` date raises; otherwise the loop over the holiday table computes `Classification` |
| SeasonDetect.HolidayLabels | backend/utils/season_detect.py:23-42 | the loop over the holiday table appends exactly `Labels` of the date, one label per holiday within 15 days, in table order |
| SeasonDetect.Labels | backend/utils/season_detect.py:26-42 | at most one label per holiday; no label exactly when every holiday is more than 15 days away; every label starts with "festival", "pre-festival" or "post-festival" |
| SeasonDetect.Classification | backend/utils/season_detect.py:44-48 | the result is never empty, and it is `["normal day"]` exactly when every holiday is more than 15 days away |
| Calendar.DaysInMonth | backend/utils/quarter.py:24 | the `%d` check of `strptime`: every month has 28 to 31 days |
| Calendar.ParseYmd | backend/utils/quarter.py:24 | `strptime(s, "%Y-%m-%d")` accepts only dates that exist |
| Calendar.ParseIsoFormat | backend/utils/quarter.py:24 | a valid date written `YYYY-MM-DD` parses back to itself |
| Calendar.OrdinalWithinYear | backend/utils/season_detect.py:31 | the day numbers behind `(input_date - holiday_dt).days` put every date of a year after the days of the years before it |
| Calendar.IsoWeek1MondayFacts | backend/api/v1/routes/employees.py:121 | week 1 of an ISO year starts on the Monday within three days of 1 January |
| Calendar.IsoCalendarOrdinal | backend/api/v1/routes/employees.py:121 | `isocalendar()` gives a year, week and weekday 1-7 that locate the date from the Monday of that ISO year's first week |
| PyText.Strip | backend/api/v1/routes/filters.py:48 | `str.strip()`: the result neither starts nor ends with whitespace |
| PyText.Lower | backend/api/v1/routes/metrics.py:100 | `str.lower()`, character by character, length kept |
| PyText.Find | backend/utils/recommendation_agent.py:169 | -1 exactly when the character is absent, else its first index |
| PyText.RFind | backend/utils/recommendation_agent.py:170 | -1 exactly when the character is absent, else its last index |
| PyText.AfterFirst | backend/api/v1/routes/team.py:103 | `s.split(sep, 1)[1]`: exactly the text after the first occurrence of the separator, a strict suffix; empty when the separator is absent |
| Sorting.SortByPermutes | backend/api/v1/routes/metrics.py:124 | sorting keeps every row, with its multiplicity |
| Sorting.SortBySorted | backend/api/v1/routes/metrics.py:124 | sorting by a strict order gives a sorted sequence |
| Sorting.SortedUniqueIncreasing | backend/api/v1/routes/filters.py:44-50 | `sorted(...unique())` is strictly increasing |
| Sorting.DedupFirstKeys | backend/api/v1/routes/metrics.py:124 | `drop_duplicates(keep='first')` keeps exactly the keys present |
| Sorting.DedupFirstDistinct | backend/api/v1/routes/metrics.py:124 | no key is kept twice |
| Sorting.DedupFirstPicksFirst | backend/api/v1/routes/metrics.py:124 | each kept row is the first row with its key |
| Sorting.DedupFirstKeepsBest | backend/api/v1/routes/metrics.py:124 | after sorting, the row kept for a key comes first in the order among that key's rows |
| Stats.MeanWithin | backend/api/v1/routes/metrics.py:133 | the mean exists exactly for a non-empty column and lies within the column's bounds |

## Left out

- Table I/O is not modelled. DynamoDB scans, pagination loops, `update_item` and `put_item` are outside the model: a read is an input sequence or a failure, and a write is an event or a returned update.
- The language models, Malaya and the `holidays` package are not modelled. Their replies are inputs, and the holiday table is a sequence of (date, name).
- Prompt texts are left out: they only reach the model.
- `json.loads` and pydantic validation are oracle parameters. Pydantic's lax coercion is not modelled, and neither is the decoding of a JSON value that is not an object.
- The clock and `uuid4` are parameters. Where the source reads the clock twice in one request, the model uses one `today`, for example both calls of `get_date_range` in the insights route.
- Floating point is left out. Rates are exact reals, and pandas `.round()`, Python `round()`, and Decimal/float conversion are not modelled. Theme.Impact and Insight.RowOf compute `int(freq / total * 100)` on exact reals; in floats 29/100*100 is 28.999… and truncates to 28, where the model gives 29.
- NaN is `None`. How `json.dumps` renders NaN is not modelled.
- Ties in pandas sorts are broken by input order in the model (`sort_values` defaults to quicksort, which is not stable), except where a line below says otherwise.
- Insight.CountOrder: orders categories with equal counts by name. The order in which pandas `value_counts` lists tied categories is not specified, so the model picks one.
- Insight.ThemeRows: inherits the by-name tie order of Insight.CountOrder.
- Insight.ByCountIsStrictOrder: the order it proves strict breaks count ties by name, a choice of the model.
- WebsocketAlerts.ConnectionManager.Broadcast: does not model the `TypeError` that `json.dumps` (websocket_alerts.py:35) raises on a `Decimal` in the message, before any send. Each alert is a datatype value whose serialisation always succeeds.
- RiskMonitor.BroadcastAlerts: does not model that `TypeError`, for the same reason.
- RiskMonitor.Monitor.CheckDepartmentRisks: does not model that `TypeError`. A numeric (DynamoDB type N) `Department_ID` or `Department_name` reaches the alert as a `Decimal`, because only the engagement score goes through `decimal_to_float`, and the broadcast loop (risk_monitor.py:71-72) is outside the `try`.
- RiskMonitor.Monitor.CheckEmployeeStress: does not model that `TypeError`. A numeric `Employee_ID`, `name`, `division` or `position` reaches the alert as a `Decimal`, and the broadcast loop (risk_monitor.py:133-134) is outside the `try`.
- RiskMonitor.DetectAndNotify: does not model that `TypeError`, which either check can raise.
- Error detail texts are shortened. Where the source answers `str(e)` for an exception raised by a library (DynamoDB, pandas, `json`), the model's detail is a short stand-in such as `'submission_date'` for a `KeyError` or the decoder's message, not the library's exact text.
- Calendar.ParseYmd: accepts ASCII digits only. `datetime.strptime` also accepts other Unicode decimal digits, which the model does not.
- ActionsLog.UpdateIntervention: the 404 arises only for a reply without attributes. An `update_item` with `ALL_NEW` always returns attributes, even for an unknown id (see ActionsLog.UnknownIdIs500), so the 404 branch is modelled but no modelled table reaches it.
- `str.lower()` and `str.upper()` map ASCII letters only.
- `print` output is not modelled.
- Concurrency is left out: `await` interleavings in `broadcast`, the event-loop handling of the `_trigger_*` calls in `db_sync.py`, and FastAPI background scheduling. `process_file_background` runs as one step.
- A send failure is an input: the set of sockets whose send fails in each broadcast. What the network does is not modelled.
- Some parts of `process_file_background` are not modelled: `update_departments_from_survey`, the temporal fields, and the building of the `Survey_Response` items.
- The response caching decorators and the `clear_cache` routes are third-party cache calls and are not modelled. Only the hand-written TTL cache of `risk_engine.py` is modelled.
- The base64 pagination tokens of `employees.py` are library wrappers and are not modelled.
- The block after `return` in `risk_engine.py` never runs, so it is not modelled. Neither are the calls to names the files never define or import, except `get_risk_summary` in `recommendation_agent.py`, whose NameError is modelled.
- The pipeline never calls `get_sentiment_label`: it takes the label the model returns. The function is modelled on its own.
- The second `json.loads` attempt in `clean_llm_json` retries the same text after a repair step that does nothing, so the model calls the decoder once.
- The output of `json.dumps` becomes a datatype (`PipelineOutput`). The model keeps neither the JSON text nor its indentation.
- Team.GetTeamRiskData: `round(eng_val, 1)` in the returned items is not modelled.
- UploadCells.SafeDecimal: the decimal text is read for finite numbers in ASCII digits only. The quiet `NaN` text (which `Decimal` reads and `quantize` passes through) and the infinities are unparsable in the model and give the fallback, a float cell is its exact real rather than its `str()` rendering, float infinity is not a cell value, and rounding is half-up to cents within the 28-digit context precision.
- Metrics.Kept: a non-text department cell never matches, as pandas gives NaN for it in a column that also holds text. When the column holds no text at all, `.str.lower()` raises AttributeError and the route answers 500 (metrics.py:100 and 102, and the filters at lines 217 and 260); the model does not raise there. The same holds for MetricsAggregate.DepartmentMatches.
- RiskEngineHelpers.TemporalFields: `pd.to_datetime` is an oracle applied to each cell on its own. Pandas infers one format for the whole column, so a cell another cell's format excludes becomes NaT in pandas; the model does not capture that dependence between cells.

## Findings

| source | as written | input that shows it | evidently intended | confidence | as-written member | corrected member |
|---|---|---|---|---|---|---|
| backend/api/v1/routes/insight.py:141 | the line holds straight quotes where curly ones were meant: `"""` opens a triple-quoted string, so Python reads ONE `replace` whose pattern is the five characters `, '"').replace(` and whose replacement is `"`; that pattern holds an apostrophe, which a JSON object reply usually lacks, and no curly quote is ever replaced | the reply `{“}` keeps its curly quote | replace “ and ” with `"`, as recommendation_agent.py:179 does | not executed | Insight.CurlyQuotesExample | Insight.NoCurlyDoubleQuotesLeft |
| backend/api/v1/routes/employees.py:121 | the week key pairs the calendar year with the ISO week number | 2024-12-30 (ISO week 1 of 2025) and 2024-01-01 (ISO week 1 of 2024) both get the key 2024-01, so their hours are summed as one week | key by ISO year and ISO week | not executed | Employees.WeekKeyAsWrittenMerges | Employees.IntendedWeeksAreCalendarWeeks |
| backend/utils/recommendation_agent.py:344-347 | the limit is checked only after an action is appended | `limit = 0` with one matching action returns one action | return at most `limit` actions, so none for a limit of 0 or less | not executed | RecommendationAgent.LimitBelowOneAsWritten | RecommendationAgent.GenerateMicroActionsCorrected |
| backend/utils/recommendation_agent.py:120 | `get_enriched_context_for_recommendations` calls `get_risk_summary`, which the module neither defines nor imports | any micro-action request with a department, such as department "HR": the call at line 231 raises NameError and the route answers 500 | build the department context from data the module has | not executed | RecommendationAgent.DepartmentRequestRaises | RecommendationAgent.GenerateMicroActionsCorrected |
| backend/api/v1/routes/metrics.py:445 | the single-department test compares the category case-sensitively, but line 395 validates it case-insensitively | category "Departments" with department_name "HR" and offset 20: the department found is counted in the total but dropped from the page | test `category.lower() == 'departments'`, as lines 405 and 420 do | not executed | Metrics.DimensionsAsWrittenDropsLookup | Metrics.DimensionsKeepsLookup |
| backend/utils/nlp_engine.py:262-269 | a truthy non-string comment, such as a NaN cell, builds `CommentAnalysis(original=NaN)` outside the `try`, and pydantic rejects it, so the whole pipeline fails | a CSV whose one comment cell is empty (read as NaN) | give that comment the default analysis with original "" | not executed | NlpEngine.BlankCellFailsAsWritten | NlpEngine.PipelineOf |
| backend/api/v1/routes/actions_log.py:180-207 | the 404 raised for a missing item is caught by the generic handler and re-raised as a 500 | an update whose reply has no `Attributes` | answer 404 "Intervention not found" | not executed | ActionsLog.UpdateAsWrittenNever404 | ActionsLog.UpdateIntervention |
