# BRIO habit journal — a Dafny model of its rules

BRIO is a one-month bullet journal that runs in the browser. Each habit
has a row of day cells, and each cell cycles through nothing, half done
and done. A mood is set per day, and a short daily check-in (sleep,
energy, food, focus, social, stress on a 1–3 scale) feeds the charts. On
top of that data the page computes:

- a streak of fully completed days and the best streak ever;
- a productivity series and a "wheel of life" radar;
- a rule-based insight note;
- the profile counters;
- the data sent to an AI text service for four kinds of notes.

This project models those rules as pure functions over immutable data and
proves what they promise. Days are the integers 1..31 of the current
month. Completion weights are exact rationals (`real`), so 0.5 and 1 are
exact. Every day-keyed record is a map.

Modules, one per part of the program:

| file | module | models |
|---|---|---|
| wrappers.dfy | Wrappers | `null` / `undefined` as `Option` |
| types.dfy | Types | the records and constants of `types.ts` |
| keys.dfy | Keys | ascending iteration of integer-keyed objects, set counting |
| text.dfy | Text | `trim`, `includes`, decimal rendering of numbers |
| numbers.dfy | Numbers | `Math.round` on exact values |
| habits.dfy | Habits | cell toggling, adding and deleting habits, loading saved habits |
| streak.dfy | Streak | the current streak and the best-streak ratchet |
| mood.dfy | Mood | the mood cycle and the check-in → mood rule |
| metrics.dfy | Metrics | sleep and productivity series, the radar, the chart carousel |
| profile.dfy | Profile | profile counters, displayed fallbacks, the edit form, profile loading |
| insight.dfy | Insight | the local insight rule |
| grid.dfy | Grid | visible days, grid clicks, the new-habit form |
| ai.dfy | Ai | the data each AI request is built from, and its fallbacks |
| lists.dfy | Lists | brain dump, gratitude and sticky-note lists, the journal save |
| app.dfy | App | the whole page as a state machine with the best-streak effect |

The AI generator is an oracle. Its reply (`Responded(text)` or `Failed`)
is a parameter, and the prompt wording is not modelled. The following are
also parameters:

- the day of the month;
- new ids and ISO timestamps;
- the presence of an API key;
- each `Math.random()` draw.

The page's effect that raises the best streak is modelled as running
after every action (`App.Step`).

## Model

| member | source | states |
|---|---|---|
| Types.MonthDaysAscending | types.ts:56 | the month's days are exactly 1..31, ascending, 31 of them |
| Types.InitialMoodDataEmpty | types.ts:101-104 | the initial mood list has one entry per day 1..31, in order, each with no value |
| Types.DefaultHabitsWellFormed | types.ts:79-98 | three default habits with pairwise distinct ids, empty completion maps and palette colours |
| Types.CategoriesDistinct | types.ts:58-65 | the check-in categories are sleep, energy, food, focus, social, stress, in that order, pairwise distinct |
| Types.LookupDistinct | types.ts:25 | a day's answers hold each key once, as an object does, so every stored answer is exactly what its key reads back |
| Keys.SortedKeys | services/ai.ts:94 | the integer keys of an object in the order JavaScript lists them: each key exactly once, strictly ascending |
| Text.Trim | components/HabitGrid.tsx:29-30 | the trimmed text has no whitespace at either end, is empty exactly when the input is all whitespace, and is a slice of the input |
| Text.TrimIdempotent | components/HabitGrid.tsx:29-30 | trimming twice is trimming once |
| Text.NatToString | services/ai.ts:195 | the decimal rendering of a day uses only digits, has no leading zero and reads back as the same number |
| Numbers.Round | App.tsx:334 | `Math.round` of a non-negative value is the integer within one half of it, halves rounding up |
| Habits.WeightAt | components/HabitGrid.tsx:96 | a cell's weight is the stored value, and 0 when the day has no key |
| Habits.ToggleCell | App.tsx:156-168 | one toggle moves the day's weight one step 0 → 0.5 → 1 → 0, stores 0 by deleting the key, leaves every other day and the habit's id, title and colour alone, and keeps stored weights in {0.5, 1} |
| Habits.ToggleHabitDay | App.tsx:154-171 | only the habits with the given id change, and each by exactly that one-cell toggle; the list keeps its length and order |
| Habits.ThreeStepsRestoreWeight | App.tsx:158-162 | the weight cycle has period three and never stands still |
| Habits.ThreeTogglesRestoreHabit | App.tsx:154-171 | three toggles of one cell give back the habit unchanged, key deletion included |
| Habits.ThreeTogglesRestoreList | App.tsx:154-171 | three toggles of the same (habit, day) give back the whole habit list |
| Habits.ColorIndex | App.tsx:177 | a random draw in [0, 1) picks a palette slot, the floor of draw × 7 |
| Habits.AddHabit | App.tsx:173-181 | a new habit goes at the end with the given id and title, no completions and a palette colour; the others are untouched, and valid weights and distinct ids (for a fresh id) are kept |
| Habits.RemoveHabit | App.tsx:189 | deleting keeps exactly the habits with another id, drops none of them, and changes nothing when no habit has the id |
| Habits.RemoveHabitAppend | App.tsx:189 | deleting works habit by habit over any split of the list, so the kept habits stay in their order |
| Habits.RemoveKeepsIdsUnique | App.tsx:189 | deleting keeps habit ids pairwise distinct |
| Habits.ConfirmDeleteHabit | App.tsx:187-192 | a pending non-empty id is deleted and the request cleared; with nothing (or an empty id) pending nothing changes |
| Habits.DaysToWeights | App.tsx:36-39 | a legacy day list becomes a map whose keys are exactly the listed days, duplicates collapsed, each with weight 1 |
| Habits.Migrate | App.tsx:32-40 | a legacy habit keeps id, title and colour, and completes exactly its listed days with weight 1 |
| Habits.LoadHabits | App.tsx:26-46 | nothing saved or unparseable data gives the default habits; a list whose first item is legacy is migrated item by item (a later non-legacy item makes the migration throw, giving the defaults); otherwise the saved habits are kept as they are |
| Habits.MigrationIsValid | App.tsx:31-40 | a migrated list has only valid weights and keeps every habit's id, title and colour |
| Streak.RunEndingAt | App.tsx:117-130 | the run ending at a day is a stretch of fully completed days bounded below by day 1 or by an incomplete day |
| Streak.CurrentStreak | App.tsx:112-133 | the streak is 0 with no habits, never negative, at most today (0 when today is negative); it counts the completed days back from today, or from yesterday when today is not complete, up to the first incomplete day |
| Streak.ComputeStreak | App.tsx:112-133 | the loop that walks down from today, skipping an incomplete today and stopping at the first incomplete earlier day, computes exactly the streak |
| Streak.StreakWalk | App.tsx:117-131 | where the walk stops (an incomplete earlier day, or day 0), the count it has is the streak |
| Streak.Ratchet | App.tsx:136-140 | the record is replaced only by a strictly greater streak, so it never decreases and covers the streak |
| Streak.RatchetAllBounds | App.tsx:136-140 | over any series of observed streaks the record never decreases, ends at least at every one of them, and is the starting record or one of them |
| Streak.ScenarioBothDoneToday | App.tsx:117-130 | two habits both done today only: streak 1 |
| Streak.ScenarioYesterdayHalfDone | App.tsx:117-130 | a day where one habit is missing stops the walk, so the streak is 1 |
| Streak.ScenarioIncompleteToday | App.tsx:117-130 | a half-done today is skipped and the two full days before it count |
| Mood.FourClicksRestoreMood | App.tsx:253-258 | the mood cycle none → 3 → 2 → 1 → none has period four, never stands still and stays within valid moods |
| Mood.ToggleMoodForDay | App.tsx:250-260 | only the entries of the clicked day move one step in the mood cycle; the others and the list length are kept |
| Mood.FourTogglesRestoreMoods | App.tsx:250-260 | four clicks on the same day give back the mood list |
| Mood.SetMoodForDay | App.tsx:262-267 | today's entries take the value; every other entry is kept |
| Mood.MoodForAverage | App.tsx:277-279 | the mood is 1 exactly below 1.66, 3 exactly above 2.33, otherwise 2 |
| Mood.SaveCheckIn | App.tsx:269-282 | the answers replace today's check-in; with answers, today's mood follows their average; with none, moods are untouched |
| Mood.SaveCheckInMood | App.tsx:273-281 | with answers in 1..3 the average lies in [1, 3] and today's mood is a valid mood that is 1 or 3 exactly when the thresholds say so |
| Mood.SumValuesBounds | App.tsx:275 | answers in 1..3 sum to between n and 3n |
| Mood.AverageExamples | App.tsx:276-279 | averages 2.67, 1.33 and 2 map to moods 3, 1 and 2 |
| Metrics.SleepSeries | App.tsx:295-303 | one point per day 1..31, carrying that day's sleep answer, with 0 or a missing answer shown as no value |
| Metrics.SleepSeriesShowsAnswers | App.tsx:300 | with answers in 1..3 the series shows every recorded sleep answer as it is |
| Metrics.WeightSumBounds | App.tsx:310 | with valid weights, the day's weight sum lies between 0 and the number of habits |
| Metrics.FocusScore | App.tsx:318-323 | focus 3 scores 100, focus 2 scores 50, any other present level 20 |
| Metrics.ProductivityScore | App.tsx:305-337 | with no focus answer the day scores the rounded habit score; with focus and no habits, the focus score; with both, the rounded mean of the two |
| Metrics.ProductivityInRange | App.tsx:305-337 | with valid weights every day's productivity lies in [0, 100] |
| Metrics.ProductivitySeriesInRange | App.tsx:305-337 | every one of the 31 productivity values lies between 0 and 100 |
| Metrics.ProductivitySeriesEmptyDay | App.tsx:305-337 | a day with no stored habit weight and no check-in is plotted as 0, not left empty |
| Metrics.NoFocusMeansHabitScore | App.tsx:325 | without a focus answer the score is the rounded percentage of weight completed |
| Metrics.FocusOnlyScenario | App.tsx:328-329 | with no habits and focus 3 the day scores 100 |
| Metrics.HalfHabitScenario | App.tsx:326-327 | one half-done habit (50) and focus 2 (50) score 50 |
| Metrics.BalanceScore | components/MetricsCarousel.tsx:55-58 | a category without answers scores 0 |
| Metrics.Balance | components/MetricsCarousel.tsx:54-73 | one radar point per check-in category, in category order, each with full mark 100, the abbreviated label and the category's rounded score |
| Metrics.DayTallyBounds | components/MetricsCarousel.tsx:38-50 | with answers in 1..3 a day's adjusted total lies between its count and three times it (stress inverted as 4 − v stays in 1..3) |
| Metrics.MonthTallyBounds | components/MetricsCarousel.tsx:37-51 | the same bounds hold for the month's totals of a category |
| Metrics.ScoreInRange | components/MetricsCarousel.tsx:55-70 | a tally of answers on the 1..3 scale averages to a radar value between 33 and 100 |
| Metrics.BalanceInRange | components/MetricsCarousel.tsx:55-70 | with answers in 1..3 every category that has data scores between 33 and 100 |
| Metrics.KnownAnswers | components/MetricsCarousel.tsx:39 | the answers kept are those whose key is a category id |
| Metrics.DayTallyIgnoresUnknown | components/MetricsCarousel.tsx:39 | keys that are not category ids do not change any category's day tally |
| Metrics.MonthTallyIgnoresUnknown | components/MetricsCarousel.tsx:37-51 | nor the month tally |
| Metrics.BalanceIgnoresUnknownKeys | components/MetricsCarousel.tsx:36-51 | removing every non-category key from every day leaves the radar unchanged |
| Metrics.StressIsInverted | components/MetricsCarousel.tsx:42-47 | a stress answer v contributes 4 − v, any other category's answer v contributes v, and an answer counts only for its own category |
| Metrics.ScoreExamples | components/MetricsCarousel.tsx:56-70 | averages 3, 1 and 2.25 score 100, 33 and 75 |
| Metrics.LabelSono | components/MetricsCarousel.tsx:62 | "Qualidade do Sono" is shown as "Sono" |
| Metrics.LabelEnergia | components/MetricsCarousel.tsx:63 | "Nível de Energia" is shown as "Energia" |
| Metrics.LabelAlimentacao | components/MetricsCarousel.tsx:61-66 | "Alimentação" is shown unchanged |
| Metrics.LabelFocus | components/MetricsCarousel.tsx:66 | "Foco / Produtividade" is shown as "Foco" |
| Metrics.LabelSocial | components/MetricsCarousel.tsx:65 | "Interação Social" is shown as "Social" |
| Metrics.LabelEstresse | components/MetricsCarousel.tsx:64 | "Nível de Estresse" is shown as "Calma" |
| Metrics.RadarSubjects | components/MetricsCarousel.tsx:54-73 | the radar's six subjects are Sono, Energia, Alimentação, Foco, Social, Calma, in that order |
| Metrics.IndexOf | components/MetricsCarousel.tsx:111-114 | every metric has a position in the metric list, holding that metric |
| Metrics.IndexSteps | components/MetricsCarousel.tsx:113-123 | next moves one position forward and previous one back, wrapping from the last chart to the first and back |
| Metrics.NextPrevInverse | components/MetricsCarousel.tsx:113-123 | next then previous, and previous then next, return to the chart shown |
| Metrics.CarouselCycles | components/MetricsCarousel.tsx:113-123 | four nexts return to the start, and next always moves to another chart |
| Profile.CompletedCells | components/ProfilePage.tsx:38 | a habit's count of positive weights is at most its number of stored days, and equal to it when the weights are valid |
| Profile.TotalHabitsCompleted | components/ProfilePage.tsx:37-39 | the total is 0 exactly when no habit has a positive weight anywhere |
| Profile.TotalAppend | components/ProfilePage.tsx:37-39 | the total over two lists of habits is the sum of their totals |
| Profile.AddHabitKeepsTotal | components/ProfilePage.tsx:37-39 | adding a habit leaves the total unchanged |
| Profile.ToggleCellCount | components/ProfilePage.tsx:38 | the first toggle of a cell (to 0.5) adds one, the second (to 1) none, the third (to 0) takes it away: partial days count as completed |
| Profile.HappyDaysCount | components/ProfilePage.tsx:41 | the number of mood entries with value exactly 3: 0 exactly when there are none, the list length exactly when all are |
| Profile.DisplayName | components/ProfilePage.tsx:92 | the heading shows the name, or "Viajante Anônimo" when it is empty; never empty |
| Profile.DisplayBio | components/ProfilePage.tsx:104 | the motto shows the bio, or "Escrevendo minha própria história..." when it is empty; never empty |
| Profile.HandleSave | components/ProfilePage.tsx:24-27 | saving hands the form to the caller and leaves edit mode with the form kept |
| Profile.Apply | components/ProfilePage.tsx:22-27 | typing changes only the form's name or bio, and only a save yields a profile |
| Profile.Replay | components/ProfilePage.tsx:22-27 | a session yields at most one saved profile per event |
| Profile.SavedProfilesKeepUntouchedFields | components/ProfilePage.tsx:22-27 | every profile saved from a form opened on p keeps p's join date, avatar seed and best streak |
| Profile.OrText | App.tsx:90-93 | a missing or empty stored text falls back to the default |
| Profile.LoadProfile | App.tsx:84-96 | the loaded profile has a non-empty name, bio and avatar seed, keeps a stored best streak and has 0 without one; with nothing stored it is the fixed default profile stamped with the current time |
| Profile.StoreLoadRoundTrip | App.tsx:84-96 | a profile with non-empty text fields survives saving and loading unchanged |
| Profile.LoadIsIdempotent | App.tsx:84-96 | loading a saved loaded profile gives the same profile |
| Insight.HappyDays | components/InsightSticky.tsx:22 | the happy days are exactly the days of entries with mood 3, as many as the profile's happy-day count |
| Insight.ScanFindsWinner | components/InsightSticky.tsx:24-35 | the scan over habits ends on the first habit with strictly maximal count among those whose count exceeds 0.7 × the happy days (ties keep the earlier one), and keeps its start value when none qualifies |
| Insight.WinnerUnique | components/InsightSticky.tsx:31-34 | that chosen habit is unique |
| Insight.FallbackInsight | components/InsightSticky.tsx:39-43 | the sleep message exactly when more than 5 check-in days have sleep 3, otherwise the default message |
| Insight.GenerateLocalInsight | components/InsightSticky.tsx:20-44 | the insight is total and never empty |
| Insight.NoWinnerFallsBack | components/InsightSticky.tsx:22-43 | with fewer than 3 happy days, or no qualifying habit, the insight is the sleep rule's answer |
| Insight.WinnerIsNamed | components/InsightSticky.tsx:36 | with at least 3 happy days the chosen habit is named in the message, unless its title is empty, which falls through to the sleep rule |
| Grid.MonthDaysIsSpan | types.ts:56 | the month's days are the integers 1..31 |
| Grid.KeepAtMost | components/HabitGrid.tsx:25 | keeping the days up to today keeps exactly those |
| Grid.KeepAtMostRange | components/HabitGrid.tsx:25 | filtering 1..31 at today cuts the range at today |
| Grid.Reverse | components/HabitGrid.tsx:25 | reversal puts element i at position n − 1 − i |
| Grid.VisibleDays | components/HabitGrid.tsx:25 | the grid shows exactly the days 1..today (at most 31), strictly descending; for today in 1..31 it has today entries and starts at today |
| Grid.Click | components/HabitGrid.tsx:45-106 | a header click opens that day's journal, a cell click toggles that habit's day, a delete button asks for confirmation; nothing else changes |
| Grid.OfferedDaysArePast | components/HabitGrid.tsx:45-106 | every header or cell the grid offers is for a day in 1..today |
| Grid.OfferedClickSparesFuture | components/HabitGrid.tsx:45-106 | no click the grid offers changes a weight after today or opens a future day's journal |
| Grid.HandleAddSubmit | components/HabitGrid.tsx:27-33 | a title that is not all whitespace is handed on trimmed and the input cleared; otherwise nothing is handed on and the input kept |
| Grid.SubmittedTitleIsTrimmed | components/HabitGrid.tsx:29-30 | a submitted title has no whitespace at either end and would be submitted unchanged again |
| Ai.Settle | services/ai.ts:63-74 | a reply with text that is not all whitespace gives that text trimmed; an empty reply gives the function's empty-reply text; a failure gives its failure text |
| Ai.SettledIsFallbackOrTrimmedText | services/ai.ts:63-74 | the result is never empty, and is a fixed fallback or text without whitespace at either end |
| Ai.SettleIsStable | services/ai.ts:69 | settling a settled text again changes nothing |
| Ai.FindMood | services/ai.ts:37 | the mood of the first entry for the day, or nothing when no entry has that day |
| Ai.MoodLabel | services/ai.ts:38 | 3 → Radiante, 2 → Neutro, 1 → Cansado, each exactly, and "Sem registro" exactly for anything else |
| Ai.CompletedTitles | services/ai.ts:40-43 | the listed titles are exactly those of habits with weight 1 on the day |
| Ai.CompletedTitlesAppend | services/ai.ts:40-43 | the filter distributes over concatenation, so the titles keep the habits' order |
| Ai.CompletedTitlesPointwise | services/ai.ts:40-43 | habit lists that agree on titles and on the day's weights list the same titles |
| Ai.ScribeFactsFor | services/ai.ts:36-47 | the mood word is one of Radiante, Neutro, Cansado or Sem registro, and anything but Sem registro means a valued entry exists for the day; a title is listed exactly when some habit has it with weight 1 that day; sleep and focus are absent without a check-in that day and are that day's answers otherwise |
| Ai.ScribeFactsIgnoreOtherDays | services/ai.ts:36-47 | toggling a grid cell or answering the check-in of another day leaves the scribe's facts about the day unchanged |
| Ai.ScribeNapping | services/ai.ts:72-73 | the failure text says whether an API key was found |
| Ai.GhostScribeEntry | services/ai.ts:63-74 | the scribe always returns a non-empty text; on failure, the napping text |
| Ai.MoodHistory | services/ai.ts:91 | the mood history holds exactly the entries that have a value |
| Ai.MoodHistoryAppend | services/ai.ts:91 | the history distributes over concatenation, so the points keep the entries' order |
| Ai.CheckInSummary | services/ai.ts:96 | one row per check-in day, ascending, each carrying that day's answers |
| Ai.HabitHistory | services/ai.ts:92-95 | one entry per habit with its title and exactly its completion days, partial days included, ascending |
| Ai.Summarize | services/ai.ts:88-97 | the day count is the number of mood entries, empty ones included; the titles follow the habits; a (day, value) point is in the history exactly when that valued entry was recorded; each habit's history lists, in ascending order, exactly its stored days; the check-in rows cover exactly the answered days, in ascending order, with their answers |
| Ai.SummaryIgnoresEmptyEntries | services/ai.ts:88-97 | appending a mood entry without a value raises the day count by one and changes nothing else in the summary |
| Ai.AnalyzePatterns | services/ai.ts:117-127 | the pattern detective always returns a non-empty text; on failure, its fixed failure text |
| Ai.OpenTexts | components/BrainDump.tsx:29 | the texts analysed are empty exactly when every item is done, and a text is sent exactly when some open item has it |
| Ai.OpenTextsAppend | components/BrainDump.tsx:29 | the filter distributes over concatenation, so the texts keep the items' order |
| Ai.AnalyzeBrainDump | services/ai.ts:134-166 | an empty list gets the calm text; otherwise the reply, settled; never empty |
| Ai.EmptyDumpIgnoresGenerator | services/ai.ts:137 | with no open item the answer is the calm text whatever the generator would say |
| Ai.WindowStart | services/ai.ts:180-181 | the window starts at day 1 or later, never after today, at most 7 days before it, and exactly 7 before once today is 8 or later |
| Ai.WeekMoods | services/ai.ts:185 | the weekly moods are exactly the entries in the window that have a value |
| Ai.WeekMoodsAppend | services/ai.ts:185 | the weekly filter distributes over concatenation, so the moods keep the entries' order |
| Ai.WeekMoodsExact | services/ai.ts:185 | an entry is a weekly mood exactly when it was recorded, lies in the window and has a value |
| Ai.WeekHabitCounts | services/ai.ts:186-189 | one count per habit, in order, with its title and its number of stored days in the window, never more than the window's length |
| Ai.WindowCount | services/ai.ts:186-189 | a habit's weekly count is at most the window's length |
| Ai.WindowCountsPartialDays | services/ai.ts:186-189 | every completion key counts, partial days included: a 0 → 0.5 toggle in the window adds one |
| Ai.KeepWindow | services/ai.ts:190-191 | the filtered keys are exactly those inside the window |
| Ai.KeepWindowAscending | services/ai.ts:190-191 | the filter keeps the keys' order: ascending keys stay ascending |
| Ai.SortedWindow | services/ai.ts:190-194 | the window's keys of a record are exactly the recorded days inside the window, ascending |
| Ai.Snippet | services/ai.ts:195 | a snippet is "Dia ", the day, ": ", the first (at most 50) characters of the text and "...", so at most 59 characters beyond the day |
| Ai.SnippetDayRoundTrip | services/ai.ts:195 | the day can be read back from its snippet |
| Ai.SnippetNamesItsDay | services/ai.ts:193-195 | snippets of different days differ |
| Ai.WeekCheckIns | services/ai.ts:190-192 | the weekly check-in rows are exactly the check-in days in the window, ascending, each with its answers |
| Ai.WeekSnippets | services/ai.ts:193-195 | the weekly snippets are exactly one per journal day in the window |
| Ai.WeeklyDataFor | services/ai.ts:181-196 | the range names the window [max(1, today − 7), today]; a mood is reported exactly when it was recorded in the window with a value; each habit keeps its title with a count of its stored days in the window, at most the window's length; the check-in rows and snippets are the window's |
| Ai.WeeklyDataIgnoresOutsideMoods | services/ai.ts:181-185 | recording a mood outside the window, or without a value, leaves the weekly data unchanged |
| Ai.WeeklyDataIgnoresOutsideToggles | services/ai.ts:181-189 | toggling a grid cell outside the window leaves the weekly data unchanged |
| Ai.GenerateWeeklyLetter | services/ai.ts:216-226 | the weekly letter is never empty; on failure it is the storm text |
| Lists.Without | App.tsx:205-207 | deleting by id keeps exactly the elements with another id and changes nothing when no element has it |
| Lists.WithoutAppend | App.tsx:245-246 | deleting works element by element and never reorders what it keeps |
| Lists.DeleteUndoesPrepend | App.tsx:195-207 | deleting the id of an element just put in front, under a fresh id, gives back the list |
| Lists.DeleteUndoesAppend | App.tsx:210-226 | likewise for an element just put at the end |
| Lists.AddBrainDumpItem | App.tsx:234-237 | a new brain-dump item goes on top, open, with the given id and text |
| Lists.ToggleBrainDumpItem | App.tsx:239-243 | exactly the items with the id flip their done mark; ids, texts and order are kept |
| Lists.DeleteBrainDumpItem | App.tsx:245-247 | the items kept are exactly those with another id |
| Lists.ToggleTwiceRestoresBrainDump | App.tsx:239-243 | toggling the same item twice gives back the list |
| Lists.DeleteUndoesAddBrainDump | App.tsx:234-247 | deleting a just-added item gives back the list |
| Lists.AddedItemIsAnalysed | App.tsx:234-237 | a new item's text heads the texts the brain-dump analysis reads |
| Lists.AddGratitude | App.tsx:195-203 | a new gratitude note with its id, text and date goes on top |
| Lists.DeleteGratitude | App.tsx:205-207 | the notes kept are exactly those with another id |
| Lists.DeleteUndoesAddGratitude | App.tsx:195-207 | deleting a just-added note gives back the list |
| Lists.Rotation | App.tsx:215 | a sticky note's tilt lies in [−2, 2) |
| Lists.AddStickyNote | App.tsx:210-218 | a new empty note of the chosen colour, tilted within [−2, 2), goes at the end |
| Lists.UpdateStickyNote | App.tsx:220-222 | the notes with the id take the new text; every other note is kept |
| Lists.DeleteStickyNote | App.tsx:224-226 | the notes kept are exactly those with another id |
| Lists.DeleteForgetsEdits | App.tsx:220-226 | editing a note and then deleting it is the same as deleting it |
| Lists.DeleteUndoesAddSticky | App.tsx:210-226 | deleting a just-added note gives back the notes |
| Lists.SaveJournalEntry | App.tsx:288-292 | the text is stored under the open journal day, every other day is kept, and with no day open nothing changes |
| App.Reconcile | App.tsx:136-140 | the effect changes only the record, never lowers it, makes it cover the current streak, and raises it only to that streak |
| App.Start | App.tsx:136-140 | the first render shows the dashboard, nothing pending, with a record at least the loaded one that covers the streak |
| App.StepKeepsRecord | App.tsx:136-140 | no action, on either page, lowers the record, and every action leaves it covering the current streak |
| App.RunKeepsRecord | App.tsx:136-140 | over any session, including habit deletions and profile saves, the record never goes down and ends covering the current streak |
| App.ProfilePageFreezesData | App.tsx:464-470 | while the profile page is shown the month's data cannot change |
| App.DashboardKeepsIdentity | App.tsx:154-292 | dashboard actions never touch the profile's name, bio, join date or avatar |
| App.DeleteNeverLowersRecord | App.tsx:187-192 | confirming a deletion never lowers the record and closes the dialog |
| App.MoodButtonSetsToday | App.tsx:262-267 | a header mood button gives today's entries that mood, keeps every other entry and the number of entries, and leaves habits, check-ins and journal alone |

## Left out

- Persistence is not modelled: the `localStorage` writes, JSON (de)serialisation and the profile page's reset (App.tsx:143-151, components/ProfilePage.tsx:29-34). Loading is modelled only as defaulting and migration over an already-parsed value.
- React rendering, hooks and memoisation are not modelled. Effects are modelled as running after every action.
- The Gemini client and the API-key lookup (services/ai.ts:1-22) are not modelled. The reply and the presence of a key are parameters, and prompt wording is not behaviour.
- The clock and randomness are not modelled: `new Date()`, `getDate()`, `Date.now()` ids and `Math.random()` draws are parameters.
- The day is fixed during a session (`App.AppState.currentDay`). A day change while the page is open is not modelled.
- Async overlap between AI calls (last write wins) is not modelled, because it is concurrency.
- Numbers are exact rationals, not doubles. Averages, the thresholds 1.66 and 2.33, and `Math.round` at exact halves can differ from the doubles by rounding.
- The 0.7 rule is modelled exactly as 10·count > 7·n. It agrees with the double product `n * 0.7` whenever that product rounds to the exact value; that is not proved here.
- Text is a sequence of code points. `substring(0, 50)` counts UTF-16 units, so it can cut differently around characters outside the Basic Multilingual Plane; that is not modelled. `trim` uses the WhiteSpace and LineTerminator code points of sections 12.2 and 12.3 of ECMA-262.
- A check-in day is an ordered list of (category, value) answers, not a JavaScript object. Distinct keys are a precondition (`Types.DistinctKeys`, required by `Metrics.ValidAnswers` and by a submitted check-in in `App.ValidAction`), not a property of the type. Keys such as `__proto__` are not modelled.
- The check-in rows keep the day and the answers apart. So an answer key named `d` or `day`, which would overwrite the day in the `{ d, ...val }` spread (services/ai.ts:96, 192), is not modelled.
- Habits.LoadHabits: a saved item in the current shape always carries its `completed` map. An item with that field missing is kept as is by the source (App.tsx:42), and the page then throws while rendering (App.tsx:119, components/HabitGrid.tsx:96). That crash is not modelled.
- The displayed record `bestStreak || 0` (components/ProfilePage.tsx:157) is the identity here: a loaded profile always has an integer record (`Profile.LoadProfile`).
- The thin list and modal components are not modelled: BrainDump's trim guard, GratitudeBox's `slice(0, 5)`, JournalModal's append, WeeklyLetter's Sunday/cache gate, CheckInModal's answer editing, StickyNote, TomorrowFocus, Tape, MoodChart and ConfirmationModal. They are presentation or one-line guards over UI state. Only the confirm-then-close order of the confirmation dialog is kept (`App.Dash`). The open-items filter of the brain dump is kept as `Ai.OpenTexts`.
- The profile page's avatar rendering and the insight note's AI button are not modelled, because they are presentation plus the generator oracle.
- Ai.WindowCount: states only the window-length bound and, through `Ai.WindowCountsPartialDays`, that partial days count. Its definition is the number of completion keys in the window.
- Ai.WeekSnippets: states that the snippets are exactly those of the window's journal days, not their order.
