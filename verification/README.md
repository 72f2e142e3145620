# Learning-progress store, modelled in Dafny

This project models the progress-tracking core of the Learning Paths roadmap site.

- The **progress document** is a three-level nested map: domain -> level -> `LevelProgress {topics, resources, completed}`. Each topic and resource flag is a `map<string, bool>`.
- Three **mutations** rebuild one path and flip one flag: `toggleTopic`, `toggleResource` and `completeLevel`. Any missing segment defaults to `{topics: {}, resources: {}, completed: false}`.
- Two **read accessors** return the zero value whenever a key is missing: `getLevelProgress` and `isTopicCompleted`.
- The **statistics**: `getDomainStats` counts levels, topics, completed topics and completed levels, and returns a percentage guarded against division by zero. `getGlobalProgress` sums those counts over all domains and divides once.
- The **debounced write-behind** of the hook: mounting loads the saved document, every change cancels the scheduled save and schedules a new one, the timer writes the document, and unmounting cancels the save without writing.
- The **team roster lookup** `getTeamByDesignation`.

Files:

- `progress.dfy` (module `Progress`): the document, its mutations and accessors, and the toggle algebra (involution, exact identity, commutation, frames).
- `stats.dfy` (module `Stats`): the aggregation, its bounds, and how each mutation moves each count.
- `store.dfy` (module `ProgressStore`): the hook's state cells as the class `Store`, plus scenario methods on the debounce.
- `team.dfy` (module `Team`): the roster and its filter.
- `wrappers.dfy` (module `Wrappers`): `Option`.

The percentage is modelled as a `real`. Rounding happens only in the UI.

Two consequences of the code are worth stating on their own:

- `completedTopics` counts every stored `true` flag of each listed level, whether or not the topic id is listed. So it can be non-zero when every listed level lists no topics, and it can exceed `totalTopics`, giving a percentage above 100. `Stats.UnlistedFlagsAreCounted` exhibits both cases.
- A save is also scheduled when the store becomes mounted, because the save effect depends on `mounted`. That save writes back the loaded document. `ProgressStore.Store.Mount` models this.

## Model

| member | source | states |
|---|---|---|
| `Progress.Flag` | hooks/use-learning-progress.ts:68 | A missing topic or resource flag reads as `false`; a stored one reads as stored. |
| `Progress.TrueKeys` | hooks/use-learning-progress.ts:128 | A key is in the set exactly when its flag reads `true`. |
| `Progress.DomainOf` | hooks/use-learning-progress.ts:66 | A missing domain reads as `{}`; a stored one reads as stored. |
| `Progress.LevelOf` | hooks/use-learning-progress.ts:67 | A missing level reads as `{topics: {}, resources: {}, completed: false}`; a stored one reads as stored. |
| `Progress.FlipTopic` | hooks/use-learning-progress.ts:68-76 | The topic's reading is negated. Resources and `completed` are unchanged. |
| `Progress.FlipResource` | hooks/use-learning-progress.ts:87-95 | The resource's reading is negated. Topics and `completed` are unchanged. |
| `Progress.FlipCompleted` | hooks/use-learning-progress.ts:111 | `completed` is negated. Topics and resources are unchanged. |
| `Progress.GetLevelProgress` | hooks/use-learning-progress.ts:117-119 | Returns the stored level when both domain and level are present. Otherwise returns `{topics: {}, resources: {}, completed: false}`. |
| `Progress.IsTopicCompleted` | hooks/use-learning-progress.ts:157-159 | False whenever the domain, level or topic is absent. Otherwise the stored flag. Agrees with the flag read through `GetLevelProgress`. |
| `Progress.PutLevel` | hooks/use-learning-progress.ts:70-79 | The spread rebuild changes one level. Every other domain and level is kept identical. Keys are only added. |
| `Progress.ToggleTopic` | hooks/use-learning-progress.ts:64-81 | Flips the topic's reading. Creates missing segments; on an absent level that segment is `{topics: {t: true}, resources: {}, completed: false}`. Resources and `completed` are unchanged. Other topics keep their values. Every other level reads the same. |
| `Progress.ToggleResource` | hooks/use-learning-progress.ts:83-100 | Flips the resource's reading and creates missing segments. Topics and `completed` are unchanged. Other resources keep their values. Every other level reads the same. |
| `Progress.CompleteLevel` | hooks/use-learning-progress.ts:102-115 | Flips the level's `completed` flag. Topics and resources are unchanged, so the flag is never derived from topics. Every other level reads the same. |
| `Progress.ToggleTopicTwice` | hooks/use-learning-progress.ts:64-81 | Two toggles of one topic restore every topic reading and every level's set flags. The result is `Equivalent` to the original document. |
| `Progress.ToggleResourceTwice` | hooks/use-learning-progress.ts:83-100 | Two toggles of one resource give a document `Equivalent` to the original. |
| `Progress.CompleteLevelTwice` | hooks/use-learning-progress.ts:102-115 | Two completions of one level give a document `Equivalent` to the original. |
| `Progress.ToggleTopicTwiceStored` | hooks/use-learning-progress.ts:64-81 | When the topic key is already stored, two toggles return exactly the same document. |
| `Progress.ToggleTopicTwiceMissing` | hooks/use-learning-progress.ts:66-76 | When any segment was missing, two toggles leave an explicit `false`, so the document is not the same value. |
| `Progress.ToggleTopicCommutesAcrossLevels` | hooks/use-learning-progress.ts:64-81 | Toggles in two different levels commute exactly. |
| `Progress.ToggleTopicCommutesWithinLevel` | hooks/use-learning-progress.ts:64-81 | Toggles of two different topics of one level commute exactly. |
| `Progress.MutationsAreIndependent` | hooks/use-learning-progress.ts:64-115 | A topic toggle commutes with a level completion and with a resource toggle on the same level. |
| `Progress.PutLevelTwice` | hooks/use-learning-progress.ts:70-79 | Rewriting one level twice keeps only the second write. |
| `Progress.PutLevelSwap` | hooks/use-learning-progress.ts:70-79 | Rewrites of two different levels commute. |
| `Stats.Percent` | hooks/use-learning-progress.ts:138 | Exactly 0 when the total is 0. Otherwise `r * total == completed * 100`. Never negative. At most 100 when completed ≤ total. |
| `Stats.SetOf` | hooks/use-learning-progress.ts:124-128 | An id is in the set exactly when it occurs in the list. |
| `Stats.LevelTopics` | hooks/use-learning-progress.ts:127 | The stored topic map of a listed level, or `{}` when the level is not stored. |
| `Stats.CountTrue` | hooks/use-learning-progress.ts:128 | The number of `true` flags is 0 when no stored flag is `true`. |
| `Stats.Occurrences` | hooks/use-learning-progress.ts:126-131 | The number of listings of a level id is at most the number of listed levels. |
| `Stats.OccurrencesPositive` | hooks/use-learning-progress.ts:126-131 | The number of listings of a level id is positive exactly when some listed level carries that id. |
| `Stats.TotalTopicsAppend` | hooks/use-learning-progress.ts:124 | The topic total of two concatenated level lists is the sum of their totals. |
| `Stats.CompletedTopicsAppend` | hooks/use-learning-progress.ts:126-129 | The completed-topic count of two concatenated level lists is the sum of their counts. |
| `Stats.CompletedLevelsAppend` | hooks/use-learning-progress.ts:131 | The completed-level count of two concatenated level lists is the sum of their counts. |
| `Stats.MissingLevelContributesNothing` | hooks/use-learning-progress.ts:124-131 | A listed level absent from the stored domain, wherever it stands in the list, adds nothing to the completed topics or completed levels, and adds its listed topics to the total. |
| `Stats.SumCompleted` | hooks/use-learning-progress.ts:145-152 | The summed completed topics is 0 when no listed domain is stored. |
| `Stats.SumTotal` | hooks/use-learning-progress.ts:145-152 | The summed topic total is 0 when every listed domain lists no levels. |
| `Stats.SumsAppend` | hooks/use-learning-progress.ts:145-152 | Both sums over two concatenated domain lists are the sums over each list added. |
| `Stats.TotalTopics` | hooks/use-learning-progress.ts:124 | 0 when every listed level has an empty topic list. |
| `Stats.CompletedTopics` | hooks/use-learning-progress.ts:126-129 | 0 when no listed level is present in the domain's stored progress. |
| `Stats.CompletedLevels` | hooks/use-learning-progress.ts:131 | At most the number of listed levels. 0 when no listed level is stored. |
| `Stats.GetDomainStats` | hooks/use-learning-progress.ts:121-140 | `totalLevels` is the number of levels and `completedLevels ≤ totalLevels`. The percentage is 0 when `totalTopics` is 0, and otherwise satisfies `percent * totalTopics == completedTopics * 100`. All-empty levels give total 0 and percent 0. A missing domain gives 0 completed topics, 0 completed levels and 0 percent. |
| `Stats.CompletedTopicsBounded` | hooks/use-learning-progress.ts:124-129 | If every stored `true` topic of each listed level is a listed topic, then completed topics ≤ total topics. |
| `Stats.DomainPercentBounded` | hooks/use-learning-progress.ts:124-138 | Under the same condition, the domain percentage lies in [0, 100]. |
| `Stats.UnlistedFlagsAreCounted` | hooks/use-learning-progress.ts:126-129 | Flags for unlisted ids are counted. One case gives 2 completed of 1 total, which is 200 percent. A level listing no topics gives 2 completed of 0 total, and the percentage is 0. |
| `Stats.CompletedTopicsCongruent` | hooks/use-learning-progress.ts:126-129 | The completed-topic count depends only on each level's set of true flags. |
| `Stats.CompletedLevelsCongruent` | hooks/use-learning-progress.ts:131 | The completed-level count depends only on each level's `completed` flag. |
| `Stats.StatsRespectEquivalence` | hooks/use-learning-progress.ts:121-140 | Documents whose flag readings agree yield identical statistics. Such documents may still differ as values: by explicit `false` entries, by stored default levels and by empty domains. |
| `Stats.CountTrueFlip` | hooks/use-learning-progress.ts:128 | Flipping one flag moves the count of true flags by exactly one. |
| `Stats.CompletedTopicsShift` | hooks/use-learning-progress.ts:126-129 | If one level's true-flag count changes by `delta`, the sum changes by `delta` for each time that level is listed. |
| `Stats.CompletedLevelsShift` | hooks/use-learning-progress.ts:131 | If one level's `completed` flag flips, the count moves by ±1 for each time that level is listed. |
| `Stats.ToggleTopicStats` | hooks/use-learning-progress.ts:64-140 | A topic toggle leaves `totalTopics` and `completedLevels` unchanged, and leaves other domains' statistics unchanged. It moves `completedTopics` by ±1 for each listing of the level. |
| `Stats.CompleteLevelStats` | hooks/use-learning-progress.ts:102-140 | Completing a level leaves the topic counts and the percentage unchanged. It moves `completedLevels` by ±1 for each listing of the level, and leaves other domains unchanged. |
| `Stats.ToggleResourceStats` | hooks/use-learning-progress.ts:83-140 | A resource toggle changes no statistic. |
| `Stats.TwoLevelScenario` | hooks/use-learning-progress.ts:121-140 | Levels [t1,t2] and [t3] with t1 and t3 toggled give 2 of 3 topics, 200/3 percent and 0 completed levels. After `completeLevel` on the second level there is 1 completed level. |
| `Stats.TwoLevelCounts` | hooks/use-learning-progress.ts:124-131 | The counts for that two-level document: 2 completed and 3 total topics; 0 completed levels before `completeLevel`, 1 after. |
| `Stats.GetGlobalProgress` | hooks/use-learning-progress.ts:142-155 | The loop returns the ratio of the summed completed topics to the summed totals, times 100. It returns 0 when the summed total is 0. |
| `Stats.SumsOfTwo` | hooks/use-learning-progress.ts:148-152 | Over two domains, each sum is the two domains' counts added. |
| `Stats.OneLevelCounts` | hooks/use-learning-progress.ts:124-129 | With one listed level, completed topics is that level's count of true flags, total topics is its listed topic count, and completed levels is 1 exactly when its stored `completed` is true. |
| `Stats.SumTotalIgnoresProgress` | hooks/use-learning-progress.ts:145-152 | The summed topic total depends only on the roadmap structure, not on progress. |
| `Stats.GlobalBounded` | hooks/use-learning-progress.ts:142-155 | If each domain has completed ≤ total, then the summed completed ≤ the summed total and the global figure is ≤ 100. |
| `Stats.GlobalOfOneDomain` | hooks/use-learning-progress.ts:142-155 | For a single domain, the global figure equals that domain's percentage. |
| `Stats.GlobalWeightingScenario` | hooks/use-learning-progress.ts:142-155 | Domain A (100%, 1 topic) and domain B (0%, 9 topics) give 10 percent globally. This is a weighted ratio, not the 50 of an average. |
| `Stats.SetOfBound` | hooks/use-learning-progress.ts:124 | A topic list has at least as many entries as distinct ids. |
| `Stats.CountTrueBound` | hooks/use-learning-progress.ts:128 | No more topic flags are `true` than are stored. |
| `Stats.TwoLevelDocuments` | hooks/use-learning-progress.ts:64-115 | The two documents of the two-level scenario, written out: t1 toggled in L1 and t3 in L2, then L2 completed. |
| `Stats.SecondToggle` | hooks/use-learning-progress.ts:64-81 | Toggling t3 in a new level L2 adds that level next to L1 and leaves L1 as it was. |
| `Stats.Completion` | hooks/use-learning-progress.ts:102-115 | Completing L2 sets its `completed` flag and leaves its topics and L1 as they were. |
| `Stats.SubsetBound` | hooks/use-learning-progress.ts:128 | A subset of ids is no larger than its superset. |
| `ProgressStore.Store.constructor` | hooks/use-learning-progress.ts:14-16 | The store starts with an empty document, not mounted, with no timer and no writes. |
| `ProgressStore.Store.Mount` | hooks/use-learning-progress.ts:19-33 | Loads the stored document, or keeps the current one when nothing parses. Becomes mounted. Schedules a save of the current document. Writes nothing. |
| `ProgressStore.Store.Commit` | hooks/use-learning-progress.ts:36-61 | Sets the document. When mounted, it cancels the scheduled save and leaves exactly one scheduled save, holding the new document. Before mounting nothing is scheduled. After unmounting it is ignored. |
| `ProgressStore.Store.ToggleTopic` | hooks/use-learning-progress.ts:64-81 | The document becomes `Progress.ToggleTopic` of the old one, and the scheduled save is replaced as in `Commit`. |
| `ProgressStore.Store.ToggleResource` | hooks/use-learning-progress.ts:83-100 | The document becomes `Progress.ToggleResource` of the old one, and the scheduled save is replaced. |
| `ProgressStore.Store.CompleteLevel` | hooks/use-learning-progress.ts:102-115 | The document becomes `Progress.CompleteLevel` of the old one, and the scheduled save is replaced. |
| `ProgressStore.Store.Fire` | hooks/use-learning-progress.ts:45-52 | Clears the timer. When a save was scheduled and the write succeeds, the current document is appended to the writes. A failed write leaves the document and the writes unchanged. |
| `ProgressStore.Store.Unmount` | hooks/use-learning-progress.ts:55-60 | Cancels the scheduled save without writing. The document is kept. |
| `ProgressStore.LoadedDocument` | hooks/use-learning-progress.ts:25-32 | A fresh store holds the stored document after mounting, or `{}` when there is none or it does not parse. A save is scheduled. |
| `ProgressStore.CoalescedBurst` | hooks/use-learning-progress.ts:39-52 | Three toggles with no expiry between them produce exactly one write, holding the document after the third toggle. |
| `ProgressStore.FailedWriteIsolated` | hooks/use-learning-progress.ts:46-50 | After a failed write, the next toggle still takes effect and reads as completed. Nothing is written. |
| `ProgressStore.UnmountDropsPendingSave` | hooks/use-learning-progress.ts:54-60 | An edit followed by unmount within the debounce window is never written, and no save remains scheduled. |
| `ProgressStore.ToggleBeforeMount` | hooks/use-learning-progress.ts:37 | A toggle before mounting schedules no save. It survives a mount with no stored document. |
| `Team.TeamData` | lib/team-data.ts:14-52 | The shipped roster has three members. |
| `Team.RosterIdsUnique` | lib/team-data.ts:14-52 | The member ids on the shipped roster are pairwise distinct. |
| `Team.IsSubsequence` | lib/team-data.ts:58 | A subsequence is no longer than the sequence it is taken from, and each of its elements occurs there. |
| `Team.FilterByDesignation` | lib/team-data.ts:58 | Every returned member has the designation and is on the roster. Every roster member with it is returned. The result is no longer than the roster. |
| `Team.GetTeamByDesignation` | lib/team-data.ts:57-59 | A member is in the result exactly when it is in `teamData` with the given designation. |
| `Team.FilterKeepsOrderAndMultiplicity` | lib/team-data.ts:58 | The result is a subsequence of the roster, so order is kept. Each matching member occurs as often as on the roster, and a non-matching member does not occur. |
| `Team.SubsequenceOfTail` | lib/team-data.ts:58 | A subsequence of a roster's tail is a subsequence of the roster. |
| `Team.SubsequenceDropHead` | lib/team-data.ts:58 | Dropping the first element of a subsequence leaves a subsequence. |
| `Team.DesignationsPartition` | lib/team-data.ts:5 | The three designations partition any roster, so the three result lengths sum to its length. |
| `Team.ShippedRoster` | lib/team-data.ts:14-52 | On the shipped data, "vice-president" yields vp-001, "tech-lead" yields tl-001 then tl-002, and "member" yields nothing. |

## Left out

- `localStorage` access, `JSON.parse` and `JSON.stringify`, and `console.error`. Loading is an `Option<ProgressData>` parameter of `Mount`: `None` covers a missing entry, an empty entry, a parse failure, and a `localStorage` that throws on access. Saving is an append to `writes`. A failed write is a `false` argument to `Fire`.
- JSON that parses to a non-object value, such as `null`, a number or an array, is not modelled. The code would store it as the document.
- Documents of the wrong shape are not modelled, because the model's types rule them out. A stored level without a `topics` object makes `toggleTopic` throw (:68). A truthy non-boolean flag is counted by `filter(Boolean)` (:128). A truthy non-boolean `completed` is rejected by `=== true` (:131).
- Property lookups that reach JavaScript's object prototype, with keys such as `"constructor"` or `"__proto__"`, are not modelled. Every key is an own key of a map.
- Several hook instances sharing the storage key are not modelled. Each call of the hook has its own document and timer, but all of them write the whole document under the one key (hooks/use-learning-progress.ts:11, :47). `writes` is one instance's log, and cross-instance overwrites (last writer wins) are outside the model.
- Real timers, the 1000 ms delay and React's scheduling are not modelled. Time is abstracted: a save stays scheduled until `Fire` or `Unmount`, and "within the debounce window" means no `Fire` in between.
- The no-window path is not modelled. There the mount effect only sets `mounted` (hooks/use-learning-progress.ts:20-22), and the save effect returns early (:37), so no save is ever scheduled. `Mount` always has a window, and `Mount(None)` is a missing, empty or unparsable entry, which does schedule a save.
- React's batching and rendering are not modelled. Each store method performs `setProgress` followed by the save effect's cleanup and re-run.
- `level.topics?.length ?? 0`: a level's topic list is never undefined in the model, so the `?? 0` fallback is not modelled.
- `Stats.GetDomainStats`: the percentage is a mathematical `real`, not an IEEE double. `Math.round` and the display arithmetic are UI only.
- `Stats.GetGlobalProgress`: the percentage is a mathematical `real`, not an IEEE double.
- The `useCallback` and `useRef` memoization have no observable effect on the modelled state.
- The `mounted` flag that the hook returns to its callers is the `mounted` field, but gating reads on it is the callers' business.
- The rendering components and their local view state are not part of this model. This covers the roadmap's per-level percentage and its expand/collapse set, the navbar theme toggle, the footer, the cards and the pages.
