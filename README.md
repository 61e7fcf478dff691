# Chore game rules in Dafny

This project models the discrete rule layer of a small Unity chore game. The
player carries chore objects (dishes, trash, laundry, a bed, a phone) to chore
stations. A station accepts objects up to a capacity and progresses while the
player holds the interact button. When it completes, it spawns cleaned
objects. Level tasks count the objects and stations still to deal with. A
telephone rings on a timer. Scores accumulate into a total that picks a grade
at the end of the game.

Each core C# component is one Dafny module:

| module | component |
|---|---|
| `Common`, `Chores` | shared vocabulary: `Option`, 32-bit bounds, `ChoreType`, the `ChoreObject` record |
| `RuntimeSets` | `RuntimeSetBase<T>`, the duplicate-free registry |
| `StationSetAdder` | `ChoreStationSetAdder`, the registry latch |
| `PrefabReferences` | `ChoreObjectPrefabReferences` |
| `ChoreStations` | `ChoreStation` |
| `Tasks` | `Task`, `ChoreObjectTask`, `ChoreStationTask`, `MultiTask` |
| `PlayerInteraction` | `PlayerInteract` |
| `LandlineTelephones` | `LandlineTelephone` |
| `PlayerScores` | `PlayerScore` |
| `EndMenus` | `EndMenu.CheckScore` |
| `ScoreTexts` | `ScoreText` |
| `Tasklists` | `Tasklist` |
| `VisualUpdaters`, `StationVisuals` | `VisualUpdater`, `ChoreStationVisuals` |
| `ControlSchemes` | `ControlSchemes` |
| `SettingsMenu` | resolution list of `Settings` |

Components whose fields change in place are classes. Their methods carry
`modifies` clauses and state the whole new state. Every modelled loop is a
method with a `while` loop, proved against a specification: a recursive
function or a quantified predicate. The lemmas then state what the source
promises about those specifications.
Queries and lookups are functions.

Some engine features are replaced:
- Floats (progress, multipliers, times, distances, the percentage) are exact `real`s.
- Positions are replaced by distance functions passed in.
- The game clock is a parameter.
- Notifications are returned values: the added flag of the registry, `TaskSignals`, and an `Option<ScoreEvent>` for a scored event.
- Task references are `Task` snapshots: `ObjectTask`, `StationTask` or `Multi`. `Completed`, `Current` and `Total` dispatch on the kind of task the way the overriding methods do.

## Model

| member | source | states |
|---|---|---|
| RuntimeSets.RemoveFirst | Assets/Scripts/ScriptableObjects/RuntimeSets/RuntimeSetBase.cs:25 | `List.Remove`: an absent element leaves the list as it is; otherwise the list is one shorter and holds nothing new |
| RuntimeSets.RemoveFirstAt | Assets/Scripts/ScriptableObjects/RuntimeSets/RuntimeSetBase.cs:25 | removal cuts out exactly the first occurrence and keeps the order of the rest |
| RuntimeSets.RemoveFirstNoDuplicates | Assets/Scripts/ScriptableObjects/RuntimeSets/RuntimeSetBase.cs:23-27 | on a duplicate-free list, the removed element is absent afterwards, every other element stays, and the list stays duplicate-free |
| RuntimeSets.AddThenRemove | Assets/Scripts/ScriptableObjects/RuntimeSets/RuntimeSetBase.cs:14-27 | adding a fresh element and then removing it restores the original list |
| RuntimeSets.RuntimeSet.AddObject | Assets/Scripts/ScriptableObjects/RuntimeSets/RuntimeSetBase.cs:14-21 | the added-notification fires exactly for an absent element, which is appended at the end; a present element leaves the list unchanged; the list stays duplicate-free |
| RuntimeSets.RuntimeSet.RemoveObject | Assets/Scripts/ScriptableObjects/RuntimeSets/RuntimeSetBase.cs:23-27 | the first occurrence is removed (an absent element changes nothing); under the no-duplicates invariant the element is gone afterwards |
| StationSetAdder.ChoreStationSetAdder.AddToSet | Assets/Scripts/Chore/ChoreStationSetAdder.cs:30-37 | does nothing without a set or with the latch set; otherwise sets the latch and registers the station, appending it if it was absent |
| StationSetAdder.ChoreStationSetAdder.RemoveFromSet | Assets/Scripts/Chore/ChoreStationSetAdder.cs:39-46 | does nothing without a set; otherwise removes the station and clears the latch, re-arming `AddToSet` |
| StationSetAdder.ChoreStationSetAdder.Start | Assets/Scripts/Chore/ChoreStationSetAdder.cs:17-23 | with `addOnStart` it behaves as `AddToSet`: without a set or with the latch set nothing changes; otherwise the latch is set and the station is appended if it was absent. Without `addOnStart` nothing changes |
| StationSetAdder.ChoreStationSetAdder.OnTaskCompleted | Assets/Scripts/Chore/ChoreStationSetAdder.cs:11-15 | the station's task completion routes to `RemoveFromSet` |
| StationSetAdder.ChoreStationSetAdder.OnDestroy | Assets/Scripts/Chore/ChoreStationSetAdder.cs:25-28 | destruction routes to `RemoveFromSet` |
| StationSetAdder.AddTwiceThenRemove | Assets/Scripts/Chore/ChoreStationSetAdder.cs:30-46 | a second `AddToSet` registers nothing more, and a later `RemoveFromSet` restores the set and re-arms the latch |
| PrefabReferences.LookupIsFirstMatch | Assets/Scripts/ScriptableObjects/ChoreObjectPrefabReferences.cs:9-20 | the lookup is null exactly when no prefab has the type; a hit is the first entry of that type |
| PrefabReferences.ShadowedNeverReturned | Assets/Scripts/ScriptableObjects/ChoreObjectPrefabReferences.cs:11-16 | an entry preceded by another of the same type is never returned |
| PrefabReferences.ChoreTypeToChoreObjectPrefab | Assets/Scripts/ScriptableObjects/ChoreObjectPrefabReferences.cs:9-20 | the loop returns the first match, which has the requested type and comes from the list, and returns null exactly when nothing matches |
| ChoreStations.ParseNatToString | Assets/Scripts/Chore/ChoreStation.cs:67-68 | the decimal text of a count reads back as the count |
| ChoreStations.AmountTextMeaning | Assets/Scripts/Chore/ChoreStation.cs:63-71 | the label is "Full!" exactly when the count reaches the maximum; below it, the label is "n / max" and both numbers read back |
| ChoreStations.TruncateToInt | Assets/Scripts/Chore/ChoreStation.cs:226 | the `(int)` cast truncates toward zero |
| ChoreStations.MultiplierIsFirstMatch | Assets/Scripts/Chore/ChoreStation.cs:216-224 | the multiplier is that of the first entry whose type matches and whose `isDirty` differs from the object's cleanliness, or 1 when no entry applies |
| ChoreStations.SpawnedShape | Assets/Scripts/Chore/ChoreStation.cs:142-182 | a stack spawn yields at most one object; otherwise one object per contained type, in order; every spawned prefab has the type asked for |
| ChoreStations.ResolveHasType | Assets/Scripts/Chore/ChoreStation.cs:150-152 | a prefab found in the references, or by falling back to the dirty references, has the requested type |
| ChoreStations.ChoreStation.constructor | Assets/Scripts/Chore/ChoreStation.cs:38-40 | a new station is empty, idle and satisfies the capacity invariant |
| ChoreStations.ChoreStation.Multiplier | Assets/Scripts/Chore/ChoreStation.cs:216-224 | the loop finds the first applicable multiplier, defaulting to 1 |
| ChoreStations.ChoreStation.AddScore | Assets/Scripts/Chore/ChoreStation.cs:211-228 | nothing is scored when `!shouldAddScore && !extraPass`; otherwise the event carries the object's type and the truncated value × multiplier × amount × extra multiplier |
| ChoreStations.ChoreStation.AddScoreValue | Assets/Scripts/Chore/ChoreStation.cs:233-236 | an inspector score is reported for the station's own chore type |
| ChoreStations.ChoreStation.AddChoreObject | Assets/Scripts/Chore/ChoreStation.cs:75-98 | accepted exactly when the object is present, the station is not full, its cleanliness is accepted (or `takesAny`), and there is no progress unless `canAddWhileProgressing`; on success exactly the object's type is appended and it is scored; on failure nothing changes; the capacity invariant is kept |
| ChoreStations.ChoreStation.ShouldInstantiateStack | Assets/Scripts/Chore/ChoreStation.cs:161-182 | a stack is spawned exactly when every contained type is the station's type and the count equals the placeholder's amount |
| ChoreStations.ChoreStation.SpawnCleanObjects | Assets/Scripts/Chore/ChoreStation.cs:142-159 | the spawned prefabs are `Spawned` of the contents (stack or one per type, with the dirty fallback) |
| ChoreStations.ChoreStation.TaskCompleted | Assets/Scripts/Chore/ChoreStation.cs:129-140 | progress is zeroed and stopped; unless `takesNoChoreObjects` is set, the contents are emptied and spawned as clean objects |
| ChoreStations.ChoreStation.ProgressInteract | Assets/Scripts/Chore/ChoreStation.cs:100-115 | progress advances by the step, clamped to [0, 1]; reaching 1 completes the task |
| ChoreStations.ChoreStation.TryProgressInteract | Assets/Scripts/Chore/ChoreStation.cs:117-127 | progresses exactly when `EnoughForInteraction` holds (interactable, not progressing unless allowed, enough contents); otherwise nothing changes |
| ChoreStations.ChoreStation.ResetTaskProgress | Assets/Scripts/Chore/ChoreStation.cs:185-188 | progress becomes 0 and nothing else changes |
| ChoreStations.ChoreStation.SetCanInteract | Assets/Scripts/Chore/ChoreStation.cs:190 | sets the interaction flag only |
| ChoreStations.ChoreStation.CancelProgress | Assets/Scripts/Chore/ChoreStation.cs:192-199 | progress stops only when the station allows cancelling; the progress amount is kept |
| Tasks.SumAmountsRemoveFirst | Assets/Scripts/ScriptableObjects/Tasks/ChoreObjectTask.cs:15-23 | removing an object from the set lowers the current count by exactly its amount, or by nothing when the object was absent |
| Tasks.SumAmountsNonNegative | Assets/Scripts/ScriptableObjects/Tasks/ChoreObjectTask.cs:15-23 | with non-negative amounts the current count is non-negative |
| Tasks.MultiCountsAreLastSubtasks | Assets/Scripts/ScriptableObjects/Tasks/MultiTask.cs:8-40 | a multi-task's current and total counts are its last subtask's; it is completed when the earlier subtasks and the last one all are |
| Tasks.MultiCurrentIsNotASum | Assets/Scripts/ScriptableObjects/Tasks/MultiTask.cs:22-30 | a multi-task over object tasks holding 2 and 3 reports 3, not 5 |
| Tasks.MultiIsCompleted | Assets/Scripts/ScriptableObjects/Tasks/MultiTask.cs:8-20 | completed exactly when every subtask is completed; true for no subtasks |
| Tasks.MultiCurrentObjectsInLevel | Assets/Scripts/ScriptableObjects/Tasks/MultiTask.cs:22-30 | the last subtask's current count, or 0 for no subtasks |
| Tasks.MultiTotalObjectsInLevel | Assets/Scripts/ScriptableObjects/Tasks/MultiTask.cs:32-40 | the last subtask's total, or 0 for no subtasks |
| Tasks.MultiTaskChanged | Assets/Scripts/ScriptableObjects/Tasks/MultiTask.cs:51-58 | progressed always fires; completed fires exactly when all subtasks are completed |
| Tasks.ChoreObjectTask.CurrentObjectsInLevel | Assets/Scripts/ScriptableObjects/Tasks/ChoreObjectTask.cs:15-23 | the sum of the amounts of the objects in the set |
| Tasks.ChoreObjectTask.ResetTotal | Assets/Scripts/ScriptableObjects/Tasks/ChoreObjectTask.cs:30-49 | enable, disable and scene unload reset the total to 0 |
| Tasks.ChoreObjectTask.SetChanged | Assets/Scripts/ScriptableObjects/Tasks/ChoreObjectTask.cs:57-64 | progressed always fires; completed fires exactly when the set is empty |
| Tasks.ChoreObjectTask.ObjectAdded | Assets/Scripts/ScriptableObjects/Tasks/ChoreObjectTask.cs:51-55 | an added-notification raises the total by that object's amount |
| Tasks.ObjectEnabled | Assets/Scripts/ScriptableObjects/Tasks/ChoreObjectTask.cs:51-55 | an object enabling itself (ChoreObject.cs:65-71) joins the set; a fresh one raises the added-notification, whose handler grows the total by its amount and signals; a present one changes nothing and no signal fires; current ≤ total is kept for non-negative amounts |
| Tasks.ObjectDestroyed | Assets/Scripts/ScriptableObjects/Tasks/ChoreObjectTask.cs:57-64 | an object being destroyed (ChoreObject.cs:73-79) leaves the set, whose removed-notification reaches `SetChanged`; the total is not decremented, and current ≤ total is kept |
| Tasks.ChoreStationTask.GetObjectsInStationCount | Assets/Scripts/ScriptableObjects/Tasks/ChoreStationTask.cs:15-23 | the loop gives the sum of `CurrentContainedCount` over the registered stations, in order, and it is never negative |
| Tasks.ChoreStationTask.ResetTotal | Assets/Scripts/ScriptableObjects/Tasks/ChoreStationTask.cs:37 | enable, disable and scene unload reset the total to 0 |
| Tasks.ChoreStationTask.SetChanged | Assets/Scripts/ScriptableObjects/Tasks/ChoreStationTask.cs:62-69 | progressed always fires; completed fires exactly when the set is empty |
| Tasks.ChoreStationTask.StationAdded | Assets/Scripts/ScriptableObjects/Tasks/ChoreStationTask.cs:56-60 | each added-notification raises the total by exactly 1 |
| Tasks.StationRegistered | Assets/Scripts/ScriptableObjects/Tasks/ChoreStationTask.cs:56-60 | a station registered through `AddToSet` (ChoreStationSetAdder.cs:30-37) joins the set; a fresh one is counted once by the added handler, which signals; a present one changes nothing and no signal fires; current (the number of stations) ≤ total is kept |
| Tasks.StationUnregistered | Assets/Scripts/ScriptableObjects/Tasks/ChoreStationTask.cs:62-69 | a station removed through `RemoveFromSet` (ChoreStationSetAdder.cs:39-46) leaves the set, whose removed-notification reaches `SetChanged`; the total is not decremented |
| PlayerInteraction.ClosestOfPresent | Assets/Scripts/Player/PlayerInteract.cs:200 | over live stations the search finds one exactly when any is in range |
| PlayerInteraction.ClosestStep | Assets/Scripts/Player/PlayerInteract.cs:227-239 | one loop step keeps "first closest eligible entry so far": strict `<` keeps the earlier of equally close entries |
| PlayerInteraction.FindClosest | Assets/Scripts/Player/PlayerInteract.cs:221-241 | null and -1 when no entry is live; otherwise the first entry of least distance and its index |
| PlayerInteraction.PlayerInteract.FindClosestChoreObjectOfType | Assets/Scripts/Player/PlayerInteract.cs:243-268 | the same search restricted to objects of the held type and cleanliness whose amount still fits under the bottom held object's `MaxStack` |
| PlayerInteraction.PlayerInteract.SetClosest | Assets/Scripts/Player/PlayerInteract.cs:192-200 | the closest object is searched among stackable objects while carrying without mixing, otherwise among all objects; the closest station among all stations; nothing else changes |
| PlayerInteraction.PlayerInteract.ObjectEnteredRange | Assets/Scripts/Player/PlayerInteract.cs:56-60 | the object is appended to the range list; the station list and held stack are kept; the held kind and the press state are kept, and the remembered closest object and station are those the search finds in the new lists (`ClosestAgrees`) |
| PlayerInteraction.PlayerInteract.ObjectExitedRange | Assets/Scripts/Player/PlayerInteract.cs:72-76 | the object's first occurrence leaves the range list; the station list and held stack are kept; the held kind and the press state are kept, and the remembered closest object and station are those the search finds in the new lists (`ClosestAgrees`) |
| PlayerInteraction.PlayerInteract.StationEnteredRange | Assets/Scripts/Player/PlayerInteract.cs:62-67 | the station is appended and a closest station exists; the object list and held stack are kept; the held kind and the press state are kept, and the remembered closest object and station are those the search finds in the new lists (`ClosestAgrees`) |
| PlayerInteraction.PlayerInteract.StationExitedRange | Assets/Scripts/Player/PlayerInteract.cs:78-83 | the station's first occurrence leaves the range list; the object list and held stack are kept; the held kind and the press state are kept, and the remembered closest object and station are those the search finds in the new lists (`ClosestAgrees`) |
| PlayerInteraction.PlayerInteract.TryPickUpClosestChoreObject | Assets/Scripts/Player/PlayerInteract.cs:154-172 | picks up exactly when something is in range, the stack is empty or below the bottom object's `MaxStack`, and a closest object exists; it then moves that object from its index in the range list to the top of the stack, takes its type and cleanliness as the held kind, and recomputes the closest object and station (`ClosestAgrees`); otherwise nothing changes; the station list and press state are kept, as are the stack bound and same-type invariants |
| PlayerInteraction.PlayerInteract.TryInteractWithClosestInteractable | Assets/Scripts/Player/PlayerInteract.cs:174-190 | only the top held object is offered; it leaves the stack exactly when the closest station accepts it. The station then holds its type and scores it, its progress and interaction flag are kept, and the closest object and station are recomputed. Otherwise neither changes. The range lists, held kind and press state are always kept |
| PlayerInteraction.PlayerInteract.TryHoldInteract | Assets/Scripts/Player/PlayerInteract.cs:142-152 | never succeeds while carrying; otherwise it succeeds exactly when the closest station has enough for interaction, and the station then takes one progress step (clamped progress, and completion with its spawned objects at 1); on failure the station is unchanged |
| PlayerInteraction.PlayerInteract.TryCancelProgress | Assets/Scripts/Player/PlayerInteract.cs:134-140 | the closest station stops progressing exactly when it allows cancelling, and otherwise keeps progressing as before; its contents, progress amount and interactability are kept |
| PlayerInteraction.PlayerInteract.PrimaryUp | Assets/Scripts/Player/PlayerInteract.cs:103-109 | `UpEffect`: the press mark is cleared; only after Stay is the closest station's progress cancelled as `TryCancelProgress` says, and otherwise the station is unchanged; range lists, held stack and kind, and the closest entries are kept |
| PlayerInteraction.PlayerInteract.PrimaryStay | Assets/Scripts/Player/PlayerInteract.cs:111-120 | `StayEffect`: unless something was put away this press, the player interacts exactly when carrying nothing with a closest station that has enough for interaction, and the station then takes one progress step (`ProgressStep`); otherwise the station is unchanged and nothing completes |
| PlayerInteraction.PlayerInteract.PrimaryDown | Assets/Scripts/Player/PlayerInteract.cs:122-128 | `DownEffect`: pick-up has priority and moves the closest object onto the stack, setting the held kind. Otherwise the top object goes into the closest station when it accepts it: the station gains its type and scores it, its progress fields are kept, and the press is marked. In every case the closest object and station are recomputed when something moved, and nothing else changes |
| PlayerInteraction.PlayerInteract.PrimaryInteract | Assets/Scripts/Player/PlayerInteract.cs:99-132 | dispatches on the state: Up has `UpEffect`, Stay has `StayEffect`, and Down has `DownEffect`; NoState changes nothing but the recorded state; the last state is always recorded |
| PlayerInteraction.PlayerInteract.TryDropChoreObject | Assets/Scripts/Player/PlayerInteract.cs:280-294 | pops the top held object, recomputes the closest object and station, and returns true; on an empty stack it returns false and changes nothing; range lists, held kind and press state are kept |
| PlayerInteraction.PlayerInteract.SecondaryInteract | Assets/Scripts/Player/PlayerInteract.cs:270-278 | Down drops the top object as `TryDropChoreObject` does, keeping the range lists, held kind and press state; every other state changes nothing |
| LandlineTelephones.LandlineTelephone.constructor | Assets/Scripts/Chore/LandlineTelephone.cs:109-112 | the phone starts Waiting, with the last call at the start time and the given pause, answer time and scores |
| LandlineTelephones.LandlineTelephone.FixedUpdate | Assets/Scripts/Chore/LandlineTelephone.cs:63-94 | Waiting rings exactly when now ≥ last call + pause, recording the start and setting interaction to that test; Ringing past the answer time reports the failure score, records the call end and waits again; Talking changes nothing |
| LandlineTelephones.LandlineTelephone.PickUp | Assets/Scripts/Chore/LandlineTelephone.cs:57-61 | moves to Talking from any state |
| LandlineTelephones.LandlineTelephone.Success | Assets/Scripts/Chore/LandlineTelephone.cs:33-44 | waits again, reports the success score, records the call end and disables interaction |
| LandlineTelephones.LandlineTelephone.HangUp | Assets/Scripts/Chore/LandlineTelephone.cs:46-55 | does nothing unless Talking; otherwise it waits again, completes the station's task (emptying and spawning its contents, or keeping them when the station takes no chore objects), reports the failure score, records the call end and disables interaction |
| PlayerScores.AddAsWritten | Assets/Scripts/Player/PlayerScore.cs:41 | the 32-bit sum, wrapped and then clamped into [0, int.MaxValue], agrees with the exact clamp when there is no overflow |
| PlayerScores.OverflowResetsScore | Assets/Scripts/Player/PlayerScore.cs:41 | as written, a total of int.MaxValue that gains 1 point becomes 0 |
| PlayerScores.Add | Assets/Scripts/Player/PlayerScore.cs:32 | the saturating sum lies in [0, int.MaxValue]; a gain never lowers a score unless it is capped, and a loss never raises one unless it is floored at 0 |
| PlayerScores.AddAgreesWithoutOverflow | Assets/Scripts/Player/PlayerScore.cs:41 | the as-written and the saturating additions agree when the 32-bit sum does not overflow |
| PlayerScores.FirstEntryIsAddToZero | Assets/Scripts/Player/PlayerScore.cs:34-39 | storing max(toAdd, 0) for a new type is adding toAdd to an implicit 0 |
| PlayerScores.ApplyGains | Assets/Scripts/Player/PlayerScore.cs:41 | with no penalties, the score after a series of events is the plain sum capped at int.MaxValue |
| PlayerScores.SumNonNegative | Assets/Scripts/Player/PlayerScore.cs:41 | a sum of gains is non-negative |
| PlayerScores.ApplyInRange | Assets/Scripts/Player/PlayerScore.cs:41 | after any series of events the score lies in [0, int.MaxValue] |
| PlayerScores.PlayerScore.constructor | Assets/Scripts/Player/PlayerScore.cs:7 | the total starts at the inspector's 32-bit setting with no per-type entries, and the keeper is valid when that setting is not negative |
| PlayerScores.PlayerScore.Score | Assets/Scripts/Player/PlayerScore.cs:16 | the stored total, which lies in [0, int.MaxValue] whenever the keeper is valid |
| PlayerScores.PlayerScore.OnScored | Assets/Scripts/Player/PlayerScore.cs:28-45 | the total and the scored type's entry take the clamped sum, a new entry starts from 0, and no other entry changes; the positive notification fires exactly for toAdd > 0 and the negative one exactly for toAdd < 0; after any event the total lies in [0, int.MaxValue], whatever it started at |
| EndMenus.SelectedIsFirstHighest | Assets/Scripts/Menus/EndMenu.cs:40-48 | the chosen row has the greatest threshold ≤ the score, and it is the earliest among equal ones; nothing is chosen exactly when no row qualifies; an `int.MinValue` threshold never qualifies |
| EndMenus.GradeMonotone | Assets/Scripts/Menus/EndMenu.cs:40-48 | raising the player's score never selects a lower threshold |
| EndMenus.CheckScore | Assets/Scripts/Menus/EndMenu.cs:36-49 | returns the selected row, or the default (0, '\0') when none qualifies |
| ScoreTexts.ClampPercent | Assets/Scripts/UI/ScoreText.cs:106 | the percentage is clamped into [0, 100] |
| ScoreTexts.PercentageRange | Assets/Scripts/UI/ScoreText.cs:98-107 | a number always lies in [0, 100]; NaN arises exactly from a zero total when cleaned + missing is 0 but cleaned and missing are not both 0 |
| ScoreTexts.PercentageEnds | Assets/Scripts/UI/ScoreText.cs:98-107 | with a positive total, handling all objects gives 100 and handling none gives 0 |
| ScoreTexts.PercentageMonotone | Assets/Scripts/UI/ScoreText.cs:98-107 | with a positive total, handling more objects never lowers the percentage |
| ScoreTexts.ScoreText.CalculateDirtyObjects | Assets/Scripts/UI/ScoreText.cs:36-47 | recomputes the dirty total and current from 0 as sums over the dirty tasks; the clean counters are unchanged |
| ScoreTexts.ScoreText.CalculateCleanObjects | Assets/Scripts/UI/ScoreText.cs:49-60 | recomputes the clean total and current from 0 as sums over the clean tasks; the dirty counters are unchanged |
| ScoreTexts.ScoreText.CalculatePercentage | Assets/Scripts/UI/ScoreText.cs:85-108 | cleaned = clean total − clean current; missing = dirty total − dirty current − clean total − the objects in stations; the result is 0 when both are 0 and otherwise 100 × (cleaned + missing) / total, clamped |
| ScoreTexts.ScoreText.GetPercentage | Assets/Scripts/UI/ScoreText.cs:110-115 | recounts both kinds first, so the result depends only on the tasks, and a number lies in [0, 100] |
| Tasklists.AddRichTextTag | Assets/Scripts/UI/Tasklist.cs:107-113 | `<t=v>m</t>` with a non-empty value, `<t>m</t>` otherwise |
| Tasklists.StripAddRichTextTag | Assets/Scripts/UI/Tasklist.cs:107-113 | stripping the same tag gives the message back |
| Tasklists.AddRichTextTagInjective | Assets/Scripts/UI/Tasklist.cs:107-113 | different messages never get the same tagged text |
| Tasklists.OccursInside | Assets/Scripts/UI/Tasklist.cs:110-112 | text inside a message is still present, shifted by the opening tag, after tagging |
| Tasklists.WrapAllKeepsMessage | Assets/Scripts/UI/Tasklist.cs:99-102 | after wrapping in any number of tags, the task string still appears as one contiguous piece |
| Tasklists.WrapInTags | Assets/Scripts/UI/Tasklist.cs:99-102 | the loop wraps the coloured string in each completed tag in turn, the last one outermost, which is `WrapAll` |
| Tasklists.Tasklist.GetTaskStringWithTags | Assets/Scripts/UI/Tasklist.cs:90-105 | the color tag always comes first, with the completed or not-completed color; only completed tasks are then wrapped outward in each completed tag, in array order |
| Tasklists.Tasklist.ParentsMessageArguments | Assets/Scripts/UI/Tasklist.cs:77-88 | there are min(tasks, task strings) format arguments, argument i being task i's display string |
| Tasklists.Tasklist.TaskCompleted | Assets/Scripts/UI/Tasklist.cs:53-75 | message i shows whether task i is completed, and only indices below both lengths are touched; all-completed holds exactly when every task is completed, including for no tasks |
| VisualUpdaters.StepsBeforeAdvance | Assets/Scripts/Chore/VisualUpdater.cs:21-22 | until the threshold is reached, each call only increments the counter |
| VisualUpdaters.AdvanceAfterThreshold | Assets/Scripts/Chore/VisualUpdater.cs:19-30 | from a fresh counter, exactly `progressNumberToAdvance` calls advance one stage while another visual remains |
| VisualUpdaters.LastVisualStays | Assets/Scripts/Chore/VisualUpdater.cs:22 | after the last stage the index never changes |
| VisualUpdaters.VisualUpdater.constructor | Assets/Scripts/Chore/VisualUpdater.cs:13-17 | the start visual is current, so the index is -1 |
| VisualUpdaters.VisualUpdater.Progress | Assets/Scripts/Chore/VisualUpdater.cs:19-30 | the counter advances as `Step` says; on advance the previous visual is switched off and only the new one on; -1 ≤ index < number of visuals is kept |
| StationVisuals.AfterShows | Assets/Scripts/Chore/ChoreStationVisuals.cs:10-15 | announcing objects never changes the number of renderers |
| StationVisuals.ShowOneIdempotent | Assets/Scripts/Chore/ChoreStationVisuals.cs:14 | showing the same index twice is the same as showing it once |
| StationVisuals.ShownMatchesContents | Assets/Scripts/Chore/ChoreStationVisuals.cs:10-15 | starting hidden, after a station filled with some types, exactly the slots holding this visual's type are shown |
| StationVisuals.ChoreStationVisuals.ShowChoreObject | Assets/Scripts/Chore/ChoreStationVisuals.cs:10-15 | nothing changes for another type or an index past the renderers; otherwise exactly that renderer is enabled |
| StationVisuals.ChoreStationVisuals.HideChoreObjects | Assets/Scripts/Chore/ChoreStationVisuals.cs:17-23 | every renderer is disabled |
| ControlSchemes.SchemeFor | Assets/Scripts/ScriptableObjects/Controls/ControlSchemes.cs:16-25 | the result is a listed scheme; it has the requested id when any scheme does, and it is the first scheme when none does |
| ControlSchemes.FirstWithId | Assets/Scripts/ScriptableObjects/Controls/ControlSchemes.cs:18-22 | the lookup returns the first scheme with a matching id |
| ControlSchemes.GetScheme | Assets/Scripts/ScriptableObjects/Controls/ControlSchemes.cs:16-25 | the loop returns the first matching scheme, falling back to `schemes[0]` |
| ControlSchemes.GetId | Assets/Scripts/ScriptableObjects/Controls/ControlSchemes.cs:27-31 | the id of scheme 0 for keyboard and scheme 1 for controller |
| ControlSchemes.IdRoundTrip | Assets/Scripts/ScriptableObjects/Controls/ControlSchemes.cs:16-31 | looking up `GetId(c)` finds a scheme with that id, and finds that very scheme when no earlier scheme shares its id |
| SettingsMenu.SameResolutionIsEquality | Assets/Scripts/Menus/Settings.cs:46-49 | `Resolution.Equals` is component-wise on width and height |
| SettingsMenu.BeforeAt | Assets/Scripts/Menus/Settings.cs:124 | `Split('@')[0]` is the longest prefix without '@' |
| SettingsMenu.FirstIndex | Assets/Scripts/Menus/Settings.cs:118-123 | the first screen mode with a given resolution, if any |
| SettingsMenu.SetupLockstep | Assets/Scripts/Menus/Settings.cs:118-126 | both lists only grow at the end, in lockstep: new entry j is the resolution and the label of one screen mode |
| SettingsMenu.SetupDistinct | Assets/Scripts/Menus/Settings.cs:118-126 | no two listed resolutions are equal, given none were before |
| SettingsMenu.SetupCovers | Assets/Scripts/Menus/Settings.cs:120-123 | every screen mode's resolution is listed |
| SettingsMenu.SetupFirstOccurrenceOrder | Assets/Scripts/Menus/Settings.cs:121-123 | starting empty, resolutions are listed in order of first appearance |
| SettingsMenu.FirstIndexFound | Assets/Scripts/Menus/Settings.cs:118-123 | a found first index points at a mode with that resolution |
| SettingsMenu.Settings.SetupResolutionDropdown | Assets/Scripts/Menus/Settings.cs:115-128 | the lists become `Setup` of the previous lists and the screen modes |
| SettingsMenu.Contains | Assets/Scripts/Menus/Settings.cs:121 | `List.Contains` under `Resolution.Equals` |

## Findings

| source | as written | input that shows it | evidently intended | confidence | as-written member | corrected member |
|---|---|---|---|---|---|---|
| Assets/Scripts/Player/PlayerScore.cs:32, Assets/Scripts/Player/PlayerScore.cs:41 | `Mathf.Clamp(totalScore + toAdd, 0, int.MaxValue)` adds in unchecked 32-bit arithmetic before clamping | total int.MaxValue, toAdd 1: the sum wraps to int.MinValue and is clamped to 0 | the score saturates at int.MaxValue, as the upper clamp bound says | not executed; needs totals near 2^31 | PlayerScores.AddAsWritten, PlayerScores.OverflowResetsScore | PlayerScores.Add, PlayerScores.ApplyGains |

## Left out

- Physics, positions, heights and throwing (`ChoreObject.OnInteract`, `heldHeight`): distances enter `SetClosest` as functions instead.
- Highlighting, interact text, animation events and the `Update` reset of `isInteracting` in `PlayerInteract` are left out; they are presentation only.
- Notification dispatch and listener registration are left out. Notifications become returned flags or events; a hold's completion results and a put-away's score are returned by `PlayerInteraction.PlayerInteract.PrimaryInteract`.
- PlayerInteraction.PlayerInteract.StationExitedRange: a destroyed station (a null entry) is not modelled; stations in range are always live.
- PlayerInteraction.PlayerInteract.ObjectExitedRange: a chore object destroyed while in range (the neighbour taking it away) is not modelled. The search and the pick-up skip a missing entry, but no operation of the model turns an entry into a missing one.
- ChoreStations.ChoreStation.ProgressInteract: the step is `Time.deltaTime / timeToComplete` as an exact real; float rounding is not modelled.
- ChoreStations.ChoreStation.AddScore: the product `value * multiplier * amount * extraMultiplier` is exact before the truncating cast. Where float rounding would land just below an integer, the source scores one less than the model. The cast to a 32-bit `int` is modelled as unbounded truncation: a product outside the `int` range, which C# converts to an unspecified value, keeps its exact truncated value in the model.
- ControlSchemes.SchemeFor, ControlSchemes.GetScheme: an empty scheme array is excluded by a precondition. The source throws `IndexOutOfRangeException` there, and that error path is not modelled.
- ControlSchemes.GetId: the precondition requires the scheme for the requested input to exist (two schemes for a controller). The source throws on a one-entry array, and that error path is not modelled.
- ChoreStations.ChoreStation.AddScore: the scored notification is reported at once rather than after the coroutine's real-time delay.
- ChoreStations.ChoreStation.SpawnCleanObjects: spawned objects are returned as prefabs. Placement, heights and the engine's error on instantiating a missing prefab (a None entry) are not modelled.
- `Instantiate`/`Destroy` of scene objects: an object's destruction is its removal from its set (`Tasks.ObjectDestroyed`).
- LandlineTelephones.LandlineTelephone.Success: the timer pause, the progress bar and the hang-up notification are left out; the game clock is the parameter `now`.
- PlayerScores.PlayerScore.OnScored uses the saturating addition. The wrap-around of the source is kept in `PlayerScores.AddAsWritten` (see Findings).
- Integer counters elsewhere (task totals, ScoreText counters) are unbounded; 32-bit overflow is not modelled for them.
- ScoreTexts.ScoreText.GetPercentage: rounding to whole percent for display (`Mathf.RoundToInt`, the `(int)` cast in `EndMenu.Start`) and the text itself are left out.
- Tasklists.Tasklist.ParentsMessageArguments: `string.Format` on the designer's template is left out; the colors' hexadecimal text (`ColorUtility.ToHtmlStringRGBA`) is given as a string.
- SettingsMenu.BeforeAt: the mode's text (`Resolution.ToString()`) is given as a string. Quality levels, audio volumes, PlayerPrefs and `SetResolution` are left out, being engine and persistence calls.
- Engine wiring (`Awake`/`OnEnable` lookups, the inspector) becomes constructor parameters. The loops that subscribe to or unsubscribe from notifications (`Tasklist`, `MultiTask`) and the renderer-collecting loop of `ChoreStationVisuals.Start` are wiring and are not modelled; the renderers are a constructor parameter.
- Task references are snapshots: the model does not follow two tasks sharing a set as aliases.
