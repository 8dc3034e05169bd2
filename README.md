# Monthly targets and activities — a Dafny model

This project models a small sales-management demo app. It has three surfaces.

- A supervisor's desk (`HeadView`) issues monthly targets to agents. A target is a goal of training meetings or of one-on-one interviews for one agent in one month.
- The agent 张三 accepts or rejects each target on the desktop (`MainView`). The agent also starts meetings and interviews with an activity form (`ActivityForm`).
- When the agent checks an activity in and completes it, accepted targets are credited. This can be done on the desktop or on a phone simulator (`MobileSimulator`).

All state lives in one application shell (`App.tsx`). It holds:

- the targets, each new one appended unless it overwrites an earlier record of its slot in place;
- the activities, each new one put in front of those before it;
- the selected month.

The model is arranged like this:

- **Store**: the shell is the class `Store.App`, whose methods are the five handlers. What each handler does to the collections is given by a pure function of the old collections, such as `TargetsAfterAdd`, `Responded` or `TargetsAfterCredit`. The lemmas about those functions carry the invariants. The main one is that no two targets of the same agent, month and category exist (`UniqueSlots`), which gives at most one live target per slot.
- **HeadView**: the guard against issuing into a live slot, the record it builds, and the dashboard, which lists the targets in reverse stored order.
- **ActivityForm**: the form state is the class `ActivityForm.FormState`. List edits are pure sequence functions from `Seqs`: toggling, a `Set`-style union that keeps first occurrences, and filtering.
- **MainView** and **MobileSimulator**: each view's local dialog state is a class `ViewState`. Its methods drive `Store.App` the way the click handlers do. The filters are pure functions whose contracts state exact membership and, for the lists, the stored order.
- **Domain** and **Seed**: the records (`types.ts`) and the demo data (`constants.tsx`).

Things the caller supplies as parameters:

- fresh identifiers;
- `Date.now()` readings (`createdAt`, the clock in the seed data);
- the text typed into inputs. Text setters are modelled by assigning the class's public field.

An `alert` is modelled as a refusal that changes nothing.

Points where the code behaves in a way a reader may not expect; the model follows the code:

- Completing an activity credits every accepted target of the activity's category in the selected month. The target's agent and the activity's own date are not looked at (`App.tsx:69-74`).
- Answering a target has no status guard, so a rejected target can be answered again (`App.tsx:50`).
- Overwriting an activity's status checks no transition (`App.tsx:79`).
- Issuing into a slot whose first record is rejected overwrites that record in place and keeps its id (`App.tsx:38-42`). A rejected status is therefore not final.

## Model

| member | source | states |
|---|---|---|
| Domain.CategoryOf | App.tsx:61-66 | a meeting counts towards training-meeting targets and an interview towards interview targets, in both directions |
| Domain.CategoryLabel | types.ts:9 | the category labels are exactly 培训会议 and 1v1面谈 |
| Seed.InitialTargets | constants.tsx:5-24 | two accepted targets of 张三 for 2026-01, one per category, each short of its goal |
| Seed.InitialActivities | constants.tsx:26-53 | two completed activities with summaries, a meeting then an interview, created before `now`, the first one earlier than the second |
| Seed.DeptTree | constants.tsx:57-60 | two departments with distinct names, each with two differently named staff |
| Seed.MonthOptions | constants.tsx:55 | three distinct months offered to the supervisor, 2026-01 in the middle |
| Seed.MeList | constants.tsx:56 | three distinct agents offered to the supervisor, 张三 first |
| Store.FindSlot | App.tsx:38 | -1 exactly when no target shares the new target's month, category and agent; otherwise the first index that does |
| Store.SameSlot | App.tsx:26-28 | two targets share a slot when their month, category and agent agree, the test of the store's guard and of its slot search at App.tsx:38 |
| Store.Live | components/HeadView.tsx:30 | a target still counts while it is pending or accepted |
| Store.IsAlreadyAccepted | App.tsx:25-30 | the store's guard: some target of the same month, category and agent is accepted |
| Store.TargetsAfterAdd | App.tsx:24-47 | unchanged when an accepted target holds the slot; otherwise the first target of the slot is replaced by the new one under the old id, with length and all other entries unchanged; otherwise the new target is appended after an unchanged prefix |
| Store.Responded | App.tsx:49-52 | every target with the id gets the new status and reason (None when absent) with nothing else changed; other targets and the length are unchanged; an unknown id changes nothing |
| Store.ActivitiesAfterComplete | App.tsx:60-67 | the activity with the id becomes completed with the summary, otherwise unchanged; every other activity is unchanged |
| Store.CompleteOne | App.tsx:62-65 | an activity with the id becomes completed with the summary, otherwise unchanged; any other activity is returned as it is |
| Store.LastIndexOf | App.tsx:61-66 | the last activity carrying the id, or -1 when none does |
| Store.CompletedCategory | App.tsx:60-67 | empty exactly when no activity has the id; otherwise the category of the last activity carrying it, since each match overwrites the remembered type |
| Store.TargetsAfterCredit | App.tsx:69-74 | exactly the accepted targets of the category in the selected month gain one unit of `actual`; nothing else changes; no `actual` decreases; an empty category changes nothing |
| Store.Credited | App.tsx:70 | a target is credited when it is accepted and of the completed category in the selected month; its agent is not looked at |
| Store.StatusUpdated | App.tsx:78-80 | the matching activity gets the new status whatever the old one was, with every other field and activity unchanged |
| Store.UniqueSlotsHaveOneLive | App.tsx:37-45 | when no two targets share a slot, no slot holds two live targets; every store method that changes the targets uses it to keep at most one live target per slot |
| Store.AddKeepsUniqueSlots | App.tsx:37-45 | adding a target never puts two targets in one slot |
| Store.SlotPreservingStep | App.tsx:49-52 | a step that keeps every target's slot keeps slots unique |
| Store.ReissueWhilePendingOverwrites | App.tsx:37-45 | issuing twice into an empty slot, the second time while the first is pending, leaves one record: the second target under the first one's id |
| Store.App.constructor | App.tsx:11-13 | the store starts with the seed targets and activities and month 2026-01, with unique slots and so at most one live target per slot |
| Store.App.AddTarget | App.tsx:24-47 | refuses exactly when an accepted target holds the slot; the new targets are those of `TargetsAfterAdd`; unique slots are preserved, and with them at most one live target per slot |
| Store.App.TargetResponse | App.tsx:49-52 | the new targets are those of `Responded`; the activities and month are unchanged; unique slots are preserved, and with them at most one live target per slot |
| Store.App.CreateActivity | App.tsx:54-57 | the new activity is put first |
| Store.App.CompleteActivity | App.tsx:59-76 | the loop completes the activity and remembers the category of the last match; the targets are then credited for that category in the selected month; unique slots are preserved, and with them at most one live target per slot |
| Store.App.UpdateStatus | App.tsx:78-80 | the activities are those of `StatusUpdated`; the targets are unchanged |
| Store.App.SelectMonth | components/MainView.tsx:98 | only the selected month changes |
| HeadView.Submit | components/HeadView.tsx:21-47 | nothing is issued exactly when a pending or accepted target of the form's agent, month and category exists; otherwise the target is pending, has nothing achieved and no reason, and carries the form's month, category, agent and goal |
| HeadView.AlreadyIssued | components/HeadView.tsx:26-31 | the form's guard: some pending or accepted target has the form's agent, month and category |
| HeadView.InitialForm | components/HeadView.tsx:14-19 | the form first shows 张三, 2026-01, training meetings and a goal of 10, the agent and month taken from the option lists |
| HeadView.InitialFormBlockedBySeed | components/HeadView.tsx:26-36 | submitting the initial form against the seed data is refused, since 张三 has accepted a training-meeting target for 2026-01 |
| HeadView.TargetsAfterIssue | components/HeadView.tsx:38-46 | a guarded submission leaves the targets unchanged; otherwise the store grows by at most one and holds a pending target with the form's agent, month, category and goal and nothing achieved |
| HeadView.SubmittedIsNotAlreadyAccepted | components/HeadView.tsx:26-36 | a target that passes the form's guard is never refused by the store |
| HeadView.IssueKeepsAtMostOneLive | components/HeadView.tsx:26-46 | issuing through the form keeps at most one pending-or-accepted target per agent, month and category |
| HeadView.ReissueOverwritesRejected | components/HeadView.tsx:30 | when the first target of the slot is rejected and none is live, re-issuing overwrites that record in place as a fresh pending target and keeps its id |
| HeadView.Dashboard | components/HeadView.tsx:135 | the dashboard lists the targets in exactly the reverse of their stored order |
| HeadView.SubmitIssue | components/HeadView.tsx:21-47 | the store is called only when the guard passes, and then the targets become those of the issue |
| Seqs.Filter | components/ActivityForm.tsx:58-60 | the kept elements come from the input and pass the test; every passing element is kept |
| Seqs.FilterAppend | components/MainView.tsx:33-35 | filtering a concatenation concatenates the filtered parts |
| Seqs.FilterOrder | components/MainView.tsx:33-35 | every two kept elements occur in the input in the same relative order |
| Seqs.FilterFilter | components/MainView.tsx:116 | filtering the filtered list again is one filter by both tests |
| Seqs.FilterAll | components/ActivityForm.tsx:36-41 | a filter that every element passes gives back its input |
| Seqs.FilterHead | components/MainView.tsx:68 | the first element of a non-empty filter is the first passing element of the input |
| Seqs.FilterNoDups | components/ActivityForm.tsx:58-60 | filtering keeps a duplicate-free list duplicate-free |
| Seqs.FilterMultisetDiffers | components/ActivityForm.tsx:36-50 | removing every occurrence of one element keeps every other element with its multiplicity |
| Seqs.Toggle | components/ActivityForm.tsx:36-50 | a present element is removed with every occurrence and the rest kept in their order and with their multiplicities; an absent one is appended after an unchanged prefix |
| Seqs.ToggleTwiceAbsent | components/ActivityForm.tsx:36-41 | toggling an absent element twice gives back the original list |
| Seqs.ToggleNoDups | components/ActivityForm.tsx:36-50 | toggling keeps a duplicate-free list duplicate-free |
| Seqs.Dedup | components/ActivityForm.tsx:62-63 | the union has no duplicates and holds exactly the elements of the input |
| Seqs.FirstIndex | components/ActivityForm.tsx:62-63 | the position of the first occurrence |
| Seqs.DedupOrder | components/ActivityForm.tsx:62-63 | the union keeps the order of first occurrences |
| Seqs.DedupKeepsPrefix | components/ActivityForm.tsx:62-63 | a duplicate-free list of participants stays as it is at the front of the union |
| ActivityForm.ThemeOptions | components/ActivityForm.tsx:32-34 | four distinct themes per kind, the last being 其他 |
| ActivityForm.RewriteThemes | components/ActivityForm.tsx:70 | themes keep their length and order; only 其他 is rewritten to `其他: ` followed by the explanation |
| ActivityForm.SubmittedTitle | components/ActivityForm.tsx:75 | a typed title is kept; an empty one becomes 未命名会议 or 未命名面谈 by kind |
| ActivityForm.FindDept | components/ActivityForm.tsx:53-54 | none exactly when no department has the name; otherwise the first one that has it |
| ActivityForm.StaffNames | components/ActivityForm.tsx:55 | the staff names in order |
| ActivityForm.AllIncluded | components/ActivityForm.tsx:58 | every staff name of the department is already a participant |
| ActivityForm.Union | components/ActivityForm.tsx:62-63 | the union has no duplicates, contains every participant and every staff name and nothing else, keeps first-occurrence order, and keeps duplicate-free participants as its prefix |
| ActivityForm.SelectDeptParticipants | components/ActivityForm.tsx:56-65 | when all staff are in, they are removed and every other participant is kept, in the stored order; otherwise the participants become the union with the staff |
| ActivityForm.SelectDeptKeepsNoDups | components/ActivityForm.tsx:52-66 | selecting a department keeps a duplicate-free participant list duplicate-free |
| ActivityForm.FormState.constructor | components/ActivityForm.tsx:15-26 | a blank form dated 2026-01-01 whose sub-type is 早会 for a meeting and 面谈 for an interview |
| ActivityForm.FormState.ToggleTheme | components/ActivityForm.tsx:36-41 | themes become their toggle and stay duplicate-free; toggling an offered theme keeps every selected theme among the kind's options |
| ActivityForm.FormState.ToggleAttendee | components/ActivityForm.tsx:43-50 | participants become their toggle and stay duplicate-free |
| ActivityForm.FormState.SelectDept | components/ActivityForm.tsx:52-66 | an unknown department changes nothing; otherwise participants follow `SelectDeptParticipants` and stay duplicate-free |
| ActivityForm.FormState.PickInterviewee | components/ActivityForm.tsx:276 | the interviewee's name and id are set |
| ActivityForm.FormState.Submission | components/ActivityForm.tsx:68-86 | the record is ongoing with no summary, carries the defaulted title and rewritten themes, and copies every other field of the form |
| ActivityForm.FormState.SubmitTo | components/MainView.tsx:170 | the submitted record is put first among the activities |
| Agent.CheckInFor | components/MainView.tsx:196-215 | check-in is offered exactly when the activity is not completed; an interview then asks for a summary and a meeting completes on its own |
| Agent.OfAgentInMonth | components/MainView.tsx:33 | the test of a target of 张三 for the month, shared with the phone view |
| Agent.InMonth | components/MainView.tsx:35 | the test that the activity's date has the month as a prefix, shared with the phone view |
| Agent.IsAccepted | components/MainView.tsx:116 | the test of an accepted target, shared with the phone view |
| MainView.CurrentTargets | components/MainView.tsx:33 | exactly the agent's targets of the selected month, in stored order |
| MainView.IsPendingOfAgent | components/MainView.tsx:34 | the test of a pending target of 张三, of any month |
| MainView.PendingTargets | components/MainView.tsx:34 | exactly the agent's pending targets, of any month, in stored order |
| MainView.FilteredActivities | components/MainView.tsx:35 | exactly the activities whose date has the selected month as a prefix, in stored order |
| MainView.ProgressTargets | components/MainView.tsx:116 | exactly the agent's accepted targets of the selected month, in stored order |
| MainView.OfferedTarget | components/MainView.tsx:68-72 | none exactly when the agent has no pending target; otherwise the first pending target |
| MainView.ViewState.constructor | components/MainView.tsx:27-31 | no activity on display and no dialog open |
| MainView.ViewState.OpenActivity | components/MainView.tsx:144 | the clicked activity is on display |
| MainView.ViewState.CloseActivity | components/MainView.tsx:176 | nothing is on display |
| MainView.ViewState.Accept | components/MainView.tsx:74 | only the offered target is accepted, with no reason |
| MainView.ViewState.StartReject | components/MainView.tsx:80 | the rejection dialog opens for the offered target |
| MainView.ViewState.CancelReject | components/MainView.tsx:244 | the rejection dialog closes |
| MainView.ViewState.ConfirmReject | components/MainView.tsx:246-251 | an empty reason sends nothing; otherwise the target is rejected with that reason and the dialog is cleared |
| MainView.ViewState.CheckIn | components/MainView.tsx:196-215 | nothing happens for a completed activity; an interview only goes to pending-summary and opens the dialog; a meeting is completed with the fixed desktop summary and targets are credited |
| MainView.ViewState.SubmitSummary | components/MainView.tsx:232 | an empty summary sends nothing; otherwise the activity is completed with the text, targets are credited and the dialogs are cleared |
| MobileSimulator.MyTargets | components/MobileSimulator.tsx:28-29 | exactly the agent's targets of 2026-01, whatever month the desktop has selected, in stored order |
| MobileSimulator.MyActivities | components/MobileSimulator.tsx:28-30 | exactly the activities dated in 2026-01, in stored order |
| MobileSimulator.MyProgress | components/MobileSimulator.tsx:43 | exactly the agent's accepted targets of 2026-01, in stored order |
| MobileSimulator.ViewState.constructor | components/MobileSimulator.tsx:24-26 | no activity on display and no dialog open |
| MobileSimulator.ViewState.OpenActivity | components/MobileSimulator.tsx:54 | the tapped activity is on display |
| MobileSimulator.ViewState.CloseActivity | components/MobileSimulator.tsx:94 | nothing is on display |
| MobileSimulator.ViewState.CheckIn | components/MobileSimulator.tsx:104-107 | nothing happens for a completed activity; an interview only goes to pending-summary; a meeting is completed with the fixed phone summary |
| MobileSimulator.ViewState.SubmitSummary | components/MobileSimulator.tsx:120 | an empty summary sends nothing; otherwise the activity is completed with the text and the dialogs are cleared |

## Left out

- Rendering, icons, styling, the tab bar (`activeTab`, which changes nothing else), the add menu and form open/close flags: these are presentation only.
- The toast list (`App.tsx:16-22`): it is driven by `Date.now()` and `setTimeout` and only shows messages.
- Identifier and timestamp generation (`Math.random`, `Date.now()`): fresh values are parameters.
- `alert` dialogs: modelled as a refusal that changes nothing.
- Percent and progress-bar arithmetic (`Math.round`, `Math.min`): floating point, display only.
- HeadView.Submit: the goal is taken as any integer; the conversion `Number(formData.goal)` of the typed text and the browser's constraint validation of the goal input (`min="1"` with the default whole-number step, components/HeadView.tsx:112) are not modelled.
- ActivityForm.FormState.SubmitTo: the browser's constraint validation of the required title input (components/ActivityForm.tsx:104) is not modelled, so an empty title can reach the submission; the handler's fallback title is modelled as written.
- React's batching and the timing of state updaters: the model runs the activity update first and the target credit second, as the handler evidently intends.
- Store.App.CompleteActivity: the remembered category is read after the activity update has run; under React the updater could run later than the read.
- MainView.ViewState.CheckIn: the displayed activity is the copy taken when it was opened, so after an interview check-in it still shows the old status, as in the source.
- The text inputs' `onChange` setters: callers assign the class's public text fields directly.
- Seqs.FilterOrder: the order clause says that every two kept elements occur in the input in the same relative order; when the input repeats an identical record it does not pin which occurrence was kept (`Seqs.FilterAppend` does, by structure).
- Seed.InitialActivities: the creation times are `now` minus five and two days, with `now` a parameter.
