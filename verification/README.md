# A verified model of ez4's deploy, linking and runtime core

The project models, in Dafny 4.11, the parts of ez4 whose correctness is not settled by reading one function, and
proves what they are for. `dafny verify dfyconfig.toml` checks all of it.

- **Linked contexts** (`LinkedContexts`, `LinkHandlers`, `Orders`, `Targets`): a deploy target's link graph, cyclic or
  not, becomes a shared and possibly cyclic heap of context objects, built by a memoised recursion that publishes an
  empty context before it fills it. The object graph is bisimilar to the infinite unfolding of the links, and linking
  the variables succeeds exactly when all reachable ones agree. Over all targets of a project, it is known exactly when
  the order in which they are prepared does not matter to one of them.
- **Deploy state** (`Layers`, `StatePlan`, `StateApply`, `PostActions`, `SavedEntries`, `StateDeploy`): a plan exists
  exactly when the dependencies exist and are acyclic, orders every step by its longest chain and acts on each entry
  as the two states call for; every saved entry holds what its handler returned or what was there before; whichever handlers and callbacks
  fail, warn or are skipped, it is known exactly when the next deploy can load the state that is left, for one run and
  for all runs of a plan.
- **Rewrite patterns** (`Text`, `Regex`, `Rewrite`, `RewriteCorrectness`, `OriginRules`, `GlobLaws`): the glob language of a
  rewrite rule is compiled to regular expression text by three substitutions over whole texts. For every pattern and
  every path the expression, parsed and matched as section 22.2 of ECMA-262 says, matches just what the glob denotes.
- **Queue keys** (`Json`, `JsonRoundTrip`, `JsonTexts`, `QueueKeys`): `JSON.stringify` (section 25.5.2 of ECMA-262) and
  `JSON.parse` (sections 2 to 7 of RFC 8259) over UTF-16 code units; keys are injective because parsing gives the
  value back.
- **Reachability** (`Reachability`, `Resolver`, `VirtualConnections`): two further memoised depth-first traversals.
- **State machines** (`Records`, `Scope`, `ScopeIsolation`, `ScopeHops`, `DeployLock`, `Tty`, `Clients`, `Mocks`): each
  is a class or a step function with an invariant over every run.
- **Renames** (`Renames`): what the validation of table and column renames guarantees to a migration.

What holds only under a condition, and what the code does there:

- The forwarded headers of the runtime scope are stable from the first hop on if and only if the scope exports nothing,
  or a declared key has a value to restore, or the declared keys that answer without a value forward nothing but the
  trace id (`ScopeHops.HopsAreStable`). A declared `traceId` beside an undeclared value is a case where they are not
  (`ScopeHops.DeclaredTraceIdIsNotStable`), since a scope without values is not exported and loses its headers. A key
  named `__proto__` is never restored (`ScopeHops.HopRestores`).
- A failed post action of a deletion puts the deleted entry back. A deploy saves a loadable state if and only if every
  such entry still has its dependencies (`StateDeploy.Deploy`); deletions go dependents first, so it may not
  (`PostActions.FailedDeletionIsNotLoadable`). All deploys of a plan save loadable states, whatever the handlers and the
  callbacks do, if and only if no entry to delete that leaves post actions depends on another one to delete
  (`StateDeploy.EveryDeployLoadsIff`). Post actions of new entries are always safe.
- A shutdown signal gives the deploy lock back while the callback still runs, so another run can get inside, and only
  then (`DeployLock.ExclusionIsExact`). When it comes while the lock request is on its way, the unlock can land first
  and the lock stays for good (`DeployLock.ExitLeavesLock`), unlike the comment at perform.ts:22-23 says.
- A client whose making reads it back is made again, and the one handed out inside is replaced
  (`Clients.CircularClientIsMadeTwice`); in no other case (`Clients.MadeAtMostOnce`).
- Targets are prepared at once, and what one gets can depend on which was prepared before
  (`Targets.OrderOfTargetsMatters`). Every order goes through and gives a target the same variables if and only if no
  target can get variables that disagree or that it does not support, and this one can get, along chains of targets,
  nothing but what it reaches before any of them is prepared (`Targets.OrderDoesNotMatter`).
- A rename of a column the table lacks is accepted when its name is one every object answers to, such as
  `constructor`; accepted renames are sound if and only if no such name is used (`Renames.AcceptedColumnsAreSound`,
  `Renames.InheritedNameIsAccepted`).
- A message without a key field and one with `null` there share an idempotency key (`QueueKeys.MissingFieldIsNull`).
- `makeClients` that fails leaves an empty map cached, which later calls of the same version are given
  (`Clients.Registry.MakeClients`).
- A rule scoped under a literal base matches just its own paths under the base, if and only if the base is not `/`
  alone or the rule denotes nothing (`OriginRules.ScopedIsUnderBase`): a lone slash is not trimmed, so under an origin
  without a path the rule `users` matches `///users` (`OriginRules.RootIsNotTrimmed`). For the same reason a rule `/`
  under `/api` becomes `/api//`.
- The code of the rewrite compiler reads `{|}` as a group without alternatives, which matches the empty text.

## Model

| member | source | states |
|---|---|---|
| `LinkedContexts.Builder.PrepareLinkedContext` | foundation/project/src/deploy/services.ts:30-89 | Succeeds exactly when every reachable link resolves, may send its variables and no two variables disagree. Then, for every path of link names, cyclic ones included, following `.context` finds a client just when the handlers, each asked about the merged service of its link, answer with it; the target's variables are exactly its own and those of every reachable service; each key was expanded once |
| `LinkedContexts.Builder.BuildLinkedContexts` | foundation/project/src/deploy/services.ts:38-84 | For links taken in any order: an entry for each answered link and no other, every cached key complete or on the recursion stack, nothing published taken back, and an error only when the target cannot be linked. It terminates because each expansion uses up one of finitely many keys |
| `LinkedContexts.Builder.LinkService` | foundation/project/src/deploy/services.ts:41-81 | One link gets an entry just when a handler answers for the merged service, with the client of the answer and the context of its own (service, options), cached or new |
| `LinkedContexts.Builder.Expand` | foundation/project/src/deploy/services.ts:67-75 | Publishing before recursing and filling afterwards leaves a complete context under the key, also when the recursion came back to it |
| `LinkedContexts.Builder.Publish` | foundation/project/src/deploy/services.ts:67-70 | A new object, cached under a key that was not, now on the stack |
| `LinkedContexts.Builder.Fill` | foundation/project/src/deploy/services.ts:72-75 | The published object becomes complete and leaves the stack |
| `LinkedContexts.Builder.AssignVariables` | foundation/project/src/deploy/services.ts:91-103 | All variables are assigned and none changes, or there is an alias that disagrees or no variables at all |
| `LinkedContexts.Builder.LinkVariables` | foundation/project/src/deploy/services.ts:77-79 | A failure means the target cannot be linked at all, in whatever order its links are taken |
| `LinkedContexts.LinkedIsMerged` | foundation/project/src/deploy/services.ts:44-52 | The service a handler is asked about differs from the linked one in its options only: each option has the value of the link if the link sets it, or else that of the service, and there are no others |
| `LinkedContexts.AskedIs` | foundation/project/src/deploy/services.ts:44-75 | What a link is answered, its key, and the service and links it expands to, told by the merged service and the answer for it |
| `LinkedContexts.UnfoldAnswers` | foundation/project/src/deploy/services.ts:38-84 | The unfolding of the links has a client at the end of a path just when the handlers answer with it along the path |
| `LinkedContexts.UnfoldEnds` | foundation/project/src/deploy/services.ts:54-61 | It ends with the answer to the last link |
| `LinkedContexts.Bisimulation` | foundation/project/src/deploy/services.ts:38-88 | The finished objects and the links unfold alike along one path, by induction on it |
| `LinkedContexts.BisimulationOnEveryPath` | foundation/project/src/deploy/services.ts:38-88 | The same for all paths at once |
| `LinkedContexts.KeyDeterminesNode` | foundation/project/src/deploy/services.ts:63-66 | A cache hit never meets another service's links or options: the key determines the service with its merged options and the links it expands to |
| `LinkedContexts.HitMeetsItsNode` | foundation/project/src/deploy/services.ts:65-66 | What is cached under the key of a link is what that link expands to |
| `LinkedContexts.ConflictIsReal` | foundation/project/src/deploy/services.ts:91-99 | The conflict found is between two variables that both contribute, or of a target that supports none |
| `LinkedContexts.ReachableIsCached` | foundation/project/src/deploy/services.ts:63-75 | At the end every service reached through links is the target or has a complete context |
| `LinkedContexts.EverythingCovered` | foundation/project/src/deploy/services.ts:77-79 | At the end the variables are the union of all that contribute, and those agree |
| `LinkedContexts.Finished` | foundation/project/src/deploy/services.ts:86-88 | With an empty stack every cached key is complete and was expanded once |
| `LinkedContexts.PublishKeepsInv` | foundation/project/src/deploy/services.ts:67-70 | Publishing keeps "complete or on the stack" |
| `LinkedContexts.FillKeepsInv` | foundation/project/src/deploy/services.ts:72-75 | Filling keeps it with the key off the stack |
| `LinkedContexts.LinkKeepsInv` | foundation/project/src/deploy/services.ts:77-79 | Assigning variables keeps it |
| `LinkHandlers.DispatchIsWellBehaved` | foundation/project/src/library/triggers.ts:47-66 | Whatever providers are registered, in whatever order, the answer for an expandable service depends on the service and its merged options only, which is what the builder relies on |
| `LinkHandlers.AnswerDependsOnKind` | contracts/factory/src/triggers/client.ts:7-21 | The first answer for a factory or a validation is its linked client whoever asks; every other answer links no further |
| `LinkHandlers.CommonLinksNoFurther` | foundation/common/src/triggers/client.ts:5-21 | The clients of the built-in services link no further |
| `LinkHandlers.FirstAnswers` | foundation/project/src/library/triggers.ts:47-66 | The answer is that of the first trigger that has one, and there is none just when no trigger has |
| `LinkHandlers.ExpandableAnswer` | contracts/factory/src/triggers/client.ts:7-21 | A factory or a validation is answered just when its trigger is registered, with its own options and variables and the services its handler refers to |
| `LinkHandlers.CommonAnswer` | foundation/common/src/triggers/client.ts:5-21 | The variables client has no options, every other built-in one those of the service that asks |
| `LinkHandlers.UnfoldedOptions` | foundation/project/src/deploy/services.ts:44-52 | When a path ends at a factory or a validation, its client has the options its last link sets, those of the service that the link does not set, and no others |
| `Targets.OrderDoesNotMatter` | foundation/project/src/deploy/services.ts:16-28 | For every project and target: all orders of the targets go through and give the target the same variables, if and only if every link of every target resolves and is supported, no two variables a target can get along chains of targets disagree, and what this target can get that way is what it gets when it is prepared first. All of it is about the metadata before the call |
| `Targets.InterleavingDoesNotMatter` | foundation/project/src/deploy/services.ts:16-28 | In the same case no interleaving of the reads of all targets, prepared at the same time, meets a conflict, and in all of them the target ends with the variables it gets when it is prepared first |
| `Targets.OrderOfTargetsMatters` | foundation/project/src/deploy/services.ts:16-28 | A project where no variables are those of every order: a factory that is a target too gets variables its handler does not refer to, which another target takes over only after it |
| `Targets.PrepareLinkedServices` | foundation/project/src/deploy/services.ts:16-28 | Preparing the targets in a given order ends with the metadata of that run, each target over the variables the others have by then, or fails when there is no such run |
| `Targets.PrepareTarget` | foundation/project/src/deploy/services.ts:30-89 | One target over the metadata as it is: it fails exactly when it cannot be linked, and otherwise has its own variables and those of every service it reaches |
| `Targets.ContributedIs` | foundation/project/src/deploy/services.ts:41-81 | What a target gets at any time is its own, what never changes, and what the factories and validations it reaches have by then, the same ones at all times |
| `Targets.TakenIsContributed` | foundation/project/src/deploy/services.ts:77-79 | So preparing a target is one step of the system of reads |
| `Targets.RunsAlike` | foundation/project/src/deploy/services.ts:16-28 | And preparing targets one after another is a run of that system; services stay the same but for their variables |
| `Orders.OrderDoesNotMatter` | foundation/project/src/deploy/services.ts:16-28 | For targets that take over what they read: the equivalence for every system of reads, cyclic or not |
| `Orders.FirstGetsLeast` | foundation/project/src/deploy/services.ts:16-28 | There is an order that gives a target only what it reads at the start, if that order goes through |
| `Orders.LastGetsMost` | foundation/project/src/deploy/services.ts:16-28 | There is an order that gives it all that reaches it along chains of targets, cyclic ones too, if that order goes through |
| `Orders.RunStaysWithin` | foundation/project/src/deploy/services.ts:16-28 | No order gives less than the one or more than the other |
| `Orders.InterleavingDoesNotMatter` | foundation/project/src/deploy/services.ts:16-28 | The interleavings of reads, for every system |
| `StateDeploy.Deploy` | providers/aws/aws-common/src/common/provider.ts:41-69 | A deploy goes through exactly when it can be planned and every kind has a handler; over a loadable state that is when the new state is loadable and every kind has a handler. Its steps are those the two states call for. What it saves comes from a run of them with all its rounds of post actions, each entry as its handler left it or as it was. Over a loadable state it is loadable if and only if each deletion of the run whose post action failed or was skipped has its dependencies in it, which is always so when no entry to delete that leaves post actions depends on another one to delete. When everything ends well it is the new state, with the results the handlers returned. Deploying a state over itself, when the handlers find nothing changed, keeps it whatever they would do |
| `StateDeploy.ApplySteps` | foundation/state/src/state/apply.ts:53-149 | Fails exactly when there is nothing to apply or a kind has no handler; otherwise it saves what a run saves: the outcome of the steps, and then every post action attempted, with those the callbacks leave in turn; each entry as its handler left it or as it was. When everything ends well that is the new state, with the results the handlers returned |
| `StateDeploy.RunIsLoadable` | foundation/state/src/state/apply.ts:123-148 | For every run: the saved state is loadable if and only if each deletion whose post action failed or was skipped has its dependencies in it; always, when no entry to delete that leaves post actions depends on another one to delete |
| `SavedEntries.SavedEntryIs` | foundation/state/src/state/apply.ts:187-289 | Every entry a run saves, post actions failed or not: a created one has the result its handler returned, an updated or replaced one that result or its own when there is none, one with nothing to do is the old entry under its new dependencies, a failed one is the old entry; kind and parameters are those of the state it comes from |
| `SavedEntries.NewIsSaved` | foundation/state/src/state/apply.ts:104-111 | A new entry is saved just when it was there before, or was made after its dependencies, or a post action of it failed |
| `SavedEntries.GoodRunSaves` | foundation/state/src/state/apply.ts:79-121 | When every handler ends well, the steps leave the new state, with the results returned |
| `SavedEntries.IdleRunKeepsState` | foundation/state/src/state/apply.ts:214-222 | When no entry has anything to do, no handler is called, no post action is left and the state stays as it is |
| `StateDeploy.IdleRunSavesSame` | foundation/state/src/state/apply.ts:214-222 | So the run saves the same state |
| `StateDeploy.StableHasNothingToDo` | foundation/state/src/state/plan.ts:159-172 | And that is so when a state is planned over itself and the handlers find its entries equal and preview no changes |
| `StateDeploy.EveryDeployLoadsIff` | foundation/state/src/state/apply.ts:53-149 | All runs of a plan over two loadable states, whatever the handlers and the callbacks do, save loadable states if and only if no entry to delete that leaves post actions depends on another one to delete; a caller knows before the deploy |
| `StateDeploy.EveryRunLoadsIff` | foundation/state/src/state/apply.ts:123-148 | All runs with the same outcome of the steps, whatever the callbacks do, save loadable states if and only if no entry deleted that leaves post actions depended on another one deleted |
| `StateDeploy.OneFailureIsEnough` | foundation/state/src/state/apply.ts:292-323 | Otherwise each run in which only that callback throws saves a state that is not loadable, in every order and interleaving |
| `StateDeploy.DeletedIsSaved` | foundation/state/src/state/apply.ts:141-148 | An old entry is saved unless it is outside the new state, no entry that stays depends on it, its handler ended well and no post action of it failed or was skipped |
| `StatePlan.PlanSteps` | foundation/state/src/state/plan.ts:15-95 | A plan exists exactly when every kind of the new state has a handler, the new dependencies exist and are acyclic, those of the kept old entries exist, and the entries to delete have no cycle. Each entry of the two states has one step: Create when it is new, Update when its kind is the same and the handler finds it equal, Replace when either is not so, Delete when it is in the old state alone; its preview is the answer of its handler, which sees no result of a dependency created or replaced, and there is none for other entries. Each new entry stands at the length of its longest chain of dependencies, each entry to delete at that of its longest chain of dependents after all of those |
| `StatePlan.PlanIsNeeded` | foundation/state/src/state/plan.ts:123-176 | That each step is the one the two states call for, with the preview they call for |
| `StatePlan.SameStateIsUpdated` | foundation/state/src/state/plan.ts:159-172 | Planning a state over itself, when handlers find equal entries equal, gives updates and nothing else, with previews that see every result |
| `StatePlan.PlannableIs` | foundation/state/src/state/plan.ts:33-92 | When a plan exists, told by the kinds, the dependencies of each entry and the circles among them |
| `StatePlan.LoadableIs` | foundation/state/src/state/hydrate.ts:13-47 | A state can be loaded just when every dependency exists and none is circular |
| `StatePlan.PlanCreation` | foundation/state/src/state/plan.ts:33-66 | The loop over pending entries ends with all of them layered, or else some dependency is missing or circular |
| `StatePlan.PlanPendingChanges` | foundation/state/src/state/plan.ts:123-176 | The steps of a layer are those of the finished plan: the preview of an entry sees no result of any dependency the plan creates or replaces, in whatever order entries are listed |
| `StatePlan.PlanChange` | foundation/state/src/state/plan.ts:135-173 | The step of one entry is that of the finished plan, and it loses its result just when it is created or replaced |
| `StatePlan.PlanDeletion` | foundation/state/src/state/plan.ts:68-92 | The deletions exist exactly when the combined state has all its dependencies and the entries to delete have no cycle |
| `StatePlan.PlanRemoval` | foundation/state/src/state/plan.ts:78-91 | The loop over removable entries layers them by their dependents, or finds a cycle |
| `StatePlan.HydrateState` | foundation/state/src/state/hydrate.ts:13-47 | Fails exactly when a dependency is missing; otherwise the dependents are the converse of the dependencies |
| `StatePlan.HydrateEntry` | foundation/state/src/state/hydrate.ts:16-43 | One entry becomes the dependent of each of its dependencies, listed before or not |
| `StatePlan.FindPending` | foundation/state/src/state/plan.ts:97-107 | Exactly the unvisited entries that wait for visited ones only, each once |
| `StatePlan.PlanIsOrdered` | foundation/state/src/state/plan.ts:41-94 | Every entry comes after its dependencies, every deletion after all changes and after the deletions of its dependents, and no order number is left out |
| `StatePlan.LoadableIsPlannable` | foundation/state/src/state/plan.ts:68-92 | Over a loadable old state the plan depends on the new state and its kinds alone |
| `StatePlan.DependentsAreRemovals` | foundation/state/src/state/plan.ts:69-74 | In the combined state an entry to delete has dependents among the entries to delete only |
| `Layers.LevelIsLongestChain` | foundation/state/src/state/plan.ts:41-62 | The order number of a layered entry is the length of the longest chain from it |
| `Layers.LayeringIsUnique` | foundation/state/src/state/plan.ts:41-62 | So the order numbers do not depend on how the entries are listed |
| `Layers.LastLayer` | foundation/state/src/state/plan.ts:64-66 | When no entry is ready, all are layered if and only if nothing is missing and no chain comes back to its start |
| `Layers.NextLayer` | foundation/state/src/state/plan.ts:41-62 | One round of the loop adds exactly the next layer |
| `Layers.ReversedIsAcyclic` | foundation/state/src/state/plan.ts:78-91 | Dependents have a cycle just when dependencies do |
| `StateApply.RunSteps` | foundation/state/src/state/apply.ts:75-121 | The steps leave every entry as the fate of the others says: a new one succeeds, stays with warnings or falls back to the old one; an old one is deleted unless its handler fails, warns, or an entry that stays still depends on it. The queue holds exactly the post actions of the handlers that were called |
| `StateApply.ApplyOrder` | foundation/state/src/state/apply.ts:80-120 | The steps of one order see what came before and none of each other; the post actions are those their handlers leave, in order |
| `StateApply.ApplyPendingStep` | foundation/state/src/state/apply.ts:155-290 | A step that finds a dependency undone, or whose handler throws, leaves the old entry or nothing; an update with nothing to do leaves the old entry under its new dependencies; otherwise the entry has the kind, parameters and dependencies given to the handler and the result it returned, or the given one when an update or a replacement returns none. A deletion leaves nothing, or the old entry, with warnings without the dependencies that are gone. It leaves post actions just when its handler is called |
| `StateApply.ExpectedIsRight` | foundation/state/src/state/apply.ts:187-289 | The same of the outcome of a run: what each entry comes to, by what its handler returned |
| `StateApply.CheckAllSucceeded` | foundation/state/src/state/apply.ts:325-335 | True exactly when every chain of dependencies stays within what succeeded; it terminates because chains go back in the plan |
| `StateApply.OrderSettles` | foundation/state/src/state/apply.ts:80-120 | What was found out about an entry is never changed by a later order |
| `StateApply.SavedIsLoadable` | foundation/state/src/state/apply.ts:79-121 | After the steps, whichever handlers failed, warned or were skipped, every dependency of a kept entry is kept and none is circular |
| `StateApply.MixIsAcyclic` | foundation/state/src/state/apply.ts:104-111 | A state of new and old entries is acyclic: no dependency leads from a new entry back to an old one |
| `StateApply.GoodRunLeavesNewState` | foundation/state/src/state/apply.ts:79-121 | When every handler ends well, the steps leave the new entries, no others, and nothing failed |
| `StateApply.DependencyIsSaved` | foundation/state/src/state/apply.ts:262-268 | An entry kept by a failure keeps what it depends on |
| `StateApply.NothingIsLost` | foundation/state/src/state/apply.ts:262-289 | An entry of both states is always saved, any other old one unless it was deleted without problems |
| `StateApply.SucceedsWithDependencies` | foundation/state/src/state/apply.ts:195-260 | A new entry succeeds exactly when it and everything it depends on, directly or not, finish |
| `StateApply.OutcomeIsUnique` | foundation/state/src/state/apply.ts:79-121 | The handlers alone decide what a run leaves, not the order of entries within a layer |
| `PostActions.CheckAllDependentsSucceeded` | foundation/state/src/state/apply.ts:337-352 | False only when a failed entry depends on the given one, directly or not; true only when all dependents were visited and none failed |
| `PostActions.StartPostAction` | foundation/state/src/state/apply.ts:292-314 | The callback is called exactly when the entry did not fail, what it depends on still succeeded and, if asked for, no dependent failed, directly or not; otherwise the entry is marked failed |
| `PostActions.EndPostAction` | foundation/state/src/state/apply.ts:314-323 | A callback that throws marks the entry failed, in the books as they are by then |
| `PostActions.RunRounds` | foundation/state/src/state/apply.ts:123-139 | The rounds end. Every queued action is attempted, each checked against the books when it starts; nothing is attempted but what was queued or left by what was, directly or not; if all can only go well, nothing changes |
| `PostActions.RunRound` | foundation/utils/src/system/tasks.ts:54-78 | One round with several callbacks at once, which end in any order: each of its actions is attempted once it was checked, the books are those after all attempts that ended, and what the callbacks leave weighs less than they do |
| `PostActions.KeptAfterRounds` | foundation/state/src/state/apply.ts:315-322 | An entry with a failed post action is there as its handler left it, any other as it was |
| `PostActions.RoundsAreLoadable` | foundation/state/src/state/apply.ts:123-148 | After any attempts of post actions, in any order and interleaving, the state is loadable if and only if each deletion whose post action failed or was skipped has its dependencies in it |
| `PostActions.FailureSpreads` | foundation/state/src/state/apply.ts:302-322 | Once a post action failed or was skipped, none that starts later runs of the same entry, of one that succeeded and depends on it along entries that did, or of one it depends on that asks for its dependents |
| `PostActions.FailedDeletionIsNotLoadable` | foundation/state/src/state/apply.ts:314-322 | A failed post action of a deletion can leave a state over which nothing can be planned |
| `RewriteCorrectness.CompileCorrect` | contracts/distribution/src/utils/rewrite.ts:17-45 | For every pattern and every path, the compiled expression matches the path if and only if the glob denotes it |
| `GlobLaws.PlainMatches` | contracts/distribution/src/utils/rewrite.ts:17-45 | A pattern of one segment without a star or a brace matches itself alone |
| `GlobLaws.StarMatches` | contracts/distribution/src/utils/rewrite.ts:17-45 | `*` matches one or more characters of one line, slashes included |
| `GlobLaws.GroupMatches` | contracts/distribution/src/utils/rewrite.ts:17-45 | A group matches the texts between its bars; empty ones are left out, and when there are no others it matches the empty text |
| `GlobLaws.NegationMatches` | contracts/distribution/src/utils/rewrite.ts:17-45 | Plain text after `!` matches any one line but itself |
| `RewriteCorrectness.CompiledParses` | contracts/distribution/src/utils/rewrite.ts:17-45 | Every compiled pattern is a well-formed expression, read as the segments are written |
| `Rewrite.PassesAligned` | contracts/distribution/src/utils/rewrite.ts:24-32 | The three substitutions over a whole segment equal a translation item by item, with literal backslashes, unclosed and nested braces included |
| `Rewrite.CaptureAligned` | contracts/distribution/src/utils/rewrite.ts:26-27 | The star substitution never fires on a misaligned backslash |
| `Rewrite.OptionsAligned` | contracts/distribution/src/utils/rewrite.ts:28-32 | Nor does the group substitution, whose groups are those of the glob |
| `Rewrite.SplitAligned` | contracts/distribution/src/utils/rewrite.ts:29-29 | Splitting a translated group at escaped bars is translating the alternatives |
| `OriginRules.MatchedUnderBase` | contracts/distribution/src/metadata/origin.ts:191-202 | Every path a scoped rule matches lies under the base of its origin, when the base is made of literal characters |
| `OriginRules.ScopedUnderBase` | contracts/distribution/src/utils/uri.ts:1-30 | A scoped rule starts with the base, and scoping twice is scoping once |
| `OriginRules.ScopeIs` | contracts/distribution/src/utils/uri.ts:9-30 | The scoped text: unchanged under the base, otherwise the base and a slash before the rule's own text without outer slashes |
| `OriginRules.BaseIs` | contracts/distribution/src/metadata/origin.ts:190-192 | The base is the part of the origin's path before its first star, with a slash in front if it has none |
| `OriginRules.ScopedMatches` | contracts/distribution/src/metadata/origin.ts:194-202 | For a literal base and a rule not under it: the compiled pattern matches a path if and only if it is the base, a slash, and a path that the rule's own text denotes |
| `OriginRules.ScopedIsUnderBase` | contracts/distribution/src/metadata/origin.ts:194-202 | With the base without its last slash in front, that holds if and only if the base is not `/` alone, or the rule's own text denotes nothing |
| `OriginRules.RootIsNotTrimmed` | contracts/distribution/src/utils/uri.ts:14-16 | Under the base `/` the rule `users` matches `///users` and not `/users` |
| `OriginRules.LiteralThenRest` | contracts/distribution/src/metadata/origin.ts:194-202 | Literal text up to a slash stands for itself, and the rest of a pattern for the rest of a path |
| `OriginRules.LiteralPrefix` | contracts/distribution/src/utils/rewrite.ts:17-45 | What a pattern denotes starts with its literal prefix |
| `OriginRules.ApplyRewriteBaseUri` | contracts/distribution/src/metadata/origin.ts:191-202 | Every rule is scoped once and compiled, listed twice or not: one under the base keeps its text, any other is its own text without outer slashes under the base, which is the origin's path before its first star. Under a literal base, the compiled pattern matches just the paths the rule denotes itself, or else the base followed by a path its own text denotes |
| `OriginRules.ScopeRule` | contracts/distribution/src/metadata/origin.ts:195-201 | One rule is scoped, in place, as above, and its pattern is compiled from the scoped text |
| `JsonRoundTrip.RoundTrip` | contracts/queue/src/utils/idempotency.ts:4-9 | Parsing the text of a JSON value gives the value back |
| `JsonRoundTrip.StringifyInjective` | contracts/queue/src/utils/idempotency.ts:4-9 | Two JSON values have the same text only if they are equal |
| `JsonRoundTrip.ValueRoundTrip` | contracts/queue/src/utils/idempotency.ts:4-9 | The text of a value is read back whole in front of anything that may follow a value |
| `JsonRoundTrip.StringRoundTrip` | contracts/queue/src/utils/idempotency.ts:4-9 | Quoting is undone by reading, lone surrogates and control characters included |
| `JsonTexts.StringifyIs` | contracts/queue/src/utils/idempotency.ts:7-9 | The text of a value: literals, number texts, quoted strings, and lists and objects with a comma between each two parts and nothing else |
| `JsonTexts.QuotedUnit` | contracts/queue/src/utils/idempotency.ts:7-9 | Seven units have short escapes, other control characters and lone surrogates are escaped by four small hexadecimal digits, anything else stands for itself |
| `JsonTexts.QuoteOf` | contracts/queue/src/utils/idempotency.ts:7-9 | Each unit is quoted by itself, but for surrogate pairs |
| `JsonTexts.ParsedIsDistinct` | foundation/common/src/services/runtime.ts:280-290 | A parsed object has no key twice |
| `QueueKeys.IdempotencyKeyInjective` | contracts/queue/src/utils/idempotency.ts:7-9 | Two idempotency keys are equal exactly when the handler is the same, there are as many key fields, and each is filled with the same value in both messages or filled in neither |
| `QueueKeys.ConcurrencySlotKeyInjective` | contracts/queue/src/utils/defer.ts:19-21 | Two slot keys are equal exactly when that holds and the slot is the same |
| `QueueKeys.SlotKeyIsNoIdempotencyKey` | contracts/queue/src/utils/defer.ts:15-21 | No slot key is an idempotency key |
| `QueueKeys.MissingFieldIsNull` | contracts/queue/src/utils/idempotency.ts:7-9 | A message without a key field shares its key with the one that has `null` there |
| `QueueKeys.DecimalInjective` | contracts/queue/src/utils/defer.ts:19-21 | Two integers have the same digits only if they are equal |
| `Resolver.ReflectionResolver.ResolveReflectionFiles` | foundation/reflection/src/resolver.ts:148-201 | For every import graph and every list of roots, each root's list starts with the root, has no duplicates, holds exactly the files it reaches, and is the depth-first order of the graph alone, whatever the shared memo holds |
| `Resolver.ReflectionResolver.GroupReflectionFiles` | foundation/reflection/src/resolver.ts:183-193 | Adds what a depth-first visit adds, cycles included |
| `Resolver.ReflectionResolver.GetImportFiles` | foundation/reflection/src/resolver.ts:148-181 | The imports of a file, read or remembered |
| `Resolver.ImportsAreResolved` | foundation/reflection/src/resolver.ts:159-179 | The imports of a file are what its import and export declarations resolve to, one for each that resolves and in their order |
| `Resolver.ImportGraphIs` | foundation/reflection/src/resolver.ts:148-181 | A file leads to another just when the program can read it and one of its import or export declarations resolves to the other |
| `Reachability.VisitIsReachability` | foundation/reflection/src/resolver.ts:183-193 | A visit starts with its root and lists exactly what is reached, once |
| `Reachability.VisitAllIsReachability` | foundation/common/src/virtual/utils.ts:9-34 | The same from several starts |
| `VirtualConnections.GetVirtualConnections` | foundation/common/src/virtual/utils.ts:5-39 | Succeeds exactly when every service reached has a state; then there is one entry id for each real service reached through virtual ones, and no other |
| `VirtualConnections.Collector.CollectConnections` | foundation/common/src/virtual/utils.ts:9-34 | Resolves what a depth-first visit through virtual services meets |
| `VirtualConnections.Collector.Collect` | foundation/common/src/virtual/utils.ts:13-32 | One service, once |
| `VirtualConnections.EntryIdsOfRealServices` | foundation/common/src/virtual/utils.ts:21-25 | The ids collected are those of the real services met, in order |
| `VirtualConnections.RealServicesEndPaths` | foundation/common/src/virtual/utils.ts:22-31 | No path leads past a real service |
| `VirtualConnections.LeadsToIs` | foundation/common/src/virtual/utils.ts:26-31 | A service leads to the references of its links, in their order, just when it is virtual |
| `ScopeIsolation.Isolation` | foundation/common/src/services/runtime.ts:33-97 | For every history of tasks that spawn others, enter and leave `runWithScope` and write, nested and overlapping calls included: a task sees what was last written by a task in the same innermost call, and nothing if none was; outside of any call that is the common scope |
| `ScopeIsolation.WriteIsSeenInItsCall` | foundation/common/src/services/runtime.ts:62-77 | A write is seen by exactly the tasks in the innermost call of the one that writes |
| `ScopeIsolation.SeenAfterWrite` | foundation/common/src/services/runtime.ts:62-77 | The task that writes the scope sees what it wrote |
| `ScopeIsolation.CallStartsEmpty` | foundation/common/src/services/runtime.ts:86-88 | A callback starts without a scope, wherever it is called, and nobody else is in its call |
| `ScopeIsolation.ReturnResumesOuter` | foundation/common/src/services/runtime.ts:86-88 | Once a call returns, however many it nests, its task is in the calls it was in before and sees what those have by then |
| `ScopeIsolation.Runtime.RunWithScope` | foundation/common/src/services/runtime.ts:86-88 | The callback gets a store no task holds |
| `ScopeIsolation.Runtime.SetScope` | foundation/common/src/services/runtime.ts:62-67 | Writes through the reference of the current task: that store changes and no other |
| `ScopeIsolation.Runtime.ClearScope` | foundation/common/src/services/runtime.ts:72-77 | Clears through the reference of the current task |
| `ScopeIsolation.Runtime.ImportScope` | foundation/common/src/services/runtime.ts:267-278 | The loop over the declared headers restores the declared values, through the reference of the current task |
| `ScopeHops.HopRestores` | foundation/common/src/services/runtime.ts:246-278 | A hop restores every declared, defined value cut to 256 units, under the given trace id, and nothing else; `__proto__` is the one key it cannot restore |
| `ScopeHops.HopsAreStable` | foundation/common/src/services/runtime.ts:223-278 | Values are those of the first hop after any number of hops. The forwarded headers are too if and only if the scope exports nothing, or a declared key other than `traceId` and `__proto__` has a value, or the declared keys that answer without a value (`traceId` and inherited names) are all under `X-Trace-Id` or `__proto__`, the last one under `X-Trace-Id` being `traceId` |
| `ScopeHops.RestoredIsDeclared` | foundation/common/src/services/runtime.ts:246-278 | The first hop restores a value exactly when a declared key other than `traceId` and `__proto__` has one |
| `ScopeHops.PlainHopsAreStable` | foundation/common/src/services/runtime.ts:223-278 | Both are stable when no declared key is `traceId` or a name every object answers to |
| `ScopeHops.DeclaredTraceIdIsNotStable` | foundation/common/src/services/runtime.ts:246-259 | With a declared `traceId` and only undeclared values, the second hop forwards other headers than the first |
| `ScopeHops.ImportKeepsToDeclared` | foundation/common/src/services/runtime.ts:267-302 | For any text, malformed ones included, only declared keys and the trace id are set, cut to length |
| `ScopeHops.ImportedValue` | foundation/common/src/services/runtime.ts:267-278 | What an import makes of each key |
| `ScopeHops.ExportIsRead` | foundation/common/src/services/runtime.ts:246-302 | The exported text is read back as the values and headers it was made from |
| `ScopeHops.ExportsValues` | foundation/common/src/services/runtime.ts:246-259 | A scope is exported, and a hop keeps its headers, exactly when some value besides the trace id is defined |
| `ScopeHops.PayloadIs` | foundation/common/src/services/runtime.ts:280-302 | From any text that is JSON, an import reads the text properties of the object or list under `values` and of the one under `headers`, and nothing else |
| `ScopeHops.RequestHeadersAre` | foundation/common/src/services/runtime.ts:223-239 | Each declared header is sent with what the last of its keys is read as, and the trace header otherwise with the trace id, or one made up |
| `ScopeHops.HopKeepsSettled` | foundation/common/src/services/runtime.ts:246-278 | A further hop changes nothing with a declared value, and drops the headers without one |
| `DeployLock.OwnsUntilReleased` | foundation/project/src/deploy/perform.ts:8-53 | In every interleaving of any number of runs, signals included: a run owns its lock if and only if its lock request landed and none of its own unlocks did since |
| `DeployLock.InsideOwnsTheLock` | foundation/project/src/deploy/perform.ts:31-41 | While its callback runs, a run owns the lock if and only if no shutdown unlock of its own landed since it took it; without a signal that is always |
| `DeployLock.AtMostOneInside` | foundation/project/src/deploy/perform.ts:31-41 | Of the runs of a lock that are inside their callbacks, all but one gave it back; without signals at most one is inside |
| `DeployLock.ExclusionIsExact` | foundation/project/src/deploy/perform.ts:19-41 | While a run is inside and its process is there, and no third run has the lock, another of its lock that has not begun can get inside too if and only if a shutdown unlock of the first landed since it took the lock |
| `DeployLock.FinishedLeavesNoLock` | foundation/project/src/deploy/perform.ts:42-52 | A run that finishes, its callback thrown or not, signalled or not, leaves no lock of its own |
| `DeployLock.ExitedLeavesLock` | foundation/project/src/deploy/perform.ts:19-29 | A run that exits on a signal leaves its lock if and only if its lock request landed after its last shutdown unlock and `finally` did not unlock either |
| `DeployLock.ExitLeavesLock` | foundation/project/src/deploy/perform.ts:22-28 | From every start with a free lock, a signal while the lock request is on its way can leave the lock behind |
| `DeployLock.StepKeepsInv` | foundation/project/src/deploy/perform.ts:8-53 | Every step of every run keeps the relation of its past, phase, flags and lock |
| `DeployLock.RunsKeepInv` | foundation/project/src/deploy/perform.ts:8-53 | And so does every sequence of steps |
| `DeployLock.UnlockIsOwn` | providers/aws/aws-common/src/common/lock.ts:54-82 | No step takes a lock away but an unlock of the run that holds it |
| `DeployLock.SignalLetsAnotherInside` | foundation/project/src/deploy/perform.ts:19-29 | From every state with one run inside and another about to start, a signal to the first lets both be inside |
| `Tty.OutputIsConserved` | foundation/logger/src/utils/tty.ts:14-80 | Over every nesting or overlap of executions what is written is what the events say, no message of it is lost or repeated, held messages keep their order and so do the others, the counter is the newlines that came out, and at every await nothing is held when nothing captures |
| `Tty.NothingIsLeftBehind` | foundation/logger/src/services/dynamic.ts:58-82 | When every execution has ended, in whatever order, the output is what the events said, each message once, the held ones in their order and the others in theirs |
| `Tty.WrittenIsSaid` | foundation/logger/src/services/dynamic.ts:24-66 | What was written after any events: the text of a write, the log line of an execution line by line, and its update, with a newline when it lacks one; held exactly while an execution runs that did not begin or end with it |
| `Tty.CaptureCountsExecutions` | foundation/logger/src/services/dynamic.ts:63-72 | The capture counter is the number of executions begun and not ended |
| `Tty.StepKeepsInv` | foundation/logger/src/services/dynamic.ts:58-82 | Every event keeps the conservation of output |
| `Tty.WriteConserves` | foundation/logger/src/utils/tty.ts:65-80 | One write is held or comes out, once |
| `Tty.FlushConserves` | foundation/logger/src/services/dynamic.ts:78-80 | Giving the buffer out as one text keeps every held message in order |
| `Tty.Terminal.SafeWrite` | foundation/logger/src/utils/tty.ts:65-80 | A message is held while something captures, and otherwise comes out at once with its newlines counted; it is recorded as it is |
| `Tty.Terminal.BeginExecution` | foundation/logger/src/services/dynamic.ts:58-66 | An execution up to its callback |
| `Tty.Terminal.EndExecution` | foundation/logger/src/services/dynamic.ts:71-81 | An execution from the end of its callback, failed or not |
| `Clients.Registry.MakeClients` | foundation/project/src/emulator/service.ts:24-46 | After a version change only maps of the new version are cached or handed out; within a version the same key gets the same map, and a failure leaves an empty one |
| `Clients.MakeEmulatorClients` | foundation/project/src/emulator/clients.ts:11-28 | Fails exactly when a linked service has no client, and otherwise has each one's |
| `Clients.ClientMap.Get` | foundation/project/src/emulator/clients.ts:57-88 | The answer to every kind of read, up to the call of the function that makes a lazy client |
| `Clients.ClientMap.Keep` | foundation/project/src/emulator/clients.ts:84-88 | What the function returns replaces whatever the map holds by then, and is the answer |
| `Clients.AnsweredReadsLeaveNoTrace` | foundation/project/src/emulator/clients.ts:73-82 | Reads answered by an override or an invocation client leave the map as if they never happened, inside of a making or not |
| `Clients.MadeAtMostOnce` | foundation/project/src/emulator/clients.ts:84-88 | Over every run of reads, nested in the making of clients or not, where nothing throws and no function returns a function: a client is made more than once if and only if a read gets to it while it is being made |
| `Clients.MadeAgain` | foundation/project/src/emulator/clients.ts:84-88 | With functions that throw too: a client is made more than once if and only if a making of it ended well inside of another and another one ended well after that |
| `Clients.OutermostMakingStays` | foundation/project/src/emulator/clients.ts:84-88 | What the outermost making of a client returns is there from then on |
| `Clients.MadeClientStays` | foundation/project/src/emulator/clients.ts:84-88 | A client that was made and is not being made stays, is not made again, and answers every later read that gets to it |
| `Clients.CircularClientIsMadeTwice` | contracts/factory/src/triggers/emulator.ts:35-40 | A function that reads its own client back makes it twice, and the inner one is replaced |
| `Mocks.MocksAreAnOverlay` | foundation/project/src/emulator/tester.ts:215-261 | After every sequence of mocks and restores the emulators are the configured ones under the latest mocks, and the real handler of each mocked one is remembered |
| `Mocks.LookupAfterMocks` | foundation/project/src/emulator/tester.ts:85-106 | A lookup gives the latest mock that was not restored, or else what was configured |
| `Mocks.RestoringAllRestoresAll` | foundation/project/src/emulator/tester.ts:238-261 | Restoring every service, however often each was mocked, gives the configured state back |
| `Mocks.Tester.MockServiceClient` | foundation/project/src/emulator/tester.ts:215-236 | One mock; an unknown service throws and changes nothing |
| `Mocks.Tester.RestoreServiceClient` | foundation/project/src/emulator/tester.ts:238-261 | One restore; of a service that is not mocked it changes nothing |
| `Renames.RenamesCommute` | contracts/database/src/metadata/table.ts:205-209 | Sound renames never meet a name in use, in any order; every order gives what all at once give, under exactly the current names; taking them back in any order restores the data |
| `Renames.ColumnRenamesCommute` | contracts/database/src/metadata/table.ts:253-288 | That holds for all accepted column renames, when the renamed columns are columns of the table |
| `Renames.TableRenamesCommute` | contracts/database/src/metadata/service.ts:198-218 | And for all accepted table renames, when the tables have different names |
| `Renames.GetColumnRenames` | contracts/database/src/metadata/table.ts:253-288 | The renames of the valid declarations, or nothing when one is invalid |
| `Renames.ColumnsAccepted` | contracts/database/src/metadata/table.ts:265-279 | Renames are accepted exactly when each is of a column, from a name that is not one, and no two are from the same name (`__proto__` aside) |
| `Renames.AcceptedColumnsAreSound` | contracts/database/src/metadata/table.ts:265-287 | Accepted renames are sound if and only if each is of a column of the table, `__proto__` aside |
| `Renames.InheritedNameIsAccepted` | contracts/database/src/metadata/table.ts:274-277 | A rename of a column the table lacks can be accepted |
| `Renames.ValidateRenames` | contracts/database/src/metadata/service.ts:200-218 | No error exactly when no previous name is the name of a table or the previous name of another |
| `Renames.RenamedApartIs` | contracts/database/src/metadata/service.ts:200-218 | That is when no table has the name another is renamed from and no two are renamed from the same name, an empty name being none |
| `Renames.AcceptedTablesAreSound` | contracts/database/src/metadata/service.ts:198-218 | Accepted table renames go from distinct names that are gone to names that exist |
| `Renames.TableRenamesAre` | contracts/database/src/metadata/service.ts:200-218 | The renames are those the tables declare |

## Left out

- Targets.OrderDoesNotMatter: takes the handlers of providers to answer without looking at variables. One of the repository looks, the HTTP import client of aws-gateway, which leaves a key out of its answer when a variable of the asking service holds it already (providers/aws/aws-gateway/src/triggers/http/client.ts:47-67).
- Targets.PrepareLinkedServices: prepares one target after another, while the code starts all at once and they interleave where they wait for a handler; `Targets.InterleavingDoesNotMatter` speaks of that on the system of reads.
- Variables of the target itself that grow while it is prepared, as seen by handlers: `deploy:prepareLinkedService` is a function of the target, the service and its options.
- Hash functions: the keys of the context cache and of the client cache are the hashed values themselves, so they never collide; the order of option keys does not count.
- Names every object answers to, such as `constructor`, as variable aliases, message fields, client names or entry ids; they are modelled for scopes and for column renames.
- A handler's reference to a service the factory does not declare.
- Regular expressions outside the fragment the compiler emits, the text of the captures, and characters as code points: a character is one UTF-16 code unit, as without the `u` flag.
- Numbers are JSON texts, so neither the rounding of floating point nor `-0` is modelled, and a slot is an integer below 10^21, whose text is its digits.
- Values inside a message that are `undefined`, functions or have a `toJSON`, and the order of integer-like property names.
- Lock handlers that fail on the network, and several lock providers at once.
- Cursor movement, and which of the two streams a held message was written to: all held text comes out on the standard output.
- Symbols as properties of a client map.
- `readScopeValues`, `readTraceId` and `reportError`: reading request headers and logging, without state.
- StateDeploy.ApplySteps: takes the steps of a plan for the same two states, which is how a deploy calls it; other lists of steps are not modelled.
- Handlers of a deploy see their context only through how they end and what post actions they leave; the connections of entries, the mark of partial entries, the order of reported errors and warnings, progress reports and the values of entry maps that are `undefined` are not modelled.
- Callbacks that leave post actions without end, and a concurrency below one, with which nothing would run. What a callback leaves is queued when it ends.
- Type reflection, metadata readers of the contracts, query builders, validators, transforms, file reading and provider calls: flat switches, foreign calls or other packages.
