# Verified model of the fault-injection controller

The repository is a Kubernetes operator. A `FaultInjection` resource describes an
experiment: mesh faults, which the controller injects as HTTP rules into Istio
VirtualServices, and pod faults, which it carries out through Jobs that delete pods.
This project models the controller package (`internal/controller`) in Dafny 4.11 and
proves what it does over whole runs. `dafny verify dfyconfig.toml` checks all of it.

## How it is modelled

`Cluster.Server` is the mutable store: the experiment's resource, the VirtualServices by
(namespace, name), its Jobs and its Leases. Code that works on the store or on one
fetched VirtualService (`VirtualServices.Draft`) is a method with the source's loops and
early returns. Each method's contract equates what it leaves behind with a function of
what it found (`Reconcile` with `Reconciled`, `ApplyPlans` with `Pass`, and so on), and
the theorems are lemmas about those functions and about runs of them. The one exception
is the Lease, which is a step machine of interleaved API calls.

| file | what it holds |
|---|---|
| `Machine.dfy`, `Wrappers.dfy`, `Ordering.dfy` | integer widths, stored times, string order and the library sorts |
| `Helpers.dfy`, `Names.dfy` | `helpers.go`; Job and Lease names |
| `Api.dfy`, `Cluster.dfy` | the resource and the store |
| `Lease.dfy` | Lease acquisition and takeover under concurrency |
| `Selection.dfy`, `Ticks.dfy`, `Protocol.dfy`, `Execution.dfy`, `Apart.dfy` | pods and caps, tick arithmetic, one pass over the plans and what it keeps, when Jobs are told apart |
| `VirtualService.dfy`, `Mesh.dfy`, `Targets.dfy` | one rule list, rules from actions, all targets |
| `Validation.dfy`, `Lifecycle.dfy`, `Cleanup.dfy`, `Reconcile.dfy` | guardrails, timestamps and wake-ups, cleanup, one whole reconcile |
| `Guardrails.dfy`, `Limits.dfy`, `Outcomes.dfy`, `Footprint.dfy`, `Answers.dfy` | what all that comes to in the user's terms: guardrails, caps, outcomes on record, objects made and deleted, and when a reconcile comes back |
| `Experiment.dfy`, `Lifetime.dfy`, `Recovery.dfy` | runs of reconciles, with users, other writers and Jobs in between; the mesh part, the pod part, and phase Error |
| `Shield.dfy` | what the Lease is worth where Jobs are shared |
| `Rehearsal.dfy`, `Stage.dfy`, `Exact.dfy`, `Outlast.dfy`, `Rejection.dfy` | runs put together step by step, and the exact conditions they show |

What the environment decides is a parameter and is quantified over: clock readings, pod
listings, Go's map order (`order`), the 64-bit hash (any function), the `%v` rendering
(any function), which API calls of the pod part fail or lose their reply, when Jobs
finish, and what others do to Leases and to Jobs of their own. Instants are whole
nanoseconds; `metav1.Time` is stored in whole seconds and `metav1.MicroTime` in whole
microseconds.

## Main results

- **A Lease is granted once per window**, under any interleaving of attempts that may
  share an identity and may die at any call (`LeaseProtocol.LeaseExclusion`,
  `AcquisitionsDisjoint`).
- **A tick runs at most once**, over whole runs of the controller with failing calls,
  other parties' Jobs and Leases, expiry and cancellation (`Lifetime.AtMostOnceForLife`);
  and that holds exactly when no two plans due together share a Job name
  (`Exact.AtMostOnceExact`), which for readable names is a condition on what the actions
  are called (`Exact.AtMostOnceReadable`). It also holds while the pod part and the
  duration are edited and the clock or a cancellation is turned back, if the ticks of all
  specs together have names of their own (`Lifetime.AtMostOnceThroughEdits`). Where Jobs
  are shared, the Lease alone still ensures it for ticks that are over before it runs out
  (`Shield.AtMostOnceBehindLease`), which for readable names is exact
  (`Outlast.AtMostOnceUntouched`).
- **The blast radius is bounded**, and the bound attained (`Lifetime.BlastBoundForLife`,
  `Exact.BoundReached`); no Job ever names more pods than any one cap allows
  (`Limits.CapsForLife`).
- **Nothing is done past a guardrail**: whatever a reconcile injects or launches, it does
  under every one of them, and a spec that breaks one is cleaned up
  (`Guardrails.ActsUnderGuardrails`, `BreachIsCleanedUp`).
- **The status is a true record**: of the pods (`Lifetime.RecordForLife`), and of the
  outcomes, each booked off its Job when that had completed or failed
  (`Outcomes.OutcomesForLife`, `OutcomesOfTheirJobs`); and entries are final
  (`Lifetime.TerminalForLife`).
- **The controller wakes in time** for ticks, pending Jobs and expiry, with the exact delay
  and the exact conditions of every other answer (`Answers.WakesExactly`, `AnswerExact`).
- **Final phases are clean and stay** (`Experiment.TerminalIsClean`, `EndsCleanExactly`,
  `CompletedAbsorbing`, `CancelledAbsorbing`), and a user's VirtualService is the very
  same object afterwards (`LeavesNoTrace`).
- **Traffic is contained**: a request resolves to an injected rule exactly when its path,
  headers and caller are what an action aimed at that VirtualService declares, and is then
  delayed or aborted as declared (`Targets.TrafficContained`, `Mesh.InjectedRuleSound`).
- **Applying is idempotent, order-free and steady** (`Targets.ApplyIdempotent`,
  `ApplyOrderFree`, `Experiment.RunningIsSteady`).

## Where the code differs from its documentation or its intent

The model follows the code. Each difference has a lemma that gives the exact condition or
a family of inputs.

- `window.maxTotalPodsAffected` is documented as a cap on the whole window
  (`api/v1alpha1/pod_fault_types.go:142`); it caps each tick. The promise holds over every
  run exactly when the ticks that begin within the duration, each at its most, stay
  within it (`Exact.WindowTotalExact`).
- Actions of one mode whose names are equal, or alike after sanitizing as `Kill` and
  `kill` are, share their Job, and a tick can run twice: either one books the other's
  finished Job, or, the ticks being the same, the pass that books it runs it again because
  it reads ticks from the status it began with (`Exact.AtMostOnceReadable`,
  `Exact.ClashRepeats`). What stands in the way is the first Job's Lease, until it runs
  out, 70 seconds on, or someone removes it: with the Leases left alone, an experiment
  longer than that is safe exactly when only windows of at most 70 seconds are alike
  (`Outlast.AtMostOnceUntouched`). A ONE_SHOT and a WINDOWED action of one name do not clash.
- Across experiments Job names tell no more than where their parts meet: experiment `a`
  with action `b-pod-c` and experiment `a-pod-b` with action `c` share a Job and a Lease
  (`Names.ReadableNameShared`, `NestedNamesShare`).
- The type's comment says `uriExact` wins when both are set
  (`api/v1alpha1/mesh_fault_types.go:186`); the prefix wins
  (`Mesh.ExactPathNeedsNoPrefix`).
- A PERCENT selection that also carries a count is sized by the count
  (`PodSelection.PercentNeedsNoCount`). The resource's admission rule refuses such a
  selection (`api/v1alpha1/pod_fault_types.go:164`); the controller's own validation, meant
  to be defensive, does not.
- A failed Job or a refusal is said to stop the experiment
  (`internal/controller/pod_fault.go:231`), but phase Error is left again by the next
  reconcile that succeeds, and later ticks go on (`Experiment.ErrorIsLeft`,
  `Recovery.FailedTickDoesNotStop`).
- Lease times are stored in microseconds, so although a takeover's clock lies strictly
  past the window, the stored stamps may touch (`LeaseProtocol.StrictStampGap`,
  `TouchingStampsExample`).
- A failed Planned write is ignored and the Job created all the same
  (`Execution.RecordOfLaunch`).
- A rejected spec is cleaned up with its pending Jobs, and their ticks are not booked, so
  they run again once the spec is accepted (`Lifetime.RejectionForgets`,
  `RejectionRunsAgain`). At-most-once outlives a rejection, whatever follows, exactly when
  no tick was pending (`Rejection.RejectionExact`). Expiry and cancellation clean up in the
  same way, which tells only if the duration is raised or the cancellation withdrawn
  afterwards. Killing pods can itself bring this about, through
  `refuseIfPodsLessThan`.
- Cleanup goes by the current spec: a target that an edit of `virtualServiceRef` dropped
  keeps its rules (`Cleanup.CleanupExact`, `Experiment.EndsCleanExactly`).
- An INBOUND action on a VirtualService the controller manages but no longer wants is
  patched, then deleted in the same reconcile, and the next one ends in phase Error
  (`Experiment.RunningIsSteady`).
- A failing target ends the reconcile with the earlier targets already patched
  (`Targets.FailureKeepsEarlier`).
- The rule prefix of experiment `a` is a prefix of that of `a-b`: its cleanup removes the
  other's rules (`VirtualServices.PrefixConflict`, `ConflictWipes`).
- Injected rules go on carrying the old base route after the user edits the routes under
  them (`VirtualServices.RouteEditFollowed`).
- `uniqueAppend` keeps repeats that `base` already held (`Helpers.UniqueMergeSound`).
- A hash below 36^9 makes the `[:10]` slices panic (`Helpers.ShortHashSound`,
  `Names.PodFaultNameDefined`).
- A duration over 9,223,372,036 seconds overflows. Expiry never settles, and every
  reconcile writes the status, unless the wrapped value is whole seconds; then it settles
  at once, on a wrong expiry (`Lifecycle.LifecycleFixedPoint`, `OverflowNeverSettles`,
  `OverflowSettlesWrong`).
- When a tick or a recheck comes due while a reconcile computes its delay, the delay is one
  second whatever else is due sooner (`Answers.WakesForEveryTick`).
- The branch of Reconcile that asks to be called again at once is out of reach
  (`Answers.AnswerExact`).
- When the clock passes expiry inside a reconcile and nothing else is due, the delay is
  not positive and no wake-up follows (`Lifecycle.WakeUp`).

## Model

| member | source | states |
|---|---|---|
| Helpers.EncodeBase36 | internal/controller/helpers.go:205-219 | the loop over the 13-byte buffer never leaves it and yields the base-36 numeral of any 64-bit value |
| Helpers.Base36Exact | internal/controller/helpers.go:205-219 | the numeral decodes back to the value, has 1 to 13 digits, and at least 10 exactly from 36^9 on |
| Helpers.Base36Injective | internal/controller/helpers.go:205-219 | different values have different numerals |
| Helpers.ShortHashSound | internal/controller/helpers.go:222-229 | the 10-character cut is defined exactly when the hash is at least 36^9, and is then 10 base-36 digits |
| Helpers.SanitizeSound | internal/controller/helpers.go:34-49 | the result is always label text, label text is exactly what is left alone, and the function is idempotent |
| Helpers.SafeLabelSound | internal/controller/helpers.go:252-264 | a result is label text of at most 63 characters; there is none exactly for a long slug with a short hash |
| Helpers.ShortHashLeads | internal/controller/helpers.go:222-229 | the cut is the hash without its last digits |
| Helpers.SanitizeExact | internal/controller/helpers.go:34-49 | what lies between the first and last letter or digit comes out character by character: lower-cased, with a dash for anything else |
| Helpers.SanitizeNothing | internal/controller/helpers.go:34-49 | a name without letters or digits becomes `x` |
| Helpers.SafeLabelTells | internal/controller/helpers.go:252-264 | two short slugs share a label only if they are one, two long ones exactly when 52 characters and the hash agree |
| Helpers.SplitJoin | internal/controller/helpers.go:57-71 | splitting a joined key gives the parts back exactly when the namespace holds no slash |
| Helpers.UniqueAppend | internal/controller/helpers.go:92-107 | the set-and-append loop followed by the sort computes the merge |
| Helpers.UniqueMergeSound | internal/controller/helpers.go:92-107 | the merge lists both inputs, sorted; it is free of duplicates exactly when base was |
| Names.PodFaultNameValid | internal/controller/pod_fault.go:1226-1251 | every Job and Lease name, in any of its three forms, is a DNS label (sections 2.3.1 and 2.3.4 of RFC 1035) |
| Names.PodFaultNameDefined | internal/controller/pod_fault.go:1226-1251 | a name is produced exactly when the readable form fits, or the hashes its shorter forms need are all at least 36^9 |
| Names.ShortIDKeyTells | internal/controller/helpers.go:189-203 | experiments hash the same text exactly when their uids agree, or without uids namespace and name |
| Names.LongNamesTell | internal/controller/pod_fault.go:1236-1251 | two long names of one form agree exactly when the action labels and ticks do, or in the last form both hashes |
| Names.ReadableNameInjective | internal/controller/pod_fault.go:1226-1236 | within an experiment two readable names agree exactly when tick and sanitized action agree |
| Names.ReadableNameShared | internal/controller/pod_fault.go:1226-1236 | across experiments two readable names agree exactly when the ticks do and the texts around "-pod-" come out the same |
| Names.NestedNamesShare | internal/controller/pod_fault.go:1226-1236 | experiment f with action m-pod-c and experiment f-pod-m with action c share every Job name |
| LeaseProtocol.LeaseExclusion | internal/controller/pod_fault.go:645-787 | on every interleaving, a later write of the Lease has its clock strictly past every earlier write's stamp plus duration plus min(10s, duration), and its stamp not before that |
| LeaseProtocol.AcquisitionsDisjoint | internal/controller/pod_fault.go:645-787 | two attempts that both report success each wrote the Lease at their own clock, and the later clock lies past the whole window of the earlier write, even under one holder name |
| LeaseProtocol.StrictStampGap | internal/controller/pod_fault.go:700-787 | the stored stamps are strictly apart exactly when the takeover read the clock a microsecond past the window |
| LeaseProtocol.TouchingStampsExample | internal/controller/pod_fault.go:700-787 | a takeover whose stored stamp equals the end of the previous window |
| LeaseProtocol.AcquireExact | internal/controller/pod_fault.go:645-787 | undisturbed, the Lease is had exactly when absent or lapsed by duration and skew since its renewal or else its acquisition, and then names owner, holder, time and duration |
| LeaseProtocol.ConflictIsRetried | internal/controller/pod_fault.go:727-787 | an update that meets a changed Lease is tried again while tries are left, and then settles undisturbed on what the Lease now allows; with none left it fails |
| LeaseProtocol.AloneAgrees | internal/controller/pod_fault.go:624-790 | an attempt nobody disturbs settles within five calls, on the outcome the sequential model uses |
| PodSelection.CapEffectiveMaxPods | internal/controller/pod_fault.go:1166-1194 | the code's three updates compute the effective cap, with the saturation to 32 bits |
| PodSelection.EffectiveCapIsLeast | internal/controller/pod_fault.go:1166-1194 | the effective cap is at most each positive configured cap, is one of them or the saturated one, and is 0 only without any |
| PodSelection.ListCandidatePods | internal/controller/pod_fault.go:540-551 | the filter loop and the sort yield the live pods by name |
| PodSelection.SelectPodNames | internal/controller/pod_fault.go:567-610 | the clamping and the loop yield the first names of the candidates, as many as the quota |
| PodSelection.SelectionIgnoresListingOrder | internal/controller/pod_fault.go:540-549 | any listing order of the same pods gives the same selection |
| PodSelection.SelectionIsSmallest | internal/controller/pod_fault.go:567-610 | the selection is exactly quota many live names, increasing, none left out smaller than one taken |
| PodSelection.QuotaIsMinimum | internal/controller/pod_fault.go:575-609 | the quota is min(pods, wanted, cap if positive) and within every configured cap |
| PodSelection.PercentRoundsUp | internal/controller/pod_fault.go:589-593 | a percentage rounds up, stays within the pods there are, and takes one of any |
| PodSelection.PercentNeedsNoCount | internal/controller/pod_fault.go:368-381 | a PERCENT selection is sized by its percentage exactly when it carries no count |
| Ticks.TickBounds | internal/controller/pod_fault.go:1199-1224 | the current instant lies in the current tick's interval and the next due time is its end |
| Ticks.TickUnique | internal/controller/pod_fault.go:1199-1224 | the tick is k exactly when the instant lies in the k-th interval |
| Ticks.TicksFollowTime | internal/controller/pod_fault.go:1199-1224 | ticks never go back, and two instants share one exactly when they lie in the same interval |
| Ticks.TickWithinDuration | internal/controller/pod_fault.go:1199-1224 | until expiry, tick numbers stay within duration / interval |
| Ticks.BuildPodFaultPlans | internal/controller/pod_fault.go:454-513 | the loop over the actions, with its error returns, computes the plans and the earliest due time |
| Ticks.BuildPlansSound | internal/controller/pod_fault.go:454-513 | the due time is the least next boundary over all windowed actions and lies ahead; the plans are exactly those of the ticks that are due |
| Limits.PlansCarryTheirActions | internal/controller/pod_fault.go:1166-1194 | a plan has its action's own count, percentage and refusal floor, and a cap that is the least of the positive ones among blast radius, selection and, if WINDOWED, window; 0 only without any |
| Limits.CapsForLife | internal/controller/pod_fault.go:1166-1194 | over whole runs with edits, while every spec has the action under some cap of at most m, no Job of it names more than m pods |
| Limits.TickWithinTotal | internal/controller/pod_fault.go:1186-1191 | no Job for a tick of a window names more pods than window.maxTotalPodsAffected |
| Ticks.DueUnbroken | internal/controller/pod_fault.go:1199-1224 | an action's tick is due over an unbroken span of time |
| VirtualServices.Draft.EnsureMeshGateway | internal/controller/mesh_fault.go:166-191 | gateways are set to mesh exactly for a managed object that did not list it |
| VirtualServices.Draft.FindAnyExistingRoute | internal/controller/mesh_fault.go:332-359 | the loop returns the first non-empty route list of any rule |
| VirtualServices.Draft.EnsureAtLeastOneDefaultRule | internal/controller/mesh_fault.go:418-437 | a default rule is added exactly to an empty rule list |
| VirtualServices.Draft.PatchHTTP | internal/controller/mesh_fault.go:212-249 | the filter and prepend loops leave the given rules followed by the list without prefixed items, and report a change as the rendering shows it |
| VirtualServices.PatchedParts | internal/controller/mesh_fault.go:212-249 | a patch replaces the prefixed items by the given ones and keeps all others in order |
| VirtualServices.RoundTrip | internal/controller/mesh_fault.go:212-249 | after any sequence of patches a final empty one leaves the original minus prefixed items; all of it when it held none |
| VirtualServices.FilterForeign | internal/controller/mesh_fault.go:225-236 | the loop over the existing items keeps exactly those without the prefix, in order |
| VirtualServices.BaseRouteStable | internal/controller/mesh_fault.go:332-384 | over any run of applies every injected rule carries the user's first non-empty route, although it is read from a list that starts with injected rules |
| VirtualServices.BaseRouteShared | internal/controller/mesh_fault.go:332-384 | the same for any interleaving of applies and cleanups by several experiments, whose rules may stand in front of each other |
| VirtualServices.RouteEditFollowed | internal/controller/mesh_fault.go:332-384 | after a user's edit under injected rules, the next apply takes up the new route exactly when nothing was injected or the first route did not change |
| VirtualServices.PrefixConflict | internal/controller/faultinjection_controller.go:1110-1112 | two experiments' prefixes are separate exactly when neither name equals the other or continues it after a dash |
| VirtualServices.ExperimentsIsolated | internal/controller/mesh_fault.go:225-243 | any interleaving of patches by separate experiments keeps the user's items in order and leaves each experiment the rules it applied last |
| VirtualServices.ConflictWipes | internal/controller/mesh_fault.go:225-243 | without separation, a cleanup of `a` removes every rule of `a-b` |
| VirtualServices.RoutingContained | internal/controller/mesh_fault.go:212-249 | under first-match routing, a request no injected rule accepts resolves as without the experiment, during and after it; any other resolves to an injected rule that accepts it |
| Mesh.ExactPathNeedsNoPrefix | internal/controller/mesh_fault.go:275-279 | the exact path is matched exactly when no prefix is set beside it |
| Mesh.InjectedRuleSound | internal/controller/mesh_fault.go:267-322 | an injected rule carries the prefix and the route it is given, has the declared delay or status, percentage and timeout, and its i-th block takes a request exactly when the i-th route's path, its headers and, if OUTBOUND, the source labels are met |
| Mesh.BuildDesiredByVSTarget | internal/controller/mesh_fault.go:52-91 | the accumulating loop and the sort per target compute the desired rules by target and the managed keys |
| Mesh.GroupingSound | internal/controller/mesh_fault.go:52-91 | each target has exactly its actions' rules, stably sorted by name; it is managed exactly when an OUTBOUND action made it; hosts are sorted and duplicate-free |
| Mesh.HostsConserved | internal/controller/mesh_fault.go:52-91 | a target's hosts are exactly those its OUTBOUND actions declare |
| Mesh.GroupingConserves | internal/controller/mesh_fault.go:52-91 | all targets' lists together are a permutation of one rule per action |
| Validation.ValidateSpec | internal/controller/faultinjection_controller.go:840-909 | the checks, in the code's order, accept exactly the specs within all guardrails |
| Validation.ValidatePodFaults | internal/controller/pod_fault.go:70-156 | the pod-action checks, in the code's order, accept exactly the valid actions |
| Guardrails.ValidIsUnbroken | internal/controller/faultinjection_controller.go:840-909 | a spec is accepted exactly when it breaks none of the guardrails, each spelled out on the spec's fields and the pods counted |
| Guardrails.ActsUnderGuardrails | internal/controller/faultinjection_controller.go:281-285 | a reconcile that puts in a rule, creates a Job or claims a Lease comes before expiry and under every guardrail |
| Guardrails.MeshBlastBounded | internal/controller/faultinjection_controller.go:884-901 | with maxPodsAffected set, no reconcile does so unless every mesh action has source labels, and they match at most that many pods |
| Guardrails.BreachIsCleanedUp | internal/controller/faultinjection_controller.go:573-593 | breaking any one guardrail ends in phase Error with nothing injected, the experiment's Jobs and Leases gone and nobody else's touched, and its rules gone where they are within reach |
| Guardrails.UnbrokenIsInjected | internal/controller/faultinjection_controller.go:281-309 | breaking none, the rules are put in place, and the phase is Running before the pod part unless a target does not take them |
| Validation.ValidDereferenceable | internal/controller/faultinjection_controller.go:846-888 | an accepted spec leaves no nil pointer for the rule builder to follow |
| Validation.ValidPlansBuilt | internal/controller/pod_fault.go:454-513 | the plans of an accepted spec are built exactly when every name that is due fits in 63 characters or its hashes are at least 36^9 |
| Targets.ApplyTarget | internal/controller/faultinjection_controller.go:626-684 | the loop body on the store: get or create, find a base route, patch in memory, store if needed |
| Targets.ApplyDesiredTargets | internal/controller/faultinjection_controller.go:620-687 | the loop visits the targets in some order and ends as applying in that order does |
| Targets.FailureKeepsEarlier | internal/controller/faultinjection_controller.go:640-661 | a failing pass leaves exactly what applying the targets before the failing one left |
| Targets.ApplyIdempotent | internal/controller/faultinjection_controller.go:640-684 | a second apply of the same desired state leaves the object equal and writes nothing |
| Targets.InjectedKeepsBase | internal/controller/mesh_fault.go:332-384 | the list an apply leaves has the same base route, the same user items, and as own items the rules with that route |
| Targets.ApplyOrderFree | internal/controller/faultinjection_controller.go:626-686 | whether a target fails does not depend on the visiting order, and without failure neither does the store |
| Targets.SecondPassIdle | internal/controller/faultinjection_controller.go:626-686 | a second pass over the store a first one left changes nothing, in any order |
| Targets.TrafficContained | internal/controller/faultinjection_controller.go:846-849 | with an accepted spec, a request some action aimed at the target wants, by path, headers and caller, resolves to such an action's rule, which keeps the base route and delays or aborts as declared, at most maxTrafficPercent; any other resolves as without the experiment |
| Protocol.FindPodFaultTickStatus | internal/controller/helpers.go:266-273 | the loop finds the first entry of the key |
| Protocol.PodFaultTickAlreadyExecuted | internal/controller/helpers.go:279-292 | true exactly when some entry of the key is finished |
| Protocol.PutTickSound | internal/controller/pod_fault.go:1090-1101 | upserting is a map update: one key set, the others untouched, keys still unique |
| Protocol.RecordPodFaultPlanned | internal/controller/pod_fault.go:916-948 | the Planned write, which leaves a finished entry alone |
| Protocol.RecordPodFaultExecuted | internal/controller/pod_fault.go:958-995 | the outcome write, which keeps pods already planned |
| Outcomes.StepBooks | internal/controller/pod_fault.go:282-331 | a step makes its tick's entry terminal exactly when it sees the Job finished and the write is not refused: Succeeded off a complete Job, Failed off one that only failed, with the Job's name and the time |
| Outcomes.PassBooksTruly | internal/controller/pod_fault.go:259-331 | a terminal entry after a pass was there before, or the pass got to a plan for it and booked it in that way |
| Outcomes.OutcomesForLife | internal/controller/pod_fault.go:958-995 | the same for every terminal entry after a whole run: which reconcile booked it, and off what Job |
| Outcomes.OutcomesOfTheirJobs | internal/controller/pod_fault.go:958-995 | where ticks have names of their own, a Job of the experiment's that an outcome is booked off was created for that tick |
| Outcomes.IntentFirst | internal/controller/pod_fault.go:396-421 | when a plan without a Job selects pods, and the Planned write is not refused and the tick has no outcome, its entry is Planned with those pods, the Job's name and the time, whatever becomes of Lease and Job; and a Job created has those pods |
| Outcomes.OneShotOnce | internal/controller/pod_fault.go:261-270 | a ONE_SHOT action with any finished entry is passed over |
| Protocol.TryAcquireLease | internal/controller/pod_fault.go:624-790 | creation, busy answer or takeover of the Lease when no call conflicts |
| Protocol.ObserveJob | internal/controller/pod_fault.go:282-350 | a finished Job is booked and deleted, a failed one also sets phase Error, any other is waited for |
| Protocol.LaunchJob | internal/controller/pod_fault.go:352-431 | selection, Planned write, Lease and Job creation, with each refusal and failure on the way |
| Protocol.ApplyPlans | internal/controller/pod_fault.go:259-440 | the loop over the plans ends as the protocol's pass does, whichever calls fail |
| Execution.StepHasEffect | internal/controller/pod_fault.go:261-431 | one plan's step touches only its own tick and Job, removes a Job only with the outcome booked, and creates one only where none was |
| Execution.StepNames | internal/controller/pod_fault.go:352-431 | a new Job names no more pods than its selection takes, under the cap, of those listed |
| Execution.PassKeepsOnce | internal/controller/pod_fault.go:261-431 | a pass whose plans have Jobs of their own keeps "once created, the Job still exists, or the tick is terminal or over", with other parties' Jobs about and any call failing |
| Execution.StepLeases | internal/controller/pod_fault.go:403-421 | one plan's step moves at most its own Lease, claims it only when it was absent or had run out, and leaves it claimed at this time behind every Job it creates |
| Execution.PassKeepsOnceShielded | internal/controller/pod_fault.go:261-431 | the same invariant, where plans may share a Job for ticks that are exempt, as long as each of those is not launched yet, booked, or barred by a Lease that still holds |
| Execution.PassKeepsDone | internal/controller/pod_fault.go:934-937 | no pass changes a terminal entry |
| Execution.PassKeepsAudited | internal/controller/pod_fault.go:396-421 | while Planned writes take effect, a pass keeps every own Job's pods those its tick's only entry lists |
| Execution.RecordOfLaunch | internal/controller/pod_fault.go:399-421 | a created Job is on record exactly when the Planned write took effect or the entry already listed those pods |
| Apart.BuiltApart | internal/controller/pod_fault.go:454-513 | the plans of every pass before expiry have Jobs of their own, if no two plans ever due together share one |
| Apart.BuiltNamed | internal/controller/pod_fault.go:454-513 | plans are named by their (action, tick), and have distinct ones as soon as no two actions share mode and name |
| Apart.ReadableApart | internal/controller/pod_fault.go:1226-1236 | for names short enough to stay readable, no two plans ever due together share a Job exactly when no two actions of one mode are alike after sanitizing |
| Apart.SeparateNamesApart | internal/controller/pod_fault.go:1226-1251 | for names of any length, it is enough that the actions are apart and no two ticks come out with one name |
| Lifecycle.PersistLifecycle | internal/controller/faultinjection_controller.go:232-257 | recomputing the timestamps and storing them when changed |
| Lifecycle.LifecycleFixedPoint | internal/controller/faultinjection_controller.go:350-441 | StartedAt is kept once set, and the next lifecycle check reports no change exactly when the wrapped duration is whole seconds |
| Lifecycle.LifecycleExact | internal/controller/faultinjection_controller.go:385-440 | for every duration that fits, StartedAt is the first check's clock and ExpiresAt = StartedAt + duration after one write, and nothing changes after it |
| Lifecycle.OverflowNeverSettles | internal/controller/faultinjection_controller.go:416-440 | one second more than fits is never settled |
| Lifecycle.OverflowSettlesWrong | internal/controller/faultinjection_controller.go:416-440 | a duration of 2^55 + 1 seconds settles at once, on an expiry one second after the start |
| Lifecycle.ComputeRequeue | internal/controller/faultinjection_controller.go:320-332 | the delay as the code computes it from three clock readings |
| Lifecycle.WakeUp | internal/controller/faultinjection_controller.go:320-332 | a wake-up follows exactly when the clock was short of expiry or a boundary has passed; it comes by expiry or one second on, and by the due time while that lies ahead |
| Answers.PassVerdict | internal/controller/pod_fault.go:259-440 | a pass stops, fails, or goes on with something pending exactly by what some plan it gets to meets |
| Answers.FailureExact | internal/controller/faultinjection_controller.go:626-661 | the mesh part fails exactly at the first target that is neither managed nor there with a route, as missing or as unsafe |
| Answers.AnswerExact | internal/controller/faultinjection_controller.go:211-333 | exactly when a reconcile answers that it is done, that it is to be retried, or that it comes back by itself; it never asks to be called again at once |
| Answers.FailureLeavesWhatWasDone | internal/controller/faultinjection_controller.go:287-316 | an accepted reconcile leaves what applying the targets before the failing one left, in phase Error, or what the pass left when one of its calls failed |
| Answers.WakesExactly | internal/controller/faultinjection_controller.go:318-332 | the delay a reconcile answers is one second when a tick or the recheck has come due meanwhile, and otherwise leads to the earliest of them and expiry |
| Answers.WakesForEveryTick | internal/controller/faultinjection_controller.go:318-332 | for each window, exactly when the reconcile is back by the window's next tick, and exactly when it is back at all |
| Answers.NextStartIsNext | internal/controller/pod_fault.go:1199-1224 | that tick begins a whole number of intervals after the start, and is the first to lie ahead |
| Answers.PendingIsRechecked | internal/controller/pod_fault.go:433-439 | while the Job of a due tick without an outcome is there after the reconcile, now + 2 s is among the times to be back for |
| Answers.RecheckInTime | internal/controller/pod_fault.go:433-439 | and exactly when the reconcile is back by then |
| Lifecycle.WakesForEveryBoundary | internal/controller/pod_fault.go:433-439 | the wake-up precedes every windowed action's boundary and the recheck of a pending Job |
| Cleanup.CleanupAll | internal/controller/faultinjection_controller.go:960-1028 | targets from spec and labels are patched or deleted one by one, then the Jobs and Leases go |
| Cleanup.CleanupTarget | internal/controller/faultinjection_controller.go:984-1025 | one target: absent, managed and deleted, or rewritten if a rule went |
| Cleanup.CleanupPodFaultJobs | internal/controller/pod_fault.go:1006-1034 | exactly the experiment's Jobs are deleted |
| Cleanup.CleanupPodFaultLeases | internal/controller/pod_fault.go:1062-1082 | exactly the experiment's Leases are deleted |
| Cleanup.CleanupOrphanedManagedVS | internal/controller/mesh_fault.go:453-486 | exactly the managed objects no longer wanted are deleted |
| Cleanup.CleanupExact | internal/controller/faultinjection_controller.go:960-1040 | cleanup removes everything managed and every Job and Lease, and every rule exactly when each object that carries one is named by the current spec or labelled |
| Reconciler.HandleCancellation | internal/controller/faultinjection_controller.go:460-506 | cleanup and phase Cancelled with the first cancellation time, unless already final |
| Reconciler.HandleExpiry | internal/controller/faultinjection_controller.go:520-555 | cleanup and phase Completed |
| Reconciler.HandleValidationError | internal/controller/faultinjection_controller.go:573-593 | cleanup and phase Error |
| Reconciler.MarkRunning | internal/controller/faultinjection_controller.go:702-791 | phase Running, whatever it was |
| Reconciler.InjectMeshFaults | internal/controller/faultinjection_controller.go:287-309 | grouping, applying, orphan cleanup and phase Running in sequence, or phase Error with the earlier targets patched |
| Reconciler.ApplyPodFaults | internal/controller/pod_fault.go:236-440 | plans, pass and due time in sequence, with every early return |
| Reconciler.Reconcile | internal/controller/faultinjection_controller.go:211-333 | the whole reconcile: the world and the answer it leaves, branch by branch |
| Experiment.ReconcilePhases | internal/controller/faultinjection_controller.go:259-285 | exactly when a reconcile leaves the phase Completed, and exactly when Cancelled |
| Experiment.EndsCleanExactly | internal/controller/faultinjection_controller.go:460-593 | an experiment that ends, or whose spec is rejected, is clean exactly when every rule of it was within reach of the current spec or a label |
| Experiment.TerminalIsClean | internal/controller/faultinjection_controller.go:960-1040 | on every run with considerate edits and writes, phase Completed or Cancelled means no rule, managed VirtualService, podfault Job or Lease of the experiment is left |
| Experiment.CompletedAbsorbing | internal/controller/faultinjection_controller.go:277-279 | once expired the experiment is and stays Completed, and creates no Job, while the clock goes on and the duration is not raised |
| Experiment.CancelledAbsorbing | internal/controller/faultinjection_controller.go:460-464 | once cancelled it stays so, with its cancellation time, and creates no Job, while spec.cancel stays true |
| Experiment.CancelledAtFirst | internal/controller/faultinjection_controller.go:460-506 | a cancellation that stays is recorded at the clock of the first reconcile to see it |
| Experiment.CancellationTimeForLife | internal/controller/faultinjection_controller.go:478-490 | once recorded, that time is never changed again, on any run |
| Experiment.LeavesNoTrace | internal/controller/faultinjection_controller.go:984-1025 | a user's VirtualService keeps its own rules in order all through any run, and is the very same object again in a final phase |
| Footprint.OnlyOwnDeleted | internal/controller/faultinjection_controller.go:984-1025 | a reconcile deletes no VirtualService without the operator's labels for this experiment, and changes no object's labels |
| Footprint.OnlyOwnDeletedForLife | internal/controller/faultinjection_controller.go:984-1025 | nor does a whole run, while nobody else writes the object |
| Footprint.CleanupLeavesOthers | internal/controller/faultinjection_controller.go:984-1025 | cleanup leaves the very same any object without a rule of the experiment that the operator did not make for it |
| Footprint.MadeExactly | internal/controller/mesh_fault.go:106-150 | with the rules in place, the objects with those labels are those of the OUTBOUND actions, all of them there and in the mesh |
| Footprint.NewObject | internal/controller/mesh_fault.go:106-150 | a newly made object has the operator's labels, the declared hosts and the mesh gateway |
| Footprint.NewObjectTraffic | internal/controller/mesh_fault.go:397-437 | it sends every request to the first host, those no action wants unharmed |
| Footprint.EmptiedObjectTraffic | internal/controller/mesh_fault.go:397-437 | so does a managed object whose rules were removed |
| Footprint.MeshNamesTell | internal/controller/mesh_fault.go:492-510 | two actions' rules share a name exactly when direction and sanitized name agree, their objects when the latter does |
| Experiment.RunningIsSteady | internal/controller/faultinjection_controller.go:211-333 | reconciling an unchanged, unexpired experiment again leaves every VirtualService, and without pod faults everything, as it is, unless an action is INBOUND on an orphan; then it ends in phase Error without a pod part |
| Experiment.PassErrs | internal/controller/pod_fault.go:323-366 | a pass enters phase Error exactly by a plan it gets to that books a failed Job or is refused |
| Experiment.ErrorIsLeft | internal/controller/faultinjection_controller.go:732-737 | whatever the phase was, an accepted and unexpired reconcile ends Running exactly when every target can take its rules and no plan it gets to errs, and otherwise in phase Error |
| Recovery.FailedTickDoesNotStop | internal/controller/pod_fault.go:323-346 | after phase Error the next reconcile ends Running and creates the Job of a new tick |
| Lifetime.RejectionForgets | internal/controller/faultinjection_controller.go:573-593 | cleanup after a rejected spec keeps the at-most-once invariant exactly when no tick was pending |
| Lifetime.RejectionRunsAgain | internal/controller/pod_fault.go:1006-1034 | after such a cleanup a pending tick's Job is created anew |
| Lifetime.AtMostOnceForLife | internal/controller/pod_fault.go:800-910 | on every run of whole reconciles with the pod part unedited, no two Jobs are created for one (action, tick): with failing pod calls, others' Jobs and Leases, expiry, and a cancellation that stays |
| Lifetime.AtMostOnceThroughEdits | internal/controller/pod_fault.go:261-431 | the same on runs that edit spec, pod part and duration included, and turn the clock or a cancellation back: if all ticks the specs make due have different names, and cleanup comes only with every outcome booked |
| Lifetime.ReadableTellApart | internal/controller/pod_fault.go:1226-1236 | ticks of actions whose names differ after sanitizing have different names, as far as these stay readable |
| Lifetime.ReadableWithin | internal/controller/pod_fault.go:454-513 | every tick a spec ever makes due is such a tick, if its actions are apart and leave room for tick numbers |
| Lifetime.BlastBoundForLife | internal/controller/pod_fault.go:1166-1224 | over such a run with listings of at most n pods, a window's Jobs together name at most duration / interval + 1 times the pods its selection takes of n under the effective cap |
| Lifetime.TerminalForLife | internal/controller/pod_fault.go:934-937 | a terminal entry never changes again over whole runs, through edits that keep actions apart, rejections and cleanup |
| Exact.BoundReached | internal/controller/pod_fault.go:1166-1224 | that bound is attained, for every sound experiment and size of namespace: a run from the epoch on in which every tick begins names exactly that many pods |
| Exact.WindowTotalExact | internal/controller/pod_fault.go:1186-1191 | over runs with at most n pods listed, a window stays within maxTotalPodsAffected on every run exactly when the number of its ticks times the most pods a tick can name does; beside any other actions |
| Exact.ClashRepeats | internal/controller/pod_fault.go:261-346 | two plans of one Job at one time: a run that creates the Job twice for one tick |
| Exact.AtMostOnceExact | internal/controller/pod_fault.go:236-440 | every run of a sound experiment creates at most one Job per tick exactly when no two plans that are ever due together share a Job name |
| Exact.AtMostOnceReadable | internal/controller/pod_fault.go:1226-1236 | for readable names, exactly when no two actions of one mode are alike after sanitizing |
| Rejection.RejectionExact | internal/controller/faultinjection_controller.go:573-593 | after the rejection of a spec that is otherwise sound, every further run creates at most one Job per tick exactly when no tick was pending |
| Shield.AtMostOnceBehindLease | internal/controller/pod_fault.go:403-421 | with the experiment's Leases left alone and none shorter made, plans may share a Job, and still no two Jobs are created for one tick, where those ticks are over before a Lease stamped while they were due runs out |
| Shield.ShortWindowsBrief | internal/controller/pod_fault.go:1199-1224 | that is so for readable names when only windows of at most 70 seconds are alike after sanitizing |
| Outlast.AtMostOnceUntouched | internal/controller/pod_fault.go:645-787 | over runs with the Leases left alone, a sound experiment longer than 70 seconds with readable names creates at most one Job per tick exactly when only windows of at most 70 seconds are alike |
| Lifetime.RecordForLife | internal/controller/pod_fault.go:916-995 | from a fresh status on, over whole runs with edits, rejections, cancellation and expiry, keys stay unique and every own Job's pods are those its entry lists |

## Left out

- LeaseProtocol.LeaseExclusion: the stored stamps are only at least a window apart, not more, because the Lease keeps microseconds; strictness holds for the clocks, and `LeaseProtocol.StrictStampGap` says exactly when for the stamps.
- Lifetime.AtMostOnceForLife: assumes one reconcile at a time, fresh reads, that nobody else deletes the experiment's Jobs, an unedited pod part and duration, that a cancellation is not taken back, and that no spec is rejected while a tick is pending; `Lifetime.AtMostOnceThroughEdits` says what holds with edits, `Rejection.RejectionExact` with rejections.
- Lifetime.AtMostOnceThroughEdits: assumes one reconcile at a time, fresh reads, and that nobody else deletes the experiment's Jobs.
- Outlast.AtMostOnceUntouched: takes no two actions to share both mode and name, and windows that are alike to have one interval; `Shield.AtMostOnceBehindLease` needs no common interval.
- Lifetime.RecordForLife: assumes that Planned writes take effect; `Execution.RecordOfLaunch` says what happens when one does not.
- Exact.AtMostOnceExact: takes every tick to have a name (`Names.PodFaultNameDefined` says when) and selections as the resource's admission rule has them.
- Exact.WindowTotalExact: takes every tick to have a name, and Jobs of plans due together to be apart.
- Cleanup.CleanupAll: leaves out the executor Pods and the Deployments that cleanup also deletes by label or owner.
- Experiment.TerminalIsClean: assumes that the API calls of apply and cleanup succeed, that taking items out of a rule list shows in its `%v` text, and that namespaces hold no slash.
- Targets.TrafficContained: routing is first-match over one VirtualService, header names are compared as written, and `%v` is taken not to confuse the desired list with a different one already there.
- Outcomes.OutcomesForLife: goes by the Job's name, as the code does; `Outcomes.OutcomesOfTheirJobs` says when that is the tick's own Job.
- Answers.WakesExactly: takes the three clock readings in order, and windows younger than about 292 years.
- Concurrent reconciles outside Lease acquisition: the Lease does not fence the later Job creation, and no claim is made that it does.
- API failures in the mesh part and in cleanup, retries on conflict, stale caches, and the experiment's Jobs being deleted by others or by TTL.
- Events, logging, status messages and stop reasons, manager setup, RBAC, CRD schemas and admission.
- The Job's container, arguments and environment beyond the pod names; pod termination itself.
- The FNV hash (any function), the `%v` rendering (any function), Unicode case mapping (ASCII only).
- StopConditions and metric queries: the files hold types for them but no evaluator.
- Istio's merging of several VirtualServices for one host, and percentage sampling at the proxy.
- `time.Time` differences outside the int64 range of nanoseconds, except where tick arithmetic saturates or wraps.
