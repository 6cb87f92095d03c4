# Provisioning reconciliation, modelled in Dafny

This project models the reconciliation engine of `topo`, a small orchestrator
that drives Terraform over a YAML manifest of named provisions. Each provision
has an action (`apply` or `destroy`), a last-known state, and string
parameters. One run of the engine does four things:

1. **Qualification** splits the provisions into eligible and skipped ones.
   A provision is skipped when its action is `destroy` and its state is
   `changed` or `destroyed`, when its action is `apply` and its state is
   `applied`, or when its action is anything other than `apply` or `destroy`.
2. **Fan-out** launches one Terraform run per eligible provision. The
   arguments are `apply` or `destroy -force`, followed by one
   `-var key=value` pair per parameter.
3. **Aggregation** receives one report per eligible provision, in whatever
   order the workers finish. It sets the state to `applied` after an apply
   and to `destroyed` after a destroy.
4. **Reconciliation** writes the skipped provisions back over the updated
   map. The result is the manifest that gets saved.

Modules, one per stage plus two shared ones:

- `Manifest` (manifest.dfy): the `Action`, `State`, `Provision` and `Config`
  datatypes, and the mapping between them and the manifest's strings.
  Catch-all constructors keep unrecognised strings. `Unset` is the empty
  state.
- `MapOrder` (map_order.dfy): Go leaves map iteration order unspecified, so
  the model takes the order as an input. The order is a duplicate-free
  sequence that lists the map's keys. This module also holds the counting
  lemmas for such sequences.
- `Qualification` (qualification.dfy): the skip rule, a functional
  partition `Qualify`, and `ComputeQualifiedProvisions`. The latter follows
  the source loop, which deletes from the map while ranging over it, and is
  proved equal to `Qualify`.
- `Arguments` (arguments.dfy): builds the argument list. A decoder,
  `DecodeArgs`, is its partner: a built list decodes back to the action and
  parameters it came from.
- `Aggregation` (aggregation.dfy): the dispatch switch, the workers'
  reports, and the aggregator as a fold over an arrival sequence. Any
  permutation of the reports is a valid arrival sequence.
- `Reconciliation` (reconciliation.dfy): the merge, the whole run composed,
  and the end-to-end properties: what one run does to each provision, and
  idempotence of a second run.

An unrecognised action is skipped even when the state is unset
(`Qualification.EligibleIff`).

The aggregator's loop re-reads the size of the provision map on every test of
its condition. A report naming a provision the map lacks adds that name, so
the loop then waits for one more report. The model keeps this behaviour
(`Aggregation.JoinFrom`). The dispatch never sends such a report, and with
its reports the loop ends with every provision completed
(`Aggregation.DispatchReportsEach`, `Aggregation.JoinOnePerProvision`).

## Model

| member | source | states |
|---|---|---|
| Manifest.ActionTextRoundTrip | topo.go:22-28 | every action string reads as a canonical action and is written back unchanged |
| Manifest.ParseActionRoundTrip | topo.go:22-28 | a canonical action survives being written and read again |
| Manifest.StateTextRoundTrip | topo.go:13-20 | every state string, including the empty one, reads as a canonical state and is written back unchanged |
| Manifest.ParseStateRoundTrip | topo.go:13-20 | a canonical state survives being written and read again |
| Qualification.SkipMatchesText | topo.go:185-200 | the skip rule on the enums decides exactly as the source's four string comparisons do |
| Qualification.EligibleIff | topo.go:185-200 | a provision is eligible iff it is apply and not applied, or destroy and neither destroyed nor changed; unset with a recognised action is eligible |
| Qualification.QualifyPartition | topo.go:182-203 | partition law: the halves have disjoint key sets whose union is the input; every entry keeps its value; eligible entries fail the skip rule and skipped ones meet it; every eligible action is apply or destroy |
| Qualification.QualifyEmpty | topo.go:182-203 | the empty manifest qualifies into two empty halves |
| Qualification.ComputeQualifiedProvisions | topo.go:182-203 | the delete-while-ranging loop returns exactly the partition `Qualify` defines: disjoint halves whose union is the input |
| Arguments.VarArgs | topo.go:275-277 | one `-var` flag followed by a `key=value` binding per key, in iteration order, twice as long as the key list |
| Arguments.PrepareArgs | topo.go:272-283 | the list starts with the prefix, has length prefix plus twice the parameter count, and position by position holds `-var` and each key's binding |
| Arguments.ApplyArgs | topo.go:268-270 | an apply list starts with `apply` and has length 1 + 2·parameters |
| Arguments.DestroyArgs | topo.go:264-266 | a destroy list starts with `destroy -force` and has length 2 + 2·parameters |
| Arguments.BindingInjective | topo.go:276 | two bindings of `=`-free keys are equal only when their keys and values are |
| Arguments.DecodeVarArgs | topo.go:275-277 | for keys without `=`, the `-var` pairs decode to exactly the parameters the keys name: no key omitted, none invented |
| Arguments.ArgsRoundTrip | topo.go:264-283 | an apply or destroy list decodes back to its action and the provision's full parameter map |
| Arguments.BindingsDistinct | topo.go:275-277 | for keys without `=`, no binding appears twice in the argument list |
| Aggregation.Dispatch | topo.go:208-218 | every launch is for a listed provision, carries its action, which is apply or destroy, and carries the matching argument list |
| Aggregation.DispatchHead | topo.go:208-218 | a provision with a recognised action launches exactly one run, ahead of the launches for the rest |
| Aggregation.DispatchLaunchesEach | topo.go:208-218 | when all actions are recognised, exactly one launch per provision, in iteration order |
| Aggregation.DispatchReportsEach | topo.go:207-223 | the workers send exactly as many reports as there are eligible provisions, one per provision, with its action |
| Aggregation.Reports | topo.go:256-262 | one report per launch, whatever the exit status: as many reports as launches, the reported names are the launched names, and every launch appears with its action |
| Aggregation.PermutationReportsEach | topo.go:222-224 | any arrival order of one-report-per-provision is again one report per provision, and the count-based join reads exactly that many |
| Aggregation.OnePerProvisionLength | topo.go:223 | one report per provision means exactly as many reports as provisions |
| Aggregation.Complete | topo.go:227-232 | an apply report sets the state to applied, a destroy report to destroyed; action and parameters are kept |
| Aggregation.ReceiveFrame | topo.go:224-233 | a report rewrites only its own provision; a name absent from the map gets Go's zero provision, completed |
| Aggregation.AggregateFrame | topo.go:222-234 | aggregation adds exactly the reported names and leaves unreported provisions unchanged |
| Aggregation.JoinKnownNames | topo.go:222-234 | while reports name only eligible provisions the map keeps its size, so the loop takes exactly the eligible count of reports and folds them |
| Aggregation.JoinOnePerProvision | topo.go:222-234 | one report per eligible provision, in any order: the loop ends, with every eligible provision completed |
| Aggregation.JoinAbsentNameExample | topo.go:223-233 | a report for a name the map lacks adds it, and the loop takes one more report: with eligible {a} and reports b then a, both are received and a ends applied |
| Aggregation.UpdateProvisions | topo.go:222-234 | the loop stops at the first count n of reports after which the map has n entries, and holds the fold of those n reports; it returns None when the channel runs out first; with known names it takes the eligible count; with one report per provision the result is the completed map |
| Aggregation.ExecutedTransition | topo.go:227-232 | reference result: same names; apply provisions applied, destroy provisions destroyed; actions and parameters unchanged |
| Aggregation.AggregateCompletes | topo.go:223-234 | distinct reports carrying each provision's own action complete exactly the reported provisions |
| Aggregation.AggregateOnePerProvision | topo.go:222-234 | state transition: one report per eligible provision, in any order, yields the completed map |
| Aggregation.ReceiveCommutes | topo.go:224-233 | reports for different provisions can be received in either order |
| Aggregation.ReceiveFirst | topo.go:223-234 | a report whose name is not reported earlier can be moved to the front |
| Aggregation.AggregateOrderIndependent | topo.go:223-234 | order independence: two arrival orders of the same reports with distinct names give the same map |
| Reconciliation.MergeDisjoint | topo.go:238-241 | merging disjoint halves keeps every entry of both unchanged; the size is the sum (no collision) |
| Reconciliation.SaveMerge | topo.go:238-241 | the merge loop stores every skipped entry over the updated map and keeps the other updated entries |
| Reconciliation.Target | topo.go:222-241 | a skipped provision stays as it was; an executed one ends applied or destroyed, with action and parameters kept |
| Reconciliation.Expected | topo.go:238-241 | the manifest a run should save has exactly the original names |
| Reconciliation.MergeExecuted | topo.go:238-241 | the completed eligible half merged with the skipped half is the expected manifest |
| Reconciliation.ReconcileMeetsExpected | topo.go:182-241 | merge completeness: with one report per eligible provision, the run completes and the saved map has the original names, skipped entries unchanged, eligible ones completed |
| Reconciliation.ExpectedAllSkipped | topo.go:185-200 | after a run, every provision meets a skip rule |
| Reconciliation.ReconcileIdempotent | topo.go:182-241 | qualifying the saved manifest again finds nothing eligible; a second run saves the same manifest |
| Reconciliation.ReconcileSettled | topo.go:182-241 | a manifest with nothing eligible waits for no report and is saved unchanged |
| Reconciliation.Run | topo.go:206-241 | the whole run makes exactly the dispatch's launches, whose reports are one per eligible provision; each launch is for a non-skipped provision; repository and bucket are kept; the saved manifest is the expected one, after which nothing is eligible |
| Reconciliation.QualifyExample | topo_test.go:41-116 | of the test's five provisions, only (apply, changed) and (destroy, applied) are eligible |

## Left out

- Git cloning and credentials (`cloneTfProj`, `getCredentialsCallback`): they use the network and a foreign library.
- Reading, backing up, unmarshalling, marshalling and writing the manifest (`getConfigYaml`, `backupConfig`, `getConfig`, the end of `saveConfig`): file I/O and a YAML library. `Config` is modelled as data; `Run` carries its repository and bucket through unchanged. Strings enter the model through `ParseAction`/`ParseState`.
- Project copies and remote-state configuration (`mkProjCopies`, `configureRemoteStates`): shell commands with no decision logic.
- Process execution and goroutines (`runTfCmd`, the channel in `provision`): a run of the tool becomes one `Launch` value. The channel becomes an arrival sequence, which may be any permutation of the reports. Working directories are addressed by provision name and not modelled. The tool's exit status is ignored, as in the source, so there is no failure state.
- Logging (`log.Printf` in `updateProvisions` and `saveConfig`): output only, with no effect on the manifest.
- Entry points (`topo`, `main`, the global config path, `os.Exit`): command-line glue.
- topographer.go: an earlier prototype that only does I/O.
- Aggregation.UpdateProvisions: returns `None` when the loop needs more reports than the workers send. In the source the receive then blocks, or the runtime aborts with a deadlock error. The model does not tell these two apart.
- Aggregation.AggregateOrderIndependent: is stated for reports with distinct names only. Two reports for one name are not order independent, and the dispatch never sends them.
- Arguments.ArgsRoundTrip: holds for parameter keys without `=` only. A binding is split at its first `=`, so a key such as `a=` with value `b` and a key `a` with value `=b` give the same string.
- Arguments.DecodeVarArgs: holds for keys without `=` only, for the reason given under `ArgsRoundTrip`.
- Arguments.BindingsDistinct: holds for keys without `=` only. Two distinct keys containing `=` can give the same binding string.
- Arguments.PrepareArgs: the order of the `-var` pairs is an input (`keys`), not the repository test's fixed order. Go map iteration order is unspecified.
