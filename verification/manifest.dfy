/**
 The manifest data model of the provisioner: the requested action and the
 last-known state of each named provision, with its tool parameters.

 The source keeps actions and states as plain strings compared against a few
 constants, so every string the manifest may hold has a value here: the
 recognised constants get their own constructor, anything else is kept
 verbatim in a catch-all constructor, and an absent `state` is `Unset`.

 The rest of the model matches the source on canonical values only: those
 that `ParseAction` and `ParseState` produce. A value such as
 `OtherAction("apply")` never comes from a manifest; the source would read its
 string as apply, while the model treats it as unrecognised.
 */
module Manifest {

  datatype Option<+T> = None | Some(value: T)

  /** The requested operation for this run. */
  datatype Action = Apply | Destroy | OtherAction(text: string)

  /** The last known outcome of a provision; `Unset` is the absent (empty) state. */
  datatype State = Unset | Applied | Destroyed | Changed | OtherState(text: string)

  /** One infrastructure unit under management. */
  datatype Provision = Provision(action: Action, state: State, parameters: map<string, string>)

  /** The provisions of a manifest, keyed by provision name. */
  type ProvisionMap = map<string, Provision>

  /** The whole manifest: template repository, remote-state bucket and provisions. */
  datatype Config = Config(tfRepo: string, s3Bucket: string, provisions: ProvisionMap)

  /** Go's zero value of a provision: empty action, empty state, no parameters. */
  const Zero: Provision := Provision(OtherAction(""), Unset, map[])

  /** The two actions for which the tool is ever invoked. */
  predicate Recognised(a: Action) {
    a.Apply? || a.Destroy?
  }

  /** Reads an action as the manifest spells it. */
  function ParseAction(s: string): Action {
    if s == "apply" then Apply
    else if s == "destroy" then Destroy
    else OtherAction(s)
  }

  /** Writes an action back as the manifest spells it. */
  function ActionText(a: Action): string {
    match a
    case Apply => "apply"
    case Destroy => "destroy"
    case OtherAction(s) => s
  }

  /** Reads a state as the manifest spells it; the empty string is the unset state. */
  function ParseState(s: string): State {
    if s == "" then Unset
    else if s == "applied" then Applied
    else if s == "destroyed" then Destroyed
    else if s == "changed" then Changed
    else OtherState(s)
  }

  /** Writes a state back as the manifest spells it. */
  function StateText(st: State): string {
    match st
    case Unset => ""
    case Applied => "applied"
    case Destroyed => "destroyed"
    case Changed => "changed"
    case OtherState(s) => s
  }

  /** A catch-all action never holds the text of a recognised one. */
  predicate CanonicalAction(a: Action) {
    a.OtherAction? ==> a.text != "apply" && a.text != "destroy"
  }

  /** A catch-all state never holds the text of a named one. */
  predicate CanonicalState(st: State) {
    st.OtherState? ==> st.text !in {"", "applied", "destroyed", "changed"}
  }

  /** Every manifest string reads as a canonical action and writes back unchanged. */
  lemma ActionTextRoundTrip(s: string)
    ensures CanonicalAction(ParseAction(s))
    ensures ActionText(ParseAction(s)) == s
  {
  }

  /** Every canonical action survives being written and read again. */
  lemma ParseActionRoundTrip(a: Action)
    requires CanonicalAction(a)
    ensures ParseAction(ActionText(a)) == a
  {
  }

  /** Every manifest string reads as a canonical state and writes back unchanged. */
  lemma StateTextRoundTrip(s: string)
    ensures CanonicalState(ParseState(s))
    ensures StateText(ParseState(s)) == s
  {
  }

  /** Every canonical state survives being written and read again. */
  lemma ParseStateRoundTrip(st: State)
    requires CanonicalState(st)
    ensures ParseState(StateText(st)) == st
  {
  }
}
