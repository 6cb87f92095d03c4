/**
 The argument list handed to the infrastructure tool: a sub-command prefix,
 then one `-var key=value` pair per provision parameter. The source appends
 the pairs in map iteration order, so the model takes that order as a key
 sequence enumerating the parameters.

 `DecodeArgs` reads such a list back (sub-command and variable bindings) and
 serves as the partner of the builders: what is built decodes to the action
 and parameters it was built from.
 */
module Arguments {
  import opened Manifest
  import opened MapOrder

  /** The sub-command of an apply run. */
  const ApplyPrefix: seq<string> := ["apply"]

  /** The sub-command of a destroy run, which never asks for confirmation. */
  const DestroyPrefix: seq<string> := ["destroy", "-force"]

  /** The flag that introduces each variable binding. */
  const VarFlag: string := "-var"

  /** One variable binding as the tool reads it. */
  function Binding(key: string, value: string): string {
    key + "=" + value
  }

  /** The `-var` pairs for the parameters named by `keys`, in that order. */
  function VarArgs(parameters: map<string, string>, keys: seq<string>): (r: seq<string>)
    requires forall k | k in keys :: k in parameters
    ensures |r| == 2 * |keys|
    ensures forall i | 0 <= i < |keys| :: r[2 * i] == VarFlag && r[2 * i + 1] == Binding(keys[i], parameters[keys[i]])
    decreases |keys|
  {
    if keys == [] then []
    else
      var rest := VarArgs(parameters, keys[1..]);
      var r := [VarFlag, Binding(keys[0], parameters[keys[0]])] + rest;
      assert forall i | 0 <= i < |keys| :: r[2 * i] == VarFlag && r[2 * i + 1] == Binding(keys[i], parameters[keys[i]]) by {
        forall i | 1 <= i < |keys|
          ensures r[2 * i] == VarFlag && r[2 * i + 1] == Binding(keys[i], parameters[keys[i]])
        {
          assert keys[1..][i - 1] == keys[i];
          assert r[2 * i] == rest[2 * (i - 1)];
          assert r[2 * i + 1] == rest[2 * (i - 1) + 1];
        }
      }
      r
  }

  /** The prefix followed by one `-var` pair per parameter, in iteration order `keys`. */
  function PrepareArgs(prefix: seq<string>, parameters: map<string, string>, keys: seq<string>): (r: seq<string>)
    requires Enumerates(keys, parameters)
    ensures |r| == |prefix| + 2 * |parameters|
    ensures |r| == |prefix| + 2 * |keys|
    ensures r[..|prefix|] == prefix
    ensures forall i | 0 <= i < |keys| ::
      r[|prefix| + 2 * i] == VarFlag && r[|prefix| + 2 * i + 1] == Binding(keys[i], parameters[keys[i]])
  {
    EnumerationLength(keys, parameters);
    var vars := VarArgs(parameters, keys);
    var r := prefix + vars;
    assert forall i | 0 <= i < |vars| :: r[|prefix| + i] == vars[i];
    r
  }

  /** The arguments of an apply run for provision `p`. */
  function ApplyArgs(p: Provision, keys: seq<string>): (r: seq<string>)
    requires Enumerates(keys, p.parameters)
    ensures |r| == 1 + 2 * |p.parameters|
    ensures r[0] == "apply"
  {
    PrepareArgs(ApplyPrefix, p.parameters, keys)
  }

  /** The arguments of a destroy run for provision `p`. */
  function DestroyArgs(p: Provision, keys: seq<string>): (r: seq<string>)
    requires Enumerates(keys, p.parameters)
    ensures |r| == 2 + 2 * |p.parameters|
    ensures r[0] == "destroy" && r[1] == "-force"
  {
    PrepareArgs(DestroyPrefix, p.parameters, keys)
  }

  // ----- Reading an argument list back -----

  /** The position of the first `=` in `s`, if any. */
  function FirstEquals(s: string): (r: Option<nat>)
    ensures r.Some? ==> r.value < |s| && s[r.value] == '=' && '=' !in s[..r.value]
    ensures r.None? ==> '=' !in s
  {
    if s == [] then None
    else if s[0] == '=' then Some(0)
    else match FirstEquals(s[1..])
      case None => None
      case Some(i) => Some(i + 1)
  }

  /** Splits a binding at its first `=` into key and value. */
  function SplitBinding(s: string): Option<(string, string)> {
    match FirstEquals(s)
    case None => None
    case Some(i) => Some((s[..i], s[i + 1..]))
  }

  /** A key without `=` is recovered, with its value, from its binding. */
  lemma SplitBindingRoundTrip(key: string, value: string)
    requires '=' !in key
    ensures SplitBinding(Binding(key, value)) == Some((key, value))
  {
    var s := Binding(key, value);
    assert s[|key|] == '=' && s[..|key|] == key && s[|key| + 1..] == value;
    assert forall j | 0 <= j < |key| :: s[j] == key[j] && s[j] != '=';
    assert FirstEquals(s).value == |key|;
  }

  /** Two bindings of `=`-free keys are equal only when key and value are. */
  lemma BindingInjective(k1: string, v1: string, k2: string, v2: string)
    requires '=' !in k1 && '=' !in k2
    requires Binding(k1, v1) == Binding(k2, v2)
    ensures k1 == k2 && v1 == v2
  {
    SplitBindingRoundTrip(k1, v1);
    SplitBindingRoundTrip(k2, v2);
  }

  /** The bindings of a list of `-var` pairs; a later binding of a key overrides an earlier one. */
  function DecodeVars(args: seq<string>): Option<map<string, string>>
    decreases |args|
  {
    if args == [] then Some(map[])
    else if |args| < 2 || args[0] != VarFlag then None
    else match SplitBinding(args[1])
      case None => None
      case Some(kv) =>
        match DecodeVars(args[2..])
        case None => None
        case Some(rest) => Some(map[kv.0 := kv.1] + rest)
  }

  /** A decoded invocation: the sub-command and the variable bindings. */
  datatype Invocation = Invocation(action: Action, parameters: map<string, string>)

  /** Reads an argument list as an apply or destroy invocation. */
  function DecodeArgs(args: seq<string>): Option<Invocation> {
    if |args| >= 1 && args[..1] == ApplyPrefix then
      match DecodeVars(args[1..])
      case None => None
      case Some(m) => Some(Invocation(Apply, m))
    else if |args| >= 2 && args[..2] == DestroyPrefix then
      match DecodeVars(args[2..])
      case None => None
      case Some(m) => Some(Invocation(Destroy, m))
    else None
  }

  /** Decoding one leading `-var` pair adds its binding in front of the rest. */
  lemma DecodeVarsCons(key: string, value: string, rest: seq<string>)
    requires '=' !in key
    ensures DecodeVars([VarFlag, Binding(key, value)] + rest) ==
      if DecodeVars(rest).Some? then Some(map[key := value] + DecodeVars(rest).value) else None
  {
    var args := [VarFlag, Binding(key, value)] + rest;
    assert args[0] == VarFlag && args[1] == Binding(key, value) && args[2..] == rest;
    SplitBindingRoundTrip(key, value);
  }

  /** The parameters named by a key sequence, as a map. */
  function Named(parameters: map<string, string>, keys: seq<string>): (r: map<string, string>)
    requires forall k | k in keys :: k in parameters
    ensures r.Keys == set k | k in keys
    ensures forall k | k in r :: r[k] == parameters[k]
  {
    map k | k in keys :: parameters[k]
  }

  /** Naming a first key and then the rest names the same parameters as all keys at once. */
  lemma NamedCons(parameters: map<string, string>, keys: seq<string>)
    requires keys != []
    requires forall k | k in keys :: k in parameters
    ensures map[keys[0] := parameters[keys[0]]] + Named(parameters, keys[1..]) == Named(parameters, keys)
  {
    assert keys == [keys[0]] + keys[1..];
  }

  /** The `-var` pairs for `keys` decode to exactly the parameters those keys name. */
  lemma {:induction false} DecodeVarArgs(parameters: map<string, string>, keys: seq<string>)
    requires forall k | k in keys :: k in parameters && '=' !in k
    ensures DecodeVars(VarArgs(parameters, keys)) == Some(Named(parameters, keys))
    decreases |keys|
  {
    if keys != [] {
      var tail := keys[1..];
      assert forall k | k in tail :: k in keys;
      DecodeVarArgs(parameters, tail);
      DecodeVarsCons(keys[0], parameters[keys[0]], VarArgs(parameters, tail));
      NamedCons(parameters, keys);
    }
  }

  /** An apply prefix followed by decodable pairs decodes as an apply invocation. */
  lemma DecodeApply(vars: seq<string>, parameters: map<string, string>)
    requires DecodeVars(vars) == Some(parameters)
    ensures DecodeArgs(ApplyPrefix + vars) == Some(Invocation(Apply, parameters))
  {
    var args := ApplyPrefix + vars;
    assert args[..1] == ApplyPrefix && args[1..] == vars;
  }

  /** A destroy prefix followed by decodable pairs decodes as a destroy invocation. */
  lemma DecodeDestroy(vars: seq<string>, parameters: map<string, string>)
    requires DecodeVars(vars) == Some(parameters)
    ensures DecodeArgs(DestroyPrefix + vars) == Some(Invocation(Destroy, parameters))
  {
    var args := DestroyPrefix + vars;
    assert args[..1] != ApplyPrefix by {
      assert args[0] == "destroy";
      assert args[0][0] != ApplyPrefix[0][0];
    }
    assert args[..2] == DestroyPrefix && args[2..] == vars;
  }

  /** Round trip: a built argument list decodes to the action and parameters it came from. */
  lemma ArgsRoundTrip(p: Provision, keys: seq<string>)
    requires Enumerates(keys, p.parameters)
    requires forall k | k in p.parameters :: '=' !in k
    ensures p.action == Apply ==> DecodeArgs(ApplyArgs(p, keys)) == Some(Invocation(Apply, p.parameters))
    ensures p.action == Destroy ==> DecodeArgs(DestroyArgs(p, keys)) == Some(Invocation(Destroy, p.parameters))
  {
    var vars := VarArgs(p.parameters, keys);
    DecodeVarArgs(p.parameters, keys);
    assert Named(p.parameters, keys) == p.parameters;
    DecodeApply(vars, p.parameters);
    DecodeDestroy(vars, p.parameters);
  }

  /** No binding occurs twice: distinct `=`-free keys give distinct bindings. */
  lemma BindingsDistinct(prefix: seq<string>, parameters: map<string, string>, keys: seq<string>)
    requires Enumerates(keys, parameters)
    requires forall k | k in parameters :: '=' !in k
    ensures forall i, j | 0 <= i < j < |keys| ::
      PrepareArgs(prefix, parameters, keys)[|prefix| + 2 * i + 1] != PrepareArgs(prefix, parameters, keys)[|prefix| + 2 * j + 1]
  {
    var r := PrepareArgs(prefix, parameters, keys);
    forall i, j | 0 <= i < j < |keys|
      ensures r[|prefix| + 2 * i + 1] != r[|prefix| + 2 * j + 1]
    {
      if r[|prefix| + 2 * i + 1] == r[|prefix| + 2 * j + 1] {
        BindingInjective(keys[i], parameters[keys[i]], keys[j], parameters[keys[j]]);
        assert false;
      }
    }
  }
}
