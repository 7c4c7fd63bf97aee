/**
 * run: defaults the configuration in place, loads the stage's environment
 * file into the credentials, picks the definition file and dispatches to
 * the programmatic or the declarative runner.
 */
module Run {
  import opened Common
  import EnvCredentials

  const DefaultStage := "dev"
  /** The origin errorHandler is given for errors that reach run's own handler. */
  const RootOrigin := "Serverless Components"
  const ProgrammaticFile := "serverless.js"
  /** The definition files, in the order they are looked for. */
  const DefinitionFiles := ["serverless.js", "serverless.yml", "serverless.yaml", "serverless.json"]
  const Separator := "::"

  // ---------------------------------------------------------------------
  // Configuration defaults
  // ---------------------------------------------------------------------

  /** `value || fallback` for a string. */
  function OrDefault(value: Option<string>, fallback: string): (r: string)
    ensures Truthy(value) ==> r == value.value
    ensures !Truthy(value) ==> r == fallback
  {
    if Truthy(value) then value.value else fallback
  }

  /** `value || null` for a string. */
  function OrNull(value: Option<string>): (r: Option<string>)
    ensures r.None? || (r == value && r.value != "")
    ensures Truthy(value) ==> r == value
  {
    if Truthy(value) then value else None
  }

  /** The configuration object given to run, which run updates in place. */
  class RunConfig {
    var root: Option<string>
    var stage: Option<string>
    var credentials: EnvCredentials.Credentials?
    var instance: Option<string>
    var methodName: Option<string>

    constructor (root: Option<string>, stage: Option<string>, credentials: EnvCredentials.Credentials?,
                 instance: Option<string>, methodName: Option<string>)
      ensures this.root == root && this.stage == stage && this.credentials == credentials
      ensures this.instance == instance && this.methodName == methodName
    {
      this.root := root;
      this.stage := stage;
      this.credentials := credentials;
      this.instance := instance;
      this.methodName := methodName;
    }

    /**
     * The defaults: root becomes the working directory, stage `dev`,
     * credentials a fresh empty object, instance and method null, each only
     * when missing or falsy.
     */
    method ApplyDefaults(cwd: string)
      modifies this
      ensures root == Some(OrDefault(old(root), cwd))
      ensures stage == Some(OrDefault(old(stage), DefaultStage))
      ensures old(credentials) != null ==> credentials == old(credentials)
      ensures old(credentials) == null ==> credentials != null && fresh(credentials) && credentials.entries == map[]
      ensures instance == OrNull(old(instance)) && methodName == OrNull(old(methodName))
    {
      root := Some(OrDefault(root, cwd));
      stage := Some(OrDefault(stage, DefaultStage));
      if credentials == null {
        credentials := new EnvCredentials.Credentials(map[]);
      }
      instance := OrNull(instance);
      methodName := OrNull(methodName);
    }
  }

  // ---------------------------------------------------------------------
  // Environment file and definition file
  // ---------------------------------------------------------------------

  function StageEnvFile(stage: string): string {
    ".env." + stage
  }

  const DefaultEnvFile := ".env"

  /** The one environment file loaded: `.env.<stage>` when it exists, else `.env` when it exists, else none. */
  function EnvFileName(stage: string, files: set<string>): (name: Option<string>)
    ensures name.Some? ==> name.value in files
    ensures StageEnvFile(stage) in files ==> name == Some(StageEnvFile(stage))
    ensures StageEnvFile(stage) !in files && DefaultEnvFile in files ==> name == Some(DefaultEnvFile)
    ensures name.None? <==> StageEnvFile(stage) !in files && DefaultEnvFile !in files
  {
    if StageEnvFile(stage) in files then Some(StageEnvFile(stage))
    else if DefaultEnvFile in files then Some(DefaultEnvFile)
    else None
  }

  /** The variables read from the environment file; a file that parses to nothing gives `{}`. */
  function LoadEnvVars(stage: string, files: set<string>, parsed: map<string, map<string, string>>): (vars: map<string, string>)
    ensures StageEnvFile(stage) in files ==>
      vars == (if StageEnvFile(stage) in parsed then parsed[StageEnvFile(stage)] else map[])
    ensures StageEnvFile(stage) !in files && DefaultEnvFile in files ==>
      vars == (if DefaultEnvFile in parsed then parsed[DefaultEnvFile] else map[])
    ensures StageEnvFile(stage) !in files && DefaultEnvFile !in files ==> vars == map[]
  {
    match EnvFileName(stage, files)
    case None => map[]
    case Some(f) => if f in parsed then parsed[f] else map[]
  }

  /** The definition file run picks: the first of DefinitionFiles that exists. */
  function DefinitionFileName(files: set<string>): (r: Option<string>)
    ensures r.None? <==> forall i :: 0 <= i < |DefinitionFiles| ==> DefinitionFiles[i] !in files
    ensures r.Some? ==> exists i :: (0 <= i < |DefinitionFiles| && DefinitionFiles[i] == r.value
      && r.value in files && forall j :: 0 <= j < i ==> DefinitionFiles[j] !in files)
  {
    assert DefinitionFiles[0] == "serverless.js" && DefinitionFiles[1] == "serverless.yml";
    assert DefinitionFiles[2] == "serverless.yaml" && DefinitionFiles[3] == "serverless.json";
    if "serverless.js" in files then Some("serverless.js")
    else if "serverless.yml" in files then Some("serverless.yml")
    else if "serverless.yaml" in files then Some("serverless.yaml")
    else if "serverless.json" in files then Some("serverless.json")
    else None
  }

  function NoDefinitionMessage(root: string): string {
    "No Serverless file (serverless.js, serverless.yml, serverless.yaml or serverless.json) found in " + root
  }

  // ---------------------------------------------------------------------
  // Invocations and their outcomes
  // ---------------------------------------------------------------------

  /** A component call: the component (by name or id) and the method, `None` for the default call. */
  datatype Invocation = Invocation(component: string, methodName: Option<string>)

  /**
   * What a runner yields: the outputs of a call, what errorHandler returns
   * for an error and the origin it was given, or `undefined` when no branch
   * of the declarative runner applies.
   */
  datatype Outcome = Outputs(call: Invocation) | Reported(message: string, origin: string) | NoBranch

  /** A runner either completes with an outcome or throws to run's handler. */
  datatype Completion = Completed(outcome: Outcome) | Threw(message: string)

  /** Makes a call inside a try whose catch reports errors with `origin`; `failures` are the calls that throw. */
  function Invoke(call: Invocation, failures: map<Invocation, string>, origin: string): (r: Outcome)
    ensures r == Outputs(call) <==> call !in failures
    ensures call in failures ==> r == Reported(failures[call], origin)
  {
    if call in failures then Reported(failures[call], origin) else Outputs(call)
  }

  // ---------------------------------------------------------------------
  // The programmatic runner (serverless.js)
  // ---------------------------------------------------------------------

  /** The component class serverless.js exports: its name and the methods it has. */
  datatype Program = Program(name: string, methods: set<string>)

  function MissingMethodMessage(component: string, methodName: string): string {
    "Component \"" + component + "\" does not have a \"" + methodName + "\" method"
  }

  /** runProgrammatic: refuses a method the component lacks, else makes the default call or the method call. */
  function RunProgrammatic(program: Program, methodName: Option<string>, failures: map<Invocation, string>): (r: Outcome)
    ensures Truthy(methodName) && methodName.value !in program.methods ==>
      r == Reported(MissingMethodMessage(program.name, methodName.value), program.name)
    ensures Truthy(methodName) && methodName.value in program.methods ==>
      r == Invoke(Invocation(program.name, methodName), failures, program.name)
    ensures !Truthy(methodName) ==> r == Invoke(Invocation(program.name, None), failures, program.name)
    ensures r.Outputs? ==> r.call.component == program.name && (Truthy(r.call.methodName) ==> r.call.methodName.value in program.methods)
    ensures r.Reported? ==> r.origin == program.name
  {
    if !Truthy(methodName) then
      Invoke(Invocation(program.name, None), failures, program.name)
    else if methodName.value !in program.methods then
      Reported(MissingMethodMessage(program.name, methodName.value), program.name)
    else
      Invoke(Invocation(program.name, methodName), failures, program.name)
  }

  // ---------------------------------------------------------------------
  // Component keys `Type::instance`
  // ---------------------------------------------------------------------

  /** `s` holds no `::`. */
  predicate NoSeparator(s: string)
    decreases |s|
  {
    |s| < 2 || (s[..2] != Separator && NoSeparator(s[1..]))
  }

  /** `s.split('::')`: the pieces between the separators, scanning left to right. */
  function Split(s: string): (parts: seq<string>)
    ensures |parts| >= 1
    ensures parts[0] <= s
    ensures forall i :: 0 <= i < |parts| ==> NoSeparator(parts[i])
    decreases |s|
  {
    if |s| < 2 then [s]
    else if s[..2] == Separator then [""] + Split(s[2..])
    else
      var rest := Split(s[1..]);
      [[s[0]] + rest[0]] + rest[1..]
  }

  /** `parts.join('::')`. */
  function Join(parts: seq<string>): string
    requires |parts| >= 1
  {
    if |parts| == 1 then parts[0] else parts[0] + Separator + Join(parts[1..])
  }

  /** Splitting loses nothing: joining the pieces gives back the key. */
  lemma {:induction false} JoinSplit(s: string)
    ensures Join(Split(s)) == s
    decreases |s|
  {
    if |s| < 2 {
    } else if s[..2] == Separator {
      JoinSplit(s[2..]);
      assert s == s[..2] + s[2..];
    } else {
      var rest := Split(s[1..]);
      JoinSplit(s[1..]);
      JoinCons(s[0], rest);
      assert s == [s[0]] + s[1..];
    }
  }

  /** Prepending a character to the first piece prepends it to the joined text. */
  lemma {:induction false} JoinCons(c: char, parts: seq<string>)
    requires |parts| >= 1
    ensures Join([[c] + parts[0]] + parts[1..]) == [c] + Join(parts)
  {
    var p := [[c] + parts[0]] + parts[1..];
    assert p[1..] == parts[1..];
    if |parts| > 1 {
      assert Join(p) == ([c] + parts[0]) + Separator + Join(parts[1..]);
    }
  }

  /**
   * Split matches the leftmost `::`: the first piece is the whole key, or it
   * is followed by `::`, no `::` starts inside it, and the other pieces are
   * the split of what follows that separator.
   */
  lemma {:induction false} SplitLeftmost(s: string)
    ensures var p0 := Split(s)[0];
      || (p0 == s && Split(s) == [s])
      || (&& |p0| + 2 <= |s| && s[|p0|..|p0| + 2] == Separator
          && NoSeparator(s[..|p0| + 1])
          && Split(s) == [p0] + Split(s[|p0| + 2..]))
    decreases |s|
  {
    if |s| < 2 {
    } else if s[..2] == Separator {
      assert s[..1] == [s[0]];
    } else {
      var tail := s[1..];
      var rest := Split(tail);
      SplitLeftmost(tail);
      var q0 := rest[0];
      var p0 := [s[0]] + q0;
      assert Split(s) == [p0] + rest[1..];
      if q0 == tail && rest == [tail] {
        assert p0 == s;
      } else {
        assert |q0| + 2 <= |tail| && tail[|q0|..|q0| + 2] == Separator;
        assert NoSeparator(tail[..|q0| + 1]);
        assert rest == [q0] + Split(tail[|q0| + 2..]);
        SplitLeftmostStep(s, |q0|);
      }
    }
  }

  /** The step of SplitLeftmost: a cut found in `s[1..]` at `n` is a cut of `s` at `n + 1`. */
  lemma {:induction false} SplitLeftmostStep(s: string, n: nat)
    requires |s| >= 2 && s[..2] != Separator
    requires n + 2 <= |s| - 1 && s[1..][n..n + 2] == Separator && NoSeparator(s[1..][..n + 1])
    ensures s[n + 1..n + 3] == Separator
    ensures NoSeparator(s[..n + 2])
    ensures s[n + 3..] == s[1..][n + 2..]
  {
    var head := s[..n + 2];
    assert head[..2] == s[..2];
    assert head[1..] == s[1..n + 2];
    assert s[1..n + 2] == s[1..][..n + 1];
  }

  /** A key with no `::` in it is a single piece. */
  lemma {:induction false} SplitWhole(s: string)
    requires NoSeparator(s)
    ensures Split(s) == [s]
    decreases |s|
  {
    if |s| >= 2 {
      assert s[..2] != Separator by { assert !(s[0] == ':' && s[1] == ':'); }
      SplitWhole(s[1..]);
      assert [s[0]] + s[1..] == s;
    }
  }

  /** The text before the first `::` is the first piece, when it holds no colon. */
  lemma {:induction false} SplitAfterType(t: string, rest: string)
    requires ':' !in t
    ensures Split(t + Separator + rest) == [t] + Split(rest)
    decreases |t|
  {
    var s := t + Separator + rest;
    if t == [] {
      assert s[..2] == Separator;
      assert s[2..] == rest;
    } else {
      assert s[..2] != Separator by { assert s[0] == t[0]; }
      assert s[1..] == t[1..] + Separator + rest;
      SplitAfterType(t[1..], rest);
      assert [t[0]] + t[1..] == t;
    }
  }

  /** `instance.split('::')[0]`: the text before the first `::`, or the whole key. */
  function TypePart(key: string): (t: string)
    ensures t <= key && NoSeparator(t)
    ensures NoSeparator(key) ==> t == key
  {
    if NoSeparator(key) then SplitWhole(key); Split(key)[0]
    else Split(key)[0]
  }

  /** `instance.split('::')[1]`, undefined when the key has no `::`. */
  function InstancePart(key: string): (i: Option<string>)
    ensures i.None? <==> NoSeparator(key)
    ensures i.Some? ==> NoSeparator(i.value)
  {
    var parts := Split(key);
    JoinSplit(key);
    if NoSeparator(key) then SplitWhole(key); None
    else if |parts| >= 2 then Some(parts[1]) else None
  }

  /**
   * A key holding `::` is its type part, the leftmost `::`, and the rest;
   * no `::` starts inside the type part, and the instance part is the first
   * piece of that rest.
   */
  lemma {:induction false} TypeAndInstanceParts(key: string)
    requires !NoSeparator(key)
    ensures |TypePart(key)| + 2 <= |key|
    ensures key == TypePart(key) + Separator + key[|TypePart(key)| + 2..]
    ensures NoSeparator(key[..|TypePart(key)| + 1])
    ensures InstancePart(key) == Some(TypePart(key[|TypePart(key)| + 2..]))
  {
    var t := Split(key)[0];
    SplitCut(key);
    TypePartIsFirstPiece(key);
    TypePartIsFirstPiece(key[|t| + 2..]);
    InstancePartIsSecondPiece(key);
    CutAt(key, |t|);
  }

  /** A key holding `::` is cut at the end of its first piece, and the rest is split again. */
  lemma {:induction false} SplitCut(key: string)
    requires !NoSeparator(key)
    ensures var t := Split(key)[0];
      && |t| + 2 <= |key| && key[|t|..|t| + 2] == Separator
      && NoSeparator(key[..|t| + 1])
      && Split(key) == [t] + Split(key[|t| + 2..])
  {
    assert NoSeparator(Split(key)[0]);
    SplitLeftmost(key);
  }

  lemma CutAt(key: string, n: nat)
    requires n + 2 <= |key| && key[n..n + 2] == Separator
    ensures key == key[..n] + Separator + key[n + 2..]
  {
    assert key == key[..n] + key[n..n + 2] + key[n + 2..];
  }

  lemma {:induction false} TypePartIsFirstPiece(key: string)
    ensures TypePart(key) == Split(key)[0]
  {
  }

  lemma {:induction false} InstancePartIsSecondPiece(key: string)
    requires !NoSeparator(key) && |Split(key)| >= 2
    ensures InstancePart(key) == Some(Split(key)[1])
  {
  }

  /** A key `Type::name` (type without a colon, name without `::`) has exactly these two parts. */
  lemma KeyParts(componentType: string, name: string)
    requires ':' !in componentType && NoSeparator(name)
    ensures TypePart(componentType + Separator + name) == componentType
    ensures InstancePart(componentType + Separator + name) == Some(name)
  {
    SplitAfterType(componentType, name);
    SplitWhole(name);
  }

  /** A key without `::` names no instance. */
  lemma KeyWithoutInstance(key: string)
    requires NoSeparator(key)
    ensures InstancePart(key) == None && TypePart(key) == key
  {
    SplitWhole(key);
  }

  // ---------------------------------------------------------------------
  // Instance lookup
  // ---------------------------------------------------------------------

  datatype InstanceRef = InstanceRef(componentType: string, instanceName: string)

  /**
   * `r` is what the scan over `keys` for `name` finds: nothing iff no key has
   * that instance part, otherwise the last key that has it, with its type part.
   */
  predicate IsLastMatch(keys: seq<string>, name: string, r: Option<InstanceRef>) {
    && (r.None? <==> forall j :: 0 <= j < |keys| ==> InstancePart(keys[j]) != Some(name))
    && (r.Some? ==> exists j :: (0 <= j < |keys| && InstancePart(keys[j]) == Some(name)
         && r.value == InstanceRef(TypePart(keys[j]), name)
         && forall later :: j < later < |keys| ==> InstancePart(keys[later]) != Some(name)))
  }

  /** A key whose instance part matches is the last match of any scan it ends. */
  lemma LastMatchHere(keys: seq<string>, name: string)
    requires |keys| > 0 && InstancePart(keys[|keys| - 1]) == Some(name)
    ensures IsLastMatch(keys, name, Some(InstanceRef(TypePart(keys[|keys| - 1]), name)))
  {
  }

  /** A key that does not match leaves the keys without a match when those before it had none. */
  lemma LastMatchSkipNone(keys: seq<string>, name: string)
    requires |keys| > 0 && InstancePart(keys[|keys| - 1]) != Some(name)
    requires IsLastMatch(keys[..|keys| - 1], name, None)
    ensures IsLastMatch(keys, name, None)
  {
    var init := keys[..|keys| - 1];
    forall j | 0 <= j < |keys|
      ensures InstancePart(keys[j]) != Some(name)
    {
      if j < |init| {
        assert init[j] == keys[j];
      }
    }
  }

  /** A key that does not match leaves the last match of the keys before it. */
  lemma LastMatchSkipSome(keys: seq<string>, name: string, found: InstanceRef)
    requires |keys| > 0 && InstancePart(keys[|keys| - 1]) != Some(name)
    requires IsLastMatch(keys[..|keys| - 1], name, Some(found))
    ensures IsLastMatch(keys, name, Some(found))
  {
    var n := |keys| - 1;
    var init := keys[..n];
    var j :| 0 <= j < n && InstancePart(init[j]) == Some(name)
      && found == InstanceRef(TypePart(init[j]), name)
      && forall later :: j < later < n ==> InstancePart(init[later]) != Some(name);
    assert init[j] == keys[j];
    forall later | j < later < |keys|
      ensures InstancePart(keys[later]) != Some(name)
    {
      if later < n {
        assert init[later] == keys[later];
      }
    }
    assert !(forall k :: 0 <= k < |keys| ==> InstancePart(keys[k]) != Some(name));
  }

  /** The last key of `keys` whose instance part is `name`, with its type part. */
  function LastMatch(keys: seq<string>, name: string): (r: Option<InstanceRef>)
    ensures IsLastMatch(keys, name, r)
  {
    if keys == [] then None
    else
      var key := keys[|keys| - 1];
      if InstancePart(key) == Some(name) then
        LastMatchHere(keys, name);
        Some(InstanceRef(TypePart(key), name))
      else
        var r := LastMatch(keys[..|keys| - 1], name);
        if r.None? then LastMatchSkipNone(keys, name); r
        else LastMatchSkipSome(keys, name, r.value); r
  }

  /** The id of a child component: `<stage>.<rootName>.<instanceName>`. */
  function ChildId(stage: string, rootName: string, instanceName: string): (id: string)
    ensures |id| == |stage| + |rootName| + |instanceName| + 2
    ensures id[..|stage|] == stage && id[|stage|] == '.'
    ensures id[|stage| + 1..|stage| + 1 + |rootName|] == rootName && id[|stage| + 1 + |rootName|] == '.'
    ensures id[|id| - |instanceName|..] == instanceName
  {
    stage + "." + rootName + "." + instanceName
  }

  /** In `a.r` with `a` dot-free, the first dot sits right after `a`. */
  lemma FirstDot(a: string, r: string)
    requires '.' !in a
    ensures (a + "." + r)[|a|] == '.'
    ensures forall k :: 0 <= k < |a| ==> (a + "." + r)[k] != '.'
  {
    forall k | 0 <= k < |a|
      ensures (a + "." + r)[k] != '.'
    {
      assert (a + "." + r)[k] == a[k];
    }
  }

  /** So `a.r` determines both `a` and `r`. */
  lemma DotSplit(a: string, b: string, r1: string, r2: string)
    requires '.' !in a && '.' !in b
    requires a + "." + r1 == b + "." + r2
    ensures a == b && r1 == r2
  {
    var s := a + "." + r1;
    FirstDot(a, r1);
    FirstDot(b, r2);
    assert |a| == |b|;
    assert a == s[..|a|] && b == (b + "." + r2)[..|b|];
    assert r1 == s[|a| + 1..] && r2 == (b + "." + r2)[|b| + 1..];
  }

  /** Distinct children get distinct ids, as long as stage and root name hold no dot. */
  lemma ChildIdInjective(s1: string, n1: string, i1: string, s2: string, n2: string, i2: string)
    requires '.' !in s1 && '.' !in s2 && '.' !in n1 && '.' !in n2
    requires ChildId(s1, n1, i1) == ChildId(s2, n2, i2)
    ensures s1 == s2 && n1 == n2 && i1 == i2
  {
    assert ChildId(s1, n1, i1) == s1 + "." + (n1 + "." + i1);
    assert ChildId(s2, n2, i2) == s2 + "." + (n2 + "." + i2);
    DotSplit(s1, s2, n1 + "." + i1, n2 + "." + i2);
    DotSplit(n1, n2, i1, i2);
  }

  // ---------------------------------------------------------------------
  // The declarative runner (serverless.yml, .yaml, .json)
  // ---------------------------------------------------------------------

  /** A parsed declarative file: its name and the keys of its `components` table, in order. */
  datatype Definition = Definition(name: string, components: seq<string>)

  function InstanceMissingMessage(instance: string): string {
    "Component instance \"" + instance + "\" does not exist in your project."
  }

  function InvalidComponentMessage(componentType: string): string {
    "Component \"" + componentType + "\" is not a valid Component."
  }

  /** What runDeclarative does, branch by branch. */
  function DeclarativeOutcome(def: Definition, stage: string, instance: Option<string>, methodName: Option<string>,
                              validTypes: set<string>, failures: map<Invocation, string>): (r: Completion)
    ensures r.Threw? ==> Truthy(instance) && Truthy(methodName)
    ensures r == Completed(NoBranch) <==> Truthy(instance) && !Truthy(methodName)
    ensures r.Completed? && r.outcome.Reported? ==> r.outcome.origin == def.name || r.outcome.origin in validTypes
    ensures r.Completed? && r.outcome.Outputs? ==>
      r.outcome.call !in failures && r.outcome.call.methodName == (if Truthy(methodName) then methodName else None)
    ensures !Truthy(instance) ==>
      r == Completed(Invoke(Invocation(def.name, if Truthy(methodName) then methodName else None), failures, def.name))
  {
    if !Truthy(instance) && !Truthy(methodName) then
      Completed(Invoke(Invocation(def.name, None), failures, def.name))
    else if !Truthy(instance) then
      Completed(Invoke(Invocation(def.name, methodName), failures, def.name))
    else if Truthy(methodName) then
      match LastMatch(def.components, instance.value)
      case None => Threw(InstanceMissingMessage(instance.value))
      case Some(found) =>
        if found.componentType !in validTypes then Threw(InvalidComponentMessage(found.componentType))
        else Completed(Invoke(Invocation(ChildId(stage, def.name, found.instanceName), methodName), failures, found.componentType))
    else
      Completed(NoBranch)
  }

  /**
   * With an instance and a method, the child called is the one of the last
   * key naming that instance, and its id is `<stage>.<name>.<instance>`.
   */
  lemma DeclarativeTargetsLastInstance(def: Definition, stage: string, instance: Option<string>, methodName: Option<string>,
                                       validTypes: set<string>, failures: map<Invocation, string>, j: int)
    requires Truthy(instance) && Truthy(methodName)
    requires 0 <= j < |def.components| && InstancePart(def.components[j]) == instance
    requires forall later :: j < later < |def.components| ==> InstancePart(def.components[later]) != instance
    requires TypePart(def.components[j]) in validTypes
    ensures DeclarativeOutcome(def, stage, instance, methodName, validTypes, failures)
      == Completed(Invoke(Invocation(ChildId(stage, def.name, instance.value), methodName), failures, TypePart(def.components[j])))
  {
    var found := LastMatch(def.components, instance.value);
    assert found.Some?;
    var k :| 0 <= k < |def.components| && InstancePart(def.components[k]) == Some(instance.value)
      && found.value == InstanceRef(TypePart(def.components[k]), instance.value)
      && forall later :: k < later < |def.components| ==> InstancePart(def.components[later]) != Some(instance.value);
    assert k == j;
  }

  /** With an instance and a method, an instance no key names is an error thrown to run. */
  lemma DeclarativeMissingInstance(def: Definition, stage: string, instance: Option<string>, methodName: Option<string>,
                                   validTypes: set<string>, failures: map<Invocation, string>)
    requires Truthy(instance) && Truthy(methodName)
    requires forall j :: 0 <= j < |def.components| ==> InstancePart(def.components[j]) != instance
    ensures DeclarativeOutcome(def, stage, instance, methodName, validTypes, failures) == Threw(InstanceMissingMessage(instance.value))
  {
  }

  /** With an instance and a method, a last matching key whose type is not a component type is thrown to run. */
  lemma DeclarativeInvalidType(def: Definition, stage: string, instance: Option<string>, methodName: Option<string>,
                               validTypes: set<string>, failures: map<Invocation, string>, j: int)
    requires Truthy(instance) && Truthy(methodName)
    requires 0 <= j < |def.components| && InstancePart(def.components[j]) == instance
    requires forall later :: j < later < |def.components| ==> InstancePart(def.components[later]) != instance
    requires TypePart(def.components[j]) !in validTypes
    ensures DeclarativeOutcome(def, stage, instance, methodName, validTypes, failures)
      == Threw(InvalidComponentMessage(TypePart(def.components[j])))
  {
    var found := LastMatch(def.components, instance.value);
    assert found.Some?;
    var k :| 0 <= k < |def.components| && InstancePart(def.components[k]) == Some(instance.value)
      && found.value == InstanceRef(TypePart(def.components[k]), instance.value)
      && forall later :: k < later < |def.components| ==> InstancePart(def.components[later]) != Some(instance.value);
    assert k == j;
  }

  /**
   * The scan of the components table: every key is split on `::`, and the
   * last key whose instance part is `name` is kept, with its type part.
   */
  method FindInstance(keys: seq<string>, name: string) returns (found: Option<InstanceRef>)
    ensures found == LastMatch(keys, name)
  {
    found := None;
    var n := 0;
    while n < |keys|
      invariant 0 <= n <= |keys|
      invariant found == LastMatch(keys[..n], name)
    {
      var c := TypePart(keys[n]);
      var i := InstancePart(keys[n]);
      if Some(name) == i {
        found := Some(InstanceRef(c, i.value));
      }
      assert keys[..n + 1][..n] == keys[..n];
      n := n + 1;
    }
    assert keys[..n] == keys;
  }

  /**
   * runDeclarative: the root's default call, the root's method, or the
   * method of the child found by scanning the components table.
   */
  method RunDeclarative(def: Definition, stage: string, instance: Option<string>, methodName: Option<string>,
                        validTypes: set<string>, failures: map<Invocation, string>) returns (r: Completion)
    ensures r == DeclarativeOutcome(def, stage, instance, methodName, validTypes, failures)
  {
    if !Truthy(instance) && !Truthy(methodName) {
      return Completed(Invoke(Invocation(def.name, None), failures, def.name));
    }
    if !Truthy(instance) && Truthy(methodName) {
      return Completed(Invoke(Invocation(def.name, methodName), failures, def.name));
    }
    if Truthy(instance) && Truthy(methodName) {
      var found := FindInstance(def.components, instance.value);
      if found.None? {
        return Threw(InstanceMissingMessage(instance.value));
      }
      if found.value.componentType !in validTypes {
        return Threw(InvalidComponentMessage(found.value.componentType));
      }
      var id := ChildId(stage, def.name, found.value.instanceName);
      return Completed(Invoke(Invocation(id, methodName), failures, found.value.componentType));
    }
    return Completed(NoBranch);
  }

  // ---------------------------------------------------------------------
  // run
  // ---------------------------------------------------------------------

  /**
   * Everything run reads from outside: the files in the root, what each
   * environment file parses to, the exported component of serverless.js,
   * each declarative file's contents, the component types that exist, and
   * the calls that throw.
   */
  datatype Project = Project(
    files: set<string>,
    envFiles: map<string, map<string, string>>,
    program: Program,
    read: string -> Definition,
    validTypes: set<string>,
    failures: map<Invocation, string>)

  /** What run returns once the configuration has its defaults. */
  function Dispatch(root: string, stage: string, instance: Option<string>, methodName: Option<string>, p: Project): (r: Outcome)
    ensures DefinitionFileName(p.files).None? ==> r == Reported(NoDefinitionMessage(root), RootOrigin)
    ensures r.Outputs? ==> DefinitionFileName(p.files).Some? && r.call !in p.failures
    ensures r.Outputs? && Truthy(r.call.methodName) ==> r.call.methodName == methodName
  {
    match DefinitionFileName(p.files)
    case None => Reported(NoDefinitionMessage(root), RootOrigin)
    case Some(f) =>
      if f == ProgrammaticFile then RunProgrammatic(p.program, methodName, p.failures)
      else
        match DeclarativeOutcome(p.read(f), stage, instance, methodName, p.validTypes, p.failures)
        case Completed(o) => o
        case Threw(m) => Reported(m, RootOrigin)
  }

  /** serverless.js wins over every declarative file. */
  lemma ProgrammaticFirst(root: string, stage: string, instance: Option<string>, methodName: Option<string>, p: Project)
    requires ProgrammaticFile in p.files
    ensures Dispatch(root, stage, instance, methodName, p) == RunProgrammatic(p.program, methodName, p.failures)
  {
  }

  /**
   * A declarative file runs the declarative runner on that file's contents;
   * what the runner throws is reported under `Serverless Components`.
   */
  lemma DispatchDeclarative(root: string, stage: string, instance: Option<string>, methodName: Option<string>, p: Project)
    requires DefinitionFileName(p.files).Some? && DefinitionFileName(p.files).value != ProgrammaticFile
    ensures var c := DeclarativeOutcome(p.read(DefinitionFileName(p.files).value), stage, instance, methodName, p.validTypes, p.failures);
      Dispatch(root, stage, instance, methodName, p) == (if c.Completed? then c.outcome else Reported(c.message, RootOrigin))
  {
  }

  /** Through run, an instance no key names is reported under `Serverless Components`. */
  lemma DispatchMissingInstance(root: string, stage: string, instance: Option<string>, methodName: Option<string>, p: Project)
    requires DefinitionFileName(p.files).Some? && DefinitionFileName(p.files).value != ProgrammaticFile
    requires Truthy(instance) && Truthy(methodName)
    requires var def := p.read(DefinitionFileName(p.files).value);
      forall j :: 0 <= j < |def.components| ==> InstancePart(def.components[j]) != instance
    ensures Dispatch(root, stage, instance, methodName, p) == Reported(InstanceMissingMessage(instance.value), RootOrigin)
  {
    var def := p.read(DefinitionFileName(p.files).value);
    DeclarativeMissingInstance(def, stage, instance, methodName, p.validTypes, p.failures);
  }

  /** Through run, an instance whose type is not a component type is reported under `Serverless Components`. */
  lemma DispatchInvalidType(root: string, stage: string, instance: Option<string>, methodName: Option<string>, p: Project, j: int)
    requires DefinitionFileName(p.files).Some? && DefinitionFileName(p.files).value != ProgrammaticFile
    requires Truthy(instance) && Truthy(methodName)
    requires var def := p.read(DefinitionFileName(p.files).value);
      && 0 <= j < |def.components| && InstancePart(def.components[j]) == instance
      && (forall later :: j < later < |def.components| ==> InstancePart(def.components[later]) != instance)
      && TypePart(def.components[j]) !in p.validTypes
    ensures Dispatch(root, stage, instance, methodName, p)
      == Reported(InvalidComponentMessage(TypePart(p.read(DefinitionFileName(p.files).value).components[j])), RootOrigin)
  {
    var def := p.read(DefinitionFileName(p.files).value);
    DeclarativeInvalidType(def, stage, instance, methodName, p.validTypes, p.failures, j);
  }

  /**
   * run returns `undefined` exactly when a declarative file is used with an
   * instance but no method: no branch of runDeclarative applies.
   */
  lemma DispatchNoBranch(root: string, stage: string, instance: Option<string>, methodName: Option<string>, p: Project)
    ensures Dispatch(root, stage, instance, methodName, p) == NoBranch <==>
      (DefinitionFileName(p.files).Some? && DefinitionFileName(p.files).value != ProgrammaticFile
       && Truthy(instance) && !Truthy(methodName))
  {
  }

  /**
   * run: applies the defaults, merges the environment file's variables into
   * the credentials, and dispatches on the definition file.
   */
  method Run(config: RunConfig, cwd: string, p: Project) returns (result: Outcome)
    modifies config, config.credentials
    ensures config.root == Some(OrDefault(old(config.root), cwd))
    ensures config.stage == Some(OrDefault(old(config.stage), DefaultStage))
    ensures config.instance == OrNull(old(config.instance)) && config.methodName == OrNull(old(config.methodName))
    ensures config.credentials != null
    ensures old(config.credentials) != null ==> config.credentials == old(config.credentials)
    ensures old(config.credentials) != null ==>
      config.credentials.entries == EnvCredentials.Merge(old(config.credentials.entries), LoadEnvVars(config.stage.value, p.files, p.envFiles))
    ensures old(config.credentials) == null ==> fresh(config.credentials)
    ensures old(config.credentials) == null ==>
      config.credentials.entries == EnvCredentials.Merge(map[], LoadEnvVars(config.stage.value, p.files, p.envFiles))
    ensures result == Dispatch(config.root.value, config.stage.value, config.instance, config.methodName, p)
  {
    config.ApplyDefaults(cwd);
    LoadCredentials(config, p);
    result := RunDefinitionFile(config.root.value, config.stage.value, config.instance, config.methodName, p);
  }

  /** Merges the variables of the stage's environment file into the (already defaulted) credentials object. */
  method LoadCredentials(config: RunConfig, p: Project)
    requires config.credentials != null && config.stage.Some?
    modifies config`credentials, config.credentials
    ensures config.credentials == old(config.credentials)
    ensures config.credentials.entries ==
      EnvCredentials.Merge(old(config.credentials.entries), LoadEnvVars(config.stage.value, p.files, p.envFiles))
  {
    var envVars := ReadEnvVars(config.stage.value, p);
    config.credentials := EnvCredentials.AddEnvVarsToCredentials(envVars, config.credentials);
  }

  /** Loads the stage's environment file, or `.env`, into a table of variables. */
  method ReadEnvVars(stage: string, p: Project) returns (envVars: map<string, string>)
    ensures envVars == LoadEnvVars(stage, p.files, p.envFiles)
  {
    envVars := map[];
    var envFile := EnvFileName(stage, p.files);
    if envFile.Some? && envFile.value in p.envFiles {
      envVars := p.envFiles[envFile.value];
    }
  }

  /**
   * The try block of run: the runner for the first definition file that
   * exists, with anything thrown reported under `Serverless Components`.
   */
  method RunDefinitionFile(root: string, stage: string, instance: Option<string>, methodName: Option<string>, p: Project)
    returns (result: Outcome)
    ensures result == Dispatch(root, stage, instance, methodName, p)
  {
    var definition := DefinitionFileName(p.files);
    if definition.None? {
      return Reported(NoDefinitionMessage(root), RootOrigin);
    }
    if definition.value == ProgrammaticFile {
      return RunProgrammatic(p.program, methodName, p.failures);
    }
    var completion := RunDeclarative(p.read(definition.value), stage, instance, methodName, p.validTypes, p.failures);
    match completion
    case Completed(o) => result := o;
    case Threw(m) => result := Reported(m, RootOrigin);
  }
}
