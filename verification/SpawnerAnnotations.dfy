/** The changes annotations make to a pod spec before it is created: an init
    container, a pre-stop hook or sidecar, and the context as variables. */
module SpawnerAnnotations {
  import opened Pods
  import opened PodSpec
  import opened Text

  const REQUIRED_CONTEXT := "nogoo9/required-context"
  const INIT_IMAGE := "nogoo9/init-image"
  const INIT_COMMAND := "nogoo9/init-command"
  const INIT_SHARE_VOLUMES := "nogoo9/init-share-volumes"
  const PRE_STOP_COMMAND := "nogoo9/pre-stop-command"
  const PRE_STOP_SIDECAR_IMAGE := "nogoo9/pre-stop-sidecar-image"
  const DEFAULT_GRACE_PERIOD := "nogoo9/default-grace-period"

  type Annotations = map<string, string>

  datatype Applied = Ok(args: PodArgs) | MissingContext(keys: seq<string>)

  function Shell(command: string): seq<string> { ["/bin/sh", "-c", command] }

  function MissingKeys(required: seq<string>, context: seq<EnvVar>): seq<string> {
    if required == [] then []
    else
      var rest := MissingKeys(required[..|required| - 1], context);
      var key := required[|required| - 1];
      if FindIndex(EnvName, context, key) == |context| then rest + [key] else rest
  }

  function Missing(annotations: Annotations, context: seq<EnvVar>): seq<string> {
    var raw := Lookup(annotations, REQUIRED_CONTEXT);
    if raw == "" then [] else MissingKeys(Items(raw, ','), context)
  }

  function InitContainer(main: Container, annotations: Annotations, env: seq<EnvVar>): Container {
    Container("spawner-init", Lookup(annotations, INIT_IMAGE), Shell(Lookup(annotations, INIT_COMMAND)),
              Some(env), if Lookup(annotations, INIT_SHARE_VOLUMES) != "false" then main.mounts else None, None)
  }

  function Sidecar(main: Container, annotations: Annotations, env: seq<EnvVar>): Container {
    Container("spawner-sidecar", Lookup(annotations, PRE_STOP_SIDECAR_IMAGE), Shell("sleep infinity"),
              Some(env), main.mounts, Some(Shell(Lookup(annotations, PRE_STOP_COMMAND))))
  }

  predicate WantsInit(containers: seq<Container>, annotations: Annotations) {
    containers != [] && Lookup(annotations, INIT_IMAGE) != "" && Lookup(annotations, INIT_COMMAND) != ""
  }

  predicate WantsPreStop(containers: seq<Container>, annotations: Annotations) {
    containers != [] && Lookup(annotations, PRE_STOP_COMMAND) != ""
  }

  /** The working copy of a spec that the injections write to. */
  class Draft {
    var containers: seq<Container>
    var initContainers: Option<seq<Container>>
    var gracePeriod: Option<string>

    constructor (spec: PodArgs)
      ensures containers == spec.containers && initContainers == spec.initContainers
      ensures gracePeriod == spec.gracePeriod
    {
      containers, initContainers, gracePeriod := spec.containers, spec.initContainers, spec.gracePeriod;
    }

    method InjectInitContainer(annotations: Annotations, env: seq<EnvVar>)
      modifies this
      ensures containers == old(containers) && gracePeriod == old(gracePeriod)
      ensures if WantsInit(containers, annotations)
              then initContainers == Some(OrEmpty(old(initContainers)) + [InitContainer(containers[0], annotations, env)])
              else initContainers == old(initContainers)
    {
      if WantsInit(containers, annotations) {
        var inits := OrEmpty(initContainers);
        initContainers := Some(inits + [InitContainer(containers[0], annotations, env)]);
      }
    }

    method InjectPreStopHook(annotations: Annotations, env: seq<EnvVar>)
      modifies this
      ensures initContainers == old(initContainers)
      ensures if !WantsPreStop(old(containers), annotations)
              then containers == old(containers) && gracePeriod == old(gracePeriod)
              else
                && gracePeriod == Some(var g := Lookup(annotations, DEFAULT_GRACE_PERIOD); if g != "" then g else "60")
                && containers == if Lookup(annotations, PRE_STOP_SIDECAR_IMAGE) != ""
                                 then old(containers) + [Sidecar(old(containers)[0], annotations, env)]
                                 else old(containers)[0 := old(containers)[0].(
                                        preStop := Some(Shell(Lookup(annotations, PRE_STOP_COMMAND))))]
    {
      if !WantsPreStop(containers, annotations) {
        return;
      }
      if Lookup(annotations, PRE_STOP_SIDECAR_IMAGE) != "" {
        containers := containers + [Sidecar(containers[0], annotations, env)];
      } else {
        containers := containers[0 := containers[0].(preStop := Some(Shell(Lookup(annotations, PRE_STOP_COMMAND))))];
      }
      var grace := Lookup(annotations, DEFAULT_GRACE_PERIOD);
      gracePeriod := Some(if grace != "" then grace else "60");
    }

    method AppendContext(env: seq<EnvVar>)
      modifies this
      ensures initContainers == old(initContainers) && gracePeriod == old(gracePeriod)
      ensures if old(containers) == [] || env == [] then containers == old(containers)
              else containers == old(containers)[0 := old(containers)[0].(env := Some(OrEmpty(old(containers)[0].env) + env))]
    {
      if containers != [] && env != [] {
        containers := containers[0 := containers[0].(env := Some(OrEmpty(containers[0].env) + env))];
      }
    }
  }

  /** The containers of the result: the hook or the sidecar, then the context. */
  function AppliedContainers(containers: seq<Container>, annotations: Annotations, env: seq<EnvVar>): (r: seq<Container>)
    ensures containers == [] ==> r == []
    ensures containers != [] ==> |r| >= |containers| && r[0].mounts == containers[0].mounts
  {
    var hooked :=
      if !WantsPreStop(containers, annotations) then containers
      else if Lookup(annotations, PRE_STOP_SIDECAR_IMAGE) != ""
      then containers + [Sidecar(containers[0], annotations, env)]
      else containers[0 := containers[0].(preStop := Some(Shell(Lookup(annotations, PRE_STOP_COMMAND))))];
    if hooked == [] || env == [] then hooked
    else hooked[0 := hooked[0].(env := Some(OrEmpty(hooked[0].env) + env))]
  }

  function AppliedInits(spec: PodArgs, annotations: Annotations, env: seq<EnvVar>): Option<seq<Container>> {
    if WantsInit(spec.containers, annotations)
    then Some(OrEmpty(spec.initContainers) + [InitContainer(spec.containers[0], annotations, env)])
    else spec.initContainers
  }

  function AppliedGrace(spec: PodArgs, annotations: Annotations): Option<string> {
    if !WantsPreStop(spec.containers, annotations) then spec.gracePeriod
    else if Lookup(annotations, DEFAULT_GRACE_PERIOD) != "" then Some(Lookup(annotations, DEFAULT_GRACE_PERIOD))
    else Some("60")
  }

  function Apply(spec: PodArgs, annotations: Annotations, context: seq<EnvVar>): Applied {
    if Missing(annotations, context) != [] then MissingContext(Missing(annotations, context))
    else Ok(spec.(containers := AppliedContainers(spec.containers, annotations, context),
                  initContainers := AppliedInits(spec, annotations, context),
                  gracePeriod := AppliedGrace(spec, annotations)))
  }

  method ApplySpawnerAnnotations(spec: PodArgs, annotations: Annotations, context: seq<EnvVar>) returns (r: Applied)
    ensures r == Apply(spec, annotations, context)
  {
    var draft := new Draft(spec);
    var missing := Missing(annotations, context);
    if missing != [] {
      return MissingContext(missing);
    }
    draft.InjectInitContainer(annotations, context);
    draft.InjectPreStopHook(annotations, context);
    draft.AppendContext(context);
    return Ok(spec.(containers := draft.containers, initContainers := draft.initContainers,
                    gracePeriod := draft.gracePeriod));
  }

  // ----- what the injections leave alone

  lemma {:induction false} MissingKeysExactly(required: seq<string>, context: seq<EnvVar>, key: string)
    ensures key in MissingKeys(required, context) <==> key in required && !Has(EnvName, context, key)
  {
    if required != [] {
      var front, last := required[..|required| - 1], required[|required| - 1];
      assert required == front + [last];
      MissingKeysExactly(front, context, key);
    }
  }

  /** A spec is refused exactly when a required variable is not in the context. */
  lemma RefusedExactlyWhenContextMissing(spec: PodArgs, annotations: Annotations, context: seq<EnvVar>)
    ensures Apply(spec, annotations, context).MissingContext? <==>
            Lookup(annotations, REQUIRED_CONTEXT) != "" &&
            exists key :: key in Items(Lookup(annotations, REQUIRED_CONTEXT), ',') && !Has(EnvName, context, key)
  {
    var required := Items(Lookup(annotations, REQUIRED_CONTEXT), ',');
    forall key ensures key in MissingKeys(required, context) <==> key in required && !Has(EnvName, context, key) {
      MissingKeysExactly(required, context, key);
    }
    if MissingKeys(required, context) != [] {
      assert MissingKeys(required, context)[0] in MissingKeys(required, context);
    }
  }

  ghost predicate MountsResolve(c: Container, volumes: seq<Volume>) {
    forall m :: m in OrEmpty(c.mounts) ==> Has(VolumeName, volumes, m.name)
  }

  ghost predicate AllResolve(containers: seq<Container>, volumes: seq<Volume>) {
    forall i :: 0 <= i < |containers| ==> MountsResolve(containers[i], volumes)
  }

  /** The init container and the sidecar mount nothing but what the main container mounts. */
  lemma InjectionsResolve(spec: PodArgs, annotations: Annotations, context: seq<EnvVar>, volumes: seq<Volume>)
    requires AllResolve(spec.containers, volumes) && AllResolve(OrEmpty(spec.initContainers), volumes)
    ensures AllResolve(AppliedContainers(spec.containers, annotations, context), volumes)
    ensures AllResolve(OrEmpty(AppliedInits(spec, annotations, context)), volumes)
  {
    if spec.containers != [] {
      assert MountsResolve(spec.containers[0], volumes);
    }
  }

  /** A last-wins reader of the main container sees the context over its own variables. */
  lemma AppliedEnv(containers: seq<Container>, annotations: Annotations, context: seq<EnvVar>)
    requires containers != []
    ensures OrEmpty(AppliedContainers(containers, annotations, context)[0].env) == OrEmpty(containers[0].env) + context
  {
  }

  /** The keys that are reported: the items of the list for which no variable is given. */
  lemma MissingMeaning(annotations: Annotations, context: seq<EnvVar>, key: string)
    ensures key in Missing(annotations, context) <==>
            var required := Lookup(annotations, "nogoo9/required-context");
            && required != "" && (exists part :: HasPart(required, Is(','), part) && key == Trim(part))
            && forall e :: e in context ==> e.name != key
  {
    var required := Lookup(annotations, REQUIRED_CONTEXT);
    MissingKeysExactly(Items(required, ','), context, key);
    ItemsMeaning(required, ',', key);
    if Has(EnvName, context, key) {
      var i :| 0 <= i < |context| && EnvName(context[i]) == key;
      assert context[i] in context;
    } else {
      forall e | e in context ensures e.name != key {
        var i :| 0 <= i < |context| && context[i] == e;
        assert EnvName(context[i]) == e.name;
      }
    }
  }

  /** Whether a sidecar is added, or a hook set on the main container. */
  predicate AddsSidecar(spec: PodArgs, annotations: Annotations) {
    spec.containers != [] && Lookup(annotations, "nogoo9/pre-stop-command") != ""
    && Lookup(annotations, "nogoo9/pre-stop-sidecar-image") != ""
  }

  predicate SetsHook(spec: PodArgs, annotations: Annotations) {
    spec.containers != [] && Lookup(annotations, "nogoo9/pre-stop-command") != ""
    && Lookup(annotations, "nogoo9/pre-stop-sidecar-image") == ""
  }

  /** What becomes of the spec's own containers: all stay in their places as they were but
      the first, which gets the context and perhaps the hook. */
  lemma OwnContainersKept(spec: PodArgs, annotations: Annotations, context: seq<EnvVar>, i: nat)
    requires Apply(spec, annotations, context).Ok?
    ensures var args := Apply(spec, annotations, context).args;
            && |args.containers| == |spec.containers| + (if AddsSidecar(spec, annotations) then 1 else 0)
            && (0 < i < |spec.containers| ==> args.containers[i] == spec.containers[i])
            && (0 == i < |spec.containers| ==>
                  var was, after := spec.containers[0], args.containers[0];
                  && after.name == was.name && after.image == was.image && after.command == was.command && after.mounts == was.mounts
                  && OrEmpty(after.env) == OrEmpty(was.env) + context
                  && after.preStop == if SetsHook(spec, annotations)
                                    then Some(["/bin/sh", "-c", Lookup(annotations, "nogoo9/pre-stop-command")])
                                    else was.preStop)
  {
  }

  /** The sidecar runs the command when the pod stops, the grace period is set with it, and
      what the injections are not about stays. */
  lemma SidecarMeaning(spec: PodArgs, annotations: Annotations, context: seq<EnvVar>)
    requires Apply(spec, annotations, context).Ok?
    ensures var args := Apply(spec, annotations, context).args;
            && (AddsSidecar(spec, annotations) ==>
                  args.containers[|spec.containers|] ==
                  Container("spawner-sidecar", Lookup(annotations, "nogoo9/pre-stop-sidecar-image"),
                            ["/bin/sh", "-c", "sleep infinity"], Some(context), spec.containers[0].mounts,
                            Some(["/bin/sh", "-c", Lookup(annotations, "nogoo9/pre-stop-command")])))
            && args.gracePeriod == (if !AddsSidecar(spec, annotations) && !SetsHook(spec, annotations) then spec.gracePeriod
                                    else if Lookup(annotations, "nogoo9/default-grace-period") == "" then Some("60")
                                    else Some(Lookup(annotations, "nogoo9/default-grace-period")))
            && args.volumes == spec.volumes && args.serviceAccount == spec.serviceAccount
            && args.labels == spec.labels && args.annotations == spec.annotations
  {
  }

  /** The init containers: the spec's, and behind them the one the annotations ask for. */
  lemma InitMeaning(spec: PodArgs, annotations: Annotations, context: seq<EnvVar>)
    requires Apply(spec, annotations, context).Ok?
    ensures var inits := OrEmpty(Apply(spec, annotations, context).args.initContainers);
            var image, command := Lookup(annotations, "nogoo9/init-image"), Lookup(annotations, "nogoo9/init-command");
            if spec.containers == [] || image == "" || command == "" then inits == OrEmpty(spec.initContainers)
            else
              && |inits| == |OrEmpty(spec.initContainers)| + 1
              && inits[..|inits| - 1] == OrEmpty(spec.initContainers)
              && var last := inits[|inits| - 1];
              && last.name == "spawner-init" && last.image == image && last.command == ["/bin/sh", "-c", command]
              && last.env == Some(context) && last.preStop == None
              && last.mounts == if Lookup(annotations, "nogoo9/init-share-volumes") == "false" then None
                                else spec.containers[0].mounts
  {
  }
}
