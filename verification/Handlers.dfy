/** The body of the spawn handler, and how the calls of spawns and upgrades make up
    the steps that the quota and the ownership of workspaces depend on. */
module Handlers {
  import opened Sorting
  import opened Pods
  import opened Labels
  import opened PodSpec
  import opened Text
  import opened SpawnerAnnotations
  import opened UpgradeSpec
  import opened TemplateVersion
  import opened Reconcile
  import L = Lifecycle

  datatype Source = FromTemplate(ref: string) | Inline(spec: PodArgs, valid: bool) | Neither

  /** `overridden` applies the caller's top-level and container overrides to a spec. */
  datatype Request = Request(
    id: string, user: string, admin: bool, target: string, displayName: string,
    source: Source, labels: StringMap, annotations: StringMap, context: seq<EnvVar>,
    overridden: PodArgs -> PodArgs)

  /** The limit, the template the reference leads to, the placeholder values, whether
      restrictions among these annotations let the caller through, and whether the API
      provides a service account and accepts the pod. */
  datatype Setting = Setting(
    authEnabled: bool, limit: nat, template: Option<Template>, fill: string -> string,
    permitted: StringMap -> bool, account: bool, accepted: bool)

  datatype Outcome =
    | Spawned(name: string, spec: PodArgs)
    | ForbiddenTarget
    | AlreadyExists
    | QuotaReached
    | NoSource
    | TemplateNotFound
    | InvalidSpec
    | TemplateDenied
    | NoServiceAccount
    | ContextMissing(keys: seq<string>)
    | Refused

  function Owner(r: Request): string { if r.target != "" then r.target else r.user }

  function OwnedBy(owner: string): Pod -> bool { (p: Pod) => p.IsWorkspace() && p.Owner() == owner }

  function WithId(id: string): Pod -> bool { (p: Pod) => p.IsWorkspace() && p.WorkspaceId() == id }

  function ActiveAmong(pods: seq<Pod>): set<string> {
    set p | p in pods && L.IsActive(p) && p.WorkspaceId() != "" :: p.WorkspaceId()
  }

  // ----- the pod that is created

  datatype Resolution = Resolution(spec: PodArgs, labels: StringMap, annotations: StringMap)

  function ResolveSource(env: Setting, r: Request): Option<Resolution>
  {
    match r.source
    case Neither => None
    case FromTemplate(ref) =>
      (match env.template
       case None => None
       case Some(t) => Some(Resolution(t.spec, t.labels, ResolvedAnnotations(t.annotations, ref, t.version))))
    case Inline(spec, _) =>
      var named := if r.displayName != "" then map[WORKSPACE_NAME := r.displayName] else map[];
      Some(Resolution(spec, Filled(r.labels, env.fill), named + Filled(r.annotations, env.fill)))
  }

  function NewPod(r: Request, resolved: Resolution, args: PodArgs): Pod {
    var owner := Owner(r);
    Pod(L.SpawnName(owner, r.id), SpawnLabels(args.labels, resolved.labels, r.labels, r.id, owner),
        SpawnAnnotations(resolved.annotations, r.annotations, args.annotations, owner), 0, Pending, "", NoState)
  }

  /** The text of the spec parses. */
  predicate Parses(env: Setting, r: Request) {
    match r.source
    case FromTemplate(_) => env.template.Some? && env.template.value.valid
    case Inline(_, valid) => valid
    case Neither => false
  }

  datatype Admission = Admitted | Taken | Full

  function Admit(env: Setting, r: Request, pods: seq<Pod>): Admission {
    if Filter(WithId(r.id), pods) != [] then Taken
    else if env.limit > 0 && !r.admin && |ActiveAmong(Filter(OwnedBy(Owner(r)), pods))| >= env.limit then Full
    else Admitted
  }

  /** The spec with the caller's overrides, and an account provisioned where it names none. */
  function Prepared(r: Request, spec: PodArgs): PodArgs {
    var own := r.overridden(spec);
    if own.serviceAccount != "" then own else own.(serviceAccount := "ws-sa-" + r.id)
  }

  /** What the API is asked to create. */
  function Posted(args: PodArgs, pod: Pod): PodArgs { args.(labels := pod.labels, annotations := pod.annotations) }

  /** The last check, and the pod. */
  function Prepare(env: Setting, r: Request): (Outcome, Option<Pod>)
    requires ResolveSource(env, r).Some?
  {
    var resolved := ResolveSource(env, r).value;
    match Apply(Prepared(r, resolved.spec), resolved.annotations + r.annotations, r.context)
    case MissingContext(keys) => (Outcome.ContextMissing(keys), None)
    case Ok(args) =>
      var pod := NewPod(r, resolved, args);
      (Spawned(pod.name, Posted(args, pod)), Some(pod))
  }

  /** The error that keeps the pod from being created, or the pod. */
  function Attempt(env: Setting, r: Request, pods: seq<Pod>): (Outcome, Option<Pod>) {
    if r.target != "" && r.target != r.user && env.authEnabled && !r.admin then (ForbiddenTarget, None)
    else if Admit(env, r, pods).Taken? then (AlreadyExists, None)
    else if Admit(env, r, pods).Full? then (QuotaReached, None)
    else if r.source.Neither? then (NoSource, None)
    else match ResolveSource(env, r)
      case None => (Outcome.TemplateNotFound, None)
      case Some(resolved) =>
        if !Parses(env, r) then (Outcome.InvalidSpec, None)
        else if !env.permitted(resolved.annotations) then (TemplateDenied, None)
        else if r.overridden(resolved.spec).serviceAccount == "" && !env.account then (NoServiceAccount, None)
        else Prepare(env, r)
  }

  /** Uniqueness of the id, then the quota of the owner. */
  method CheckAdmission(cluster: Cluster, env: Setting, r: Request) returns (admission: Admission)
    ensures admission == Admit(env, r, cluster.pods)
  {
    var existing := cluster.List(WithId(r.id));
    if existing.Length > 0 {
      return Taken;
    }
    if env.limit > 0 && !r.admin {
      var userPods := cluster.List(OwnedBy(Owner(r)));
      var ids := L.ActiveWorkspaceIds(userPods);
      assert ids == ActiveAmong(userPods[..]);
      if |ids| >= env.limit {
        return Full;
      }
    }
    return Admitted;
  }

  method SpawnWorkspace(cluster: Cluster, env: Setting, r: Request) returns (outcome: Outcome)
    modifies cluster
    ensures var (wanted, pod) := Attempt(env, r, old(cluster.pods));
            if pod.Some? && env.accepted && !NameTaken(old(cluster.pods), pod.value.name)
            then outcome == wanted && cluster.pods == old(cluster.pods) + [pod.value]
            else outcome == (if pod.Some? then Refused else wanted) && cluster.pods == old(cluster.pods)
  {
    if r.target != "" && r.target != r.user && env.authEnabled && !r.admin {
      return ForbiddenTarget;
    }
    var admission := CheckAdmission(cluster, env, r);
    if !admission.Admitted? {
      return if admission.Taken? then AlreadyExists else QuotaReached;
    }
    if r.source.Neither? {
      return NoSource;
    }
    var resolved := ResolveSource(env, r);
    if resolved.None? {
      return Outcome.TemplateNotFound;
    }
    if !Parses(env, r) {
      return Outcome.InvalidSpec;
    }
    if !env.permitted(resolved.value.annotations) {
      return TemplateDenied;
    }
    var spec := r.overridden(resolved.value.spec);
    if spec.serviceAccount == "" {
      if !env.account {
        return NoServiceAccount;
      }
      spec := spec.(serviceAccount := "ws-sa-" + r.id);
    }
    var applied := ApplySpawnerAnnotations(spec, resolved.value.annotations + r.annotations, r.context);
    if applied.MissingContext? {
      return Outcome.ContextMissing(applied.keys);
    }
    var pod := NewPod(r, resolved.value, applied.args);
    var created := cluster.CreatePod(pod, env.accepted);
    return if created then Spawned(pod.name, Posted(applied.args, pod)) else Refused;
  }

  // ----- what a spawn comes to, in terms of the request, the setting and the pods

  ghost predicate HasPod(pods: seq<Pod>, id: string) {
    exists p :: p in pods && Lookup(p.labels, "nogoo9/type") == "workspace" && Lookup(p.labels, "nogoo9/workspace-id") == id
  }

  /** The active workspaces of an owner. */
  ghost function Running(pods: seq<Pod>, owner: string): set<string> {
    set p | p in pods && Lookup(p.labels, "nogoo9/type") == "workspace" && Lookup(p.labels, "nogoo9/user-sub") == owner
            && p.phase !in {Succeeded, Failed} && Lookup(p.labels, "nogoo9/workspace-id") != "" ::
      Lookup(p.labels, "nogoo9/workspace-id")
  }

  lemma HasPodMeaning(pods: seq<Pod>, id: string)
    ensures Filter(WithId(id), pods) != [] <==> HasPod(pods, id)
  {
    var existing := Filter(WithId(id), pods);
    FilterIn(WithId(id), pods);
    if existing != [] { assert existing[0] in existing; }
    if HasPod(pods, id) {
      var p :| p in pods && Lookup(p.labels, "nogoo9/type") == "workspace" && Lookup(p.labels, "nogoo9/workspace-id") == id;
      assert p in existing;
    }
  }

  lemma RunningMeaning(pods: seq<Pod>, owner: string)
    ensures ActiveAmong(Filter(OwnedBy(owner), pods)) == Running(pods, owner)
  {
    FilterIn(OwnedBy(owner), pods);
  }

  lemma AdmitMeaning(env: Setting, r: Request, pods: seq<Pod>)
    ensures var owner := if r.target != "" then r.target else r.user;
            Admit(env, r, pods) == if HasPod(pods, r.id) then Taken
                                   else if env.limit > 0 && !r.admin && |Running(pods, owner)| >= env.limit then Full
                                   else Admitted
  {
    HasPodMeaning(pods, r.id);
    RunningMeaning(pods, Owner(r));
  }

  /** Where the spec comes from. */
  ghost function SourceSpec(env: Setting, r: Request): PodArgs {
    match r.source
    case Inline(spec, _) => spec
    case FromTemplate(_) => (match env.template case Some(t) => t.spec case None => NOTHING)
    case Neither => NOTHING
  }

  ghost predicate Unparsed(env: Setting, r: Request) {
    match r.source
    case Inline(_, valid) => !valid
    case FromTemplate(_) => env.template.Some? && !env.template.value.valid
    case Neither => false
  }

  /** What the restrictions are read from: an inline spec's annotations, filled in, or the
      template's. */
  lemma SourceAnnotation(env: Setting, r: Request, key: string)
    requires ResolveSource(env, r).Some?
    ensures Lookup(ResolveSource(env, r).value.annotations, key) ==
            match r.source
            case Inline(_, _) => if key in r.annotations && key != "__proto__" && key != "constructor" then env.fill(r.annotations[key])
                                 else if key == "nogoo9/workspace-name" then r.displayName else ""
            case FromTemplate(ref) => if key == "nogoo9/template-ref" then ref
                                      else if key == "nogoo9/template-version" then env.template.value.version
                                      else Lookup(env.template.value.annotations, key)
            case Neither => ""
  {
  }

  /** A key among those that the template, or the request, requires and the request's context lacks. */
  ghost predicate LacksContext(env: Setting, r: Request, key: string)
    requires ResolveSource(env, r).Some?
  {
    var required := "nogoo9/required-context";
    var keys := Second(r.annotations, ResolveSource(env, r).value.annotations, required);
    && keys != "" && (exists part :: HasPart(keys, Is(','), part) && key == Trim(part))
    && forall e :: e in r.context ==> e.name != key
  }

  /** What a spawn is refused for before its context is looked at, in the order of the checks. */
  ghost function Refusal(env: Setting, r: Request, pods: seq<Pod>): Option<Outcome> {
    var owner := if r.target != "" then r.target else r.user;
    if r.target != "" && r.target != r.user && env.authEnabled && !r.admin then Some(ForbiddenTarget)
    else if HasPod(pods, r.id) then Some(AlreadyExists)
    else if env.limit > 0 && !r.admin && |Running(pods, owner)| >= env.limit then Some(QuotaReached)
    else if r.source == Neither then Some(NoSource)
    else if r.source.FromTemplate? && env.template == None then Some(Outcome.TemplateNotFound)
    else if Unparsed(env, r) then Some(Outcome.InvalidSpec)
    else if !env.permitted(ResolveSource(env, r).value.annotations) then Some(TemplateDenied)
    else if r.overridden(SourceSpec(env, r)).serviceAccount == "" && !env.account then Some(NoServiceAccount)
    else None
  }

  lemma RefusedFirst(env: Setting, r: Request, pods: seq<Pod>)
    ensures var refusal := Refusal(env, r, pods);
            if refusal.Some? then Attempt(env, r, pods) == (refusal.value, None)
            else ResolveSource(env, r).Some? && Attempt(env, r, pods) == Prepare(env, r)
  {
    AdmitMeaning(env, r, pods);
  }

  lemma ContextCheck(env: Setting, r: Request)
    requires ResolveSource(env, r).Some?
    ensures var applied := Apply(Prepared(r, ResolveSource(env, r).value.spec),
                                 ResolveSource(env, r).value.annotations + r.annotations, r.context);
            if exists key :: LacksContext(env, r, key)
            then applied.MissingContext? && forall key :: key in applied.keys <==> LacksContext(env, r, key)
            else applied.Ok?
  {
    var merged := ResolveSource(env, r).value.annotations + r.annotations;
    var missing := Missing(merged, r.context);
    forall key ensures key in missing <==> LacksContext(env, r, key) { MissingMeaning(merged, r.context, key); }
    if missing != [] { assert missing[0] in missing; }
  }

  /** Which error a spawn ends with, or that it does not. */
  lemma AttemptMeaning(env: Setting, r: Request, pods: seq<Pod>)
    ensures var (outcome, pod) := Attempt(env, r, pods);
            var refusal, owner := Refusal(env, r, pods), if r.target != "" then r.target else r.user;
            && (pod.Some? <==> outcome.Spawned?)
            && if refusal.Some? then outcome == refusal.value
               else if exists key :: LacksContext(env, r, key)
               then outcome.ContextMissing? && forall key :: key in outcome.keys <==> LacksContext(env, r, key)
               else outcome.Spawned? && outcome.name == "ws-" + owner + "-" + r.id
  {
    RefusedFirst(env, r, pods);
    if Refusal(env, r, pods).None? { ContextCheck(env, r); }
  }

  /** The spec that is created: the source's with the overrides and an account, after the
      injections; the pod's name, labels and annotations are its own. */
  lemma SpawnedSpec(env: Setting, r: Request, pods: seq<Pod>)
    requires Attempt(env, r, pods).1.Some?
    ensures var (outcome, created) := Attempt(env, r, pods);
            var pod, own := created.value, r.overridden(SourceSpec(env, r));
            var account := if own.serviceAccount == "" then "ws-sa-" + r.id else own.serviceAccount;
            var applied := Apply(own.(serviceAccount := account), ResolveSource(env, r).value.annotations + r.annotations, r.context);
            && outcome.Spawned? && pod.name == outcome.name && applied.Ok?
            && outcome.spec == applied.args.(labels := pod.labels, annotations := pod.annotations)
            && pod == NewPod(r, ResolveSource(env, r).value, applied.args)
  {
    RefusedFirst(env, r, pods);
  }

  /** Label by label and annotation by annotation: where those of the pod come from. */
  lemma SpawnedMetadata(env: Setting, r: Request, pods: seq<Pod>, key: string)
    requires Attempt(env, r, pods).1.Some?
    ensures var pod, own := Attempt(env, r, pods).1.value, r.overridden(SourceSpec(env, r));
            var owner := if r.target != "" then r.target else r.user;
            && Lookup(pod.labels, key) ==
               (match key
                case "nogoo9/type" => "workspace"
                case "nogoo9/workspace-id" => r.id
                case "nogoo9/managed-by" => "nogoo9-spawner"
                case "nogoo9/user-sub" => owner
                case _ => if key in r.labels then r.labels[key]
                          else if r.source.FromTemplate? then Second(env.template.value.labels, own.labels, key)
                          else Lookup(own.labels, key))
            && Lookup(pod.annotations, key) ==
               (match key
                case "nogoo9/user-sub" => owner
                case _ => if key in own.annotations then own.annotations[key]
                          else Second(r.annotations, ResolveSource(env, r).value.annotations, key))
  {
    var own, resolved := r.overridden(SourceSpec(env, r)), ResolveSource(env, r).value;
    SpawnedSpec(env, r, pods);
    SidecarMeaning(Prepared(r, resolved.spec), resolved.annotations + r.annotations, r.context);
    SpawnedLabel(own.labels, resolved.labels, r.labels, r.id, Owner(r), key);
    SpawnedAnnotation(resolved.annotations, r.annotations, own.annotations, Owner(r), key);
    assert r.source.Inline? ==> resolved.labels.Keys <= r.labels.Keys;
  }

  lemma SpawnedAnnotation(resolved: StringMap, caller: StringMap, spec: StringMap, owner: string, key: string)
    ensures Lookup(SpawnAnnotations(resolved, caller, spec, owner), key) ==
            match key
            case "nogoo9/user-sub" => owner
            case _ => if key in spec then spec[key] else Second(caller, resolved, key)
  {
  }

  lemma SpawnedLabel(spec: StringMap, resolved: StringMap, caller: StringMap, id: string, owner: string, key: string)
    ensures Lookup(SpawnLabels(spec, resolved, caller, id, owner), key) ==
            match key
            case "nogoo9/type" => "workspace"
            case "nogoo9/workspace-id" => id
            case "nogoo9/managed-by" => "nogoo9-spawner"
            case "nogoo9/user-sub" => owner
            case _ => if key in caller then caller[key] else Second(resolved, spec, key)
  {
    IdentityCannotBeOverridden(spec, resolved, caller, id, owner);
  }

  // ----- the steps of the protocol

  /** The listings of the handler show what the steps of the protocol look at. */
  lemma ListingsAgree(pods: seq<Pod>, id: string, owner: string)
    requires UniqueNames(pods)
    ensures Filter(WithId(id), pods) == [] <==> L.Of(ByName(pods), id) == {}
    ensures ActiveAmong(Filter(OwnedBy(owner), pods)) == L.ActiveIds(ByName(pods), owner)
  {
    var store := ByName(pods);
    FilterIn(WithId(id), pods);
    FilterIn(OwnedBy(owner), pods);
    forall p | p in pods ensures p.name in store && store[p.name] == p { ByNameHolds(pods, p); }
    forall n | n in store ensures store[n] in pods && store[n].name == n { }
    if Filter(WithId(id), pods) != [] {
      var p := Filter(WithId(id), pods)[0];
      assert p in Filter(WithId(id), pods);
      assert p.name in L.Of(store, id);
    }
    if n :| n in L.Of(store, id) {
      assert store[n] in Filter(WithId(id), pods);
    }
    ActiveAgree(pods, owner);
  }

  lemma ActiveAgree(pods: seq<Pod>, owner: string)
    requires UniqueNames(pods)
    ensures ActiveAmong(Filter(OwnedBy(owner), pods)) == L.ActiveIds(ByName(pods), owner)
  {
    var store := ByName(pods);
    FilterIn(OwnedBy(owner), pods);
    forall id | id in ActiveAmong(Filter(OwnedBy(owner), pods)) ensures id in L.ActiveIds(store, owner) {
      var p :| p in Filter(OwnedBy(owner), pods) && L.IsActive(p) && p.WorkspaceId() == id;
      ByNameHolds(pods, p);
      assert store[p.name].WorkspaceId() == id;
    }
    forall id | id in L.ActiveIds(store, owner) ensures id in ActiveAmong(Filter(OwnedBy(owner), pods)) {
      var n :| n in store && store[n].IsWorkspace() && store[n].Owner() == owner && L.IsActive(store[n])
               && store[n].WorkspaceId() == id;
      assert store[n] in Filter(OwnedBy(owner), pods);
    }
  }

  /** The check of a spawn that nobody comes between, as steps of the protocol. */
  lemma AdmissionIsTwoSteps(env: Setting, r: Request, pods: seq<Pod>, calls: seq<L.Call>)
    requires UniqueNames(pods) && r.id != "" && Owner(r) != ""
    ensures var c := |calls|;
            var s := L.State(ByName(pods), calls + [L.SpawnStarted(r.id, Owner(r), r.admin)]);
            && L.Do(env.limit, L.State(ByName(pods), calls), L.StartSpawn(r.id, Owner(r), r.admin)) == s
            && var unique := L.Do(env.limit, s, L.CheckUnique(c));
            && (Admit(env, r, pods).Taken? <==> unique.calls[c].Over?)
            && (!unique.calls[c].Over? ==>
                  L.Do(env.limit, unique, L.CheckQuota(c)) ==
                  L.State(ByName(pods),
                          calls + [if Admit(env, r, pods).Full? then L.Over
                                   else L.SpawnAdmitted(r.id, Owner(r), r.admin)]))
  {
    ListingsAgree(pods, r.id, Owner(r));
    var s := L.State(ByName(pods), calls + [L.SpawnStarted(r.id, Owner(r), r.admin)]);
    var unique := L.SpawnUnique(r.id, Owner(r), r.admin);
    assert s.calls[|calls| := unique] == calls + [unique];
    assert forall call :: (calls + [unique])[|calls| := call] == calls + [call];
  }

  /** And its creation: the handler's pod is one the protocol allows, and both
      leave the same pods behind. */
  lemma CreationIsOneStep(env: Setting, r: Request, pods: seq<Pod>, calls: seq<L.Call>)
    requires UniqueNames(pods) && Attempt(env, r, pods).1.Some?
    ensures var pod := Attempt(env, r, pods).1.value;
            var s := L.State(ByName(pods), calls + [L.SpawnAdmitted(r.id, Owner(r), r.admin)]);
            var step := L.CreateSpawned(|calls|, pod, env.accepted);
            && L.Enabled(s, step)
            && if env.accepted && !NameTaken(pods, pod.name)
               then UniqueNames(pods + [pod]) && L.Do(env.limit, s, step).pods == ByName(pods + [pod])
               else L.Do(env.limit, s, step).pods == ByName(pods)
  {
    var pod := Attempt(env, r, pods).1.value;
    if NameTaken(pods, pod.name) {
      var p :| p in pods && p.name == pod.name;
      ByNameHolds(pods, p);
    } else {
      ByNameGrows(pods, pod);
    }
    AttemptedPodIsSpawned(env, r, pods);
  }

  lemma AttemptedPodIsSpawned(env: Setting, r: Request, pods: seq<Pod>)
    requires Attempt(env, r, pods).1.Some?
    ensures L.SpawnedPod(Attempt(env, r, pods).1.value, r.id, Owner(r))
  {
    var pod := Attempt(env, r, pods).1.value;
    var resolved := ResolveSource(env, r).value;
    var args := Apply(Prepared(r, resolved.spec), resolved.annotations + r.annotations, r.context).args;
    assert pod.labels == SpawnLabels(args.labels, resolved.labels, r.labels, r.id, Owner(r));
  }

  /** The pod an upgrade plans is one the protocol allows to be created for the pod
      it read, in the name of whoever asked. */
  lemma PlanIsOneStep(s: L.State, pods: seq<WorkspacePod>, id: string, userSub: string, isAdmin: bool,
                      templates: string -> Option<Template>, pod: Pod)
    requires id != "" && userSub != ""
    requires forall p :: p in pods ==> p.meta.name in s.pods && s.pods[p.meta.name] == p.meta
    ensures var items := Filter(Visible(id, userSub, isAdmin), pods);
            && items != [] && Plan(items[0], id, userSub, templates).Planned?
            && pod.labels == Plan(items[0], id, userSub, templates).args.labels ==>
              L.Enabled(s, L.StartUpgrade(items[0].meta.name, userSub, isAdmin, pod))
  {
    var items := Filter(Visible(id, userSub, isAdmin), pods);
    FilterIn(Visible(id, userSub, isAdmin), pods);
    if items != [] {
      assert items[0] in items;
      PlannedLabels(items[0], id, userSub, templates);
    }
  }

  // ----- what becomes of the display name

  /** What a pod's name annotation is taken from, the strongest source first. */
  function NamedBy(env: Setting, r: Request, args: PodArgs): Option<string> {
    if WORKSPACE_NAME in args.annotations then Some(args.annotations[WORKSPACE_NAME])
    else if WORKSPACE_NAME in r.annotations then Some(r.annotations[WORKSPACE_NAME])
    else if r.source.Inline? then Some(r.displayName)
    else if env.template.Some? && WORKSPACE_NAME in env.template.value.annotations
    then Some(env.template.value.annotations[WORKSPACE_NAME])
    else None
  }

  /** A requested display name reaches the pod if and only if the spec, else the
      caller's annotations, else the template say the same; only a spawn from an
      inline spec falls back to the request itself. */
  lemma DisplayNameKeptExactly(env: Setting, r: Request, args: PodArgs)
    requires r.displayName != "" && ResolveSource(env, r).Some?
    ensures var pod := NewPod(r, ResolveSource(env, r).value, args);
            Lookup(pod.annotations, WORKSPACE_NAME) == r.displayName <==> NamedBy(env, r, args) == Some(r.displayName)
  {
    var resolved := ResolveSource(env, r).value.annotations;
    NameIsOrdinary();
    NameAnnotation(resolved, r.annotations, args.annotations, Owner(r));
    if !r.source.Inline? {
      var t := env.template.value;
      assert Lookup(resolved, WORKSPACE_NAME) == Lookup(t.annotations, WORKSPACE_NAME);
    }
  }

  lemma NameIsOrdinary()
    ensures WORKSPACE_NAME !in {TEMPLATE_REF, TEMPLATE_VERSION, USER_SUB}
  {
    assert WORKSPACE_NAME[7] == 'w' && TEMPLATE_REF[7] == 't' && TEMPLATE_VERSION[7] == 't' && USER_SUB[7] == 'u';
  }

  lemma NameAnnotation(resolved: StringMap, caller: StringMap, spec: StringMap, owner: string)
    ensures Lookup(SpawnAnnotations(resolved, caller, spec, owner), WORKSPACE_NAME) ==
            if WORKSPACE_NAME in spec then spec[WORKSPACE_NAME]
            else if WORKSPACE_NAME in caller then caller[WORKSPACE_NAME]
            else Lookup(resolved, WORKSPACE_NAME)
  {
    NameIsOrdinary();
  }

  // ----- what becomes of placeholders

  predicate IsReserved(key: string) { key in {TYPE, WORKSPACE_ID, MANAGED_BY, USER_SUB} }

  /** In a spawn from an inline spec the caller's labels and annotations are written
      over their filled-in copies. */
  lemma InlinePlaceholdersStay(env: Setting, r: Request, args: PodArgs)
    requires r.source.Inline?
    ensures var pod := NewPod(r, ResolveSource(env, r).value, args);
            && (forall k :: k in r.labels && !IsReserved(k) ==> Lookup(pod.labels, k) == r.labels[k])
            && (forall k :: k in r.annotations && k !in args.annotations && k != USER_SUB ==>
                              Lookup(pod.annotations, k) == r.annotations[k])
  {
  }

  /** So a label or annotation comes out filled in if and only if there was nothing to
      fill in. */
  lemma InlineFilledExactly(env: Setting, r: Request, args: PodArgs)
    requires r.source.Inline?
    ensures var pod := NewPod(r, ResolveSource(env, r).value, args);
            && (forall k :: k in r.labels && !IsReserved(k) ==>
                              (Lookup(pod.labels, k) == env.fill(r.labels[k]) <==> env.fill(r.labels[k]) == r.labels[k]))
            && (forall k :: k in r.annotations && k !in args.annotations && k != USER_SUB ==>
                              (Lookup(pod.annotations, k) == env.fill(r.annotations[k]) <==>
                               env.fill(r.annotations[k]) == r.annotations[k]))
  {
    InlinePlaceholdersStay(env, r, args);
  }

  /** What the copies do decide is access: restrictions are read from the filled-in
      annotations. Apart from that verdict, the placeholder values make no difference. */
  lemma FillingDecidesAccessOnly(env: Setting, other: string -> string, r: Request, pods: seq<Pod>)
    requires r.source.Inline?
    requires var env' := env.(fill := other);
             env.permitted(ResolveSource(env, r).value.annotations) == env.permitted(ResolveSource(env', r).value.annotations)
    ensures Attempt(env, r, pods) == Attempt(env.(fill := other), r, pods)
  {
    var env' := env.(fill := other);
    var a, b := ResolveSource(env, r).value, ResolveSource(env', r).value;
    SameAnnotations(env, other, r);
    forall args: PodArgs ensures NewPod(r, a, args) == NewPod(r, b, args) {
      SameOverwritten(a, b, r, args);
    }
  }

  lemma SameAnnotations(env: Setting, other: string -> string, r: Request)
    requires r.source.Inline?
    ensures ResolveSource(env, r).value.annotations + r.annotations ==
            ResolveSource(env.(fill := other), r).value.annotations + r.annotations
  {
  }

  lemma SameOverwritten(a: Resolution, b: Resolution, r: Request, args: PodArgs)
    requires a.labels.Keys <= r.labels.Keys && b.labels.Keys <= r.labels.Keys
    requires a.annotations + r.annotations == b.annotations + r.annotations
    ensures NewPod(r, a, args) == NewPod(r, b, args)
  {
    assert a.labels + r.labels == r.labels && b.labels + r.labels == r.labels;
  }
}
