/** The pod spec an upgrade creates from a template and the old pod. */
module UpgradeSpec {
  import opened Sorting
  import opened Pods
  import opened PodSpec
  import opened Labels
  import opened SpawnerAnnotations
  import opened Text

  /** A template with the placeholders for user and workspace filled in. Its text may
      fail to parse; then `spec` means nothing. */
  datatype Template = Template(spec: PodArgs, valid: bool, version: string, annotations: StringMap, labels: StringMap)

  const NOTHING := PodArgs([], None, None, "", map[], map[], None)

  /** A pod as it is listed, with or without a spec. */
  datatype WorkspacePod = WorkspacePod(meta: Pod, stored: Option<PodArgs>)
  {
    const spec: PodArgs := stored.GetOr(NOTHING)
  }

  datatype Outcome =
    | Planned(oldPod: string, args: PodArgs, recreate: bool)
    | NotFoundOrDenied
    | NoName
    | NoSpec
    | NoTemplateRef
    | TemplateNotFound
    | InvalidSpec
    | ContextMissing(keys: seq<string>)

  // ----- variables

  /** The variables of the old pod that become context: those with a value,
      under a name an object can hold (a write to `__proto__` is not kept). */
  predicate IsContext(e: EnvVar) {
    e.value.Some? && e.name != "" && e.name != "__proto__"
  }

  function Literal(e: EnvVar): EnvVar { EnvVar(e.name, e.value, None) }

  function ContextOf(env: seq<EnvVar>): seq<EnvVar> {
    if env == [] then []
    else
      var context := ContextOf(env[..|env| - 1]);
      var e := env[|env| - 1];
      if IsContext(e) then Put(EnvName, context, Literal(e)) else context
  }

  method CollectContext(env: seq<EnvVar>) returns (context: seq<EnvVar>)
    ensures context == ContextOf(env)
  {
    context := [];
    var k := 0;
    while k < |env|
      invariant 0 <= k <= |env|
      invariant context == ContextOf(env[..k])
    {
      assert env[..k + 1][..k] == env[..k];
      if IsContext(env[k]) {
        context := Put(EnvName, context, Literal(env[k]));
      }
      k := k + 1;
    }
    assert env[..k] == env;
  }

  /** The value of `name` that the context holds. */
  function LastContext(env: seq<EnvVar>, name: string): Option<EnvVar> {
    if env == [] then None
    else
      var e := env[|env| - 1];
      if e.name == name && IsContext(e) then Some(Literal(e)) else LastContext(env[..|env| - 1], name)
  }

  lemma {:induction false} ContextHolds(env: seq<EnvVar>, name: string)
    ensures Last(EnvName, ContextOf(env), name) == LastContext(env, name)
    ensures Count(EnvName, ContextOf(env), name) == if LastContext(env, name).Some? then 1 else 0
    ensures LastContext(env, name).Some? ==> Has(EnvName, env, name)
  {
    if env != [] {
      var front, e := env[..|env| - 1], env[|env| - 1];
      assert env == front + [e];
      ContextHolds(front, name);
      HasAppend(EnvName, front, e, name);
      if IsContext(e) {
        PutLast(EnvName, ContextOf(front), Literal(e), name);
      }
    }
  }

  /** The context holds the last value that was given to each name, and nothing else. */
  lemma ContextMeaning(env: seq<EnvVar>, c: EnvVar)
    ensures c in ContextOf(env) <==>
            && c.source == None && c.name != "" && c.name != "__proto__"
            && exists i :: 0 <= i < |env| && Gives(env[i], c.name) && env[i].value == c.value
                           && forall j :: i < j < |env| ==> !Gives(env[j], c.name)
    ensures Distinct(EnvName, ContextOf(env))
  {
    forall name ensures Count(EnvName, ContextOf(env), name) <= 1 { ContextHolds(env, name); }
    CountDistinct(EnvName, ContextOf(env));
    DistinctLast(EnvName, ContextOf(env), c);
    ContextHolds(env, c.name);
    LastContextMeaning(env, c.name);
  }

  predicate Gives(e: EnvVar, name: string) { e.name == name && e.value.Some? }

  lemma {:induction false} LastContextMeaning(env: seq<EnvVar>, name: string)
    ensures var last := LastContext(env, name);
            if last.Some? then
              && name != "" && name != "__proto__" && last.value.name == name && last.value.source == None
              && exists i :: 0 <= i < |env| && Gives(env[i], name) && env[i].value == last.value.value
                             && forall j :: i < j < |env| ==> !Gives(env[j], name)
            else name == "" || name == "__proto__" || forall i :: 0 <= i < |env| ==> !Gives(env[i], name)
  {
    if env != [] {
      var front, e := env[..|env| - 1], env[|env| - 1];
      LastContextMeaning(front, name);
      if !(Gives(e, name) && IsContext(e)) && LastContext(env, name).Some? {
        var i :| 0 <= i < |front| && Gives(front[i], name) && front[i].value == LastContext(env, name).value.value
                 && forall j :: i < j < |front| ==> !Gives(front[j], name);
        assert env[i] == front[i];
        forall j | i < j < |env| ensures !Gives(env[j], name) {
          if j < |front| { assert env[j] == front[j]; }
        }
      } else if LastContext(env, name).Some? {
        assert env[|env| - 1] == e;
      } else {
        forall i | 0 <= i < |env| && name != "" && name != "__proto__" ensures !Gives(env[i], name) {
          if i < |front| { assert env[i] == front[i]; }
        }
      }
    }
  }

  /** The variables of the upgraded main container: the template's, the context
      appended to them, and then the old variables merged over the first
      occurrence of their names. */
  function MergedEnv(template: seq<EnvVar>, oldEnv: seq<EnvVar>): seq<EnvVar> {
    Merge(EnvName, template + ContextOf(oldEnv), oldEnv)
  }

  /** What an upgrade is meant to leave: the old variable, else the template's. */
  function Wanted(template: seq<EnvVar>, oldEnv: seq<EnvVar>, name: string): Option<EnvVar> {
    if Last(EnvName, oldEnv, name).Some? then Last(EnvName, oldEnv, name) else Last(EnvName, template, name)
  }

  /** A check on the inputs alone: the appended context copy, or a second
      definition in the template, must not shadow another old definition. */
  predicate CarriesOver(template: seq<EnvVar>, oldEnv: seq<EnvVar>, name: string) {
    var held := Last(EnvName, oldEnv, name);
    held.None? ||
    if LastContext(oldEnv, name).Some?
    then Count(EnvName, template, name) == 0 || LastContext(oldEnv, name) == held
    else Count(EnvName, template, name) <= 1 || Last(EnvName, template, name) == held
  }

  /** For any variables, duplicates and references included: a name keeps its
      old meaning under last-wins reading exactly when it carries over. */
  lemma EnvKeptExactly(template: seq<EnvVar>, oldEnv: seq<EnvVar>, name: string)
    ensures Last(EnvName, MergedEnv(template, oldEnv), name) == Wanted(template, oldEnv, name) <==>
            CarriesOver(template, oldEnv, name)
  {
    var base := template + ContextOf(oldEnv);
    MergeLast(EnvName, base, oldEnv, name);
    LastConcat(EnvName, template, ContextOf(oldEnv), name);
    ContextHolds(oldEnv, name);
    CountZero(EnvName, oldEnv, name);
    CountZero(EnvName, template, name);
    CountZero(EnvName, ContextOf(oldEnv), name);
  }

  /** A reference that the template redefines as a plain value twice is lost. */
  lemma ReferenceCanBeShadowed()
    ensures exists template: seq<EnvVar>, oldEnv: seq<EnvVar>, name ::
              Last(EnvName, MergedEnv(template, oldEnv), name) != Wanted(template, oldEnv, name)
  {
    var template := [EnvVar("A", Some("1"), None), EnvVar("A", Some("2"), None)];
    var oldEnv := [EnvVar("A", None, Some("secret"))];
    assert template[..1] == [template[0]] && [template[0]][..0] == [] && oldEnv[..0] == [];
    assert Count(EnvName, [template[0]], "A") == 1;
    assert Count(EnvName, template, "A") == 2;
    assert LastContext(oldEnv, "A") == None;
    EnvKeptExactly(template, oldEnv, "A");
  }

  ghost predicate Plain(env: seq<EnvVar>) {
    forall e :: e in env ==> IsContext(e) && e.source.None?
  }

  ghost function Names(env: seq<EnvVar>): set<string> { set e | e in env :: e.name }

  /** The environment a process sees: the last definition of a name wins. */
  ghost function Effective(env: seq<EnvVar>): map<string, EnvVar> {
    map name | name in Names(env) && Last(EnvName, env, name).Some? :: Last(EnvName, env, name).value
  }

  lemma NamesAreHad(env: seq<EnvVar>, name: string)
    ensures name in Names(env) <==> Has(EnvName, env, name)
    ensures name in Names(env) <==> Last(EnvName, env, name).Some?
  {
    CountZero(EnvName, env, name);
    if name in Names(env) {
      var e :| e in env && e.name == name;
      var i :| 0 <= i < |env| && env[i] == e;
      assert EnvName(env[i]) == name;
    }
    if Has(EnvName, env, name) {
      var i :| 0 <= i < |env| && EnvName(env[i]) == name;
      assert env[i] in env;
    }
  }

  lemma EffectiveAt(env: seq<EnvVar>, name: string)
    ensures name in Effective(env) <==> Last(EnvName, env, name).Some?
    ensures name in Effective(env) ==> Effective(env)[name] == Last(EnvName, env, name).value
  {
    NamesAreHad(env, name);
  }

  lemma {:induction false} PlainContext(env: seq<EnvVar>, name: string)
    requires Plain(env)
    ensures LastContext(env, name) == Last(EnvName, env, name)
  {
    if env != [] {
      var front, e := env[..|env| - 1], env[|env| - 1];
      assert e in env && env == front + [e];
      PlainContext(front, name);
    }
  }

  /** Plain variables: the upgraded environment is the template's overridden by the old pod's. */
  lemma UpgradeKeepsEnvironment(template: seq<EnvVar>, oldEnv: seq<EnvVar>)
    requires Plain(oldEnv)
    ensures Effective(MergedEnv(template, oldEnv)) == Effective(template) + Effective(oldEnv)
  {
    var r := MergedEnv(template, oldEnv);
    forall name
      ensures name in Effective(r) <==> name in Effective(template) + Effective(oldEnv)
      ensures name in Effective(r) ==> Effective(r)[name] == (Effective(template) + Effective(oldEnv))[name]
    {
      PlainContext(oldEnv, name);
      EnvKeptExactly(template, oldEnv, name);
      EffectiveAt(r, name);
      EffectiveAt(template, name);
      EffectiveAt(oldEnv, name);
    }
  }

  lemma {:induction false} MergePlain(base: seq<EnvVar>, over: seq<EnvVar>)
    requires Plain(base) && Plain(over)
    ensures Plain(Merge(EnvName, base, over))
  {
    if over != [] {
      assert over[|over| - 1] in over;
      MergePlain(base, over[..|over| - 1]);
    }
  }

  lemma {:induction false} ContextPlain(env: seq<EnvVar>)
    ensures Plain(ContextOf(env))
  {
    if env != [] {
      ContextPlain(env[..|env| - 1]);
    }
  }

  lemma UpgradeKeepsPlain(template: seq<EnvVar>, env: seq<EnvVar>)
    requires Plain(template) && Plain(env)
    ensures Plain(MergedEnv(template, env))
  {
    ContextPlain(env);
    MergePlain(template + ContextOf(env), env);
  }

  /** Upgrades in a row, each from its own template. */
  function UpgradedEnv(templates: seq<seq<EnvVar>>, env: seq<EnvVar>): seq<EnvVar> {
    if templates == [] then env
    else MergedEnv(templates[|templates| - 1], UpgradedEnv(templates[..|templates| - 1], env))
  }

  /** Templates in the order of the upgrades, an earlier one over a later one. */
  ghost function Layers(templates: seq<seq<EnvVar>>): map<string, EnvVar> {
    if templates == [] then map[]
    else Effective(templates[|templates| - 1]) + Layers(templates[..|templates| - 1])
  }

  /** However often and with whatever templates a workspace is upgraded, its own
      variables stay, and each other variable keeps the value of the first
      template that defined it: a later change in a template does not reach it. */
  lemma {:induction false} EnvironmentOverUpgrades(templates: seq<seq<EnvVar>>, env: seq<EnvVar>)
    requires Plain(env) && forall t :: t in templates ==> Plain(t)
    ensures Plain(UpgradedEnv(templates, env))
    ensures Effective(UpgradedEnv(templates, env)) == Layers(templates) + Effective(env)
  {
    if templates == [] {
      assert Layers(templates) + Effective(env) == Effective(env);
    } else {
      var front, t := templates[..|templates| - 1], templates[|templates| - 1];
      assert t in templates && forall f :: f in front ==> f in templates;
      EnvironmentOverUpgrades(front, env);
      OneMoreUpgrade(t, UpgradedEnv(front, env), Layers(front), env);
    }
  }

  lemma OneMoreUpgrade(template: seq<EnvVar>, before: seq<EnvVar>, layers: map<string, EnvVar>, env: seq<EnvVar>)
    requires Plain(template) && Plain(before) && Effective(before) == layers + Effective(env)
    ensures Plain(MergedEnv(template, before))
    ensures Effective(MergedEnv(template, before)) == Effective(template) + layers + Effective(env)
  {
    UpgradeKeepsPlain(template, before);
    UpgradeKeepsEnvironment(template, before);
    OverrideAssociates(Effective(template), layers, Effective(env));
  }

  lemma OverrideAssociates<K, V>(a: map<K, V>, b: map<K, V>, c: map<K, V>)
    ensures a + (b + c) == a + b + c
  {
  }

  /** An unchanged template: the second upgrade changes nothing. */
  lemma SecondUpgradeSameEnvironment(template: seq<EnvVar>, env: seq<EnvVar>)
    requires Plain(env) && Plain(template)
    ensures Effective(MergedEnv(template, MergedEnv(template, env))) == Effective(MergedEnv(template, env))
  {
    UpgradeKeepsEnvironment(template, env);
    UpgradeKeepsPlain(template, env);
    UpgradeKeepsEnvironment(template, MergedEnv(template, env));
  }

  // ----- the whole spec

  /** The label selector of the lookup; administrators see every owner's pods. */
  function Visible(id: string, userSub: string, isAdmin: bool): WorkspacePod -> bool {
    (p: WorkspacePod) =>
      p.meta.IsWorkspace() && p.meta.WorkspaceId() == id && (isAdmin || p.meta.Owner() == userSub)
  }

  function MergedContainers(applied: seq<Container>, oldContainers: seq<Container>): seq<Container> {
    if oldContainers == [] || applied == [] then applied
    else
      applied[0 := applied[0].(
        mounts := Some(AddMounts(OrEmpty(applied[0].mounts), OrEmpty(oldContainers[0].mounts))),
        env := Some(Merge(EnvName, OrEmpty(applied[0].env), OrEmpty(oldContainers[0].env))))]
  }

  function OldContext(oldSpec: PodArgs): seq<EnvVar> {
    if oldSpec.containers == [] then [] else ContextOf(OrEmpty(oldSpec.containers[0].env))
  }

  function PlannedArgs(applied: PodArgs, template: Template, oldPod: WorkspacePod, id: string, owner: string): PodArgs {
    applied.(
      containers := MergedContainers(applied.containers, oldPod.spec.containers),
      volumes := Some(Merge(VolumeName, OrEmpty(applied.volumes), OrEmpty(oldPod.spec.volumes))),
      serviceAccount := if oldPod.spec.serviceAccount != "" then oldPod.spec.serviceAccount else applied.serviceAccount,
      labels := UpgradeLabels(template.labels, oldPod.meta.labels, applied.labels, id, owner),
      annotations := UpgradeAnnotations(
        MergedAnnotations(template.annotations, oldPod.meta.annotations, template.version), applied.annotations, owner))
  }

  predicate HasClaim(v: Volume) { v.claim.Some? }

  function Plan(oldPod: WorkspacePod, id: string, userSub: string, templates: string -> Option<Template>): Outcome {
    var ref := Lookup(oldPod.meta.annotations, TEMPLATE_REF);
    if oldPod.meta.name == "" then NoName
    else if oldPod.stored.None? then NoSpec
    else if ref == "" then NoTemplateRef
    else match templates(ref)
      case None => TemplateNotFound
      case Some(template) =>
        if !template.valid then InvalidSpec else
        var owner := UpgradeOwner(oldPod.meta.labels, oldPod.meta.annotations, userSub);
        var merged := MergedAnnotations(template.annotations, oldPod.meta.annotations, template.version);
        match Apply(template.spec, merged, OldContext(oldPod.spec))
        case MissingContext(keys) => ContextMissing(keys)
        case Ok(applied) =>
          Planned(oldPod.meta.name, PlannedArgs(applied, template, oldPod, id, owner),
                  Filter(HasClaim, OrEmpty(oldPod.spec.volumes)) != [])
  }

  predicate InName(c: char) { 'a' <= c <= 'z' || 'A' <= c <= 'Z' || '0' <= c <= '9' || c == '-' }

  function Prefix(s: string, n: nat): string { if |s| <= n then s else s[..n] }

  type Suffix = s: string | |s| <= 63

  /** The name of the new pod: what fits in front of a random suffix. */
  function NewPodName(owner: string, id: string, suffix: Suffix): string {
    Prefix("ws-" + Prefix(Filter(InName, owner), 10) + "-" + id, 63 - |suffix|) + suffix
  }

  lemma {:induction false} FilterKeepsAll(s: string)
    requires forall c :: c in s ==> InName(c)
    ensures Filter(InName, s) == s
  {
    if s != [] {
      assert s[|s| - 1] in s && s == s[..|s| - 1] + [s[|s| - 1]];
      FilterKeepsAll(s[..|s| - 1]);
    }
  }

  /** Names fit the limit of the API, and differ where the suffixes do. */
  lemma NewPodNames(owner: string, id: string, suffix: Suffix, owner': string, id': string, suffix': Suffix)
    requires |suffix| == |suffix'|
    ensures |NewPodName(owner, id, suffix)| <= 63
    ensures suffix != suffix' ==> NewPodName(owner, id, suffix) != NewPodName(owner', id', suffix')
    ensures |owner| <= 10 && (forall c :: c in owner ==> 'a' <= c <= 'z' || 'A' <= c <= 'Z' || '0' <= c <= '9' || c == '-') ==>
              var base := "ws-" + owner + "-" + id;
              if |base| + |suffix| <= 63 then NewPodName(owner, id, suffix) == base + suffix
              else exists cut :: cut <= base && |cut| + |suffix| == 63 && NewPodName(owner, id, suffix) == cut + suffix
  {
    if forall c :: c in owner ==> InName(c) { FilterKeepsAll(owner); }
    var a, b := NewPodName(owner, id, suffix), NewPodName(owner', id', suffix');
    assert a[|a| - |suffix|..] == suffix && b[|b| - |suffix'|..] == suffix';
  }

  /** Of the owner's name ten characters appear, not counting those that a name must not have. */
  lemma NewPodNameOwner(a: string, c: char, b: string, id: string, suffix: Suffix)
    ensures !('a' <= c <= 'z' || 'A' <= c <= 'Z' || '0' <= c <= '9' || c == '-') ==>
              NewPodName(a + [c] + b, id, suffix) == NewPodName(a + b, id, suffix)
    ensures |a| == 10 && (forall d :: d in a + [c] + b ==> 'a' <= d <= 'z' || 'A' <= d <= 'Z' || '0' <= d <= '9' || d == '-') ==>
              NewPodName(a + [c] + b, id, suffix) == NewPodName(a, id, suffix)
  {
    FilterMiddle(a, c, b);
    if |a| == 10 && forall d :: d in a + [c] + b ==> InName(d) {
      FilterKeepsAll(a + [c] + b);
      FilterKeepsAll(a);
      assert (a + [c] + b)[..10] == a;
    }
  }

  lemma FilterMiddle(a: string, c: char, b: string)
    ensures !InName(c) ==> Filter(InName, a + [c] + b) == Filter(InName, a + b)
  {
    FilterConcat(InName, a + [c], b);
    FilterAppend(InName, a, c);
    FilterConcat(InName, a, b);
  }

  method UpgradeWorkspaceInner(pods: seq<WorkspacePod>, id: string, userSub: string, isAdmin: bool,
                               templates: string -> Option<Template>, suffix: Suffix) returns (r: Outcome, name: string)
    ensures var items := Filter(Visible(id, userSub, isAdmin), pods);
            && r == (if items == [] then NotFoundOrDenied else Plan(items[0], id, userSub, templates))
            && (r.Planned? ==>
                  name == NewPodName(UpgradeOwner(items[0].meta.labels, items[0].meta.annotations, userSub), id, suffix))
  {
    name := "";
    var items := Filter(Visible(id, userSub, isAdmin), pods);
    if items == [] {
      return NotFoundOrDenied, name;
    }
    var oldPod := items[0];
    if oldPod.meta.name == "" {
      return NoName, name;
    }
    if oldPod.stored.None? {
      return NoSpec, name;
    }
    var owner := UpgradeOwner(oldPod.meta.labels, oldPod.meta.annotations, userSub);
    var ref := Lookup(oldPod.meta.annotations, TEMPLATE_REF);
    if ref == "" {
      return NoTemplateRef, name;
    }
    var found := templates(ref);
    if found.None? {
      return TemplateNotFound, name;
    }
    var template := found.value;
    if !template.valid {
      return InvalidSpec, name;
    }
    var context := [];
    if oldPod.spec.containers != [] {
      context := CollectContext(OrEmpty(oldPod.spec.containers[0].env));
    }
    var merged := MergedAnnotations(template.annotations, oldPod.meta.annotations, template.version);
    var applied := ApplySpawnerAnnotations(template.spec, merged, context);
    if applied.MissingContext? {
      return ContextMissing(applied.keys), name;
    }
    var args := applied.args;
    var volumes := MergeByName(VolumeName, OrEmpty(args.volumes), OrEmpty(oldPod.spec.volumes));
    if oldPod.spec.containers != [] && args.containers != [] {
      var oldMain, newMain := oldPod.spec.containers[0], args.containers[0];
      var mounts := MergeMounts(OrEmpty(newMain.mounts), OrEmpty(oldMain.mounts));
      var env := MergeByName(EnvName, OrEmpty(newMain.env), OrEmpty(oldMain.env));
      args := args.(containers := args.containers[0 := newMain.(mounts := Some(mounts), env := Some(env))]);
    }
    args := args.(
      volumes := Some(volumes),
      serviceAccount := if oldPod.spec.serviceAccount != "" then oldPod.spec.serviceAccount else args.serviceAccount,
      labels := UpgradeLabels(template.labels, oldPod.meta.labels, args.labels, id, owner),
      annotations := UpgradeAnnotations(merged, args.annotations, owner));
    name := NewPodName(owner, id, suffix);
    return Planned(oldPod.meta.name, args, Filter(HasClaim, OrEmpty(oldPod.spec.volumes)) != []), name;
  }

  /** The main container of a planned upgrade has exactly the merged variables. */
  lemma PlannedMainEnv(oldPod: WorkspacePod, id: string, userSub: string, templates: string -> Option<Template>)
    ensures Plan(oldPod, id, userSub, templates).Planned? ==>
              var template := templates(Lookup(oldPod.meta.annotations, TEMPLATE_REF)).value;
              var args := Plan(oldPod, id, userSub, templates).args;
              oldPod.spec.containers != [] && template.spec.containers != [] ==>
                && args.containers != []
                && OrEmpty(args.containers[0].env) ==
                   MergedEnv(OrEmpty(template.spec.containers[0].env), OrEmpty(oldPod.spec.containers[0].env))
  {
    if Plan(oldPod, id, userSub, templates).Planned? {
      var template := templates(Lookup(oldPod.meta.annotations, TEMPLATE_REF)).value;
      var merged := MergedAnnotations(template.annotations, oldPod.meta.annotations, template.version);
      if template.spec.containers != [] {
        AppliedEnv(template.spec.containers, merged, OldContext(oldPod.spec));
      }
    }
  }

  /** The planned main container is the template's with more mounts and variables: its
      name, image and command are the template's, and it mounts what the template's does
      and of the old mounts the first of each volume that the template's does not mount. */
  lemma PlannedMainContainer(oldPod: WorkspacePod, id: string, userSub: string, templates: string -> Option<Template>, m: Mount)
    ensures Plan(oldPod, id, userSub, templates).Planned? ==>
              var template := templates(Lookup(oldPod.meta.annotations, "nogoo9/template-ref")).value;
              var args := Plan(oldPod, id, userSub, templates).args;
              oldPod.spec.containers != [] && template.spec.containers != [] ==>
                && args.containers != []
                && var had, brought, planned := OrEmpty(oldPod.spec.containers[0].mounts), template.spec.containers[0], args.containers[0];
                && planned.name == brought.name && planned.image == brought.image && planned.command == brought.command
                && (m in OrEmpty(planned.mounts) <==>
                    || m in OrEmpty(brought.mounts)
                    || ((forall t :: t in OrEmpty(brought.mounts) ==> t.name != m.name)
                        && exists i :: 0 <= i < |had| && had[i] == m && forall k :: 0 <= k < i ==> had[k].name != m.name))
  {
    if Plan(oldPod, id, userSub, templates).Planned? {
      var template := templates(Lookup(oldPod.meta.annotations, TEMPLATE_REF)).value;
      if oldPod.spec.containers != [] && template.spec.containers != [] {
        var merged := MergedAnnotations(template.annotations, oldPod.meta.annotations, template.version);
        OwnContainersKept(template.spec, merged, OldContext(oldPod.spec), 0);
        MountsKept(OrEmpty(template.spec.containers[0].mounts), OrEmpty(oldPod.spec.containers[0].mounts), m);
        NoneNamed(OrEmpty(template.spec.containers[0].mounts), m.name);
        FirstMeaning(OrEmpty(oldPod.spec.containers[0].mounts), m);
      }
    }
  }

  lemma NoneNamed(mounts: seq<Mount>, name: string)
    ensures !Has(MountName, mounts, name) <==> forall t :: t in mounts ==> t.name != name
  {
    if Has(MountName, mounts, name) {
      var i :| 0 <= i < |mounts| && MountName(mounts[i]) == name;
      assert mounts[i] in mounts;
    }
    if t :| t in mounts && t.name == name {
      var i :| 0 <= i < |mounts| && mounts[i] == t;
      assert MountName(mounts[i]) == name;
    }
  }

  lemma FirstMeaning(mounts: seq<Mount>, m: Mount)
    ensures First(MountName, mounts, m.name) == Some(m) <==>
            exists i :: 0 <= i < |mounts| && mounts[i] == m && forall k :: 0 <= k < i ==> mounts[k].name != m.name
  {
    var i := FindIndex(MountName, mounts, m.name);
    assert forall k :: 0 <= k < |mounts| ==> MountName(mounts[k]) == mounts[k].name;
    if j :| 0 <= j < |mounts| && mounts[j] == m && forall k :: 0 <= k < j ==> mounts[k].name != m.name {
      assert i == j;
    }
  }

  /** The other containers are the template's, perhaps with the sidecar behind them. */
  lemma PlannedContainers(oldPod: WorkspacePod, id: string, userSub: string, templates: string -> Option<Template>, i: nat)
    ensures Plan(oldPod, id, userSub, templates).Planned? ==>
              var template := templates(Lookup(oldPod.meta.annotations, "nogoo9/template-ref")).value;
              var args := Plan(oldPod, id, userSub, templates).args;
              var merged := MergedAnnotations(template.annotations, oldPod.meta.annotations, template.version);
              && |args.containers| == |template.spec.containers| + (if AddsSidecar(template.spec, merged) then 1 else 0)
              && (0 < i < |template.spec.containers| ==> args.containers[i] == template.spec.containers[i])
              && (0 == i < |template.spec.containers| ==>
                    args.containers[0].preStop ==
                    if SetsHook(template.spec, merged) then Some(["/bin/sh", "-c", Lookup(merged, "nogoo9/pre-stop-command")])
                    else template.spec.containers[0].preStop)
              && (AddsSidecar(template.spec, merged) ==>
                    args.containers[|template.spec.containers|] ==
                    Apply(template.spec, merged, OldContext(oldPod.spec)).args.containers[|template.spec.containers|])
              && (oldPod.spec.containers == [] ==>
                    args.containers == Apply(template.spec, merged, OldContext(oldPod.spec)).args.containers)
              && args.initContainers == Apply(template.spec, merged, OldContext(oldPod.spec)).args.initContainers
              && args.gracePeriod == Apply(template.spec, merged, OldContext(oldPod.spec)).args.gracePeriod
  {
    if Plan(oldPod, id, userSub, templates).Planned? {
      var template := templates(Lookup(oldPod.meta.annotations, TEMPLATE_REF)).value;
      var merged := MergedAnnotations(template.annotations, oldPod.meta.annotations, template.version);
      OwnContainersKept(template.spec, merged, OldContext(oldPod.spec), i);
      OwnContainersKept(template.spec, merged, OldContext(oldPod.spec), 0);
    }
  }

  // ----- labels and annotations of the plan, key by key

  function Second(first: StringMap, second: StringMap, key: string): string {
    if key in first then first[key] else Lookup(second, key)
  }

  /** What a template's annotations and an old pod's come to, under which the injections are
      made: the old pod's win, except for the version. */
  lemma MergedAnnotation(template: StringMap, oldPod: StringMap, version: string, key: string)
    ensures Lookup(MergedAnnotations(template, oldPod, version), key) ==
            if key == "nogoo9/template-version" then version else Second(oldPod, template, key)
  {
  }

  /** The owner is the one on the old pod's label, else on its annotation, else whoever asks. */
  lemma PlannedMetadata(oldPod: WorkspacePod, id: string, userSub: string, templates: string -> Option<Template>, key: string)
    ensures Plan(oldPod, id, userSub, templates).Planned? ==>
              var had := oldPod.meta;
              var template := templates(Lookup(had.annotations, "nogoo9/template-ref")).value;
              var args, spec := Plan(oldPod, id, userSub, templates).args, template.spec;
              var labelled, noted := Lookup(had.labels, "nogoo9/user-sub"), Lookup(had.annotations, "nogoo9/user-sub");
              var owner := if labelled != "" then labelled else if noted != "" then noted else userSub;
              && Lookup(args.labels, key) ==
                 (match key
                  case "nogoo9/type" => "workspace"
                  case "nogoo9/workspace-id" => id
                  case "nogoo9/managed-by" => "nogoo9-spawner"
                  case "nogoo9/user-sub" => owner
                  case _ => if key in spec.labels then spec.labels[key] else Second(had.labels, template.labels, key))
              && Lookup(args.annotations, key) ==
                 (match key
                  case "nogoo9/user-sub" => owner
                  case "nogoo9/template-version" => Second(spec.annotations, map[key := template.version], key)
                  case _ => if key in spec.annotations then spec.annotations[key]
                            else Second(had.annotations, template.annotations, key))
              && args.serviceAccount == if oldPod.spec.serviceAccount != "" then oldPod.spec.serviceAccount
                                        else spec.serviceAccount
  {
    if Plan(oldPod, id, userSub, templates).Planned? {
      var template := templates(Lookup(oldPod.meta.annotations, TEMPLATE_REF)).value;
      UpgradedLabel(template.labels, oldPod.meta.labels, template.spec.labels, id,
                    UpgradeOwner(oldPod.meta.labels, oldPod.meta.annotations, userSub), key);
      UpgradedAnnotation(template.annotations, oldPod.meta.annotations, template.version, template.spec.annotations,
                         UpgradeOwner(oldPod.meta.labels, oldPod.meta.annotations, userSub), key);
    }
  }

  lemma UpgradedLabel(template: StringMap, oldPod: StringMap, spec: StringMap, id: string, owner: string, key: string)
    ensures Lookup(UpgradeLabels(template, oldPod, spec, id, owner), key) ==
            match key
            case "nogoo9/type" => "workspace"
            case "nogoo9/workspace-id" => id
            case "nogoo9/managed-by" => "nogoo9-spawner"
            case "nogoo9/user-sub" => owner
            case _ => if key in spec then spec[key] else Second(oldPod, template, key)
  {
    IdentityCannotBeOverridden(template, oldPod, spec, id, owner);
  }

  lemma UpgradedAnnotation(template: StringMap, oldPod: StringMap, version: string, spec: StringMap, owner: string, key: string)
    ensures Lookup(UpgradeAnnotations(MergedAnnotations(template, oldPod, version), spec, owner), key) ==
            match key
            case "nogoo9/user-sub" => owner
            case "nogoo9/template-version" => Second(spec, map[key := version], key)
            case _ => if key in spec then spec[key] else Second(oldPod, template, key)
  {
    MergedAnnotation(template, oldPod, version, key);
    assert USER_SUB[7] == 'u' && TEMPLATE_VERSION[7] == 't';
  }

  // ----- which pod is upgraded, and when there is no plan

  /** The pod that is read is the first listed one of the workspace that the caller may see. */
  lemma {:induction false} FirstVisible(pods: seq<WorkspacePod>, id: string, userSub: string, isAdmin: bool)
    ensures var items := Filter(Visible(id, userSub, isAdmin), pods);
            if items == [] then forall p :: p in pods ==> !MaySee(p.meta, id, userSub, isAdmin)
            else exists i :: 0 <= i < |pods| && pods[i] == items[0] && MaySee(pods[i].meta, id, userSub, isAdmin)
                             && forall k :: 0 <= k < i ==> !MaySee(pods[k].meta, id, userSub, isAdmin)
  {
    if pods != [] {
      var front, last := pods[..|pods| - 1], pods[|pods| - 1];
      FirstVisible(front, id, userSub, isAdmin);
      assert pods == front + [last];
      var items := Filter(Visible(id, userSub, isAdmin), front);
      if items != [] {
        var i :| 0 <= i < |front| && front[i] == items[0] && MaySee(front[i].meta, id, userSub, isAdmin)
                 && forall k :: 0 <= k < i ==> !MaySee(front[k].meta, id, userSub, isAdmin);
        assert pods[i] == front[i] && forall k :: 0 <= k < i ==> pods[k] == front[k];
      } else {
        assert forall k :: 0 <= k < |front| ==> pods[k] in front;
        assert pods[|front|] == last;
      }
    }
  }

  predicate MaySee(p: Pod, id: string, userSub: string, isAdmin: bool) {
    && Lookup(p.labels, "nogoo9/type") == "workspace" && Lookup(p.labels, "nogoo9/workspace-id") == id
    && (isAdmin || Lookup(p.labels, "nogoo9/user-sub") == userSub)
  }

  /** What the template asks of the old pod: a key among the required ones for which the old
      main container has no value. */
  ghost predicate Lacks(oldPod: WorkspacePod, template: Template, key: string) {
    var had, required := oldPod.meta.annotations, "nogoo9/required-context";
    var keys := Second(had, template.annotations, required);
    && keys != "" && (exists part :: HasPart(keys, Is(','), part) && key == Trim(part))
    && (oldPod.spec.containers == [] || key == "" || key == "__proto__" ||
        forall e :: e in OrEmpty(oldPod.spec.containers[0].env) ==> !Gives(e, key))
  }

  lemma LacksMissing(oldPod: WorkspacePod, template: Template, key: string)
    ensures var merged := MergedAnnotations(template.annotations, oldPod.meta.annotations, template.version);
            key in Missing(merged, OldContext(oldPod.spec)) <==> Lacks(oldPod, template, key)
  {
    var merged := MergedAnnotations(template.annotations, oldPod.meta.annotations, template.version);
    var context := OldContext(oldPod.spec);
    MissingMeaning(merged, context, key);
    assert REQUIRED_CONTEXT[7] == 'r' && TEMPLATE_VERSION[7] == 't';
    MergedAnnotation(template.annotations, oldPod.meta.annotations, template.version, REQUIRED_CONTEXT);
    if oldPod.spec.containers != [] { ContextNames(OrEmpty(oldPod.spec.containers[0].env), key); }
  }

  lemma ContextNames(env: seq<EnvVar>, key: string)
    ensures (forall c :: c in ContextOf(env) ==> c.name != key) <==>
            key == "" || key == "__proto__" || forall e :: e in env ==> !Gives(e, key)
  {
    LastContextMeaning(env, key);
    ContextHolds(env, key);
    CountZero(EnvName, ContextOf(env), key);
    if c :| c in ContextOf(env) && c.name == key {
      var i :| 0 <= i < |ContextOf(env)| && ContextOf(env)[i] == c;
      assert EnvName(ContextOf(env)[i]) == key;
    }
    if Has(EnvName, ContextOf(env), key) {
      var i :| 0 <= i < |ContextOf(env)| && EnvName(ContextOf(env)[i]) == key;
      assert ContextOf(env)[i] in ContextOf(env);
    }
  }

  /** When an upgrade is refused, and with which error; the strategy of one that is not is to
      recreate the pod if a volume of the old one has a claim. */
  lemma PlanMeaning(oldPod: WorkspacePod, id: string, userSub: string, templates: string -> Option<Template>)
    ensures var plan, ref := Plan(oldPod, id, userSub, templates), Lookup(oldPod.meta.annotations, "nogoo9/template-ref");
            var found := templates(ref);
            if oldPod.meta.name == "" then plan == NoName
            else if oldPod.stored == None then plan == NoSpec
            else if ref == "" then plan == NoTemplateRef
            else if found == None then plan == TemplateNotFound
            else if !found.value.valid then plan == InvalidSpec
            else if exists key :: Lacks(oldPod, found.value, key)
            then plan.ContextMissing? && forall key :: key in plan.keys <==> Lacks(oldPod, found.value, key)
            else plan.Planned? && plan.oldPod == oldPod.meta.name
                 && (plan.recreate <==> exists v :: v in OrEmpty(oldPod.spec.volumes) && v.claim != None)
  {
    var ref := Lookup(oldPod.meta.annotations, TEMPLATE_REF);
    FilterIn(HasClaim, OrEmpty(oldPod.spec.volumes));
    var claims := Filter(HasClaim, OrEmpty(oldPod.spec.volumes));
    if claims != [] { assert claims[0] in claims; }
    if templates(ref).Some? {
      var template := templates(ref).value;
      var merged := MergedAnnotations(template.annotations, oldPod.meta.annotations, template.version);
      var missing := Missing(merged, OldContext(oldPod.spec));
      forall key ensures key in missing <==> Lacks(oldPod, template, key) { LacksMissing(oldPod, template, key); }
      if missing != [] { assert missing[0] in missing; }
    }
  }

  /** Volumes: every old one survives as it was, every one only the template
      has is kept, and there are no others. */
  lemma UpgradeKeepsVolumes(oldPod: WorkspacePod, id: string, userSub: string, templates: string -> Option<Template>)
    ensures Plan(oldPod, id, userSub, templates).Planned? ==>
              var template := templates(Lookup(oldPod.meta.annotations, TEMPLATE_REF)).value;
              var had, brought := OrEmpty(oldPod.spec.volumes), OrEmpty(template.spec.volumes);
              var has := OrEmpty(Plan(oldPod, id, userSub, templates).args.volumes);
              Distinct(VolumeName, brought) && Distinct(VolumeName, had) ==>
                && Distinct(VolumeName, has)
                && forall v :: v in has <==> v in had || (v in brought && !Has(VolumeName, had, v.name))
  {
    if Plan(oldPod, id, userSub, templates).Planned? {
      var template := templates(Lookup(oldPod.meta.annotations, TEMPLATE_REF)).value;
      if Distinct(VolumeName, OrEmpty(template.spec.volumes)) && Distinct(VolumeName, OrEmpty(oldPod.spec.volumes)) {
        MergeIsOverride(VolumeName, OrEmpty(template.spec.volumes), OrEmpty(oldPod.spec.volumes));
      }
    }
  }

  /** If every mount resolved before, on both sides, then every mount of every
      container of the new pod names one of its volumes. No uniqueness is needed. */
  lemma UpgradeKeepsReferences(oldPod: WorkspacePod, id: string, userSub: string, templates: string -> Option<Template>)
    ensures Plan(oldPod, id, userSub, templates).Planned? ==>
              var template := templates(Lookup(oldPod.meta.annotations, TEMPLATE_REF)).value;
              var args := Plan(oldPod, id, userSub, templates).args;
              PodResolves(template.spec) && AllResolve(oldPod.spec.containers, OrEmpty(oldPod.spec.volumes)) ==>
                PodResolves(args)
  {
    if Plan(oldPod, id, userSub, templates).Planned? {
      var template := templates(Lookup(oldPod.meta.annotations, TEMPLATE_REF)).value;
      if PodResolves(template.spec) && AllResolve(oldPod.spec.containers, OrEmpty(oldPod.spec.volumes)) {
        PlannedResolves(oldPod, id, userSub, template);
      }
    }
  }

  /** Every mount of every container names a volume of the pod. */
  ghost predicate PodResolves(spec: PodArgs) {
    AllResolve(spec.containers, OrEmpty(spec.volumes)) && AllResolve(OrEmpty(spec.initContainers), OrEmpty(spec.volumes))
  }

  lemma PlannedResolves(oldPod: WorkspacePod, id: string, userSub: string, template: Template)
    requires PodResolves(template.spec) && AllResolve(oldPod.spec.containers, OrEmpty(oldPod.spec.volumes))
    ensures var merged := MergedAnnotations(template.annotations, oldPod.meta.annotations, template.version);
            var applied := Apply(template.spec, merged, OldContext(oldPod.spec));
            applied.Ok? ==>
              PodResolves(PlannedArgs(applied.args, template, oldPod, id,
                                      UpgradeOwner(oldPod.meta.labels, oldPod.meta.annotations, userSub)))
  {
    var spec := template.spec;
    var brought, had := OrEmpty(spec.volumes), OrEmpty(oldPod.spec.volumes);
    var has := Merge(VolumeName, brought, had);
    forall name ensures Has(VolumeName, has, name) <==> Has(VolumeName, brought, name) || Has(VolumeName, had, name) {
      MergeHas(VolumeName, brought, had, name);
    }
    assert AllResolve(spec.containers, has) && AllResolve(OrEmpty(spec.initContainers), has);
    var merged := MergedAnnotations(template.annotations, oldPod.meta.annotations, template.version);
    InjectionsResolve(spec, merged, OldContext(oldPod.spec), has);
    var applied := AppliedContainers(spec.containers, merged, OldContext(oldPod.spec));
    if oldPod.spec.containers != [] && applied != [] {
      assert MountsResolve(applied[0], has) && MountsResolve(oldPod.spec.containers[0], had);
      MountsResolveMerged(OrEmpty(applied[0].mounts), OrEmpty(oldPod.spec.containers[0].mounts), has);
    }
  }

  lemma MountsResolveMerged(base: seq<Mount>, more: seq<Mount>, volumes: seq<Volume>)
    requires forall m :: m in base || m in more ==> Has(VolumeName, volumes, m.name)
    ensures forall m :: m in AddMounts(base, more) ==> Has(VolumeName, volumes, m.name)
  {
    forall m | m in AddMounts(base, more) ensures Has(VolumeName, volumes, m.name) {
      MountsKept(base, more, m);
      FirstIn(more, m.name);
    }
  }

  lemma FirstIn(list: seq<Mount>, name: string)
    ensures First(MountName, list, name).Some? ==> First(MountName, list, name).value in list
  {
  }

  /** Whoever upgrades a workspace, the new pod is labelled as the same
      workspace of the same owner and keeps the old service account. */
  lemma UpgradeKeepsIdentity(pods: seq<WorkspacePod>, id: string, userSub: string, isAdmin: bool,
                             templates: string -> Option<Template>)
    ensures var items := Filter(Visible(id, userSub, isAdmin), pods);
            items != [] && Plan(items[0], id, userSub, templates).Planned? ==>
              var oldPod, args := items[0], Plan(items[0], id, userSub, templates).args;
              && (oldPod.meta.Owner() != "" ==> Identity(args.labels, oldPod.meta.WorkspaceId(), oldPod.meta.Owner()))
              && (!isAdmin && userSub != "" ==> Identity(args.labels, id, userSub))
              && (oldPod.spec.serviceAccount != "" ==> args.serviceAccount == oldPod.spec.serviceAccount)
  {
    var items := Filter(Visible(id, userSub, isAdmin), pods);
    FilterIn(Visible(id, userSub, isAdmin), pods);
    if items != [] && Plan(items[0], id, userSub, templates).Planned? {
      assert items[0] in items;
      PlannedLabels(items[0], id, userSub, templates);
      var owner := UpgradeOwner(items[0].meta.labels, items[0].meta.annotations, userSub);
      var template, spec :| Plan(items[0], id, userSub, templates).args.labels ==
                            UpgradeLabels(template, items[0].meta.labels, spec, id, owner);
      IdentityCannotBeOverridden(template, items[0].meta.labels, spec, id, owner);
    }
  }

  /** The labels of a plan are those of the template, the old pod and the spec,
      under the identity of the workspace. */
  lemma PlannedLabels(oldPod: WorkspacePod, id: string, userSub: string, templates: string -> Option<Template>)
    ensures Plan(oldPod, id, userSub, templates).Planned? ==>
              exists template, spec ::
                Plan(oldPod, id, userSub, templates).args.labels ==
                UpgradeLabels(template, oldPod.meta.labels, spec, id,
                              UpgradeOwner(oldPod.meta.labels, oldPod.meta.annotations, userSub))
  {
    if Plan(oldPod, id, userSub, templates).Planned? {
      var template := templates(Lookup(oldPod.meta.annotations, TEMPLATE_REF)).value;
      var merged := MergedAnnotations(template.annotations, oldPod.meta.annotations, template.version);
      var applied := Apply(template.spec, merged, OldContext(oldPod.spec)).args;
      assert Plan(oldPod, id, userSub, templates).args.labels ==
             UpgradeLabels(template.labels, oldPod.meta.labels, applied.labels, id,
                           UpgradeOwner(oldPod.meta.labels, oldPod.meta.annotations, userSub));
    }
  }
}
