/** Which version of its template a workspace has, which version is the latest,
    and when an upgrade settles the matter. */
module TemplateVersion {
  import opened Pods
  import opened Labels
  import opened PodSpec
  import opened UpgradeSpec

  const DEFAULT_VERSION := "1.0.0"

  datatype ConfigMap = ConfigMap(spec: Option<PodArgs>, annotations: StringMap, labels: StringMap)

  /** A template file, whose version is read when the file is. */
  datatype LocalTemplate = LocalTemplate(spec: PodArgs, annotations: StringMap, labels: StringMap)
  {
    function Version(): string { OrDefault(Lookup(annotations, TEMPLATE_VERSION)) }
  }

  /** What a template reference leads to, and whether its text parses once it is filled
      in; a ConfigMap that cannot be read counts as missing. */
  datatype Catalog = Catalog(
    maps: string -> Option<ConfigMap>,
    files: string -> Option<LocalTemplate>,
    valid: string -> bool)

  function OrDefault(version: string): string { if version != "" then version else DEFAULT_VERSION }

  // ----- the three places where a version is looked up

  function LatestVersion(cat: Catalog, ref: string): string {
    if ref == "" then DEFAULT_VERSION
    else if cat.maps(ref).Some? && Lookup(cat.maps(ref).value.annotations, TEMPLATE_VERSION) != "" then
      Lookup(cat.maps(ref).value.annotations, TEMPLATE_VERSION)
    else if cat.files(ref).Some? then cat.files(ref).value.Version()
    else DEFAULT_VERSION
  }

  function Filled(entries: StringMap, fill: string -> string): StringMap {
    map k | k in entries && k != "__proto__" && k != "constructor" :: fill(entries[k])
  }

  method FillPlaceholders(entries: StringMap, fill: string -> string) returns (filled: StringMap)
    ensures filled == Filled(entries, fill)
  {
    filled := map[];
    var left := entries.Keys;
    while left != {}
      invariant left <= entries.Keys
      invariant filled == map k | k in entries && k !in left && k != "__proto__" && k != "constructor" :: fill(entries[k])
    {
      var k :| k in left;
      if k != "__proto__" && k != "constructor" {
        filled := filled[k := fill(entries[k])];
      }
      left := left - {k};
    }
  }

  /** The template that a spawn or an upgrade uses: placeholders are filled in
      everywhere but in the version. */
  function Resolve(cat: Catalog, ref: string, fill: string -> string): Option<Template> {
    if cat.maps(ref).Some? && cat.maps(ref).value.spec.Some? then
      var cm := cat.maps(ref).value;
      Some(Template(cm.spec.value, cat.valid(ref), OrDefault(Lookup(cm.annotations, TEMPLATE_VERSION)),
                    Filled(cm.annotations, fill), Filled(cm.labels, fill)))
    else if cat.files(ref).Some? then
      var file := cat.files(ref).value;
      Some(Template(file.spec, cat.valid(ref), file.Version(), Filled(file.annotations, fill), Filled(file.labels, fill)))
    else None
  }

  method ResolveTemplateSpec(cat: Catalog, ref: string, fill: string -> string) returns (r: Option<Template>)
    ensures r == Resolve(cat, ref, fill)
  {
    if cat.maps(ref).Some? && cat.maps(ref).value.spec.Some? {
      var cm := cat.maps(ref).value;
      var annotations := FillPlaceholders(cm.annotations, fill);
      var labels := FillPlaceholders(cm.labels, fill);
      return Some(Template(cm.spec.value, cat.valid(ref), OrDefault(Lookup(cm.annotations, TEMPLATE_VERSION)),
                           annotations, labels));
    }
    if cat.files(ref).Some? {
      var file := cat.files(ref).value;
      var annotations := FillPlaceholders(file.annotations, fill);
      var labels := FillPlaceholders(file.labels, fill);
      return Some(Template(file.spec, cat.valid(ref), file.Version(), annotations, labels));
    }
    return None;
  }

  predicate Outdated(cat: Catalog, annotations: StringMap) {
    var ref := Lookup(annotations, TEMPLATE_REF);
    ref != "" && OrDefault(Lookup(annotations, TEMPLATE_VERSION)) != LatestVersion(cat, ref)
  }

  /** Every entry but two reserved ones, filled in. */
  ghost predicate FilledFrom(filled: StringMap, entries: StringMap, fill: string -> string) {
    forall key :: && (key in filled <==> key in entries && key != "__proto__" && key != "constructor")
                  && (key in filled ==> filled[key] == fill(entries[key]))
  }

  /** Which source a template comes from, and its version: a ConfigMap with a spec wins over
      the file of that name, even where it has no version of its own. */
  lemma ResolveMeaning(cat: Catalog, ref: string, fill: string -> string)
    ensures var found, cm, file := Resolve(cat, ref, fill), cat.maps(ref), cat.files(ref);
            var marked := (annotations: StringMap) => Lookup(annotations, "nogoo9/template-version");
            if cm.Some? && cm.value.spec.Some? then
              && found.Some? && found.value.spec == cm.value.spec.value && found.value.valid == cat.valid(ref)
              && found.value.version == (if marked(cm.value.annotations) == "" then "1.0.0" else marked(cm.value.annotations))
              && FilledFrom(found.value.annotations, cm.value.annotations, fill)
              && FilledFrom(found.value.labels, cm.value.labels, fill)
            else if file.Some? then
              && found.Some? && found.value.spec == file.value.spec && found.value.valid == cat.valid(ref)
              && found.value.version == (if marked(file.value.annotations) == "" then "1.0.0" else marked(file.value.annotations))
              && FilledFrom(found.value.annotations, file.value.annotations, fill)
              && FilledFrom(found.value.labels, file.value.labels, fill)
            else found == None
  {
  }

  /** When a workspace counts as outdated: it has a template, and its version, 1.0.0 if it has
      none, is not the ConfigMap's, else the file's, else 1.0.0. A ConfigMap counts here
      whether it has a spec or not. */
  lemma OutdatedMeaning(cat: Catalog, annotations: StringMap)
    ensures var ref, has := Lookup(annotations, "nogoo9/template-ref"), Lookup(annotations, "nogoo9/template-version");
            var cm := if cat.maps(ref).Some? then Lookup(cat.maps(ref).value.annotations, "nogoo9/template-version") else "";
            var file := if cat.files(ref).Some? then Lookup(cat.files(ref).value.annotations, "nogoo9/template-version") else "";
            Outdated(cat, annotations) <==>
            ref != "" && (if has != "" then has else "1.0.0") !=
                         (if cm != "" then cm else if file != "" then file else "1.0.0")
  {
  }

  /** The lookups agree on a template. A ConfigMap with a spec must carry a version,
      or the file of the same name must not claim another one than the default; a
      ConfigMap without a spec must carry no version but the file's. */
  predicate Settled(cat: Catalog, ref: string) {
    var marked := if cat.maps(ref).Some? then Lookup(cat.maps(ref).value.annotations, TEMPLATE_VERSION) else "";
    if cat.maps(ref).Some? && cat.maps(ref).value.spec.Some?
    then marked != "" || cat.files(ref).None? || cat.files(ref).value.Version() == DEFAULT_VERSION
    else marked == "" || (cat.files(ref).Some? && cat.files(ref).value.Version() == marked)
  }

  lemma VersionsAgree(cat: Catalog, ref: string, fill: string -> string)
    requires ref != "" && Resolve(cat, ref, fill).Some?
    ensures Resolve(cat, ref, fill).value.version == LatestVersion(cat, ref) <==> Settled(cat, ref)
  {
  }

  /** A ConfigMap without a version beside a template file with one: a spawn takes the
      ConfigMap at the default version, the latest version is the file's, and the
      workspace is outdated from the start. */
  lemma VersionsCanDisagree(ref: string, spec: PodArgs, fill: string -> string) returns (cat: Catalog)
    requires ref != ""
    ensures !Settled(cat, ref) && Resolve(cat, ref, fill).Some?
    ensures Resolve(cat, ref, fill).value.version == "1.0.0" && LatestVersion(cat, ref) == "2.0.0"
  {
    cat := Catalog(
      (r: string) => if r == ref then Some(ConfigMap(Some(spec), map[], map[])) else None,
      (r: string) => if r == ref then Some(LocalTemplate(spec, map[TEMPLATE_VERSION := "2.0.0"], map[])) else None,
      (r: string) => true);
    assert "2.0.0"[0] != "1.0.0"[0];
  }

  lemma KeysDiffer()
    ensures TEMPLATE_REF != TEMPLATE_VERSION && TEMPLATE_REF != USER_SUB && TEMPLATE_VERSION != USER_SUB
  {
    assert TEMPLATE_REF[16] == 'r' && TEMPLATE_VERSION[16] == 'v' && TEMPLATE_REF[7] == 't' && TEMPLATE_VERSION[7] == 't';
    assert USER_SUB[7] == 'u';
  }

  ghost predicate LeavesTemplate(annotations: StringMap) {
    TEMPLATE_REF !in annotations && TEMPLATE_VERSION !in annotations
  }

  lemma SpawnSetsVersion(template: StringMap, ref: string, version: string, caller: StringMap, spec: StringMap, owner: string)
    requires LeavesTemplate(caller) && LeavesTemplate(spec)
    ensures var has := SpawnAnnotations(ResolvedAnnotations(template, ref, version), caller, spec, owner);
            Lookup(has, TEMPLATE_REF) == ref && Lookup(has, TEMPLATE_VERSION) == version
  {
    KeysDiffer();
  }

  /** A workspace just spawned from a template is up to date exactly when the
      lookups agree, if neither the caller nor the spec set the version. */
  lemma SpawnedIsCurrent(cat: Catalog, ref: string, fill: string -> string, caller: StringMap, spec: StringMap, owner: string)
    requires ref != "" && Resolve(cat, ref, fill).Some? && LeavesTemplate(caller) && LeavesTemplate(spec)
    ensures var template := Resolve(cat, ref, fill).value;
            var annotations := SpawnAnnotations(
              ResolvedAnnotations(template.annotations, ref, template.version), caller, spec, owner);
            Outdated(cat, annotations) <==> !Settled(cat, ref)
  {
    var template := Resolve(cat, ref, fill).value;
    SpawnSetsVersion(template.annotations, ref, template.version, caller, spec, owner);
    VersionsAgree(cat, ref, fill);
    assert Resolve(cat, ref, fill).value.version != "";
  }

  function Resolver(cat: Catalog, fill: string -> string): string -> Option<Template> {
    (ref: string) => Resolve(cat, ref, fill)
  }

  lemma PlannedAnnotations(oldPod: WorkspacePod, id: string, userSub: string, templates: string -> Option<Template>)
    ensures Plan(oldPod, id, userSub, templates).Planned? ==>
              var had := oldPod.meta.annotations;
              && Lookup(had, TEMPLATE_REF) != "" && templates(Lookup(had, TEMPLATE_REF)).Some?
              && var template := templates(Lookup(had, TEMPLATE_REF)).value;
              Plan(oldPod, id, userSub, templates).args.annotations ==
              UpgradeAnnotations(MergedAnnotations(template.annotations, had, template.version), template.spec.annotations,
                                 UpgradeOwner(oldPod.meta.labels, had, userSub))
  {
  }

  lemma UpgradeSetsBoth(template: StringMap, had: StringMap, version: string, spec: StringMap, owner: string)
    requires Lookup(had, TEMPLATE_REF) != ""
    ensures var has := UpgradeAnnotations(MergedAnnotations(template, had, version), spec, owner);
            && Lookup(has, TEMPLATE_REF) == (if TEMPLATE_REF in spec then spec[TEMPLATE_REF] else Lookup(had, TEMPLATE_REF))
            && Lookup(has, TEMPLATE_VERSION) == if TEMPLATE_VERSION in spec then spec[TEMPLATE_VERSION] else version
  {
    KeysDiffer();
  }

  lemma UpgradeSetsVersion(template: StringMap, had: StringMap, version: string, spec: StringMap, owner: string)
    requires TEMPLATE_REF !in spec && Lookup(had, TEMPLATE_REF) != ""
    ensures var has := UpgradeAnnotations(MergedAnnotations(template, had, version), spec, owner);
            && Lookup(has, TEMPLATE_REF) == Lookup(had, TEMPLATE_REF)
            && Lookup(has, TEMPLATE_VERSION) == if TEMPLATE_VERSION in spec then spec[TEMPLATE_VERSION] else version
  {
    UpgradeSetsBoth(template, had, version, spec, owner);
  }

  /** A workspace with these annotations is outdated again as soon as it is upgraded: a
      check of the template alone, whatever its spec says about reference and version. */
  predicate Relapses(cat: Catalog, fill: string -> string, had: StringMap) {
    var found := Resolve(cat, Lookup(had, TEMPLATE_REF), fill);
    found.Some? &&
    var spec := found.value.spec.annotations;
    var ref := if TEMPLATE_REF in spec then spec[TEMPLATE_REF] else Lookup(had, TEMPLATE_REF);
    var version := if TEMPLATE_VERSION in spec then spec[TEMPLATE_VERSION] else found.value.version;
    ref != "" && OrDefault(version) != LatestVersion(cat, ref)
  }

  lemma UpgradedRelapsesExactly(cat: Catalog, fill: string -> string, oldPod: WorkspacePod, id: string, userSub: string)
    ensures Plan(oldPod, id, userSub, Resolver(cat, fill)).Planned? ==>
              (Outdated(cat, Plan(oldPod, id, userSub, Resolver(cat, fill)).args.annotations) <==>
               Relapses(cat, fill, oldPod.meta.annotations))
  {
    var had := oldPod.meta.annotations;
    PlannedAnnotations(oldPod, id, userSub, Resolver(cat, fill));
    if Plan(oldPod, id, userSub, Resolver(cat, fill)).Planned? {
      var template := Resolver(cat, fill)(Lookup(had, TEMPLATE_REF)).value;
      UpgradeSetsBoth(template.annotations, had, template.version, template.spec.annotations,
                      UpgradeOwner(oldPod.meta.labels, had, userSub));
    }
  }

  /** With a spec that leaves both alone it is the lookups that decide. */
  lemma RelapsesUnlessSettled(cat: Catalog, fill: string -> string, had: StringMap)
    requires var ref := Lookup(had, TEMPLATE_REF);
             ref != "" && Resolve(cat, ref, fill).Some? && LeavesTemplate(Resolve(cat, ref, fill).value.spec.annotations)
    ensures Relapses(cat, fill, had) <==> !Settled(cat, Lookup(had, TEMPLATE_REF))
  {
    var ref := Lookup(had, TEMPLATE_REF);
    VersionsAgree(cat, ref, fill);
    assert Resolve(cat, ref, fill).value.version != "";
  }

  /** So is a workspace just upgraded, whatever version it had and whoever set it. */
  lemma UpgradedIsCurrent(cat: Catalog, fill: string -> string, oldPod: WorkspacePod, id: string, userSub: string)
    ensures Plan(oldPod, id, userSub, Resolver(cat, fill)).Planned? ==>
              var ref := Lookup(oldPod.meta.annotations, TEMPLATE_REF);
              var args := Plan(oldPod, id, userSub, Resolver(cat, fill)).args;
              Resolve(cat, ref, fill).Some? && LeavesTemplate(Resolve(cat, ref, fill).value.spec.annotations) ==>
                && Lookup(args.annotations, TEMPLATE_REF) == ref
                && (Outdated(cat, args.annotations) <==> !Settled(cat, ref))
  {
    var had := oldPod.meta.annotations;
    var ref := Lookup(had, TEMPLATE_REF);
    PlannedAnnotations(oldPod, id, userSub, Resolver(cat, fill));
    if Plan(oldPod, id, userSub, Resolver(cat, fill)).Planned? && LeavesTemplate(Resolve(cat, ref, fill).value.spec.annotations) {
      var template := Resolver(cat, fill)(ref).value;
      UpgradeSetsVersion(template.annotations, had, template.version, template.spec.annotations,
                         UpgradeOwner(oldPod.meta.labels, had, userSub));
      VersionsAgree(cat, ref, fill);
      assert template.version != "";
    }
  }

  /** A spec that carries a version of its own pins it: no upgrade changes that. */
  lemma PinnedVersionStays(cat: Catalog, fill: string -> string, oldPod: WorkspacePod, id: string, userSub: string)
    ensures Plan(oldPod, id, userSub, Resolver(cat, fill)).Planned? ==>
              var ref := Lookup(oldPod.meta.annotations, TEMPLATE_REF);
              Resolve(cat, ref, fill).Some? &&
              var pinned := Resolve(cat, ref, fill).value.spec.annotations;
              TEMPLATE_REF !in pinned && TEMPLATE_VERSION in pinned ==>
                (Outdated(cat, Plan(oldPod, id, userSub, Resolver(cat, fill)).args.annotations) <==>
                 OrDefault(pinned[TEMPLATE_VERSION]) != LatestVersion(cat, ref))
  {
    var had := oldPod.meta.annotations;
    PlannedAnnotations(oldPod, id, userSub, Resolver(cat, fill));
    if Plan(oldPod, id, userSub, Resolver(cat, fill)).Planned? {
      var template := Resolver(cat, fill)(Lookup(had, TEMPLATE_REF)).value;
      if TEMPLATE_REF !in template.spec.annotations {
        UpgradeSetsVersion(template.annotations, had, template.version, template.spec.annotations,
                           UpgradeOwner(oldPod.meta.labels, had, userSub));
      }
    }
  }
}
