/** The labels and annotations under which a workspace pod is created. Later
    maps override earlier ones, as spreading objects does. */
module Labels {
  import opened Pods

  const WORKSPACE := "workspace"
  const SPAWNER := "nogoo9-spawner"
  const TEMPLATE_REF := "nogoo9/template-ref"
  const TEMPLATE_VERSION := "nogoo9/template-version"
  const WORKSPACE_NAME := "nogoo9/workspace-name"

  type StringMap = map<string, string>

  function SpawnLabels(spec: StringMap, resolved: StringMap, caller: StringMap, id: string, owner: string): StringMap {
    var merged := resolved + caller
                  + map[TYPE := WORKSPACE, WORKSPACE_ID := id, MANAGED_BY := SPAWNER, USER_SUB := owner];
    spec + merged
  }

  function UpgradeLabels(template: StringMap, oldPod: StringMap, spec: StringMap, id: string, owner: string): StringMap {
    template + oldPod + spec
    + map[TYPE := WORKSPACE, WORKSPACE_ID := id, MANAGED_BY := SPAWNER, USER_SUB := owner]
  }

  /** Whose workspace an upgraded pod belongs to. */
  function UpgradeOwner(labels: StringMap, annotations: StringMap, caller: string): string {
    if Lookup(labels, USER_SUB) != "" then Lookup(labels, USER_SUB)
    else if Lookup(annotations, USER_SUB) != "" then Lookup(annotations, USER_SUB)
    else caller
  }

  /** Annotations of a spawn from a template. The display name the caller asked
      for is written before this map replaces it, so it does not appear. */
  function ResolvedAnnotations(template: StringMap, templateRef: string, version: string): StringMap {
    template + map[TEMPLATE_REF := templateRef, TEMPLATE_VERSION := version]
  }

  function SpawnAnnotations(resolved: StringMap, caller: StringMap, spec: StringMap, owner: string): StringMap {
    resolved + caller + spec + map[USER_SUB := owner]
  }

  /** Annotations an upgrade evaluates: the old pod's over the template's, with the new version. */
  function MergedAnnotations(template: StringMap, oldPod: StringMap, version: string): StringMap {
    (template + oldPod)[TEMPLATE_VERSION := version]
  }

  function UpgradeAnnotations(merged: StringMap, spec: StringMap, owner: string): StringMap {
    merged + spec + map[USER_SUB := owner]
  }

  ghost predicate Identity(labels: StringMap, id: string, owner: string) {
    && Lookup(labels, TYPE) == WORKSPACE
    && Lookup(labels, WORKSPACE_ID) == id
    && Lookup(labels, MANAGED_BY) == SPAWNER
    && Lookup(labels, USER_SUB) == owner
  }

  /** No label a caller, a template, a spec or an old pod brings along can change
      which workspace a created pod belongs to, or whose it is. */
  lemma IdentityCannotBeOverridden(a: StringMap, b: StringMap, c: StringMap, id: string, owner: string)
    ensures Identity(SpawnLabels(a, b, c, id, owner), id, owner)
    ensures Identity(UpgradeLabels(a, b, c, id, owner), id, owner)
  {
    assert TYPE != WORKSPACE_ID && TYPE != MANAGED_BY && TYPE != USER_SUB by {
      assert TYPE[7] == 't' && WORKSPACE_ID[7] == 'w' && MANAGED_BY[7] == 'm' && USER_SUB[7] == 'u';
    }
    assert WORKSPACE_ID != MANAGED_BY && WORKSPACE_ID != USER_SUB && MANAGED_BY != USER_SUB by {
      assert WORKSPACE_ID[7] == 'w' && MANAGED_BY[7] == 'm' && USER_SUB[7] == 'u';
    }
  }

  /** Other labels of the old pod survive an upgrade unless the spec sets them. */
  lemma UpgradeKeepsOtherLabels(template: StringMap, oldPod: StringMap, spec: StringMap, id: string, owner: string, key: string)
    requires key in oldPod && key !in spec
    requires key != TYPE && key != WORKSPACE_ID && key != MANAGED_BY && key != USER_SUB
    ensures Lookup(UpgradeLabels(template, oldPod, spec, id, owner), key) == oldPod[key]
  {
  }

  /** The display name of a spawn from a template is whatever the template, the
      caller's annotations or the spec say, never the requested name. */
  lemma DisplayNameIsDropped(template: StringMap, templateRef: string, version: string, caller: StringMap, spec: StringMap,
                             owner: string)
    requires WORKSPACE_NAME !in template && WORKSPACE_NAME !in caller && WORKSPACE_NAME !in spec
    ensures WORKSPACE_NAME !in
            SpawnAnnotations(ResolvedAnnotations(template, templateRef, version), caller, spec, owner)
  {
    assert WORKSPACE_NAME[7] == 'w' && TEMPLATE_REF[7] == 't' && TEMPLATE_VERSION[7] == 't' && USER_SUB[7] == 'u';
  }
}
