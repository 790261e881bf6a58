/** Upgrading every outdated workspace of a namespace. */
module UpgradeAll {
  import opened Sorting
  import opened Pods
  import opened Labels
  import opened PodSpec
  import opened SpawnerAnnotations
  import opened UpgradeSpec
  import opened TemplateVersion

  /** Where pods and templates come from: the catalog, the placeholder values of each
      workspace, the random suffixes of new pods' names, and who asks. Then the fate of the
      background workers: for which workspaces they come through with a ready pod, and
      before which of the plans, counted from 0, they have ended. */
  datatype Setting = Setting(
    cat: Catalog,
    fill: string -> (string -> string),
    suffixes: string -> Suffix,
    userSub: string,
    isAdmin: bool,
    through: string -> bool,
    ends: string -> nat)

  /** A worker that is under way, with the pod it read and the pod it is to create. */
  datatype Job = Job(id: string, oldPod: WorkspacePod, newPod: WorkspacePod)

  datatype Progress = Progress(pods: seq<WorkspacePod>, upgraded: seq<string>, failed: seq<string>, jobs: seq<Job>)

  function OutdatedIds(cat: Catalog, items: seq<WorkspacePod>): seq<string> {
    if items == [] then []
    else
      var rest, pod := OutdatedIds(cat, items[..|items| - 1]), items[|items| - 1].meta;
      if pod.IsWorkspace() && Outdated(cat, pod.annotations) && pod.WorkspaceId() != ""
      then rest + [pod.WorkspaceId()] else rest
  }

  function IsNot(gone: WorkspacePod): WorkspacePod -> bool { (p: WorkspacePod) => p != gone }

  function Created(name: string, args: PodArgs): WorkspacePod {
    WorkspacePod(Pod(name, args.labels, args.annotations, 0, Running, "", NoState), Some(args))
  }

  /** The pods once a worker has come through: the new one has replaced the old one. */
  function Finished(pods: seq<WorkspacePod>, oldPod: WorkspacePod, newPod: WorkspacePod): seq<WorkspacePod> {
    Filter(IsNot(oldPod), pods) + [newPod]
  }

  /** A worker replaces the old pod, or leaves it where it was: it could not create the
      new pod, or deleted it because it did not get ready. */
  function Ended(env: Setting, pods: seq<WorkspacePod>, job: Job): seq<WorkspacePod> {
    if env.through(job.id) then Finished(pods, job.oldPod, job.newPod) else pods
  }

  /** The pods after those of the jobs that are due have ended, in turn. */
  function RunJobs(env: Setting, pods: seq<WorkspacePod>, jobs: seq<Job>, due: Job -> bool): seq<WorkspacePod> {
    if jobs == [] then pods
    else
      var before, last := RunJobs(env, pods, jobs[..|jobs| - 1], due), jobs[|jobs| - 1];
      if due(last) then Ended(env, before, last) else before
  }

  function Due(env: Setting, k: nat): Job -> bool { (job: Job) => env.ends(job.id) <= k }

  function AllDue(): Job -> bool { (job: Job) => true }

  function NotDue(due: Job -> bool): Job -> bool { (job: Job) => !due(job) }

  function Settle(env: Setting, now: Progress, due: Job -> bool): Progress {
    now.(pods := RunJobs(env, now.pods, now.jobs, due), jobs := Filter(NotDue(due), now.jobs))
  }

  function NameFor(env: Setting, oldPod: WorkspacePod, id: string): string {
    NewPodName(UpgradeOwner(oldPod.meta.labels, oldPod.meta.annotations, env.userSub), id, env.suffixes(id))
  }

  /** The handler reports an upgrade as soon as it is planned, and leaves the rest to a worker. */
  function UpgradeOne(env: Setting, was: Progress, id: string): Progress {
    var items := Filter(Visible(id, env.userSub, env.isAdmin), was.pods);
    if items != [] && Plan(items[0], id, env.userSub, Resolver(env.cat, env.fill(id))).Planned? then
      var args := Plan(items[0], id, env.userSub, Resolver(env.cat, env.fill(id))).args;
      was.(upgraded := was.upgraded + [id], jobs := was.jobs + [Job(id, items[0], Created(NameFor(env, items[0], id), args))])
    else was.(failed := was.failed + [id])
  }

  /** Plans in turn; before each, some workers of the earlier ones have ended. */
  function UpgradeEach(env: Setting, pods: seq<WorkspacePod>, ids: seq<string>): Progress {
    if ids == [] then Progress(pods, [], [], [])
    else
      var n := |ids| - 1;
      UpgradeOne(env, Settle(env, UpgradeEach(env, pods, ids[..n]), Due(env, n)), ids[n])
  }

  /** When the handler has returned and the last worker has ended. */
  function AfterAll(env: Setting, pods: seq<WorkspacePod>): Progress {
    Settle(env, UpgradeEach(env, pods, OutdatedIds(env.cat, pods)), AllDue())
  }

  lemma EachOneMore(env: Setting, pods: seq<WorkspacePod>, ids: seq<string>, k: nat)
    requires k < |ids|
    ensures UpgradeEach(env, pods, ids[..k + 1]) ==
            UpgradeOne(env, Settle(env, UpgradeEach(env, pods, ids[..k]), Due(env, k)), ids[k])
  {
    assert ids[..k + 1][..k] == ids[..k];
  }

  method CollectOutdated(cat: Catalog, items: seq<WorkspacePod>) returns (outdated: seq<string>)
    ensures outdated == OutdatedIds(cat, items)
  {
    outdated := [];
    var i := 0;
    while i < |items|
      invariant 0 <= i <= |items| && outdated == OutdatedIds(cat, items[..i])
    {
      assert items[..i + 1][..i] == items[..i];
      var pod := items[i].meta;
      if pod.IsWorkspace() && Outdated(cat, pod.annotations) && pod.WorkspaceId() != "" {
        outdated := outdated + [pod.WorkspaceId()];
      }
      i := i + 1;
    }
    assert items[..i] == items;
  }

  class Namespace {
    var pods: seq<WorkspacePod>
    var jobs: seq<Job>

    constructor (pods: seq<WorkspacePod>)
      ensures this.pods == pods && jobs == []
    {
      this.pods, jobs := pods, [];
    }

    /** What workers do on their own while the handler waits for the API. */
    method WorkersGoOn(env: Setting, due: Job -> bool)
      modifies this
      ensures pods == RunJobs(env, old(pods), old(jobs), due) && jobs == Filter(NotDue(due), old(jobs))
    {
      var i := 0;
      ghost var was, all := pods, jobs;
      while i < |jobs|
        invariant 0 <= i <= |jobs| && jobs == all && pods == RunJobs(env, was, all[..i], due)
      {
        assert all[..i + 1][..i] == all[..i];
        if due(jobs[i]) {
          pods := Ended(env, pods, jobs[i]);
        }
        i := i + 1;
      }
      assert all[..i] == all;
      jobs := Filter(NotDue(due), jobs);
    }

    /** Collects the outdated workspaces and upgrades one after the other; a failure
        is noted and does not stop the rest. */
    method UpgradeAllWorkspaces(env: Setting) returns (upgraded: seq<string>, failed: seq<string>)
      requires jobs == []
      modifies this
      ensures Progress(pods, upgraded, failed, jobs) == UpgradeEach(env, old(pods), OutdatedIds(env.cat, old(pods)))
    {
      ghost var listed := pods;
      var outdated := CollectOutdated(env.cat, pods);
      upgraded, failed := [], [];
      var k := 0;
      while k < |outdated|
        invariant 0 <= k <= |outdated|
        invariant Progress(pods, upgraded, failed, jobs) == UpgradeEach(env, listed, outdated[..k])
      {
        EachOneMore(env, listed, outdated, k);
        WorkersGoOn(env, Due(env, k));
        upgraded, failed := Upgrade(env, outdated[k], upgraded, failed);
        k := k + 1;
      }
      assert outdated[..k] == outdated;
    }

    /** One round of the loop: reports the upgrade and leaves it to a worker, or notes the failure. */
    method Upgrade(env: Setting, id: string, upgraded: seq<string>, failed: seq<string>)
      returns (upgraded': seq<string>, failed': seq<string>)
      modifies this
      ensures Progress(pods, upgraded', failed', jobs) ==
              UpgradeOne(env, Progress(old(pods), upgraded, failed, old(jobs)), id)
    {
      var r, name := UpgradeWorkspaceInner(pods, id, env.userSub, env.isAdmin, Resolver(env.cat, env.fill(id)), env.suffixes(id));
      if r.Planned? {
        var items := Filter(Visible(id, env.userSub, env.isAdmin), pods);
        jobs := jobs + [Job(id, items[0], Created(name, r.args))];
        return upgraded + [id], failed;
      }
      return upgraded, failed + [id];
    }
  }

  // ----- what is left outdated

  /** No workspace is in the middle of an upgrade. */
  ghost predicate OnePodEach(pods: seq<WorkspacePod>) {
    forall i, j :: 0 <= i < j < |pods| && pods[i].meta.IsWorkspace() && pods[j].meta.IsWorkspace() ==>
                     pods[i].meta.WorkspaceId() != pods[j].meta.WorkspaceId()
  }

  predicate BelongsTo(p: WorkspacePod, id: string) { p.meta.IsWorkspace() && p.meta.WorkspaceId() == id }

  /** The lookups agree for the pod's template, whose spec does not set the version itself. */
  ghost predicate WellVersioned(cat: Catalog, annotations: StringMap) {
    var ref := Lookup(annotations, TEMPLATE_REF);
    && Settled(cat, ref)
    && forall fill: string -> string :: Resolve(cat, ref, fill).Some? ==>
                                          LeavesTemplate(Resolve(cat, ref, fill).value.spec.annotations)
  }

  ghost predicate AllWellVersioned(cat: Catalog, pods: seq<WorkspacePod>) {
    forall p :: p in pods && p.meta.IsWorkspace() ==> WellVersioned(cat, p.meta.annotations)
  }

  ghost predicate Differ(ids: seq<string>) { forall i, j :: 0 <= i < j < |ids| ==> ids[i] != ids[j] }

  lemma {:induction false} OutdatedIdsHold(cat: Catalog, items: seq<WorkspacePod>)
    ensures forall id :: id in OutdatedIds(cat, items) <==>
                           id != "" && exists p :: p in items && BelongsTo(p, id) && Outdated(cat, p.meta.annotations)
  {
    if items != [] {
      OutdatedIdsHold(cat, items[..|items| - 1]);
      assert items == items[..|items| - 1] + [items[|items| - 1]];
    }
  }

  /** They come in the order of the listing, once for each outdated pod. */
  lemma {:induction false} OutdatedInOrder(cat: Catalog, a: seq<WorkspacePod>, b: seq<WorkspacePod>)
    ensures OutdatedIds(cat, a + b) == OutdatedIds(cat, a) + OutdatedIds(cat, b)
    ensures |b| == 1 ==>
              OutdatedIds(cat, b) == if BelongsTo(b[0], b[0].meta.WorkspaceId()) && b[0].meta.WorkspaceId() != ""
                                        && Outdated(cat, b[0].meta.annotations)
                                     then [b[0].meta.WorkspaceId()] else []
  {
    if b == [] {
      assert a + b == a;
    } else {
      assert (a + b)[..|a + b| - 1] == a + b[..|b| - 1];
      OutdatedInOrder(cat, a, b[..|b| - 1]);
    }
  }

  lemma {:induction false} OutdatedIdsDiffer(cat: Catalog, items: seq<WorkspacePod>)
    requires OnePodEach(items)
    ensures Differ(OutdatedIds(cat, items))
  {
    if items != [] {
      var front, last := items[..|items| - 1], items[|items| - 1];
      OutdatedIdsDiffer(cat, front);
      OutdatedIdsHold(cat, front);
      forall p | p in front && last.meta.IsWorkspace() ensures !BelongsTo(p, last.meta.WorkspaceId()) {
        var i :| 0 <= i < |front| && front[i] == p;
        assert items[i] == p;
      }
      if last.meta.IsWorkspace() {
        assert last.meta.WorkspaceId() !in OutdatedIds(cat, front);
      }
    }
  }

  ghost predicate UnderWay(now: Progress, id: string) { exists job :: job in now.jobs && job.id == id }

  /** The workspace has been upgraded and its worker has come through. */
  ghost predicate Renewed(env: Setting, now: Progress, id: string) {
    id in now.upgraded && env.through(id) && !UnderWay(now, id)
  }

  ghost predicate InRenewed(env: Setting, now: Progress, p: WorkspacePod) {
    p.meta.IsWorkspace() && Renewed(env, now, p.meta.WorkspaceId())
  }

  /** The pod that an upgrade of `o` creates. */
  function Upgraded(env: Setting, o: WorkspacePod, id: string): WorkspacePod
    requires Plan(o, id, env.userSub, Resolver(env.cat, env.fill(id))).Planned?
  {
    Created(NameFor(env, o, id), Plan(o, id, env.userSub, Resolver(env.cat, env.fill(id))).args)
  }

  /** `p` is the pod an upgrade of the listed pod creates. */
  ghost predicate Succeeds(env: Setting, pods: seq<WorkspacePod>, p: WorkspacePod, id: string) {
    exists o :: o in pods && BelongsTo(o, id) && Plan(o, id, env.userSub, Resolver(env.cat, env.fill(id))).Planned?
                && p == Upgraded(env, o, id)
  }

  ghost predicate JobOk(env: Setting, pods: seq<WorkspacePod>, now: Progress, job: Job) {
    && job.id in now.upgraded && job.oldPod in pods && BelongsTo(job.oldPod, job.id)
    && BelongsTo(job.newPod, job.id) && Succeeds(env, pods, job.newPod, job.id)
  }

  ghost predicate OneJobEach(jobs: seq<Job>) { forall i, j :: 0 <= i < j < |jobs| ==> jobs[i].id != jobs[j].id }

  /** How far the upgrades have come once those of `ids` have been asked for. */
  ghost predicate Halfway(env: Setting, pods: seq<WorkspacePod>, ids: seq<string>, now: Progress) {
    && (forall id :: id in ids <==> id in now.upgraded || id in now.failed)
    && (forall id :: id in now.upgraded ==> id !in now.failed)
    && (forall job :: job in now.jobs ==> JobOk(env, pods, now, job)) && OneJobEach(now.jobs)
    && (forall id :: Renewed(env, now, id) ==> exists p :: p in now.pods && BelongsTo(p, id))
    && (forall p :: p in now.pods && InRenewed(env, now, p) ==> Succeeds(env, pods, p, p.meta.WorkspaceId()))
    && (forall p :: p in now.pods && !InRenewed(env, now, p) <==> p in pods && !InRenewed(env, now, p))
  }

  lemma PlannedIdentity(oldPod: WorkspacePod, id: string, userSub: string, templates: string -> Option<Template>)
    ensures Plan(oldPod, id, userSub, templates).Planned? ==>
              Identity(Plan(oldPod, id, userSub, templates).args.labels, id,
                       UpgradeOwner(oldPod.meta.labels, oldPod.meta.annotations, userSub))
  {
    PlannedLabels(oldPod, id, userSub, templates);
    if Plan(oldPod, id, userSub, templates).Planned? {
      var owner := UpgradeOwner(oldPod.meta.labels, oldPod.meta.annotations, userSub);
      var template, spec :| Plan(oldPod, id, userSub, templates).args.labels ==
                            UpgradeLabels(template, oldPod.meta.labels, spec, id, owner);
      IdentityCannotBeOverridden(template, oldPod.meta.labels, spec, id, owner);
    }
  }

  lemma CreatedSucceeds(env: Setting, pods: seq<WorkspacePod>, oldPod: WorkspacePod, id: string)
    requires Plan(oldPod, id, env.userSub, Resolver(env.cat, env.fill(id))).Planned?
    requires oldPod in pods && BelongsTo(oldPod, id)
    ensures BelongsTo(Upgraded(env, oldPod, id), id) && Succeeds(env, pods, Upgraded(env, oldPod, id), id)
  {
    PlannedIdentity(oldPod, id, env.userSub, Resolver(env.cat, env.fill(id)));
  }

  lemma FinishedHolds(pods: seq<WorkspacePod>, oldPod: WorkspacePod, newPod: WorkspacePod)
    ensures forall p :: p in Finished(pods, oldPod, newPod) <==> (p in pods && p != oldPod) || p == newPod
  {
    FilterIn(IsNot(oldPod), pods);
  }

  /** A worker ends. */
  lemma JobEnds(env: Setting, pods: seq<WorkspacePod>, ids: seq<string>, was: Progress, before: seq<Job>, job: Job, rest: seq<Job>)
    requires Halfway(env, pods, ids, was) && OnePodEach(pods) && was.jobs == before + [job] + rest
    ensures Halfway(env, pods, ids, was.(pods := Ended(env, was.pods, job), jobs := before + rest))
  {
    var now := was.(pods := Ended(env, was.pods, job), jobs := before + rest);
    assert job == was.jobs[|before|] && job in was.jobs;
    JobRemoved(was.jobs, before, job, rest);
    JobReported(env, pods, was, job);
    RenewedBy(env, was, now, job);
    if env.through(job.id) {
      OnlyPod(pods, job.oldPod, job.id);
      Replaced(env, pods, ids, was, now, job);
    } else {
      Dropped(env, pods, ids, was, now);
    }
  }

  lemma RenewedBy(env: Setting, was: Progress, now: Progress, job: Job)
    requires job in was.jobs && job.id in was.upgraded && now.upgraded == was.upgraded
    requires forall j :: j in was.jobs <==> j == job || j in now.jobs
    requires forall j :: j in now.jobs ==> j.id != job.id
    ensures forall i :: Renewed(env, now, i) <==> Renewed(env, was, i) || (i == job.id && env.through(i))
  {
  }

  lemma Dropped(env: Setting, pods: seq<WorkspacePod>, ids: seq<string>, was: Progress, now: Progress)
    requires Halfway(env, pods, ids, was) && now.pods == was.pods && now.upgraded == was.upgraded && now.failed == was.failed
    requires (forall j :: j in now.jobs ==> j in was.jobs) && OneJobEach(now.jobs)
    requires forall i :: Renewed(env, now, i) <==> Renewed(env, was, i)
    ensures Halfway(env, pods, ids, now)
  {
    forall j | j in now.jobs ensures JobOk(env, pods, now, j) { JobStaysOk(env, pods, was, now, j); }
    forall p ensures InRenewed(env, now, p) <==> InRenewed(env, was, p) { }
  }

  lemma JobRemoved(jobs: seq<Job>, before: seq<Job>, job: Job, rest: seq<Job>)
    requires jobs == before + [job] + rest && OneJobEach(jobs)
    ensures OneJobEach(before + rest)
    ensures forall j :: j in jobs <==> j == job || j in before + rest
    ensures forall j :: j in before + rest ==> j.id != job.id
  {
    var left := before + rest;
    forall i, j | 0 <= i < j < |left| ensures left[i].id != left[j].id {
      var a, b := if i < |before| then i else i + 1, if j < |before| then j else j + 1;
      assert left[i] == jobs[a] && left[j] == jobs[b];
    }
    forall j | j in left ensures j.id != job.id && j in jobs {
      var i :| 0 <= i < |left| && left[i] == j;
      var a := if i < |before| then i else i + 1;
      assert jobs[a] == j && jobs[|before|] == job;
    }
  }

  lemma Replaced(env: Setting, pods: seq<WorkspacePod>, ids: seq<string>, was: Progress, now: Progress, job: Job)
    requires Halfway(env, pods, ids, was) && JobOk(env, pods, was, job) && env.through(job.id) && !Renewed(env, was, job.id)
    requires now.pods == Finished(was.pods, job.oldPod, job.newPod)
    requires now.upgraded == was.upgraded && now.failed == was.failed
    requires forall j :: j in now.jobs ==> j in was.jobs
    requires OneJobEach(now.jobs)
    requires forall i :: Renewed(env, now, i) <==> Renewed(env, was, i) || i == job.id
    requires forall p :: p in pods && BelongsTo(p, job.id) ==> p == job.oldPod
    ensures Halfway(env, pods, ids, now)
  {
    FinishedHolds(was.pods, job.oldPod, job.newPod);
    forall j | j in now.jobs ensures JobOk(env, pods, now, j) {
      assert JobOk(env, pods, was, j);
    }
    forall p ensures InRenewed(env, now, p) <==> InRenewed(env, was, p) || BelongsTo(p, job.id) {
    }
    forall i | Renewed(env, now, i) ensures exists p :: p in now.pods && BelongsTo(p, i) {
      if i == job.id {
        assert job.newPod in now.pods;
      } else {
        var p :| p in was.pods && BelongsTo(p, i);
        assert p in now.pods;
      }
    }
    forall p | p in pods && !InRenewed(env, now, p) ensures p in now.pods {
      assert p in was.pods;
    }
  }

  lemma {:induction false} SettlingKeepsHalfway(env: Setting, pods: seq<WorkspacePod>, ids: seq<string>, was: Progress,
                                                due: Job -> bool, i: nat)
    requires Halfway(env, pods, ids, was) && OnePodEach(pods) && i <= |was.jobs|
    ensures Halfway(env, pods, ids, was.(pods := RunJobs(env, was.pods, was.jobs[..i], due),
                                         jobs := Filter(NotDue(due), was.jobs[..i]) + was.jobs[i..]))
  {
    var done, left := Filter(NotDue(due), was.jobs[..i]), was.jobs[i..];
    if i == 0 {
      assert done + left == was.jobs;
    } else {
      SettlingKeepsHalfway(env, pods, ids, was, due, i - 1);
      var job, before := was.jobs[i - 1], Filter(NotDue(due), was.jobs[..i - 1]);
      assert was.jobs[..i][..i - 1] == was.jobs[..i - 1] && was.jobs[i - 1..] == [job] + left;
      var so := was.(pods := RunJobs(env, was.pods, was.jobs[..i - 1], due), jobs := before + was.jobs[i - 1..]);
      assert so.jobs == before + [job] + left;
      if due(job) {
        JobEnds(env, pods, ids, so, before, job, left);
      } else {
        assert done + left == so.jobs;
      }
    }
  }

  lemma SettleKeepsHalfway(env: Setting, pods: seq<WorkspacePod>, ids: seq<string>, was: Progress, due: Job -> bool)
    requires Halfway(env, pods, ids, was) && OnePodEach(pods)
    ensures Halfway(env, pods, ids, Settle(env, was, due))
  {
    var n := |was.jobs|;
    SettlingKeepsHalfway(env, pods, ids, was, due, n);
    assert was.jobs[..n] == was.jobs;
    assert Filter(NotDue(due), was.jobs) + was.jobs[n..] == Filter(NotDue(due), was.jobs);
  }

  lemma FailedKeepsHalfway(env: Setting, pods: seq<WorkspacePod>, ids: seq<string>, was: Progress, id: string)
    requires Halfway(env, pods, ids, was) && id !in ids
    ensures Halfway(env, pods, ids + [id], was.(failed := was.failed + [id]))
  {
    var now := was.(failed := was.failed + [id]);
    forall i ensures Renewed(env, now, i) <==> Renewed(env, was, i) {
    }
    forall job | job in now.jobs ensures JobOk(env, pods, now, job) {
      assert JobOk(env, pods, was, job);
    }
  }

  lemma PlannedKeepsHalfway(env: Setting, pods: seq<WorkspacePod>, ids: seq<string>, was: Progress, id: string, job: Job)
    requires Halfway(env, pods, ids, was) && id !in ids && job.id == id
    requires job.oldPod in pods && BelongsTo(job.oldPod, id) && BelongsTo(job.newPod, id) && Succeeds(env, pods, job.newPod, id)
    ensures Halfway(env, pods, ids + [id], was.(upgraded := was.upgraded + [id], jobs := was.jobs + [job]))
  {
    var now := was.(upgraded := was.upgraded + [id], jobs := was.jobs + [job]);
    OneMoreJob(env, pods, was, now, id, job);
    assert job in now.jobs;
    forall i ensures Renewed(env, now, i) <==> Renewed(env, was, i) {
      assert i != id ==> (UnderWay(now, i) <==> UnderWay(was, i));
    }
    forall p ensures InRenewed(env, now, p) <==> InRenewed(env, was, p) { }
  }

  lemma JobStaysOk(env: Setting, pods: seq<WorkspacePod>, was: Progress, now: Progress, job: Job)
    requires JobOk(env, pods, was, job) && forall id :: id in was.upgraded ==> id in now.upgraded
    ensures JobOk(env, pods, now, job)
  {
  }

  lemma OneMoreJob(env: Setting, pods: seq<WorkspacePod>, was: Progress, now: Progress, id: string, job: Job)
    requires (forall j :: j in was.jobs ==> JobOk(env, pods, was, j)) && OneJobEach(was.jobs) && id !in was.upgraded
    requires job.id == id && now.jobs == was.jobs + [job] && now.upgraded == was.upgraded + [id]
    requires JobOk(env, pods, now, job)
    ensures (forall j :: j in now.jobs ==> JobOk(env, pods, now, j)) && OneJobEach(now.jobs)
  {
    forall j | j in was.jobs ensures JobOk(env, pods, now, j) { JobStaysOk(env, pods, was, now, j); }
    forall j | j in was.jobs ensures j.id != id { JobReported(env, pods, was, j); }
    AnotherJob(was.jobs, job);
  }

  lemma AnotherJob(jobs: seq<Job>, job: Job)
    requires OneJobEach(jobs) && forall j :: j in jobs ==> j.id != job.id
    ensures OneJobEach(jobs + [job])
  {
  }

  lemma JobReported(env: Setting, pods: seq<WorkspacePod>, was: Progress, job: Job)
    requires JobOk(env, pods, was, job)
    ensures job.id in was.upgraded
  {
  }

  lemma StepKeepsHalfway(env: Setting, pods: seq<WorkspacePod>, ids: seq<string>, was: Progress, id: string)
    requires Halfway(env, pods, ids, was) && id !in ids && OnePodEach(pods)
    ensures Halfway(env, pods, ids + [id], UpgradeOne(env, was, id))
  {
    var items := Filter(Visible(id, env.userSub, env.isAdmin), was.pods);
    if items != [] && Plan(items[0], id, env.userSub, Resolver(env.cat, env.fill(id))).Planned? {
      var oldPod := items[0];
      FilterIn(Visible(id, env.userSub, env.isAdmin), was.pods);
      assert oldPod in items && !InRenewed(env, was, oldPod) && oldPod in pods;
      CreatedSucceeds(env, pods, oldPod, id);
      var newPod := Created(NameFor(env, oldPod, id), Plan(oldPod, id, env.userSub, Resolver(env.cat, env.fill(id))).args);
      PlannedKeepsHalfway(env, pods, ids, was, id, Job(id, oldPod, newPod));
    } else {
      FailedKeepsHalfway(env, pods, ids, was, id);
    }
  }

  lemma OnlyPod(pods: seq<WorkspacePod>, pod: WorkspacePod, id: string)
    requires OnePodEach(pods) && pod in pods && BelongsTo(pod, id)
    ensures forall p :: p in pods && BelongsTo(p, id) ==> p == pod
  {
    forall p | p in pods && BelongsTo(p, id) ensures p == pod {
      var i :| 0 <= i < |pods| && pods[i] == p;
      var j :| 0 <= j < |pods| && pods[j] == pod;
    }
  }

  lemma {:induction false} EachKeepsHalfway(env: Setting, pods: seq<WorkspacePod>, ids: seq<string>)
    requires OnePodEach(pods) && Differ(ids)
    ensures Halfway(env, pods, ids, UpgradeEach(env, pods, ids))
  {
    if ids == [] {
      StartsHalfway(env, pods);
    } else {
      var n := |ids| - 1;
      var front, id := ids[..n], ids[n];
      assert ids == front + [id] && Differ(front) && id !in front;
      EachKeepsHalfway(env, pods, front);
      SettleKeepsHalfway(env, pods, front, UpgradeEach(env, pods, front), Due(env, n));
      StepKeepsHalfway(env, pods, front, Settle(env, UpgradeEach(env, pods, front), Due(env, n)), id);
    }
  }

  lemma StartsHalfway(env: Setting, pods: seq<WorkspacePod>)
    ensures Halfway(env, pods, [], Progress(pods, [], [], []))
  {
  }

  /** The workspace was to be upgraded and was not. */
  predicate Left(env: Setting, after: Progress, id: string) {
    id in after.failed || (id in after.upgraded && !env.through(id))
  }

  /** The workspace was upgraded, to no avail. */
  ghost predicate Relapsed(env: Setting, pods: seq<WorkspacePod>, after: Progress, id: string) {
    && id in after.upgraded && env.through(id)
    && exists o :: o in pods && BelongsTo(o, id) && Relapses(env.cat, env.fill(id), o.meta.annotations)
  }

  lemma {:induction false} NoneLeft(jobs: seq<Job>)
    ensures Filter(NotDue(AllDue()), jobs) == []
  {
    if jobs != [] { NoneLeft(jobs[..|jobs| - 1]); }
  }

  lemma AfterAllHalfway(env: Setting, pods: seq<WorkspacePod>)
    requires OnePodEach(pods)
    ensures Halfway(env, pods, OutdatedIds(env.cat, pods), AfterAll(env, pods)) && AfterAll(env, pods).jobs == []
  {
    var ids := OutdatedIds(env.cat, pods);
    OutdatedIdsDiffer(env.cat, pods);
    EachKeepsHalfway(env, pods, ids);
    SettleKeepsHalfway(env, pods, ids, UpgradeEach(env, pods, ids), AllDue());
    NoneLeft(UpgradeEach(env, pods, ids).jobs);
  }

  /** For any templates, and whenever the workers end: a workspace is outdated afterwards
      if and only if its upgrade failed, or was reported and then not carried through, or
      its template makes it relapse. And no workspace has got lost. */
  lemma UpgradeAllExactly(env: Setting, pods: seq<WorkspacePod>)
    requires OnePodEach(pods)
    ensures var after := AfterAll(env, pods);
            && (forall p :: p in after.pods && p.meta.IsWorkspace() && p.meta.WorkspaceId() != "" ==>
                              (Outdated(env.cat, p.meta.annotations) <==>
                               Left(env, after, p.meta.WorkspaceId()) || Relapsed(env, pods, after, p.meta.WorkspaceId())))
            && (forall p :: p in pods && p.meta.IsWorkspace() ==>
                              exists q :: q in after.pods && BelongsTo(q, p.meta.WorkspaceId()))
            && (forall id :: Left(env, after, id) || Relapsed(env, pods, after, id) <==> id in OutdatedIds(env.cat, after.pods))
  {
    var after := AfterAll(env, pods);
    AfterAllHalfway(env, pods);
    OutdatedExactly(env, pods, after);
    NobodyLost(env, pods, after);
    AllListed(env, pods, after);
  }

  lemma OutdatedExactly(env: Setting, pods: seq<WorkspacePod>, after: Progress)
    requires OnePodEach(pods) && Halfway(env, pods, OutdatedIds(env.cat, pods), after) && after.jobs == []
    ensures forall p :: p in after.pods && p.meta.IsWorkspace() && p.meta.WorkspaceId() != "" ==>
                          (Outdated(env.cat, p.meta.annotations) <==>
                           Left(env, after, p.meta.WorkspaceId()) || Relapsed(env, pods, after, p.meta.WorkspaceId()))
  {
    forall p | p in after.pods && p.meta.IsWorkspace() && p.meta.WorkspaceId() != ""
      ensures Outdated(env.cat, p.meta.annotations) <==>
              Left(env, after, p.meta.WorkspaceId()) || Relapsed(env, pods, after, p.meta.WorkspaceId())
    {
      var id := p.meta.WorkspaceId();
      if InRenewed(env, after, p) {
        var o :| o in pods && BelongsTo(o, id) && Plan(o, id, env.userSub, Resolver(env.cat, env.fill(id))).Planned?
                 && p == Upgraded(env, o, id);
        UpgradedRelapsesExactly(env.cat, env.fill(id), o, id, env.userSub);
        OnlyPod(pods, o, id);
      } else {
        OutdatedPod(env, pods, p);
      }
    }
  }

  lemma NobodyLost(env: Setting, pods: seq<WorkspacePod>, after: Progress)
    requires Halfway(env, pods, OutdatedIds(env.cat, pods), after)
    ensures forall p :: p in pods && p.meta.IsWorkspace() ==>
                          exists q :: q in after.pods && BelongsTo(q, p.meta.WorkspaceId())
  {
    forall p | p in pods && p.meta.IsWorkspace() ensures exists q :: q in after.pods && BelongsTo(q, p.meta.WorkspaceId()) {
      if !InRenewed(env, after, p) { assert p in after.pods && BelongsTo(p, p.meta.WorkspaceId()); }
    }
  }

  lemma AllListed(env: Setting, pods: seq<WorkspacePod>, after: Progress)
    requires OnePodEach(pods) && Halfway(env, pods, OutdatedIds(env.cat, pods), after) && after.jobs == []
    ensures forall id :: Left(env, after, id) || Relapsed(env, pods, after, id) <==> id in OutdatedIds(env.cat, after.pods)
  {
    OutdatedExactly(env, pods, after);
    NobodyLost(env, pods, after);
    OutdatedIdsHold(env.cat, pods);
    OutdatedIdsHold(env.cat, after.pods);
    forall id | Left(env, after, id) || Relapsed(env, pods, after, id) ensures id in OutdatedIds(env.cat, after.pods) {
      var o :| o in pods && BelongsTo(o, id) && Outdated(env.cat, o.meta.annotations);
      var q :| q in after.pods && BelongsTo(q, id);
      assert Outdated(env.cat, q.meta.annotations);
    }
  }

  // ----- what is reported, and which pods there are in the end

  /** The caller may see the workspace's pod, and there is a plan for it. */
  ghost predicate CanUpgrade(env: Setting, pods: seq<WorkspacePod>, id: string) {
    exists o :: o in pods && BelongsTo(o, id) && MaySee(o.meta, id, env.userSub, env.isAdmin)
                && Plan(o, id, env.userSub, Resolver(env.cat, env.fill(id))).Planned?
  }

  ghost predicate Reported(env: Setting, pods: seq<WorkspacePod>, now: Progress) {
    && (forall id :: id in now.upgraded ==> CanUpgrade(env, pods, id))
    && (forall id :: id in now.failed ==> !CanUpgrade(env, pods, id))
  }

  lemma StepKeepsReported(env: Setting, pods: seq<WorkspacePod>, ids: seq<string>, was: Progress, id: string)
    requires Halfway(env, pods, ids, was) && id !in ids && OnePodEach(pods) && Reported(env, pods, was)
    ensures Reported(env, pods, UpgradeOne(env, was, id))
  {
    var items := Filter(Visible(id, env.userSub, env.isAdmin), was.pods);
    FilterIn(Visible(id, env.userSub, env.isAdmin), was.pods);
    if items != [] {
      assert items[0] in items && !InRenewed(env, was, items[0]) && items[0] in pods;
      OnlyPod(pods, items[0], id);
    }
    forall o | o in pods && BelongsTo(o, id) && MaySee(o.meta, id, env.userSub, env.isAdmin) ensures items != [] {
      assert !InRenewed(env, was, o);
      assert o in items;
    }
  }

  lemma {:induction false} EachReports(env: Setting, pods: seq<WorkspacePod>, ids: seq<string>)
    requires OnePodEach(pods) && Differ(ids)
    ensures Reported(env, pods, UpgradeEach(env, pods, ids))
  {
    if ids != [] {
      var n := |ids| - 1;
      var front, id := ids[..n], ids[n];
      assert ids == front + [id] && Differ(front) && id !in front;
      EachReports(env, pods, front);
      EachKeepsHalfway(env, pods, front);
      SettleKeepsHalfway(env, pods, front, UpgradeEach(env, pods, front), Due(env, n));
      StepKeepsReported(env, pods, front, Settle(env, UpgradeEach(env, pods, front), Due(env, n)), id);
    }
  }

  /** Every outdated workspace is reported once: as upgraded if the caller may see its pod
      and there is a plan for it, else as failed. Nothing else is reported. */
  lemma ReportedExactly(env: Setting, pods: seq<WorkspacePod>, id: string)
    requires OnePodEach(pods)
    ensures var after := UpgradeEach(env, pods, OutdatedIds(env.cat, pods));
            var outdated := id != "" && exists p :: p in pods && BelongsTo(p, id) && Outdated(env.cat, p.meta.annotations);
            && (id in after.upgraded <==> outdated && CanUpgrade(env, pods, id))
            && (id in after.failed <==> outdated && !CanUpgrade(env, pods, id))
  {
    var ids := OutdatedIds(env.cat, pods);
    OutdatedIdsHold(env.cat, pods);
    OutdatedIdsDiffer(env.cat, pods);
    EachKeepsHalfway(env, pods, ids);
    EachReports(env, pods, ids);
  }

  /** In the end there are the pods that were there, but for those that were upgraded and
      whose workers came through the planned ones. */
  lemma PodsInTheEnd(env: Setting, pods: seq<WorkspacePod>, q: WorkspacePod)
    requires OnePodEach(pods)
    ensures var after := AfterAll(env, pods);
            var replaced := (p: WorkspacePod) =>
              p.meta.IsWorkspace() && p.meta.WorkspaceId() in after.upgraded && env.through(p.meta.WorkspaceId());
            q in after.pods <==> (q in pods && !replaced(q)) ||
                                 exists o :: o in pods && replaced(o)
                                             && Plan(o, o.meta.WorkspaceId(), env.userSub,
                                                     Resolver(env.cat, env.fill(o.meta.WorkspaceId()))).Planned?
                                             && q == Upgraded(env, o, o.meta.WorkspaceId())
  {
    var after := AfterAll(env, pods);
    AfterAllHalfway(env, pods);
    assert forall p :: InRenewed(env, after, p) <==>
                       p.meta.IsWorkspace() && p.meta.WorkspaceId() in after.upgraded && env.through(p.meta.WorkspaceId());
    forall o | o in pods && InRenewed(env, after, o)
      && Plan(o, o.meta.WorkspaceId(), env.userSub, Resolver(env.cat, env.fill(o.meta.WorkspaceId()))).Planned?
      ensures Upgraded(env, o, o.meta.WorkspaceId()) in after.pods
    {
      var id := o.meta.WorkspaceId();
      var p :| p in after.pods && BelongsTo(p, id);
      assert InRenewed(env, after, p);
      OnlyPod(pods, o, id);
    }
    if q in after.pods && InRenewed(env, after, q) {
      var id := q.meta.WorkspaceId();
      var o :| o in pods && BelongsTo(o, id) && Plan(o, id, env.userSub, Resolver(env.cat, env.fill(id))).Planned?
               && q == Upgraded(env, o, id);
      assert InRenewed(env, after, o);
    }
  }

  /** With templates on which the lookups agree nothing relapses. */
  lemma UpgradeAllSettles(env: Setting, pods: seq<WorkspacePod>)
    requires OnePodEach(pods) && AllWellVersioned(env.cat, pods)
    ensures var after := AfterAll(env, pods);
            && (forall p :: p in after.pods && p.meta.IsWorkspace() && p.meta.WorkspaceId() != "" ==>
                              (Outdated(env.cat, p.meta.annotations) <==> Left(env, after, p.meta.WorkspaceId())))
            && (forall p :: p in pods && p.meta.IsWorkspace() ==>
                              exists q :: q in after.pods && BelongsTo(q, p.meta.WorkspaceId()))
            && (forall id :: Left(env, after, id) <==> id in OutdatedIds(env.cat, after.pods))
  {
    var after := AfterAll(env, pods);
    UpgradeAllExactly(env, pods);
    forall id ensures !Relapsed(env, pods, after, id) {
      forall o | o in pods && BelongsTo(o, id) ensures !Relapses(env.cat, env.fill(id), o.meta.annotations) {
        NeverRelapses(env.cat, env.fill(id), o.meta.annotations);
      }
    }
  }

  lemma NeverRelapses(cat: Catalog, fill: string -> string, had: StringMap)
    requires WellVersioned(cat, had)
    ensures !Relapses(cat, fill, had)
  {
    var ref := Lookup(had, TEMPLATE_REF);
    if ref != "" && Resolve(cat, ref, fill).Some? {
      RelapsesUnlessSettled(cat, fill, had);
    }
  }

  lemma OutdatedPod(env: Setting, pods: seq<WorkspacePod>, p: WorkspacePod)
    requires OnePodEach(pods) && p in pods && p.meta.IsWorkspace() && p.meta.WorkspaceId() != ""
    ensures p.meta.WorkspaceId() in OutdatedIds(env.cat, pods) <==> Outdated(env.cat, p.meta.annotations)
  {
    OutdatedIdsHold(env.cat, pods);
    OnlyPod(pods, p, p.meta.WorkspaceId());
    assert BelongsTo(p, p.meta.WorkspaceId());
  }

  // ----- reported and yet outdated

  /** One workspace "w" at the default version of the template "t", which is at 2.0.0,
      and no worker that comes through. */
  function Stuck(): (Setting, WorkspacePod) {
    var cat := Catalog(
      (r: string) => if r == "t" then Some(ConfigMap(Some(NOTHING), map[TEMPLATE_VERSION := "2.0.0"], map[])) else None,
      (r: string) => None,
      (r: string) => true);
    var labels := map[TYPE := WORKSPACE, WORKSPACE_ID := "w", USER_SUB := "u"];
    (Setting(cat, (id: string) => (v: string) => v, (id: string) => "-up-", "u", true, (id: string) => false, (id: string) => 0),
     WorkspacePod(Pod("p", labels, map[TEMPLATE_REF := "t"], 0, Running, "", NoState), Some(NOTHING)))
  }

  lemma StuckIsOutdated()
    ensures var (env, p) := Stuck(); BelongsTo(p, "w") && Outdated(env.cat, p.meta.annotations)
  {
    KeysDiffer();
    assert TYPE[7] == 't' && WORKSPACE_ID[7] == 'w' && USER_SUB[7] == 'u';
    assert "2.0.0"[0] != "1.0.0"[0];
  }

  lemma StuckIsPlanned()
    ensures var (env, p) := Stuck(); Plan(p, "w", "u", Resolver(env.cat, env.fill("w"))).Planned?
  {
    var (env, p) := Stuck();
    var template := Resolve(env.cat, "t", env.fill("w")).value;
    KeysDiffer();
    assert REQUIRED_CONTEXT[7] == 'r' && TEMPLATE_REF[7] == 't' && TEMPLATE_VERSION[7] == 't';
    PlanMeaning(p, "w", "u", Resolver(env.cat, env.fill("w")));
    assert forall key :: !Lacks(p, template, key);
  }

  lemma OutdatedAlone(cat: Catalog, p: WorkspacePod, id: string)
    requires BelongsTo(p, id) && id != "" && Outdated(cat, p.meta.annotations)
    ensures OutdatedIds(cat, [p]) == [id]
  {
    assert [p][..0] == [];
  }

  lemma PlannedAlone(env: Setting, p: WorkspacePod, id: string)
    requires BelongsTo(p, id) && env.isAdmin && Plan(p, id, env.userSub, Resolver(env.cat, env.fill(id))).Planned?
    ensures var planned := UpgradeOne(env, Progress([p], [], [], []), id);
            && planned.pods == [p] && planned.upgraded == [id] && planned.failed == []
            && |planned.jobs| == 1 && planned.jobs[0].id == id
  {
    assert [p][..0] == [];
    assert Filter(Visible(id, env.userSub, env.isAdmin), [p]) == [p];
  }

  lemma EachAlone(env: Setting, p: WorkspacePod, id: string)
    ensures UpgradeEach(env, [p], [id]) == UpgradeOne(env, Progress([p], [], [], []), id)
  {
    var start := Progress([p], [], [], []);
    EachOneMore(env, [p], [id], 0);
    assert [id][..1] == [id] && [id][..0] == [];
    assert Settle(env, start, Due(env, 0)) == start;
  }

  /** A single worker, and one that does not come through. */
  lemma IdleWorker(env: Setting, planned: Progress)
    requires |planned.jobs| == 1 && !env.through(planned.jobs[0].id)
    ensures Settle(env, planned, AllDue()) == planned.(jobs := [])
  {
    var jobs := planned.jobs;
    assert jobs[..0] == [] && jobs[|jobs| - 1] == jobs[0];
    assert RunJobs(env, planned.pods, jobs[..0], AllDue()) == planned.pods;
    assert RunJobs(env, planned.pods, jobs, AllDue()) == planned.pods;
    NoneLeft(jobs);
  }

  /** The handler reports "w" as upgraded, nothing as failed, and "w" is outdated. */
  lemma UpgradedCanStayOutdated() returns (env: Setting, pods: seq<WorkspacePod>)
    ensures var after := AfterAll(env, pods);
            after.upgraded == ["w"] && after.failed == [] && OutdatedIds(env.cat, after.pods) == ["w"]
  {
    var p := Stuck().1;
    env, pods := Stuck().0, [p];
    StuckIsOutdated();
    StuckIsPlanned();
    OutdatedAlone(env.cat, p, "w");
    PlannedAlone(env, p, "w");
    EachAlone(env, p, "w");
    IdleWorker(env, UpgradeEach(env, pods, ["w"]));
  }
}
