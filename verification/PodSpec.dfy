/** Pod specs, and the name-keyed list merges an upgrade performs on them. */
module PodSpec {
  import opened Pods

  datatype EnvVar = EnvVar(name: string, value: Option<string>, source: Option<string>)

  datatype Volume = Volume(name: string, claim: Option<string>, definition: string)

  /** A mount refers to its volume by name. */
  datatype Mount = Mount(name: string, path: string, options: string)

  datatype Container = Container(
    name: string,
    image: string,
    command: seq<string>,
    env: Option<seq<EnvVar>>,
    mounts: Option<seq<Mount>>,
    preStop: Option<seq<string>>)

  datatype PodArgs = PodArgs(
    containers: seq<Container>,
    initContainers: Option<seq<Container>>,
    volumes: Option<seq<Volume>>,
    serviceAccount: string,
    labels: map<string, string>,
    annotations: map<string, string>,
    gracePeriod: Option<string>)     // the text handed to `parseInt`

  function OrEmpty<T>(list: Option<seq<T>>): seq<T> {
    match list case Some(s) => s case None => []
  }

  function EnvName(e: EnvVar): string { e.name }
  function VolumeName(v: Volume): string { v.name }
  function MountName(m: Mount): string { m.name }

  // ----- lists keyed by name

  predicate Has<T>(nameOf: T -> string, list: seq<T>, name: string) {
    exists i :: 0 <= i < |list| && nameOf(list[i]) == name
  }

  function FindIndex<T>(nameOf: T -> string, list: seq<T>, name: string): (i: nat)
    ensures i <= |list|
    ensures i < |list| ==> nameOf(list[i]) == name
    ensures forall k :: 0 <= k < i ==> nameOf(list[k]) != name
  {
    if list == [] || nameOf(list[0]) == name then 0
    else
      var i := FindIndex(nameOf, list[1..], name);
      assert forall k :: 0 < k < i + 1 ==> list[k] == list[1..][k - 1];
      i + 1
  }

  function Count<T>(nameOf: T -> string, list: seq<T>, name: string): nat {
    if list == [] then 0
    else Count(nameOf, list[..|list| - 1], name) + if nameOf(list[|list| - 1]) == name then 1 else 0
  }

  /** The entry a reader gets that lets later entries win. */
  function Last<T>(nameOf: T -> string, list: seq<T>, name: string): Option<T> {
    if list == [] then None
    else if nameOf(list[|list| - 1]) == name then Some(list[|list| - 1])
    else Last(nameOf, list[..|list| - 1], name)
  }

  function First<T>(nameOf: T -> string, list: seq<T>, name: string): Option<T> {
    var i := FindIndex(nameOf, list, name);
    if i < |list| then Some(list[i]) else None
  }

  ghost predicate Distinct<T>(nameOf: T -> string, list: seq<T>) {
    forall i, j :: 0 <= i < j < |list| ==> nameOf(list[i]) != nameOf(list[j])
  }

  /** Overwrites the first entry of that name, or appends. */
  function Put<T>(nameOf: T -> string, list: seq<T>, x: T): seq<T> {
    var i := FindIndex(nameOf, list, nameOf(x));
    if i < |list| then list[i := x] else list + [x]
  }

  function Merge<T>(nameOf: T -> string, base: seq<T>, over: seq<T>): seq<T> {
    if over == [] then base
    else Put(nameOf, Merge(nameOf, base, over[..|over| - 1]), over[|over| - 1])
  }

  /** The loop that carries the old pod's volumes, and likewise its variables,
      into the new spec. */
  method MergeByName<T>(nameOf: T -> string, base: seq<T>, over: seq<T>) returns (merged: seq<T>)
    ensures merged == Merge(nameOf, base, over)
  {
    merged := base;
    var k := 0;
    while k < |over|
      invariant 0 <= k <= |over|
      invariant merged == Merge(nameOf, base, over[..k])
    {
      assert over[..k + 1][..k] == over[..k];
      var i := FindIndex(nameOf, merged, nameOf(over[k]));
      if i < |merged| {
        merged := merged[i := over[k]];
      } else {
        merged := merged + [over[k]];
      }
      k := k + 1;
    }
    assert over[..k] == over;
  }

  lemma {:induction false} CountZero<T>(nameOf: T -> string, list: seq<T>, name: string)
    ensures Count(nameOf, list, name) == 0 <==> !Has(nameOf, list, name)
    ensures Last(nameOf, list, name).None? <==> !Has(nameOf, list, name)
    ensures Last(nameOf, list, name).Some? ==>
              Last(nameOf, list, name).value in list && nameOf(Last(nameOf, list, name).value) == name
  {
    if list != [] {
      var front := list[..|list| - 1];
      CountZero(nameOf, front, name);
      if Has(nameOf, front, name) {
        var i :| 0 <= i < |front| && nameOf(front[i]) == name;
        assert nameOf(list[i]) == name;
      }
      if Has(nameOf, list, name) && nameOf(list[|list| - 1]) != name {
        var i :| 0 <= i < |list| && nameOf(list[i]) == name;
        assert nameOf(front[i]) == name;
      }
    }
  }

  lemma {:induction false} LastConcat<T>(nameOf: T -> string, a: seq<T>, b: seq<T>, name: string)
    ensures Last(nameOf, a + b, name) ==
            if Last(nameOf, b, name).Some? then Last(nameOf, b, name) else Last(nameOf, a, name)
    ensures Count(nameOf, a + b, name) == Count(nameOf, a, name) + Count(nameOf, b, name)
  {
    if b == [] {
      assert a + b == a;
    } else {
      assert (a + b)[..|a + b| - 1] == a + b[..|b| - 1];
      LastConcat(nameOf, a, b[..|b| - 1], name);
    }
  }

  /** How overwriting one entry shows to a last-wins reader. */
  lemma PutLast<T>(nameOf: T -> string, list: seq<T>, x: T, name: string)
    ensures var r := Put(nameOf, list, x);
            if name != nameOf(x) then
              Last(nameOf, r, name) == Last(nameOf, list, name) && Count(nameOf, r, name) == Count(nameOf, list, name)
            else
              && Count(nameOf, r, name) == (if Count(nameOf, list, name) == 0 then 1 else Count(nameOf, list, name))
              && Last(nameOf, r, name) == if Count(nameOf, list, name) <= 1 then Some(x) else Last(nameOf, list, name)
  {
    var i := FindIndex(nameOf, list, nameOf(x));
    if i < |list| {
      var head, tail := list[..i], list[i + 1..];
      assert list == head + ([list[i]] + tail);
      assert list[i := x] == head + ([x] + tail);
      CountZero(nameOf, head, nameOf(x));
      SwapLast(nameOf, head, list[i], x, tail, name);
    } else {
      LastConcat(nameOf, list, [x], name);
      One(nameOf, x, name);
      CountZero(nameOf, list, nameOf(x));
    }
  }

  /** An entry is replaced by one of the same name, which does not occur before it. */
  lemma SwapLast<T>(nameOf: T -> string, head: seq<T>, was: T, x: T, tail: seq<T>, name: string)
    requires nameOf(was) == nameOf(x) && Count(nameOf, head, nameOf(x)) == 0
    ensures var s, r := head + ([was] + tail), head + ([x] + tail);
            && Count(nameOf, r, name) == Count(nameOf, s, name)
            && (name != nameOf(x) ==> Last(nameOf, r, name) == Last(nameOf, s, name))
            && (name == nameOf(x) ==>
                  Count(nameOf, s, name) >= 1 &&
                  Last(nameOf, r, name) == if Count(nameOf, s, name) <= 1 then Some(x) else Last(nameOf, s, name))
  {
    Split3(nameOf, head, was, tail, name);
    Split3(nameOf, head, x, tail, name);
    CountZero(nameOf, tail, name);
  }

  lemma One<T>(nameOf: T -> string, x: T, name: string)
    ensures Last(nameOf, [x], name) == if nameOf(x) == name then Some(x) else None
    ensures Count(nameOf, [x], name) == if nameOf(x) == name then 1 else 0
  {
    assert [x][..0] == [];
  }

  lemma Split3<T>(nameOf: T -> string, head: seq<T>, x: T, tail: seq<T>, name: string)
    ensures var s := head + ([x] + tail);
            && Last(nameOf, s, name) ==
               (if Last(nameOf, tail, name).Some? then Last(nameOf, tail, name)
                else if nameOf(x) == name then Some(x)
                else Last(nameOf, head, name))
            && Count(nameOf, s, name) ==
               Count(nameOf, head, name) + (if nameOf(x) == name then 1 else 0) + Count(nameOf, tail, name)
  {
    LastConcat(nameOf, head, [x] + tail, name);
    LastConcat(nameOf, [x], tail, name);
    One(nameOf, x, name);
  }

  /** What a last-wins reader finds after a merge: an entry that occurs twice
      before the merge hides the one that was merged in. */
  lemma {:induction false} MergeLast<T>(nameOf: T -> string, base: seq<T>, over: seq<T>, name: string)
    ensures var r := Merge(nameOf, base, over);
            && Last(nameOf, r, name) ==
               (if Has(nameOf, over, name) && Count(nameOf, base, name) <= 1 then Last(nameOf, over, name)
                else Last(nameOf, base, name))
            && Count(nameOf, r, name) ==
               (if Has(nameOf, over, name) && Count(nameOf, base, name) == 0 then 1 else Count(nameOf, base, name))
  {
    CountZero(nameOf, over, name);
    if over != [] {
      var front, x := over[..|over| - 1], over[|over| - 1];
      MergeLast(nameOf, base, front, name);
      CountZero(nameOf, front, name);
      PutLast(nameOf, Merge(nameOf, base, front), x, name);
    }
  }

  /** A merge adds no name and drops none. */
  lemma MergeHas<T>(nameOf: T -> string, base: seq<T>, over: seq<T>, name: string)
    ensures Has(nameOf, Merge(nameOf, base, over), name) <==> Has(nameOf, base, name) || Has(nameOf, over, name)
  {
    MergeLast(nameOf, base, over, name);
    CountZero(nameOf, Merge(nameOf, base, over), name);
    CountZero(nameOf, base, name);
  }

  lemma {:induction false} DistinctCount<T>(nameOf: T -> string, list: seq<T>, name: string)
    requires Distinct(nameOf, list)
    ensures Count(nameOf, list, name) <= 1
  {
    if list != [] {
      var front, x := list[..|list| - 1], list[|list| - 1];
      DistinctCount(nameOf, front, name);
      CountZero(nameOf, front, name);
    }
  }

  lemma {:induction false} CountDistinct<T>(nameOf: T -> string, list: seq<T>)
    requires forall name :: Count(nameOf, list, name) <= 1
    ensures Distinct(nameOf, list)
  {
    if list != [] {
      var front, x := list[..|list| - 1], list[|list| - 1];
      forall name ensures Count(nameOf, front, name) <= 1 {
        assert Count(nameOf, list, name) <= 1;
      }
      CountDistinct(nameOf, front);
      assert Count(nameOf, list, nameOf(x)) <= 1;
      CountZero(nameOf, front, nameOf(x));
      forall i, j | 0 <= i < j < |list| ensures nameOf(list[i]) != nameOf(list[j]) {
        assert list[i] == front[i];
        if j < |front| {
          assert list[j] == front[j];
        }
      }
    }
  }

  lemma DistinctLast<T>(nameOf: T -> string, list: seq<T>, x: T)
    requires Distinct(nameOf, list)
    ensures x in list <==> Last(nameOf, list, nameOf(x)) == Some(x)
  {
    CountZero(nameOf, list, nameOf(x));
    if x in list {
      var i :| 0 <= i < |list| && list[i] == x;
      var l := Last(nameOf, list, nameOf(x)).value;
      var j :| 0 <= j < |list| && list[j] == l;
      assert i == j;
    }
  }

  /** With distinct names on both sides a merge is an override: every entry of
      `over` is kept, and every entry of `base` that `over` does not name. */
  lemma MergeIsOverride<T>(nameOf: T -> string, base: seq<T>, over: seq<T>)
    requires Distinct(nameOf, base) && Distinct(nameOf, over)
    ensures Distinct(nameOf, Merge(nameOf, base, over))
    ensures forall x :: x in Merge(nameOf, base, over) <==>
                          x in over || (x in base && !Has(nameOf, over, nameOf(x)))
  {
    var r := Merge(nameOf, base, over);
    forall name ensures Count(nameOf, r, name) <= 1 {
      MergeLast(nameOf, base, over, name);
      DistinctCount(nameOf, base, name);
    }
    CountDistinct(nameOf, r);
    forall x ensures x in r <==> x in over || (x in base && !Has(nameOf, over, nameOf(x))) {
      DistinctCount(nameOf, base, nameOf(x));
      MergeLast(nameOf, base, over, nameOf(x));
      DistinctLast(nameOf, r, x);
      DistinctLast(nameOf, over, x);
      DistinctLast(nameOf, base, x);
      CountZero(nameOf, over, nameOf(x));
    }
  }

  // ----- mounts are merged by the name of their volume

  function AddMounts(base: seq<Mount>, more: seq<Mount>): seq<Mount> {
    if more == [] then base
    else
      var r := AddMounts(base, more[..|more| - 1]);
      var m := more[|more| - 1];
      if Has(MountName, r, m.name) then r else r + [m]
  }

  method MergeMounts(base: seq<Mount>, more: seq<Mount>) returns (merged: seq<Mount>)
    ensures merged == AddMounts(base, more)
  {
    merged := base;
    var k := 0;
    while k < |more|
      invariant 0 <= k <= |more|
      invariant merged == AddMounts(base, more[..k])
    {
      assert more[..k + 1][..k] == more[..k];
      if FindIndex(MountName, merged, more[k].name) == |merged| {
        assert !Has(MountName, merged, more[k].name);
        merged := merged + [more[k]];
      } else {
        assert Has(MountName, merged, more[k].name);
      }
      k := k + 1;
    }
    assert more[..k] == more;
  }

  lemma {:induction false} AddMountsHas(base: seq<Mount>, more: seq<Mount>, name: string)
    ensures Has(MountName, AddMounts(base, more), name) <==> Has(MountName, base, name) || Has(MountName, more, name)
  {
    if more != [] {
      var front, m := more[..|more| - 1], more[|more| - 1];
      AddMountsHas(base, front, name);
      AddMountsHas(base, front, m.name);
      var r := AddMounts(base, front);
      assert more == front + [m];
      HasAppend(MountName, front, m, name);
      HasAppend(MountName, r, m, name);
    }
  }

  lemma HasAppend<T>(nameOf: T -> string, list: seq<T>, x: T, name: string)
    ensures Has(nameOf, list + [x], name) <==> Has(nameOf, list, name) || nameOf(x) == name
  {
    if Has(nameOf, list, name) {
      var i :| 0 <= i < |list| && nameOf(list[i]) == name;
      assert (list + [x])[i] == list[i];
    }
    if nameOf(x) == name {
      assert (list + [x])[|list|] == x;
    }
  }

  lemma FirstAppend<T>(nameOf: T -> string, list: seq<T>, x: T, name: string)
    ensures First(nameOf, list + [x], name) ==
            if Has(nameOf, list, name) then First(nameOf, list, name)
            else if nameOf(x) == name then Some(x) else None
  {
    var i, j := FindIndex(nameOf, list, name), FindIndex(nameOf, list + [x], name);
    assert forall k :: 0 <= k < |list| ==> (list + [x])[k] == list[k];
    assert (list + [x])[|list|] == x;
  }

  /** Exactly which mounts survive: an old mount is kept if the new container
      already has it, or if it is the first old mount of a volume the new
      container does not mount. */
  lemma {:induction false} MountsKept(base: seq<Mount>, more: seq<Mount>, m: Mount)
    ensures m in AddMounts(base, more) <==>
            m in base || (!Has(MountName, base, m.name) && First(MountName, more, m.name) == Some(m))
  {
    if more != [] {
      var front, last := more[..|more| - 1], more[|more| - 1];
      assert more == front + [last];
      MountsKept(base, front, m);
      AddMountsHas(base, front, last.name);
      FirstAppend(MountName, front, last, m.name);
      FirstHas(MountName, front, m.name);
    }
  }

  lemma FirstHas<T>(nameOf: T -> string, list: seq<T>, name: string)
    ensures First(nameOf, list, name).Some? <==> Has(nameOf, list, name)
  {
  }

  /** A second mount of the same volume, say of another sub-path, is lost. */
  lemma SecondMountOfVolumeIsDropped()
    ensures exists base: seq<Mount>, more: seq<Mount>, m: Mount ::
              m in more && m !in AddMounts(base, more)
  {
    var m1, m2 := Mount("data", "/a", ""), Mount("data", "/b", "");
    MountsKept([], [m1, m2], m2);
    assert MountName([m1, m2][0]) == "data";
    assert FindIndex(MountName, [m1, m2], "data") == 0;
    assert m2 in [m1, m2] && m2 !in AddMounts([], [m1, m2]);
  }
}
