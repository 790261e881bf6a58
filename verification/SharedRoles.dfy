/** The payload rebuilt from a session cookie, for all configured paths: the role list
    is one array, which the payload may refer to from several places, and a path that
    leads into it writes into all of them. */
module SharedRoles {
  import opened JsonPath
  import opened SessionCookie

  /** Reading by path. Where `Shared` stands one is in the list. */
  function Fetch(j: Json, list: Json, parts: seq<string>): Json
    decreases |parts|
  {
    if parts == [] then j else Fetch(Child(if j.Shared? then list else j, parts[0]), list, parts[1..])
  }

  predicate Storable(j: Json, list: Json, parts: seq<string>)
    decreases |parts|
  {
    parts == [] ||
    if j.Shared? then LengthFree(list, parts) else !IsLength(j, parts[0]) && Storable(Child(j, parts[0]), list, parts[1..])
  }

  /** Writing by path, as long as the list does not refer to itself: the value after the
      assignment, and the list. */
  function Store(j: Json, list: Json, parts: seq<string>, v: Json): (Json, Json)
    requires Storable(j, list, parts)
    decreases |parts|
  {
    if parts == [] then (v, list)
    else if j.Shared? then (j, Write(list, parts, v))
    else
      var (inner, after) := Store(Child(j, parts[0]), list, parts[1..], v);
      (SetChild(j, parts[0], inner), after)
  }

  /** The parts that are left when a path gets to the list, if it does. */
  function Rest(j: Json, parts: seq<string>): seq<string>
    decreases |parts|
  {
    if j.Shared? then parts else if parts == [] then [] else Rest(Child(j, parts[0]), parts[1..])
  }

  predicate Reaches(j: Json, parts: seq<string>)
    decreases |parts|
  {
    j.Shared? || (parts != [] && Reaches(Child(j, parts[0]), parts[1..]))
  }

  lemma {:induction false} ReachesAt(j: Json, at: seq<string>, parts: seq<string>)
    requires at <= parts && Read(j, at).Shared?
    ensures Reaches(j, parts) && Rest(j, parts) == parts[|at|..]
    decreases |at|
  {
    if at == [] {
      assert parts[0..] == parts;
    } else {
      if j.Shared? { NothingBelow(j, at); }
      ReachesAt(Child(j, at[0]), at[1..], parts[1..]);
      assert parts[1..][|at| - 1..] == parts[|at|..];
    }
  }

  lemma {:induction false} ReachesSome(j: Json, parts: seq<string>) returns (at: seq<string>)
    requires Reaches(j, parts)
    ensures at <= parts && Read(j, at).Shared?
    decreases |parts|
  {
    if j.Shared? {
      at := [];
    } else {
      at := ReachesSome(Child(j, parts[0]), parts[1..]);
      at := [parts[0]] + at;
      assert at[1..] == parts[1..][..|at| - 1];
    }
  }

  lemma {:induction false} FetchReads(j: Json, list: Json, parts: seq<string>)
    ensures Fetch(j, list, parts) ==
            if !Reaches(j, parts) then Read(j, parts)
            else if Rest(j, parts) == [] then Shared else Fetch(list, list, Rest(j, parts))
    decreases |parts|
  {
    if parts != [] && !j.Shared? {
      FetchReads(Child(j, parts[0]), list, parts[1..]);
    }
  }

  lemma {:induction false} NothingReaches(parts: seq<string>)
    ensures !Reaches(Null, parts)
    decreases |parts|
  {
    if parts != [] { NothingReaches(parts[1..]); }
  }

  lemma {:induction false} StoreWrites(j: Json, list: Json, parts: seq<string>, v: Json)
    requires Storable(j, list, parts)
    ensures if !Reaches(j, parts) || Rest(j, parts) == [] then LengthFree(j, parts) && Store(j, list, parts, v) == (Write(j, parts, v), list)
            else LengthFree(list, Rest(j, parts)) && Store(j, list, parts, v) == (j, Write(list, Rest(j, parts), v))
    decreases |parts|
  {
    if parts != [] && !j.Shared? {
      var child := Child(j, parts[0]);
      StoreWrites(child, list, parts[1..], v);
      if Reaches(child, parts[1..]) {
        NothingReaches(parts[1..]);
        ChildBack(j, parts[0]);
      }
    }
  }

  lemma ChildBack(j: Json, part: string)
    requires !IsLength(j, part) && Child(j, part) != Null
    ensures SetChild(j, part, Child(j, part)) == j
  {
    var one := [part];
    assert one[1..] == [];
    WriteRead(j, one);
  }

  // ----- objects, and one list

  /** No arrays, at any depth. */
  predicate Objects(j: Json) {
    match j
    case Arr(_, _) => false
    case Obj(fields) => forall k :: k in fields ==> Objects(fields[k])
    case _ => true
  }

  /** An array without arrays in it. */
  predicate Flat(j: Json) {
    j.Arr? && (forall e :: e in j.elems ==> Objects(e)) && forall k :: k in j.named ==> Objects(j.named[k])
  }

  predicate NoLength(parts: seq<string>) { parts == [] || parts[0] != "length" }

  lemma {:induction false} ObjectsWritten(j: Json, parts: seq<string>, v: Json)
    requires Objects(j)
    ensures LengthFree(j, parts) && (Objects(v) ==> Objects(Write(j, parts, v)))
    decreases |parts|
  {
    if parts != [] { ObjectsWritten(Child(j, parts[0]), parts[1..], v); }
  }

  lemma FlatWritten(list: Json, parts: seq<string>, v: Json)
    requires Flat(list) && NoLength(parts)
    ensures LengthFree(list, parts) && (parts != [] && Objects(v) ==> Flat(Write(list, parts, v)))
  {
    if parts != [] {
      ObjectsWritten(Child(list, parts[0]), parts[1..], v);
    }
  }

  lemma {:induction false} ObjectsStorable(j: Json, list: Json, parts: seq<string>)
    requires Objects(j) && Flat(list) && (Reaches(j, parts) ==> NoLength(Rest(j, parts)))
    ensures Storable(j, list, parts)
    decreases |parts|
  {
    if parts != [] {
      if j.Shared? { FlatWritten(list, parts, Null); } else { ObjectsStorable(Child(j, parts[0]), list, parts[1..]); }
    }
  }

  /** Where references to the list are after a write: in the written value, or where they
      were, beside the path. */
  lemma {:induction false} SpotsAfter(j: Json, parts: seq<string>, v: Json, at: seq<string>)
    requires LengthFree(j, parts) && Read(Write(j, parts, v), at).Shared?
    ensures (parts <= at && Read(v, at[|parts|..]).Shared?) || (!Comparable(parts, at) && Read(j, at).Shared?)
    decreases |parts|
  {
    if parts == [] {
      assert at[0..] == at;
    } else if at != [] {
      var inner := Write(Child(j, parts[0]), parts[1..], v);
      SetChildReads(j, parts[0], inner, at[0]);
      if at[0] == parts[0] {
        SpotsAfter(Child(j, parts[0]), parts[1..], v, at[1..]);
        assert parts[1..] <= at[1..] ==> parts <= at && at[1..][|parts| - 1..] == at[|parts|..];
        assert parts <= at ==> parts[1..] <= at[1..];
        assert at <= parts ==> at[1..] <= parts[1..];
      } else if IsLength(j, at[0]) {
        if |at| > 1 { NothingBelow(Child(SetChild(j, parts[0], inner), at[0]), at[1..]); }
      }
    }
  }

  /** Above a written path there are objects and arrays. */
  lemma {:induction false} ContainerAbove(j: Json, parts: seq<string>, v: Json, at: seq<string>)
    requires LengthFree(j, parts) && at < parts
    ensures Read(Write(j, parts, v), at).Obj? || Read(Write(j, parts, v), at).Arr?
    decreases |parts|
  {
    if at != [] {
      SetChildReads(j, parts[0], Write(Child(j, parts[0]), parts[1..], v), parts[0]);
      ContainerAbove(Child(j, parts[0]), parts[1..], v, at[1..]);
    }
  }

  // ----- the payload

  datatype Payload = Payload(root: Json, list: Json)

  function Start(sub: Json): Json {
    Obj(map["sub" := sub, "realm_access" := Obj(map["roles" := Shared])])
  }

  predicate Below(parts: seq<string>) { ROLES < parts }

  /** The path names the length of the role list; the program throws, or truncates it. */
  predicate NamesLength(parts: seq<string>) { Below(parts) && parts[2] == "length" }

  /** The list is referred to from its standard place at most, and has no reference to itself. */
  ghost predicate Simple(p: Payload) {
    && Objects(p.root) && Flat(p.list)
    && (forall at :: Read(p.root, at).Shared? ==> at == ROLES)
    && forall at :: !Read(p.list, at).Shared?
  }

  predicate Subject(sub: Json, roles: seq<Json>) { Scalar(sub) && forall r :: r in roles ==> Scalar(r) }

  lemma StartIsSimple(sub: Json, roles: seq<Json>)
    requires Subject(sub, roles)
    ensures Simple(Payload(Start(sub), List(roles))) && Read(Start(sub), ROLES) == Shared && Read(Start(sub), SUB) == sub
  {
    assert "sub" != "realm_access" by { assert "sub"[0] != "realm_access"[0]; }
    assert SUB[1..] == [] && ROLES[1..] == ["roles"] && ["roles"][1..] == [];
    forall at | Read(Start(sub), at).Shared? ensures at == ROLES {
      StartSpots(sub, at);
    }
    forall at ensures !Read(List(roles), at).Shared? {
      if at != [] { NothingInScalar(Child(List(roles), at[0]), at[1..]); }
    }
  }

  lemma NothingInScalar(j: Json, parts: seq<string>)
    requires Scalar(j) || j == Null
    ensures Read(j, parts) == if parts == [] then j else Null
  {
    if parts != [] { NothingBelow(j, parts); }
  }

  lemma StartSpots(sub: Json, at: seq<string>)
    requires Scalar(sub) && Read(Start(sub), at).Shared?
    ensures at == ROLES
  {
    assert "sub" != "realm_access" by { assert "sub"[0] != "realm_access"[0]; }
    if at != [] {
      var child := Child(Start(sub), at[0]);
      if at[0] == "realm_access" {
        if |at| > 1 {
          var inner := Child(child, at[1]);
          if |at| > 2 { NothingBelow(inner, at[1..][1..]); }
          assert |at| == 2 && at[1..][1..] == [];
          assert child == Obj(map["roles" := Shared]) && Read(child, at[1..]) == inner;
          assert at[1] == "roles";
          assert at == [at[0], at[1]];
        }
      } else {
        NothingInScalar(child, at[1..]);
      }
    }
  }

  /** One write into a payload, of the subject or of the list. */
  lemma SimpleStorable(p: Payload, parts: seq<string>)
    requires Simple(p) && !NamesLength(parts)
    ensures Storable(p.root, p.list, parts)
    ensures Reaches(p.root, parts) ==> ROLES <= parts && Read(p.root, ROLES).Shared? && Rest(p.root, parts) == parts[2..]
  {
    if Reaches(p.root, parts) {
      var at := ReachesSome(p.root, parts);
      ReachesAt(p.root, ROLES, parts);
    }
    ObjectsStorable(p.root, p.list, parts);
  }

  function Put(p: Payload, parts: seq<string>, v: Json): Payload
    requires Storable(p.root, p.list, parts)
  {
    if parts == [] then p else var (root, list) := Store(p.root, p.list, parts, v); Payload(root, list)
  }

  /** What a write into a simple payload does: into the list if the path leads through it,
      else into the objects around it. */
  lemma PutMeans(p: Payload, parts: seq<string>, v: Json)
    requires Simple(p) && !NamesLength(parts) && parts != []
    ensures Storable(p.root, p.list, parts)
    ensures if Below(parts) && Read(p.root, ROLES).Shared?
            then LengthFree(p.list, parts[2..]) && Put(p, parts, v) == Payload(p.root, Write(p.list, parts[2..], v))
            else LengthFree(p.root, parts) && Put(p, parts, v) == Payload(Write(p.root, parts, v), p.list)
  {
    SimpleStorable(p, parts);
    StoreWrites(p.root, p.list, parts, v);
    if Below(parts) && Read(p.root, ROLES).Shared? {
      ReachesAt(p.root, ROLES, parts);
    }
  }

  lemma PutKeepsSimple(p: Payload, parts: seq<string>, v: Json)
    requires Simple(p) && !NamesLength(parts) && Scalar(v)
    ensures Storable(p.root, p.list, parts) && Simple(Put(p, parts, v))
  {
    SimpleStorable(p, parts);
    if parts != [] {
      PutMeans(p, parts, v);
      if Below(parts) && Read(p.root, ROLES).Shared? {
        FlatWritten(p.list, parts[2..], v);
        forall at ensures !Read(Write(p.list, parts[2..], v), at).Shared? {
          if Read(Write(p.list, parts[2..], v), at).Shared? {
            SpotsAfter(p.list, parts[2..], v, at);
            NothingInScalar(v, at[|parts| - 2..]);
          }
        }
      } else {
        ObjectsWritten(p.root, parts, v);
        forall at | Read(Write(p.root, parts, v), at).Shared? ensures at == ROLES {
          SpotsAfter(p.root, parts, v, at);
          if parts <= at { NothingInScalar(v, at[|parts|..]); }
        }
      }
    }
  }

  function WithSubject(sub: Json, roles: seq<Json>, subPath: string): (p: Payload)
    requires Subject(sub, roles) && !NamesLength(Parts(subPath))
  {
    StartIsSimple(sub, roles);
    SimpleStorable(Payload(Start(sub), List(roles)), Parts(subPath));
    var start := Payload(Start(sub), List(roles));
    if subPath == SUB_PATH then start else Put(start, Parts(subPath), sub)
  }

  lemma WithSubjectIsSimple(sub: Json, roles: seq<Json>, subPath: string)
    requires Subject(sub, roles) && !NamesLength(Parts(subPath))
    ensures Simple(WithSubject(sub, roles, subPath))
  {
    StartIsSimple(sub, roles);
    PutKeepsSimple(Payload(Start(sub), List(roles)), Parts(subPath), sub);
  }

  function Rebuilt(sub: Json, roles: seq<Json>, subPath: string, rolesPath: string): Payload
    requires Subject(sub, roles) && !NamesLength(Parts(subPath)) && !NamesLength(Parts(rolesPath))
  {
    WithSubjectIsSimple(sub, roles, subPath);
    SimpleStorable(WithSubject(sub, roles, subPath), Parts(rolesPath));
    var p := WithSubject(sub, roles, subPath);
    if rolesPath == ROLES_PATH then p else Put(p, Parts(rolesPath), Shared)
  }

  // ----- what is read back

  function SubjectIn(p: Payload, path: string): Json {
    var found := if Parts(path) == [] then Null else Fetch(p.root, p.list, Parts(path));
    if found.Null? then Str("") else found
  }

  function RolesIn(p: Payload, path: string): seq<Json> {
    var found := if Parts(path) == [] then Null else Fetch(p.root, p.list, Parts(path));
    var roles := if found.Shared? then p.list else found;
    if roles.Arr? then roles.elems else []
  }

  predicate KeepsIdentity(sub: Json, roles: seq<Json>, subPath: string, rolesPath: string)
    requires Subject(sub, roles) && !NamesLength(Parts(subPath)) && !NamesLength(Parts(rolesPath))
  {
    var p := Rebuilt(sub, roles, subPath, rolesPath);
    SubjectIn(p, subPath) == sub && RolesIn(p, rolesPath) == roles
  }

  /** The path does not lead to an element of the standard role list. */
  predicate NoElement(parts: seq<string>) { Below(parts) ==> Index(parts[2]).None? }

  /** A check of the two configured paths. Neither may be, or lie below, the other, but a
      subject may be kept in a named property of the standard list. Neither may name an
      element of it. */
  predicate Harmless(p: seq<string>, q: seq<string>) {
    (!Comparable(p, q) || (q == ROLES && Below(p))) && NoElement(p) && NoElement(q)
  }

  lemma NamedKeepsElements(list: Json, parts: seq<string>, v: Json)
    requires list.Arr? && parts != [] && LengthFree(list, parts) && Index(parts[0]).None?
    ensures Write(list, parts, v).Arr? && Write(list, parts, v).elems == list.elems
  {
  }

  lemma BelowSplits(parts: seq<string>)
    requires Below(parts)
    ensures parts == ROLES + parts[2..] && parts[2..] != [] && parts[2..][0] == parts[2]
  {
  }

  /** The payload with the subject at its configured place. */
  lemma AfterSubject(sub: Json, roles: seq<Json>, subPath: string)
    requires Subject(sub, roles) && !NamesLength(Parts(subPath)) && Parts(subPath) != []
    ensures var p, s := Parts(subPath), WithSubject(sub, roles, subPath);
            && Simple(s)
            && if Below(p)
               then LengthFree(List(roles), p[2..]) && s == Payload(Start(sub), Write(List(roles), p[2..], sub))
               else LengthFree(Start(sub), p) && s == Payload(Write(Start(sub), p, sub), List(roles))
  {
    StartIsSimple(sub, roles);
    WithSubjectIsSimple(sub, roles, subPath);
    PutMeans(Payload(Start(sub), List(roles)), Parts(subPath), sub);
    if subPath == SUB_PATH {
      StandardPaths();
      assert "sub" != "realm_access" by { assert "sub"[0] != "realm_access"[0]; }
      WriteRead(Start(sub), SUB);
    }
  }

  /** The list is still at its standard place unless the subject was written at or above it. */
  lemma StillThere(sub: Json, roles: seq<Json>, subPath: string)
    requires Subject(sub, roles) && !NamesLength(Parts(subPath)) && Parts(subPath) != []
    ensures Read(WithSubject(sub, roles, subPath).root, ROLES).Shared? <==> !(Parts(subPath) <= ROLES)
  {
    var p := Parts(subPath);
    StartIsSimple(sub, roles);
    AfterSubject(sub, roles, subPath);
    if !Below(p) {
      if p <= ROLES {
        ReadBelow(Start(sub), p, sub, ROLES);
        NothingInScalar(sub, ROLES[|p|..]);
      } else {
        Beside(Start(sub), p, sub, ROLES);
      }
    }
  }

  /** Objects have no length that could stand in the way of reading elsewhere. */
  lemma Beside(j: Json, parts: seq<string>, v: Json, q: seq<string>)
    requires Objects(j) && LengthFree(j, parts) && !Comparable(parts, q)
    ensures Read(Write(j, parts, v), q) == Read(j, q)
  {
    ObjectsUnmeasured(j, parts, q);
    ReadElsewhere(j, parts, v, q);
  }

  lemma {:induction false} ObjectsUnmeasured(j: Json, parts: seq<string>, q: seq<string>)
    requires Objects(j)
    ensures Unmeasured(j, parts, q)
    decreases |parts|
  {
    if parts != [] && q != [] && parts[0] == q[0] { ObjectsUnmeasured(Child(j, parts[0]), parts[1..], q[1..]); }
  }

  /** Reading where no reference is in the way. */
  lemma FetchPlainly(j: Json, list: Json, parts: seq<string>)
    requires forall at :: at <= parts && Read(j, at).Shared? ==> at == parts
    ensures Fetch(j, list, parts) == Read(j, parts)
  {
    FetchReads(j, list, parts);
    if Reaches(j, parts) {
      var at := ReachesSome(j, parts);
      ReachesAt(j, at, parts);
    }
  }

  /** Reading through the standard place. */
  lemma FetchThrough(p: Payload, parts: seq<string>)
    requires Below(parts) && Read(p.root, ROLES).Shared?
    ensures Fetch(p.root, p.list, parts) == Fetch(p.list, p.list, parts[2..])
  {
    FetchReads(p.root, p.list, parts);
    ReachesAt(p.root, ROLES, parts);
  }

  // ----- harmless paths

  /** Both are kept, case by case: where the subject is, and where the list goes. */
  lemma HarmlessKeeps(sub: Json, roles: seq<Json>, subPath: string, rolesPath: string)
    requires Subject(sub, roles) && !NamesLength(Parts(subPath)) && !NamesLength(Parts(rolesPath))
    requires Harmless(Parts(subPath), Parts(rolesPath))
    ensures KeepsIdentity(sub, roles, subPath, rolesPath)
  {
    StandardPaths();
    if Below(Parts(subPath)) {
      if Below(Parts(rolesPath)) { BothBelow(sub, roles, subPath, rolesPath); } else { SubjectBelow(sub, roles, subPath, rolesPath); }
    } else if Below(Parts(rolesPath)) {
      RolesBelow(sub, roles, subPath, rolesPath);
    } else {
      NoneBelow(sub, roles, subPath, rolesPath);
    }
  }

  lemma SubjectBelow(sub: Json, roles: seq<Json>, subPath: string, rolesPath: string)
    requires Subject(sub, roles) && !NamesLength(Parts(subPath)) && !NamesLength(Parts(rolesPath))
    requires Harmless(Parts(subPath), Parts(rolesPath)) && Below(Parts(subPath)) && !Below(Parts(rolesPath))
    ensures KeepsIdentity(sub, roles, subPath, rolesPath)
  {
    var p, q := Parts(subPath), Parts(rolesPath);
    var s := WithSubject(sub, roles, subPath);
    StandardPaths();
    StartIsSimple(sub, roles);
    AfterSubject(sub, roles, subPath);
    BelowSplits(p);
    NamedKeepsElements(List(roles), p[2..], sub);
    ReadWritten(List(roles), p[2..], sub);
    FetchPlainly(s.list, s.list, p[2..]);
    var r := Rebuilt(sub, roles, subPath, rolesPath);
    if rolesPath != ROLES_PATH {
      PutMeans(s, q, Shared);
      if q == ROLES {
        AtStandardPlace(s.root);
      } else {
        assert !Comparable(q, ROLES);
        Beside(s.root, q, Shared, ROLES);
      }
      ReadWritten(s.root, q, Shared);
      SpotsOfRoot(s.root, q);
    }
    assert r.list == s.list && Read(r.root, ROLES).Shared? && Read(r.root, q).Shared?;
    FetchThrough(r, p);
    FetchPlainly(r.root, r.list, q);
  }

  lemma AtStandardPlace(root: Json)
    requires LengthFree(root, ROLES) && Read(root, ROLES) == Shared
    ensures Write(root, ROLES, Shared) == root
  {
    WriteRead(root, ROLES);
  }

  /** After the list has been put somewhere, references are there and at the standard place. */
  lemma SpotsOfRoot(root: Json, q: seq<string>)
    requires LengthFree(root, q) && forall at :: Read(root, at).Shared? ==> at == ROLES
    ensures forall at :: Read(Write(root, q, Shared), at).Shared? ==> at == q || (at == ROLES && !Comparable(q, ROLES))
  {
    forall at | Read(Write(root, q, Shared), at).Shared? ensures at == q || (at == ROLES && !Comparable(q, ROLES)) {
      SpotsAfter(root, q, Shared, at);
      if q <= at && at != q { NothingBelow(Shared, at[|q|..]); }
    }
  }

  lemma NoneBelow(sub: Json, roles: seq<Json>, subPath: string, rolesPath: string)
    requires Subject(sub, roles) && !NamesLength(Parts(subPath)) && !NamesLength(Parts(rolesPath))
    requires Harmless(Parts(subPath), Parts(rolesPath)) && !Below(Parts(subPath)) && !Below(Parts(rolesPath))
    ensures KeepsIdentity(sub, roles, subPath, rolesPath)
  {
    var p, q := Parts(subPath), Parts(rolesPath);
    var s := WithSubject(sub, roles, subPath);
    StandardPaths();
    StartIsSimple(sub, roles);
    AfterSubject(sub, roles, subPath);
    StillThere(sub, roles, subPath);
    ReadWritten(Start(sub), p, sub);
    var r := Rebuilt(sub, roles, subPath, rolesPath);
    if rolesPath != ROLES_PATH {
      PutMeans(s, q, Shared);
      ReadWritten(s.root, q, Shared);
      Beside(s.root, q, Shared, p);
      SpotsOfRoot(s.root, q);
    }
    assert r.list == List(roles) && Read(r.root, q).Shared? && Read(r.root, p) == sub;
    FetchPlainly(r.root, r.list, p);
    FetchPlainly(r.root, r.list, q);
  }

  lemma RolesBelow(sub: Json, roles: seq<Json>, subPath: string, rolesPath: string)
    requires Subject(sub, roles) && !NamesLength(Parts(subPath)) && !NamesLength(Parts(rolesPath))
    requires Harmless(Parts(subPath), Parts(rolesPath)) && !Below(Parts(subPath)) && Below(Parts(rolesPath))
    ensures KeepsIdentity(sub, roles, subPath, rolesPath)
  {
    var p, q := Parts(subPath), Parts(rolesPath);
    var s := WithSubject(sub, roles, subPath);
    StandardPaths();
    StartIsSimple(sub, roles);
    AfterSubject(sub, roles, subPath);
    StillThere(sub, roles, subPath);
    ReadWritten(Start(sub), p, sub);
    BelowSplits(q);
    PutMeans(s, q, Shared);
    NamedKeepsElements(List(roles), q[2..], Shared);
    ReadWritten(List(roles), q[2..], Shared);
    var r := Rebuilt(sub, roles, subPath, rolesPath);
    assert r == Payload(s.root, Write(List(roles), q[2..], Shared));
    FetchPlainly(r.root, r.list, p);
    FetchThrough(r, q);
    SpotsOfList(List(roles), q[2..]);
    FetchPlainly(r.list, r.list, q[2..]);
  }

  lemma SpotsOfList(list: Json, b: seq<string>)
    requires LengthFree(list, b) && forall at :: !Read(list, at).Shared?
    ensures forall at :: Read(Write(list, b, Shared), at).Shared? ==> at == b
  {
    forall at | Read(Write(list, b, Shared), at).Shared? ensures at == b {
      SpotsAfter(list, b, Shared, at);
      if at != b { NothingBelow(Shared, at[|b|..]); }
    }
  }

  lemma BothBelow(sub: Json, roles: seq<Json>, subPath: string, rolesPath: string)
    requires Subject(sub, roles) && !NamesLength(Parts(subPath)) && !NamesLength(Parts(rolesPath))
    requires Harmless(Parts(subPath), Parts(rolesPath)) && Below(Parts(subPath)) && Below(Parts(rolesPath))
    ensures KeepsIdentity(sub, roles, subPath, rolesPath)
  {
    var p, q := Parts(subPath), Parts(rolesPath);
    var b, d := p[2..], q[2..];
    var s := WithSubject(sub, roles, subPath);
    StandardPaths();
    StartIsSimple(sub, roles);
    AfterSubject(sub, roles, subPath);
    BelowSplits(p);
    BelowSplits(q);
    NamedKeepsElements(List(roles), b, sub);
    ReadWritten(List(roles), b, sub);
    PutMeans(s, q, Shared);
    NamedKeepsElements(s.list, d, Shared);
    ReadWritten(s.list, d, Shared);
    assert !Comparable(d, b);
    FlatUnmeasured(s.list, d, b);
    ReadElsewhere(s.list, d, Shared, b);
    SpotsOfList(s.list, d);
    var r := Rebuilt(sub, roles, subPath, rolesPath);
    assert r == Payload(Start(sub), Write(s.list, d, Shared));
    FetchThrough(r, p);
    FetchThrough(r, q);
    FetchPlainly(r.list, r.list, b);
    FetchPlainly(r.list, r.list, d);
  }

  lemma FlatUnmeasured(list: Json, d: seq<string>, b: seq<string>)
    requires Flat(list) && NoLength(b)
    ensures Unmeasured(list, d, b)
  {
    if d != [] && b != [] && d[0] == b[0] { ObjectsUnmeasured(Child(list, d[0]), d[1..], b[1..]); }
  }

  // ----- harmful paths

  const X := Str("x")
  const R := Str("r")

  lemma Witness()
    ensures Subject(X, [R]) && X != R && X != Str("") && X != Null
  {
    assert "x"[0] != "r"[0] && |"x"| == 1;
  }

  /** The value does not occur, at any depth. */
  predicate Lacks(j: Json, x: Json) {
    j != x &&
    match j
    case Arr(elems, named) => (forall e :: e in elems ==> Lacks(e, x)) && forall k :: k in named ==> Lacks(named[k], x)
    case Obj(fields) => forall k :: k in fields ==> Lacks(fields[k], x)
    case _ => true
  }

  lemma ChildLacks(j: Json, part: string, x: Json)
    requires Lacks(j, x) && x.Str?
    ensures Lacks(Child(j, part), x)
  {
  }

  lemma {:induction false} WriteLacks(j: Json, parts: seq<string>, v: Json, x: Json)
    requires LengthFree(j, parts) && Lacks(j, x) && Lacks(v, x) && x.Str?
    ensures Lacks(Write(j, parts, v), x)
    decreases |parts|
  {
    if parts != [] {
      ChildLacks(j, parts[0], x);
      WriteLacks(Child(j, parts[0]), parts[1..], v, x);
      SetLacks(j, parts[0], Write(Child(j, parts[0]), parts[1..], v), x);
    }
  }

  lemma SetLacks(j: Json, part: string, v: Json, x: Json)
    requires !IsLength(j, part) && Lacks(j, x) && Lacks(v, x) && x.Str?
    ensures Lacks(SetChild(j, part, v), x)
  {
  }

  lemma {:induction false} FetchLacks(j: Json, list: Json, parts: seq<string>, x: Json)
    requires Lacks(j, x) && Lacks(list, x) && x.Str?
    ensures Fetch(j, list, parts) != x
    decreases |parts|
  {
    if parts != [] {
      ChildLacks(if j.Shared? then list else j, parts[0], x);
      FetchLacks(Child(if j.Shared? then list else j, parts[0]), list, parts[1..], x);
    }
  }

  /** Overwriting a prefix of a path leaves nothing of what was written there. */
  lemma {:induction false} WriteOver(j: Json, b: seq<string>, v: Json, d: seq<string>, w: Json)
    requires LengthFree(j, b) && d <= b
    ensures LengthFree(j, d) && LengthFree(Write(j, b, v), d) && Write(Write(j, b, v), d, w) == Write(j, d, w)
    decreases |d|
  {
    if d != [] {
      var inner := Write(Child(j, b[0]), b[1..], v);
      SetChildReads(j, b[0], inner, b[0]);
      WriteOver(Child(j, b[0]), b[1..], v, d[1..], w);
      SetChildTwice(j, b[0], inner, Write(inner, d[1..], w));
    }
  }

  /** An element that is written is not the one that was there, or makes the list longer. */
  lemma ElementChanges(list: Json, parts: seq<string>, v: Json)
    requires list.Arr? && parts != [] && LengthFree(list, parts) && Index(parts[0]).Some?
    ensures var after := Write(list, parts, v);
            && after.Arr? && |after.elems| >= |list.elems|
            && Index(parts[0]).value < |after.elems|
            && after.elems[Index(parts[0]).value] == Write(Child(list, parts[0]), parts[1..], v)
            && forall i :: 0 <= i < |list.elems| && i != Index(parts[0]).value ==> after.elems[i] == list.elems[i]
  {
  }

  /** The list differs from the one that was passed in. */
  predicate Spoilt(list: Json) { !list.Arr? || |list.elems| != 1 || list.elems[0] != R }

  lemma {:induction false} NotOnTop(j: Json, parts: seq<string>, v: Json, x: Json)
    requires LengthFree(j, parts) && v != x && x.Str?
    ensures Write(j, parts, v) != x
    decreases |parts|
  {
  }

  lemma SpoiltByElement(list: Json, parts: seq<string>, v: Json)
    requires list.Arr? && |list.elems| >= 1 && parts != [] && LengthFree(list, parts) && Index(parts[0]).Some? && v != R
    ensures Spoilt(Write(list, parts, v)) && Write(list, parts, v).Arr? && |Write(list, parts, v).elems| >= 1
  {
    ElementChanges(list, parts, v);
    NotOnTop(Child(list, parts[0]), parts[1..], v, R);
  }

  /** What is spoilt stays so, since the list only gets longer and R is not written. */
  lemma StaysSpoilt(list: Json, parts: seq<string>, v: Json)
    requires Spoilt(list) && list.Arr? && |list.elems| >= 1 && parts != [] && LengthFree(list, parts) && v != R
    ensures Spoilt(Write(list, parts, v)) && Write(list, parts, v).Arr?
  {
    if Index(parts[0]).Some? {
      SpoiltByElement(list, parts, v);
    } else {
      NamedKeepsElements(list, parts, v);
    }
  }


  lemma {:induction false} FetchObjects(j: Json, list: Json, parts: seq<string>)
    requires Objects(j) && Flat(list)
    ensures Objects(Fetch(j, list, parts))
    decreases |parts|
  {
    if parts != [] {
      FetchObjects(Child(if j.Shared? then list else j, parts[0]), list, parts[1..]);
    }
  }

  /** Whatever the roles are read from, they are the list's or there are none. */
  lemma RolesAreTheLists(p: Payload, path: string)
    requires Objects(p.root) && Flat(p.list)
    ensures RolesIn(p, path) == p.list.elems || RolesIn(p, path) == []
  {
    if Parts(path) != [] { FetchObjects(p.root, p.list, Parts(path)); }
  }

  lemma SpoiltLosesRoles(p: Payload, path: string)
    requires Objects(p.root) && Flat(p.list) && Spoilt(p.list)
    ensures RolesIn(p, path) != [R]
  {
    RolesAreTheLists(p, path);
  }

  /** The payload after both writes, as far as its shape goes. */
  lemma RebuiltShape(sub: Json, roles: seq<Json>, subPath: string, rolesPath: string)
    requires Subject(sub, roles) && !NamesLength(Parts(subPath)) && !NamesLength(Parts(rolesPath))
    ensures var r := Rebuilt(sub, roles, subPath, rolesPath); Objects(r.root) && Flat(r.list)
  {
    var s, q := WithSubject(sub, roles, subPath), Parts(rolesPath);
    WithSubjectIsSimple(sub, roles, subPath);
    SimpleStorable(s, q);
    if rolesPath != ROLES_PATH && q != [] {
      PutMeans(s, q, Shared);
      if Below(q) && Read(s.root, ROLES).Shared? { FlatWritten(s.list, q[2..], Shared); } else { ObjectsWritten(s.root, q, Shared); }
    }
  }

  lemma ElementsAreLost(subPath: string, rolesPath: string)
    requires !NamesLength(Parts(subPath)) && !NamesLength(Parts(rolesPath)) && Subject(X, [R])
    requires !NoElement(Parts(subPath)) || (!NoElement(Parts(rolesPath)) && Parts(subPath) != [] && !(Parts(subPath) <= ROLES))
    ensures !KeepsIdentity(X, [R], subPath, rolesPath)
  {
    var p, q := Parts(subPath), Parts(rolesPath);
    var s := WithSubject(X, [R], subPath);
    StandardPaths();
    Witness();
    StartIsSimple(X, [R]);
    AfterSubject(X, [R], subPath);
    StillThere(X, [R], subPath);
    RebuiltShape(X, [R], subPath, rolesPath);
    if !NoElement(p) {
      BelowSplits(p);
      SpoiltByElement(List([R]), p[2..], X);
    } else if Below(p) {
      BelowSplits(p);
      NamedKeepsElements(List([R]), p[2..], X);
    }
    if rolesPath != ROLES_PATH && q != [] {
      PutMeans(s, q, Shared);
      if Below(q) {
        BelowSplits(q);
        if !NoElement(q) { SpoiltByElement(s.list, q[2..], Shared); } else { StaysSpoilt(s.list, q[2..], Shared); }
      }
    }
    SpoiltLosesRoles(Rebuilt(X, [R], subPath, rolesPath), rolesPath);
  }

  /** A path without keys reads as the default. */
  lemma EmptyPathsLose(subPath: string, rolesPath: string)
    requires !NamesLength(Parts(subPath)) && !NamesLength(Parts(rolesPath)) && Subject(X, [R])
    requires Parts(subPath) == [] || Parts(rolesPath) == []
    ensures !KeepsIdentity(X, [R], subPath, rolesPath)
  {
    Witness();
    assert |[R]| == 1;
  }

  /** The list is put at or above the subject, neither of them inside the standard list. */
  lemma PrefixesLose(subPath: string, rolesPath: string)
    requires !NamesLength(Parts(subPath)) && !NamesLength(Parts(rolesPath)) && Subject(X, [R])
    requires Parts(subPath) != [] && Parts(rolesPath) != []
    requires !Below(Parts(subPath)) && Comparable(Parts(subPath), Parts(rolesPath))
    ensures !KeepsIdentity(X, [R], subPath, rolesPath)
  {
    var p, q := Parts(subPath), Parts(rolesPath);
    var s := WithSubject(X, [R], subPath);
    StandardPaths();
    Witness();
    StartIsSimple(X, [R]);
    AfterSubject(X, [R], subPath);
    StillThere(X, [R], subPath);
    RebuiltShape(X, [R], subPath, rolesPath);
    var r := Rebuilt(X, [R], subPath, rolesPath);
    if rolesPath == ROLES_PATH {
      // the subject is at or above the standard place
      assert p <= ROLES by { if ROLES <= p { assert p == ROLES; } }
      ReadBelow(Start(X), p, X, ROLES);
      NothingInScalar(X, ROLES[|p|..]);
      FetchPlainly(r.root, r.list, ROLES);
      assert |[R]| == 1;
    } else {
      PutMeans(s, q, Shared);
      if Below(q) {
        assert !(q <= p);
        PrefixOfBelow(p, q);
      }
      assert r == Payload(Write(s.root, q, Shared), List([R]));
      if p < q {
        ContainerAbove(s.root, q, Shared, p);
        SpotsOfRoot(s.root, q);
        FetchPlainly(r.root, r.list, p);
      } else {
        ReadWritten(s.root, q, Shared);
        FetchReads(r.root, r.list, p);
        ReachesAt(r.root, q, p);
        assert Lacks(List([R]), X);
        FetchLacks(List([R]), List([R]), p[|q|..], X);
      }
    }
  }

  lemma PrefixOfBelow(p: seq<string>, q: seq<string>)
    requires p <= q && Below(q) && !Below(p)
    ensures p <= ROLES
  {
    assert p == q[..|p|] && ROLES == q[..2];
  }

  /** The subject was put into the list, and then the list over the object around it. */
  lemma ListOverItsPlaceLoses(subPath: string, rolesPath: string)
    requires !NamesLength(Parts(subPath)) && !NamesLength(Parts(rolesPath)) && Subject(X, [R])
    requires Below(Parts(subPath)) && NoElement(Parts(subPath)) && Parts(rolesPath) == ["realm_access"]
    ensures !KeepsIdentity(X, [R], subPath, rolesPath)
  {
    var p, q := Parts(subPath), Parts(rolesPath);
    var s, b := WithSubject(X, [R], subPath), p[2..];
    StandardPaths();
    Witness();
    StartIsSimple(X, [R]);
    AfterSubject(X, [R], subPath);
    BelowSplits(p);
    assert rolesPath != ROLES_PATH;
    PutMeans(s, q, Shared);
    ReadWritten(s.root, q, Shared);
    var r := Rebuilt(X, [R], subPath, rolesPath);
    assert q <= p && p[|q|..] == p[1..];
    FetchReads(r.root, r.list, p);
    ReachesAt(r.root, q, p);
    // from the list, "roles" leads to what was written there, if anything
    assert p[1..][0] == "roles" && p[1..][1..] == b;
    NoSpotsIn(s.list, p[1..]);
    FetchPlainly(s.list, s.list, p[1..]);
    OneTooFar(b);
  }

  lemma NoSpotsIn(list: Json, parts: seq<string>)
    requires forall at :: !Read(list, at).Shared?
    ensures forall at :: at <= parts && Read(list, at).Shared? ==> at == parts
  {
  }

  /** In a list that holds the subject at `b` and nothing else by name, a path through
      "roles" and then `b` leads past it. */
  lemma OneTooFar(b: seq<string>)
    requires b != [] && b[0] != "length" && Index(b[0]).None? && LengthFree(List([R]), b)
    ensures Read(Write(List([R]), b, X), ["roles"] + b) != X
  {
    var list, path := Write(List([R]), b, X), ["roles"] + b;
    assert path[1..] == b;
    assert Digits("roles").None?;
    assert list.named == map[b[0] := Write(Null, b[1..], X)];
    if b[0] == "roles" {
      TooFar(b[1..], b);
    } else {
      NothingBelow(Null, b);
    }
  }

  lemma {:induction false} TooFar(chain: seq<string>, path: seq<string>)
    requires LengthFree(Null, chain) && |path| > |chain|
    ensures Read(Write(Null, chain, X), path) == Null
    decreases |chain|
  {
    if chain == [] {
      NothingBelow(X, path);
    } else if path[0] == chain[0] {
      TooFar(chain[1..], path[1..]);
    } else {
      if |path| > 1 { NothingBelow(Null, path[1..]); }
    }
  }

  /** Both inside the list, one at or above the other. */
  lemma NestedInListLose(subPath: string, rolesPath: string)
    requires !NamesLength(Parts(subPath)) && !NamesLength(Parts(rolesPath)) && Subject(X, [R])
    requires Below(Parts(subPath)) && Below(Parts(rolesPath)) && Comparable(Parts(subPath), Parts(rolesPath))
    ensures !KeepsIdentity(X, [R], subPath, rolesPath)
  {
    var p, q := Parts(subPath), Parts(rolesPath);
    var b, d := p[2..], q[2..];
    var s := WithSubject(X, [R], subPath);
    StandardPaths();
    Witness();
    StartIsSimple(X, [R]);
    AfterSubject(X, [R], subPath);
    BelowSplits(p);
    BelowSplits(q);
    PutMeans(s, q, Shared);
    var r := Rebuilt(X, [R], subPath, rolesPath);
    assert r == Payload(Start(X), Write(s.list, d, Shared));
    FetchThrough(r, p);
    SpotsOfList(s.list, d);
    if b < d {
      ContainerAbove(s.list, d, Shared, b);
      FetchPlainly(r.list, r.list, b);
    } else {
      assert d <= b;
      WriteOver(List([R]), b, X, d, Shared);
      assert Lacks(List([R]), X) && Lacks(Shared, X);
      WriteLacks(List([R]), d, Shared, X);
      FetchLacks(r.list, r.list, b, X);
    }
  }

  /** Paths that are not harmless lose an identity: the same one every time. */
  lemma HarmfulLoses(subPath: string, rolesPath: string)
    requires !NamesLength(Parts(subPath)) && !NamesLength(Parts(rolesPath)) && Subject(X, [R])
    requires !Harmless(Parts(subPath), Parts(rolesPath))
    ensures !KeepsIdentity(X, [R], subPath, rolesPath)
  {
    var p, q := Parts(subPath), Parts(rolesPath);
    if p == [] || q == [] {
      EmptyPathsLose(subPath, rolesPath);
    } else if !NoElement(p) || (!NoElement(q) && !(p <= ROLES)) {
      ElementsAreLost(subPath, rolesPath);
    } else if !Below(p) {
      if !NoElement(q) { assert p <= ROLES <= q; }
      PrefixesLose(subPath, rolesPath);
    } else if Below(q) {
      NestedInListLose(subPath, rolesPath);
    } else {
      assert q <= p && q != ROLES;
      assert |q| == 1 && q[0] == "realm_access" by { assert q == p[..|q|] && p[..2] == ROLES; }
      ListOverItsPlaceLoses(subPath, rolesPath);
    }
  }

  /** For all configured paths but those that name the length of the list: every identity
      comes back if and only if the paths are harmless. */
  lemma IdentityKeptExactly(subPath: string, rolesPath: string)
    requires !NamesLength(Parts(subPath)) && !NamesLength(Parts(rolesPath))
    ensures (forall sub, roles :: Subject(sub, roles) ==> KeepsIdentity(sub, roles, subPath, rolesPath)) <==>
            Harmless(Parts(subPath), Parts(rolesPath))
  {
    Witness();
    if Harmless(Parts(subPath), Parts(rolesPath)) {
      forall sub, roles | Subject(sub, roles) ensures KeepsIdentity(sub, roles, subPath, rolesPath) {
        HarmlessKeeps(sub, roles, subPath, rolesPath);
      }
    } else {
      HarmfulLoses(subPath, rolesPath);
    }
  }

  // ----- without sharing

  /** The value with a copy of the list in every place that refers to it. */
  function Expand(j: Json, list: Json): Json {
    match j
    case Shared => list
    case Obj(fields) => Obj(map k | k in fields :: Expand(fields[k], list))
    case _ => j
  }

  lemma ExpandChild(j: Json, list: Json, part: string)
    requires Objects(j) && !j.Shared?
    ensures !IsLength(Expand(j, list), part) && Child(Expand(j, list), part) == Expand(Child(j, part), list)
  {
  }

  lemma ExpandSet(j: Json, list: Json, part: string, w: Json)
    requires Objects(j) && !j.Shared? && !IsLength(Expand(j, list), part)
    ensures Expand(SetChild(j, part, w), list) == SetChild(Expand(j, list), part, Expand(w, list))
  {
    if j.Obj? {
      assert Expand(SetChild(j, part, w), list).fields == SetChild(Expand(j, list), part, Expand(w, list)).fields;
    }
  }

  lemma {:induction false} ExpandWritten(j: Json, list: Json, parts: seq<string>, v: Json)
    requires Objects(j) && LengthFree(j, parts) && (Reaches(j, parts) ==> Rest(j, parts) == [])
    ensures LengthFree(Expand(j, list), parts)
    ensures Expand(Write(j, parts, v), list) == Write(Expand(j, list), parts, Expand(v, list))
    decreases |parts|
  {
    if parts != [] {
      ExpandChild(j, list, parts[0]);
      ExpandWritten(Child(j, parts[0]), list, parts[1..], v);
      ExpandSet(j, list, parts[0], Write(Child(j, parts[0]), parts[1..], v));
    }
  }

  lemma ExpandStart(sub: Json, roles: seq<Json>)
    requires Subject(sub, roles)
    ensures Expand(Start(sub), List(roles)) == Standard(sub, roles)
  {
    var inner := Obj(map["roles" := Shared]);
    assert Expand(inner, List(roles)).fields == map["roles" := List(roles)];
    assert "sub" != "realm_access" by { assert "sub"[0] != "realm_access"[0]; }
    assert Expand(Start(sub), List(roles)).fields == Standard(sub, roles).fields;
  }

  lemma WriteOutside(p: Payload, parts: seq<string>, v: Json)
    requires Simple(p) && parts != [] && !Below(parts) && Expand(v, p.list) == v
    ensures Storable(p.root, p.list, parts) && LengthFree(Expand(p.root, p.list), parts)
    ensures var after := Put(p, parts, v);
            after.list == p.list && Expand(after.root, p.list) == Write(Expand(p.root, p.list), parts, v)
  {
    SimpleStorable(p, parts);
    PutMeans(p, parts, v);
    ExpandWritten(p.root, p.list, parts, v);
  }

  /** For paths outside the list sharing makes no difference: the payload is the one that
      holds copies. */
  lemma OutsideIsUnshared(sub: Json, roles: seq<Json>, subPath: string, rolesPath: string)
    requires Subject(sub, roles) && !Below(Parts(subPath)) && !Below(Parts(rolesPath))
    ensures var r := Rebuilt(sub, roles, subPath, rolesPath);
            r.list == List(roles) && Expand(r.root, r.list) == ReconstructSessionPayload(sub, roles, subPath, rolesPath)
  {
    var p, q, start := Parts(subPath), Parts(rolesPath), Payload(Start(sub), List(roles));
    StartIsSimple(sub, roles);
    StandardIsArrayFree(sub, roles, p);
    WithSubIsArrayFree(sub, roles, subPath, q);
    ExpandStart(sub, roles);
    if subPath != SUB_PATH && p != [] { WriteOutside(start, p, sub); }
    var s := WithSubject(sub, roles, subPath);
    assert s.list == List(roles) && Expand(s.root, s.list) == WithSub(sub, roles, subPath);
    WithSubjectIsSimple(sub, roles, subPath);
    if rolesPath != ROLES_PATH && q != [] { ListOutside(s, q); }
  }

  lemma ListOutside(p: Payload, parts: seq<string>)
    requires Simple(p) && parts != [] && !Below(parts)
    ensures Storable(p.root, p.list, parts) && LengthFree(Expand(p.root, p.list), parts)
    ensures var after := Put(p, parts, Shared);
            after.list == p.list && Expand(after.root, p.list) == Write(Expand(p.root, p.list), parts, p.list)
  {
    SimpleStorable(p, parts);
    PutMeans(p, parts, Shared);
    ExpandWritten(p.root, p.list, parts, Shared);
  }

  /** From a token through a cookie to the payload that another replica rebuilds. */
  lemma IdentitySurvives(w: Platform, jwt: Json, secret: string, ttl: int, subPath: string, rolesPath: string,
                         minted: int, now: int)
    requires Lawful(w) && Plain(jwt) && now < minted + ttl
    requires Subject(ClaimedSub(jwt, subPath), ClaimedRoles(jwt, rolesPath))
    requires !NamesLength(Parts(subPath)) && !NamesLength(Parts(rolesPath)) && Harmless(Parts(subPath), Parts(rolesPath))
    ensures var got := VerifySessionCookie(
                         w, CreateSessionCookie(w, jwt, secret, ttl, subPath, rolesPath, minted), secret, now);
            && got.Some? && Subject(got.value.sub, got.value.roles)
            && var p := Rebuilt(got.value.sub, got.value.roles, subPath, rolesPath);
            SubjectIn(p, subPath) == ClaimedSub(jwt, subPath) && RolesIn(p, rolesPath) == ClaimedRoles(jwt, rolesPath)
  {
    CookieRoundTrip(w, jwt, secret, secret, ttl, subPath, rolesPath, minted, now);
    HarmlessKeeps(ClaimedSub(jwt, subPath), ClaimedRoles(jwt, rolesPath), subPath, rolesPath);
  }
}
