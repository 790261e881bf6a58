/** The signed session cookie: what one replica mints, what another accepts, and
    the identity that comes back out of it. */
module SessionCookie {
  import opened Pods
  import opened JsonPath
  import Text

  /** What the expiry of a payload compares like: a number, or nothing that a number can
      be compared to, say because it is missing. */
  datatype Expiry = Until(time: int) | Incomparable

  datatype Claims = Claims(sub: Json, roles: seq<Json>, iat: int, exp: Expiry)

  /** The comparison with the clock is false where there is nothing to compare. */
  predicate Expired(claims: Claims, now: int) { claims.exp.Until? && claims.exp.time <= now }

  /** JSON in base64url, and the keyed hash, as functions of the platform. */
  datatype Platform = Platform(
    encode: Claims -> string,
    decode: string -> Option<Claims>,
    hmac: (string, string) -> string)

  ghost predicate PlainClaims(c: Claims) { Plain(c.sub) && forall r :: r in c.roles ==> Plain(r) }

  /** Decoding undoes encoding of plain claims, and the base64url alphabet (section 5
      of RFC 4648) has no dot. */
  ghost predicate Lawful(w: Platform) {
    forall c :: '.' !in w.encode(c) && (PlainClaims(c) ==> w.decode(w.encode(c)) == Some(c))
  }

  function IndexOf(s: string, c: char): (i: nat)
    ensures i <= |s|
    ensures i < |s| ==> s[i] == c
    ensures c !in s[..i]
  {
    if s == [] || s[0] == c then 0
    else
      var i := IndexOf(s[1..], c);
      assert s[..i + 1] == [s[0]] + s[1..][..i];
      i + 1
  }

  function ClaimedSub(jwt: Json, subPath: string): Json { Extract(jwt, subPath, Str("")) }

  function List(elems: seq<Json>): Json { Arr(elems, map[]) }

  function ClaimedRoles(jwt: Json, rolesPath: string): seq<Json> {
    var roles := Extract(jwt, rolesPath, List([]));
    if roles.Arr? then roles.elems else []
  }

  function ClaimsOf(jwt: Json, ttl: int, subPath: string, rolesPath: string, now: int): Claims {
    Claims(ClaimedSub(jwt, subPath), ClaimedRoles(jwt, rolesPath), now, Until(now + ttl))
  }

  function CreateSessionCookie(w: Platform, jwt: Json, secret: string, ttl: int,
                               subPath: string, rolesPath: string, now: int): string {
    var payload := w.encode(ClaimsOf(jwt, ttl, subPath, rolesPath, now));
    payload + "." + w.hmac(secret, payload)
  }

  function VerifySessionCookie(w: Platform, cookie: string, secret: string, now: int): Option<Claims> {
    var dot := IndexOf(cookie, '.');
    if dot == |cookie| then None
    else
      var payload, received := cookie[..dot], cookie[dot + 1..];
      if received != w.hmac(secret, payload) then None
      else match w.decode(payload)
        case None => None
        case Some(claims) => if Expired(claims, now) then None else Some(claims)
  }

  /** What a cookie claims: what the token holds at the configured places, and its own lifetime. */
  lemma MintedClaims(jwt: Json, ttl: int, subPath: string, rolesPath: string, now: int)
    ensures var claims := ClaimsOf(jwt, ttl, subPath, rolesPath, now);
            && claims.iat == now && claims.exp == Until(now + ttl)
            && (Parts(subPath) == [] || Read(jwt, Parts(subPath)) == Null ==> claims.sub == Str(""))
            && (Parts(subPath) != [] && Read(jwt, Parts(subPath)) != Null ==> claims.sub == Read(jwt, Parts(subPath)))
            && (Parts(rolesPath) == [] || !Read(jwt, Parts(rolesPath)).Arr? ==> claims.roles == [])
            && (Parts(rolesPath) != [] && Read(jwt, Parts(rolesPath)).Arr? ==>
                  claims.roles == Read(jwt, Parts(rolesPath)).elems)
  {
  }

  lemma {:induction false} DotAt(payload: string, rest: string)
    requires '.' !in payload
    ensures IndexOf(payload + "." + rest, '.') == |payload|
  {
    var s := payload + "." + rest;
    var i := IndexOf(s, '.');
    assert s[|payload|] == '.';
  }

  /** A cookie is accepted exactly if its first part, up to a dot, is signed
      with this replica's key and holds claims that have not expired; claims without
      a number for an expiry never do. */
  lemma AcceptedExactlyWhenSigned(w: Platform, cookie: string, secret: string, now: int, claims: Claims)
    ensures VerifySessionCookie(w, cookie, secret, now) == Some(claims) <==>
            exists payload: string ::
              && '.' !in payload && cookie == payload + "." + w.hmac(secret, payload)
              && w.decode(payload) == Some(claims) && !(claims.exp.Until? && claims.exp.time <= now)
  {
    var dot := IndexOf(cookie, '.');
    if dot < |cookie| {
      assert cookie == cookie[..dot] + "." + cookie[dot + 1..];
    }
    forall payload: string | '.' !in payload && cookie == payload + "." + w.hmac(secret, payload)
      ensures dot == |payload| && cookie[..dot] == payload && cookie[dot + 1..] == w.hmac(secret, payload)
    {
      DotAt(payload, w.hmac(secret, payload));
    }
    if VerifySessionCookie(w, cookie, secret, now) == Some(claims) {
      var payload := cookie[..dot];
      assert cookie == payload + "." + w.hmac(secret, payload);
    }
  }

  /** Minted on one replica, verified on another: with the same key the claims
      come back exactly while they last; with another key only if the two keys
      happen to sign this payload alike. */
  lemma CookieRoundTrip(w: Platform, jwt: Json, minter: string, verifier: string, ttl: int,
                        subPath: string, rolesPath: string, minted: int, now: int)
    requires Lawful(w) && Plain(jwt)
    ensures var claims := ClaimsOf(jwt, ttl, subPath, rolesPath, minted);
            var payload := w.encode(claims);
            VerifySessionCookie(w, CreateSessionCookie(w, jwt, minter, ttl, subPath, rolesPath, minted), verifier, now)
            == if w.hmac(minter, payload) == w.hmac(verifier, payload) && now < minted + ttl then Some(claims) else None
  {
    var payload := w.encode(ClaimsOf(jwt, ttl, subPath, rolesPath, minted));
    ReadPlain(jwt, Parts(subPath));
    ReadPlain(jwt, Parts(rolesPath));
    assert PlainClaims(ClaimsOf(jwt, ttl, subPath, rolesPath, minted));
    assert w.decode(w.encode(ClaimsOf(jwt, ttl, subPath, rolesPath, minted))).Some? && '.' !in payload;
    var cookie := payload + "." + w.hmac(minter, payload);
    DotAt(payload, w.hmac(minter, payload));
    assert cookie[..|payload|] == payload && cookie[|payload| + 1..] == w.hmac(minter, payload);
  }

  // ----- the payload rebuilt from the cookie

  const SUB_PATH := "$.sub"
  const ROLES_PATH := "$." + "realm_access" + "." + "roles"

  const SUB: seq<string> := ["sub"]
  const ROLES: seq<string> := ["realm_access", "roles"]

  lemma StandardPaths()
    ensures Parts(SUB_PATH) == SUB && Parts(ROLES_PATH) == ROLES
  {
    Text.JoinSplits(["sub"], '.');
    assert SUB_PATH[2..] == "sub";
    PartsOfTwo("realm_access", "roles");
  }

  lemma PartsOfTwo(a: string, b: string)
    requires '.' !in a && '.' !in b
    ensures Parts("$." + a + "." + b) == [a, b]
  {
    var path := "$." + a + "." + b;
    Text.JoinSplits([a, b], '.');
    assert path[2..] == Text.Join([a, b], '.');
  }

  /** `setJsonPathValue`; a path without keys writes nothing. */
  function Set(j: Json, path: string, v: Json): Json
    requires LengthFree(j, Parts(path))
  {
    if Parts(path) == [] then j else Write(j, Parts(path), v)
  }

  function Standard(sub: Json, roles: seq<Json>): Json {
    Obj(map["sub" := sub, "realm_access" := Obj(map["roles" := List(roles)])])
  }

  predicate Scalar(j: Json) { j.Bool? || j.Num? || j.Str? }

  lemma StandardIsWritten(sub: Json, roles: seq<Json>)
    ensures ArrayFree(Obj(map[]), SUB) && ArrayFree(Write(Obj(map[]), SUB, sub), ROLES)
    ensures Write(Write(Obj(map[]), SUB, sub), ROLES, List(roles)) == Standard(sub, roles)
  {
    assert ROLES[1..] == ["roles"];
    assert Write(Obj(map[]), ["roles"], List(roles)) == Obj(map["roles" := List(roles)]);
    assert Write(Obj(map[]), SUB, sub) == Obj(map["sub" := sub]);
    assert SUB[0] != ROLES[0] by { assert "sub"[0] != "realm_access"[0]; }
  }

  lemma StandardIsArrayFree(sub: Json, roles: seq<Json>, parts: seq<string>)
    requires Scalar(sub) && !(ROLES < parts)
    ensures ArrayFree(Standard(sub, roles), parts)
  {
    if |parts| > 1 {
      var child := Child(Standard(sub, roles), parts[0]);
      if parts[0] == "realm_access" {
        assert |parts| > 2 && parts[1] == "roles" ==> ROLES < parts;
        if |parts| > 2 {
          assert Child(child, parts[1..][0]) == Null;
          ScalarsAreArrayFree(Null, parts[1..][1..]);
        }
      } else {
        ScalarsAreArrayFree(child, parts[1..]);
      }
    }
  }

  /** The payload after the subject has been written to its configured place. */
  function WithSub(sub: Json, roles: seq<Json>, subPath: string): Json
    requires Scalar(sub) && !(ROLES < Parts(subPath))
  {
    StandardIsArrayFree(sub, roles, Parts(subPath));
    if subPath != SUB_PATH then Set(Standard(sub, roles), subPath, sub) else Standard(sub, roles)
  }

  lemma WithSubIsArrayFree(sub: Json, roles: seq<Json>, subPath: string, parts: seq<string>)
    requires Scalar(sub) && !(ROLES < Parts(subPath)) && !(ROLES < parts)
    ensures ArrayFree(WithSub(sub, roles, subPath), parts)
  {
    StandardIsArrayFree(sub, roles, Parts(subPath));
    StandardIsArrayFree(sub, roles, parts);
    if subPath != SUB_PATH && Parts(subPath) != [] {
      WriteKeepsArrayFree(Standard(sub, roles), Parts(subPath), sub, parts);
    }
  }

  function ReconstructSessionPayload(sub: Json, roles: seq<Json>, subPath: string, rolesPath: string): Json
    requires Scalar(sub) && !(ROLES < Parts(subPath)) && !(ROLES < Parts(rolesPath))
  {
    WithSubIsArrayFree(sub, roles, subPath, Parts(rolesPath));
    var payload := WithSub(sub, roles, subPath);
    if rolesPath != ROLES_PATH then Set(payload, rolesPath, List(roles)) else payload
  }

  lemma StandardReads(sub: Json, roles: seq<Json>)
    ensures Read(Standard(sub, roles), SUB) == sub
    ensures Read(Standard(sub, roles), ROLES) == List(roles)
  {
    assert SUB[1..] == [] && ROLES[1..] == ["roles"] && ["roles"][1..] == [];
    assert "sub" != "realm_access" by { assert "sub"[0] != "realm_access"[0]; }
  }

  /** The payload gives subject and roles back at the configured places. */
  predicate HoldsIdentity(sub: Json, roles: seq<Json>, subPath: string, rolesPath: string)
    requires Scalar(sub) && !(ROLES < Parts(subPath)) && !(ROLES < Parts(rolesPath))
  {
    var payload := ReconstructSessionPayload(sub, roles, subPath, rolesPath);
    ClaimedSub(payload, subPath) == sub && ClaimedRoles(payload, rolesPath) == roles
  }

  /** The configured paths may lie anywhere except below one another and below
      the standard role list; then subject and roles are read back. */
  lemma RebuiltPayloadHoldsIdentity(sub: Json, roles: seq<Json>, subPath: string, rolesPath: string)
    requires Scalar(sub) && !(ROLES < Parts(subPath)) && !(ROLES < Parts(rolesPath))
    requires !Comparable(Parts(subPath), Parts(rolesPath))
    ensures HoldsIdentity(sub, roles, subPath, rolesPath)
  {
    StandardPaths();
    StandardReads(sub, roles);
    StandardIsArrayFree(sub, roles, Parts(subPath));
    WithSubIsArrayFree(sub, roles, subPath, Parts(rolesPath));
    var standard, payload := Standard(sub, roles), WithSub(sub, roles, subPath);
    if subPath != SUB_PATH {
      ReadWritten(standard, Parts(subPath), sub);
    }
    assert Read(payload, Parts(subPath)) == sub;
    if rolesPath != ROLES_PATH {
      ReadWritten(payload, Parts(rolesPath), List(roles));
      ArrayFreeUnmeasured(payload, Parts(rolesPath), Parts(subPath));
      ReadElsewhere(payload, Parts(rolesPath), List(roles), Parts(subPath));
    } else if subPath != SUB_PATH {
      ArrayFreeUnmeasured(standard, Parts(subPath), ROLES);
      ReadElsewhere(standard, Parts(subPath), sub, ROLES);
    }
  }

  /** A write to one path leaves other places alone. */
  lemma Elsewhere(j: Json, path: string, v: Json, q: seq<string>)
    requires ArrayFree(j, Parts(path)) && (Parts(path) == [] || !Comparable(Parts(path), q))
    ensures Read(Set(j, path, v), q) == Read(j, q)
  {
    if Parts(path) != [] {
      ArrayFreeUnmeasured(j, Parts(path), q);
      ReadElsewhere(j, Parts(path), v, q);
    }
  }

  /** Whatever the configuration, the payload has subject and roles at their standard places
      too, unless a configured path overwrites them; and nothing at places that have nothing
      to do with those paths. */
  lemma StandardPlacesHold(sub: Json, roles: seq<Json>, subPath: string, rolesPath: string, q: seq<string>)
    requires Scalar(sub) && !(ROLES < Parts(subPath)) && !(ROLES < Parts(rolesPath))
    requires subPath == SUB_PATH || Parts(subPath) == [] || !Comparable(Parts(subPath), q)
    requires rolesPath == ROLES_PATH || Parts(rolesPath) == [] || !Comparable(Parts(rolesPath), q)
    ensures var payload := ReconstructSessionPayload(sub, roles, subPath, rolesPath);
            && (q == ["sub"] ==> Read(payload, q) == sub)
            && (q == ["realm_access", "roles"] ==> Read(payload, q) == List(roles))
            && (!Comparable(q, ["sub"]) && !Comparable(q, ["realm_access", "roles"]) ==> Read(payload, q) == Null)
  {
    StandardPaths();
    StandardReads(sub, roles);
    StandardIsWritten(sub, roles);
    StandardIsArrayFree(sub, roles, Parts(subPath));
    WithSubIsArrayFree(sub, roles, subPath, Parts(rolesPath));
    if subPath != SUB_PATH { Elsewhere(Standard(sub, roles), subPath, sub, q); }
    if rolesPath != ROLES_PATH { Elsewhere(WithSub(sub, roles, subPath), rolesPath, List(roles), q); }
    if !Comparable(q, SUB) && !Comparable(q, ROLES) {
      var once := Write(Obj(map[]), SUB, sub);
      ArrayFreeUnmeasured(Obj(map[]), SUB, q);
      ReadElsewhere(Obj(map[]), SUB, sub, q);
      ArrayFreeUnmeasured(once, ROLES, q);
      ReadElsewhere(once, ROLES, List(roles), q);
      assert q != [];
      NothingIn(q);
    }
  }

  lemma NothingIn(q: seq<string>)
    requires q != []
    ensures Read(Obj(map[]), q) == Null
  {
    if |q| > 1 { NothingBelow(Null, q[1..]); }
  }

  /** A write leaves an object at every proper prefix of its path. */
  lemma {:induction false} WrittenPrefix(j: Json, parts: seq<string>, v: Json, q: seq<string>)
    requires ArrayFree(j, parts) && q < parts
    ensures Read(Write(j, parts, v), q).Obj?
    decreases |parts|
  {
    if q != [] {
      SetChildReads(j, parts[0], Write(Child(j, parts[0]), parts[1..], v), parts[0]);
      WrittenPrefix(Child(j, parts[0]), parts[1..], v, q[1..]);
    }
  }

  /** Roles at or below the subject's own path make every subject unreadable. */
  lemma NestedPathsLoseSubject(sub: Json, roles: seq<Json>, subPath: string, rolesPath: string)
    requires Scalar(sub) && !(ROLES < Parts(subPath)) && !(ROLES < Parts(rolesPath))
    requires Parts(subPath) != [] && Parts(subPath) <= Parts(rolesPath) && rolesPath != ROLES_PATH
    ensures ClaimedSub(ReconstructSessionPayload(sub, roles, subPath, rolesPath), subPath) != sub
  {
    WithSubIsArrayFree(sub, roles, subPath, Parts(rolesPath));
    var payload := WithSub(sub, roles, subPath);
    if Parts(subPath) == Parts(rolesPath) {
      ReadWritten(payload, Parts(rolesPath), List(roles));
    } else {
      WrittenPrefix(payload, Parts(rolesPath), List(roles), Parts(subPath));
    }
  }
}
