/** Who may do what: scopes, roles, template restrictions and the visibility of
    a workspace's ports. */
module Access {
  import opened Pods
  import opened Text

  const READ_SCOPE := "nogoo9:read"
  const WRITE_SCOPE := "nogoo9:write"
  const ALLOWED_ROLES := "nogoo9/allowed-roles"
  const ALLOWED_SCOPES := "nogoo9/allowed-scopes"

  /** An element of a claim that is an array; what is no string is rendered as one
      in most comparisons. */
  datatype Item = Text(text: string) | Other(text: string)

  datatype Claim =
    | Missing
    | NullValue
    | List(items: seq<Item>)
    | Line(line: string)
    | NoList                    // a number, a boolean or an object

  /** A decoded token: whether it is an object at all, the subject if it has one, and
      what a path finds in it. */
  datatype Token = Token(isObject: bool, subject: Option<string>, claims: string -> Claim)

  /** An option that is not set reads like the empty string. */
  datatype Config = Config(
    readScope: string, writeScope: string, adminScope: string,
    readRole: string, writeRole: string, adminRole: string, defaultRole: string,
    scopePath: string, rolesPath: string,
    adminUsers: seq<string>)

  datatype Action = Read | Write | WorkspaceWrite | TemplateCreate | TemplateWrite | Admin

  function SpaceOrComma(c: char): bool { Space(c) || c == ',' }

  predicate Blank(claim: Claim) {
    match claim
    case Missing => true
    case NullValue => true
    case List(items) => items == []
    case Line(line) => Trim(line) == ""
    case NoList => false
  }

  function Rendered(items: seq<Item>): seq<string> { seq(|items|, i requires 0 <= i < |items| => items[i].text) }

  function Named(claim: Claim, separator: char -> bool): seq<string> {
    match claim
    case List(items) => Rendered(items)
    case Line(line) => Words(line, separator)
    case _ => []
  }

  // ----- scopes

  function OrElse(claim: Claim, other: Claim): Claim { if claim.Missing? || claim.NullValue? then other else claim }

  function ScopeClaim(token: Token, path: string): Claim {
    var direct := token.claims(path);
    var fallback := if direct.Missing? && path == "$.scope" then token.claims("$.scp") else direct;
    if fallback.Missing? then OrElse(token.claims("$.scope"), token.claims("$.scp")) else fallback
  }

  function HasRequiredScope(cfg: Config, token: Token, required: string, strict: bool): bool {
    if required == "" then true
    else if !token.isObject then false
    else
      var claim := ScopeClaim(token, cfg.scopePath);
      if Blank(claim) then !strict
      else
        var scopes := Named(claim, Space);
        if required in scopes then true
        else if cfg.adminScope != "" && cfg.adminScope in scopes then true
        else required == READ_SCOPE && WRITE_SCOPE in scopes
  }

  /** One scope is as good as another that is required. */
  predicate Covers(cfg: Config, scope: string, required: string) {
    || scope == required
    || (cfg.adminScope != "" && scope == cfg.adminScope)
    || (required == READ_SCOPE && scope == WRITE_SCOPE)
  }

  lemma ScopeMeaning(cfg: Config, token: Token, required: string, strict: bool)
    ensures HasRequiredScope(cfg, token, required, strict) <==>
            required == "" || (token.isObject &&
              var claim := ScopeClaim(token, cfg.scopePath);
              if Blank(claim) then !strict else exists s :: s in Named(claim, Space) && Covers(cfg, s, required))
  {
  }

  // ----- roles

  function RoleClaim(token: Token, path: string): Claim {
    var direct := token.claims(path);
    var fallback := if direct.Missing? && path == "$.realm_access.roles" then token.claims("$.roles") else direct;
    if fallback.Missing? then OrElse(token.claims("$.roles"), token.claims("$.realm_access.roles")) else fallback
  }

  /** Compares strings only, and a claim that is a string as a whole. */
  function ExtractAdminRole(token: Token, path: string, adminRole: string): bool {
    token.isObject &&
    match token.claims(path)
    case List(items) => Text(adminRole) in items
    case Line(line) => line == adminRole
    case _ => false
  }

  function HasRequiredRole(cfg: Config, token: Token, required: string): bool {
    if required == "" then true
    else if !token.isObject then false
    else if ExtractAdminRole(token, cfg.rolesPath, cfg.adminRole) then true
    else
      var claim := RoleClaim(token, cfg.rolesPath);
      if Blank(claim) then required == cfg.defaultRole
      else required in Named(claim, SpaceOrComma)
  }

  // ----- actions

  function ScopeFor(cfg: Config, action: Action): string {
    match action
    case Admin => cfg.adminScope
    case Read => cfg.readScope
    case _ => cfg.writeScope
  }

  function RolesFor(cfg: Config, action: Action): seq<string> {
    match action
    case Admin => [cfg.adminRole]
    case Read => [cfg.adminRole, cfg.writeRole, cfg.readRole]
    case WorkspaceWrite => [cfg.adminRole, cfg.writeRole, cfg.readRole]
    case _ => [cfg.adminRole, cfg.writeRole]
  }

  function PrimaryRole(cfg: Config, action: Action): string {
    match action
    case Admin => cfg.adminRole
    case Read => cfg.readRole
    case WorkspaceWrite => cfg.readRole
    case _ => cfg.writeRole
  }

  predicate IsListedAdmin(cfg: Config, token: Token) { token.subject.Some? && token.subject.value in cfg.adminUsers }

  predicate AnyRole(cfg: Config, token: Token, roles: seq<string>) {
    exists i :: 0 <= i < |roles| && roles[i] != "" && HasRequiredRole(cfg, token, roles[i])
  }

  predicate Allowed(cfg: Config, token: Token, action: Action) {
    || IsListedAdmin(cfg, token)
    || ((ScopeFor(cfg, action) == "" || HasRequiredScope(cfg, token, ScopeFor(cfg, action), false))
        && (PrimaryRole(cfg, action) == "" || AnyRole(cfg, token, RolesFor(cfg, action))))
  }

  datatype Verdict = Pass | MissingScope(scope: string) | MissingRole(role: string)

  method VerifyAccess(cfg: Config, token: Token, action: Action) returns (v: Verdict)
    ensures v.Pass? <==> Allowed(cfg, token, action)
    ensures v.MissingScope? <==> !IsListedAdmin(cfg, token) && ScopeFor(cfg, action) != ""
                                 && !HasRequiredScope(cfg, token, ScopeFor(cfg, action), false)
    ensures v.MissingScope? ==>
              v.scope == match action case Admin => cfg.adminScope case Read => cfg.readScope case _ => cfg.writeScope
    ensures v.MissingRole? ==>
              v.role == if action.Admin? then cfg.adminRole
                        else if action in {TemplateCreate, TemplateWrite} then cfg.writeRole else cfg.readRole
    // a scope claim and a role claim that are strings
    ensures var claim := token.claims(cfg.scopePath);
            var required := if action.Admin? then cfg.adminScope else if action.Read? then cfg.readScope else cfg.writeScope;
            token.isObject && claim.Line? ==>
              (v.MissingScope? <==> !IsListedAdmin(cfg, token) && required != "" && !SaysScope(cfg, claim.line, required))
    ensures var claim := token.claims(cfg.rolesPath);
            token.isObject && claim.Line? && !v.MissingScope? ==>
              (v.Pass? <==> || IsListedAdmin(cfg, token) || PrimaryRole(cfg, action) == ""
                            || exists role :: role in RolesFor(cfg, action) && role != "" && SaysRole(cfg, claim.line, role))
  {
    StringClaims(cfg, token);
    if IsListedAdmin(cfg, token) {
      return Pass;
    }
    var scope := ScopeFor(cfg, action);
    if scope != "" && !HasRequiredScope(cfg, token, scope, false) {
      return MissingScope(scope);
    }
    var roles, hasRole := RolesFor(cfg, action), false;
    if PrimaryRole(cfg, action) == "" {
      hasRole := true;
    } else {
      var i := 0;
      while i < |roles|
        invariant 0 <= i <= |roles|
        invariant forall j :: 0 <= j < i ==> !(roles[j] != "" && HasRequiredRole(cfg, token, roles[j]))
        invariant !hasRole
      {
        if roles[i] != "" && HasRequiredRole(cfg, token, roles[i]) {
          hasRole := true;
          break;
        }
        i := i + 1;
      }
    }
    return if hasRole then Pass else MissingRole(if action.Write? then cfg.readRole else PrimaryRole(cfg, action));
  }

  // ----- what the checks look for in a token

  /** A claim that is an array has its elements for names; one that is a string has the
      words between its separators. */
  ghost predicate Holds(claim: Claim, separator: char -> bool, name: string) {
    match claim
    case List(items) => exists x :: x in items && x.text == name
    case Line(line) => name != "" && HasPart(line, separator, name)
    case _ => false
  }

  lemma NamedMeaning(claim: Claim, separator: char -> bool, name: string)
    ensures name in Named(claim, separator) <==> Holds(claim, separator, name)
  {
    match claim {
      case List(items) => RenderedIn(items, name);
      case Line(line) => WordsMeaning(line, separator, name);
      case _ =>
    }
  }

  /** Nothing claimed: a missing or null claim, an empty list, a string of white space. */
  lemma BlankMeaning(claim: Claim)
    ensures Blank(claim) <==>
            || claim == Missing || claim == NullValue || claim == List([])
            || (claim.Line? && forall c :: c in claim.line ==> c in " \t\n\r")
  {
    if claim.Line? { TrimEmpty(claim.line); }
  }

  /** Separators that agree cut alike. */
  lemma SamePart(s: string, sep: char -> bool, sep': char -> bool, part: string)
    requires forall c :: sep(c) <==> sep'(c)
    ensures HasPart(s, sep, part) <==> HasPart(s, sep', part)
  {
    assert forall i, j :: IsPart(s, sep, i, j) <==> IsPart(s, sep', i, j);
  }

  /** Where the scopes are looked for: at the configured path, and if there is nothing
      in the two usual places. */
  lemma ScopeClaimMeaning(token: Token, path: string)
    ensures token.claims(path) != Missing ==> ScopeClaim(token, path) == token.claims(path)
    ensures token.claims(path) == Missing && path == "$.scope" ==> ScopeClaim(token, path) == token.claims("$.scp")
    ensures token.claims(path) == Missing && path != "$.scope" ==>
              ScopeClaim(token, path) == if token.claims("$.scope") !in {Missing, NullValue} then token.claims("$.scope")
                                         else token.claims("$.scp")
  {
  }

  lemma RoleClaimMeaning(token: Token, path: string)
    ensures token.claims(path) != Missing ==> RoleClaim(token, path) == token.claims(path)
    ensures token.claims(path) == Missing && path == "$.realm_access.roles" ==>
              RoleClaim(token, path) == token.claims("$.roles")
    ensures token.claims(path) == Missing && path != "$.realm_access.roles" ==>
              RoleClaim(token, path) == if token.claims("$.roles") !in {Missing, NullValue} then token.claims("$.roles")
                                        else token.claims("$.realm_access.roles")
  {
  }

  /** A scope claim that is a string passes a check if and only if one of its words is the
      scope, the administrators' scope, or the write scope where reading is required; or
      it is blank. */
  lemma ScopeString(cfg: Config, token: Token, line: string, sep: char -> bool, required: string, strict: bool)
    requires token.isObject && token.claims(cfg.scopePath) == Line(line) && required != ""
    requires forall c :: sep(c) <==> c in " \t\n\r"
    ensures HasRequiredScope(cfg, token, required, strict) <==>
            if forall c :: c in line ==> sep(c) then !strict
            else
              || HasPart(line, sep, required)
              || (cfg.adminScope != "" && HasPart(line, sep, cfg.adminScope))
              || (required == "nogoo9:read" && HasPart(line, sep, "nogoo9:write"))
  {
    BlankMeaning(Line(line));
    forall name ensures name in Named(Line(line), Space) <==> name != "" && HasPart(line, sep, name) {
      NamedMeaning(Line(line), Space, name);
      SamePart(line, Space, sep, name);
    }
  }

  /** The same for an array, whose elements are compared as text. */
  lemma ScopeList(cfg: Config, token: Token, items: seq<Item>, required: string, strict: bool)
    requires token.isObject && token.claims(cfg.scopePath) == List(items) && required != ""
    ensures HasRequiredScope(cfg, token, required, strict) <==>
            if items == [] then !strict
            else exists x :: x in items && (x.text == required || (cfg.adminScope != "" && x.text == cfg.adminScope)
                                            || (required == "nogoo9:read" && x.text == "nogoo9:write"))
  {
    forall name ensures name in Named(List(items), Space) <==> exists x :: x in items && x.text == name {
      RenderedIn(items, name);
    }
  }

  /** The administrators' role, as an element or as the whole string at the configured path. */
  ghost predicate HoldsAdminRole(cfg: Config, token: Token) {
    var claim := token.claims(cfg.rolesPath);
    claim == Line(cfg.adminRole) || (claim.List? && exists x :: x in claim.items && x == Text(cfg.adminRole))
  }

  /** A role claim that is a string: its words, at white space or commas. */
  lemma RoleString(cfg: Config, token: Token, line: string, sep: char -> bool, required: string)
    requires token.isObject && token.claims(cfg.rolesPath) == Line(line) && required != ""
    requires forall c :: sep(c) <==> c in " \t\n\r,"
    ensures HasRequiredRole(cfg, token, required) <==>
            || line == cfg.adminRole
            || if forall c :: c in line ==> c in " \t\n\r" then required == cfg.defaultRole else HasPart(line, sep, required)
  {
    BlankMeaning(Line(line));
    NamedMeaning(Line(line), SpaceOrComma, required);
    SamePart(line, SpaceOrComma, sep, required);
  }

  /** A role check of any token. */
  lemma RoleMeaning(cfg: Config, token: Token, required: string)
    ensures HasRequiredRole(cfg, token, required) <==>
            required == "" || (token.isObject &&
              var claim := RoleClaim(token, cfg.rolesPath);
              HoldsAdminRole(cfg, token) || if Blank(claim) then required == cfg.defaultRole
                                            else Holds(claim, SpaceOrComma, required))
  {
    NamedMeaning(RoleClaim(token, cfg.rolesPath), SpaceOrComma, required);
  }

  ghost predicate IsListed(cfg: Config, token: Token) {
    exists i :: 0 <= i < |cfg.adminUsers| && token.subject == Some(cfg.adminUsers[i])
  }

  ghost predicate HasRole(cfg: Config, token: Token, role: string) { role != "" && HasRequiredRole(cfg, token, role) }

  lemma AnyOfUpToThree(cfg: Config, token: Token, roles: seq<string>)
    requires 1 <= |roles| <= 3
    ensures AnyRole(cfg, token, roles) <==>
            || HasRole(cfg, token, roles[0]) || (|roles| > 1 && HasRole(cfg, token, roles[1]))
            || (|roles| > 2 && HasRole(cfg, token, roles[2]))
  {
  }

  /** Which scope and which roles each action takes. A role that is not configured is no
      requirement if it is the action's own, and no help otherwise. */
  lemma AllowedMeaning(cfg: Config, token: Token, action: Action)
    ensures Allowed(cfg, token, action) <==>
            || IsListed(cfg, token)
            || match action
               case Admin =>
                 && HasRequiredScope(cfg, token, cfg.adminScope, false)
                 && (cfg.adminRole == "" || HasRole(cfg, token, cfg.adminRole))
               case Read =>
                 && HasRequiredScope(cfg, token, cfg.readScope, false)
                 && (cfg.readRole == "" || HasRole(cfg, token, cfg.adminRole) || HasRole(cfg, token, cfg.writeRole)
                     || HasRole(cfg, token, cfg.readRole))
               case WorkspaceWrite =>
                 && HasRequiredScope(cfg, token, cfg.writeScope, false)
                 && (cfg.readRole == "" || HasRole(cfg, token, cfg.adminRole) || HasRole(cfg, token, cfg.writeRole)
                     || HasRole(cfg, token, cfg.readRole))
               case _ =>
                 && HasRequiredScope(cfg, token, cfg.writeScope, false)
                 && (cfg.writeRole == "" || HasRole(cfg, token, cfg.adminRole) || HasRole(cfg, token, cfg.writeRole))
  {
    AnyOfUpToThree(cfg, token, RolesFor(cfg, action));
  }

  /** The words of the string say the scope, or it says nothing at all. */
  ghost predicate SaysScope(cfg: Config, line: string, required: string) {
    || (forall c :: c in line ==> c in " \t\n\r")
    || HasPart(line, Space, required)
    || (cfg.adminScope != "" && HasPart(line, Space, cfg.adminScope))
    || (required == "nogoo9:read" && HasPart(line, Space, "nogoo9:write"))
  }

  ghost predicate SaysRole(cfg: Config, line: string, required: string) {
    || line == cfg.adminRole
    || if forall c :: c in line ==> c in " \t\n\r" then required == cfg.defaultRole
       else HasPart(line, SpaceOrComma, required)
  }

  lemma StringClaims(cfg: Config, token: Token)
    ensures forall required :: token.isObject && token.claims(cfg.scopePath).Line? && required != "" ==>
              (HasRequiredScope(cfg, token, required, false) <==> SaysScope(cfg, token.claims(cfg.scopePath).line, required))
    ensures forall required :: token.isObject && token.claims(cfg.rolesPath).Line? && required != "" ==>
              (HasRequiredRole(cfg, token, required) <==> SaysRole(cfg, token.claims(cfg.rolesPath).line, required))
  {
    forall required | token.isObject && token.claims(cfg.scopePath).Line? && required != ""
      ensures HasRequiredScope(cfg, token, required, false) <==> SaysScope(cfg, token.claims(cfg.scopePath).line, required)
    {
      ScopeString(cfg, token, token.claims(cfg.scopePath).line, Space, required, false);
    }
    forall required | token.isObject && token.claims(cfg.rolesPath).Line? && required != ""
      ensures HasRequiredRole(cfg, token, required) <==> SaysRole(cfg, token.claims(cfg.rolesPath).line, required)
    {
      RoleString(cfg, token, token.claims(cfg.rolesPath).line, SpaceOrComma, required);
    }
  }

  // ----- the order of the actions

  ghost predicate Implies(cfg: Config, a: Action, b: Action) {
    forall token :: Allowed(cfg, token, a) ==> Allowed(cfg, token, b)
  }

  predicate AdminIsEnough(cfg: Config) {
    && (cfg.writeScope == "" ||
        (cfg.adminScope != "" && (cfg.adminScope == READ_SCOPE ==> Covers(cfg, WRITE_SCOPE, cfg.writeScope))))
    && (cfg.writeRole == "" || cfg.adminRole != "")
  }

  predicate RolesNest(cfg: Config) { cfg.readRole == "" || cfg.writeRole != "" }

  predicate ScopesNest(cfg: Config) {
    || cfg.readScope == ""
    || (cfg.writeScope != "" && Covers(cfg, cfg.writeScope, cfg.readScope)
        && (cfg.writeScope == READ_SCOPE ==> Covers(cfg, WRITE_SCOPE, cfg.readScope)))
  }

  lemma AdminImpliesWrite(cfg: Config, token: Token)
    requires AdminIsEnough(cfg) && Allowed(cfg, token, Admin)
    ensures Allowed(cfg, token, Write)
  {
    ScopeMeaning(cfg, token, cfg.adminScope, false);
    ScopeMeaning(cfg, token, cfg.writeScope, false);
    if !IsListedAdmin(cfg, token) && cfg.adminRole != "" {
      assert HasRequiredRole(cfg, token, cfg.adminRole);
      assert RolesFor(cfg, Write)[0] == cfg.adminRole;
    }
  }

  lemma WriteImpliesWorkspaceWrite(cfg: Config, token: Token)
    requires RolesNest(cfg) && Allowed(cfg, token, Write)
    ensures Allowed(cfg, token, WorkspaceWrite)
  {
    if !IsListedAdmin(cfg, token) && cfg.readRole != "" {
      var i :| 0 <= i < |RolesFor(cfg, Write)| && RolesFor(cfg, Write)[i] != ""
               && HasRequiredRole(cfg, token, RolesFor(cfg, Write)[i]);
      assert RolesFor(cfg, WorkspaceWrite)[i] == RolesFor(cfg, Write)[i];
    }
  }

  lemma WorkspaceWriteImpliesRead(cfg: Config, token: Token)
    requires ScopesNest(cfg) && Allowed(cfg, token, WorkspaceWrite)
    ensures Allowed(cfg, token, Read)
  {
    ScopeMeaning(cfg, token, cfg.writeScope, false);
    ScopeMeaning(cfg, token, cfg.readScope, false);
  }

  /** A token with one scope and one role and nothing else. Where one path is configured
      for both, they are in the claims that the checks fall back to. */
  function Bearer(cfg: Config, scope: string, role: string): Token {
    var apart := cfg.scopePath != cfg.rolesPath;
    var scopeAt := if apart then cfg.scopePath else if cfg.scopePath != "$.scope" then "$.scope" else "$.scp";
    var roleAt := if apart then cfg.rolesPath else if cfg.rolesPath != "$.roles" then "$.roles" else "$.realm_access.roles";
    Token(true, None, (path: string) =>
      if path == scopeAt then List([Text(scope)]) else if path == roleAt then List([Text(role)]) else Missing)
  }

  lemma BearerClaims(cfg: Config, scope: string, role: string)
    ensures ScopeClaim(Bearer(cfg, scope, role), cfg.scopePath) == List([Text(scope)])
    ensures RoleClaim(Bearer(cfg, scope, role), cfg.rolesPath) == List([Text(role)])
  {
    assert |"$.scope"| == 7 && |"$.scp"| == 5 && |"$.roles"| == 7 && |"$.realm_access.roles"| == 20;
    assert "$.scope"[2] != "$.roles"[2];
  }

  lemma BearerHas(cfg: Config, scope: string, role: string)
    ensures forall required, strict :: HasRequiredScope(cfg, Bearer(cfg, scope, role), required, strict) <==>
                                       required == "" || Covers(cfg, scope, required)
    ensures HasRequiredRole(cfg, Bearer(cfg, scope, role), role)
    ensures forall required :: HasRequiredRole(cfg, Bearer(cfg, scope, role), required) ==>
                               required == "" || role == required || role == cfg.adminRole
  {
    var token := Bearer(cfg, scope, role);
    BearerClaims(cfg, scope, role);
    assert Rendered([Text(scope)]) == [scope] && Rendered([Text(role)]) == [role];
    forall required, strict
      ensures HasRequiredScope(cfg, token, required, strict) <==> required == "" || Covers(cfg, scope, required)
    {
      ScopeMeaning(cfg, token, required, strict);
      assert scope in [scope];
    }
  }

  lemma BearerAllowed(cfg: Config, scope: string, role: string, action: Action)
    requires role != ""
    ensures Allowed(cfg, Bearer(cfg, scope, role), action) <==>
            && (ScopeFor(cfg, action) == "" || Covers(cfg, scope, ScopeFor(cfg, action)))
            && (PrimaryRole(cfg, action) == "" || role in RolesFor(cfg, action))
  {
    BearerHas(cfg, scope, role);
    var token, roles := Bearer(cfg, scope, role), RolesFor(cfg, action);
    assert roles[0] == cfg.adminRole;
    if AnyRole(cfg, token, roles) {
      var i :| 0 <= i < |roles| && roles[i] != "" && HasRequiredRole(cfg, token, roles[i]);
      assert roles[i] in roles;
    }
    if role in roles {
      var i :| 0 <= i < |roles| && roles[i] == role;
      assert HasRequiredRole(cfg, token, roles[i]);
    }
  }

  /** A name that is none of the given ones. */
  function Fresh(a: string, b: string, c: string): (r: string)
    ensures r != a && r != b && r != c && r != ""
  {
    var r := a + b + c + "x";
    assert |r| == |a| + |b| + |c| + 1;
    r
  }

  /** Which of the actions an administrator, a writer or an editor of workspaces may
      do is decided by the configuration, not by the token. */
  lemma AdminImpliesWriteExactly(cfg: Config)
    ensures Implies(cfg, Admin, Write) <==> AdminIsEnough(cfg)
  {
    if AdminIsEnough(cfg) {
      forall token | Allowed(cfg, token, Admin) ensures Allowed(cfg, token, Write) { AdminImpliesWrite(cfg, token); }
    } else {
      var scope := if cfg.adminScope == "" then Fresh(cfg.writeScope, WRITE_SCOPE, "")
                   else if cfg.adminScope == READ_SCOPE && !Covers(cfg, WRITE_SCOPE, cfg.writeScope) then WRITE_SCOPE
                   else cfg.adminScope;
      var role := if cfg.adminRole == "" then Fresh(cfg.writeRole, "", "") else cfg.adminRole;
      BearerAllowed(cfg, scope, role, Admin);
      BearerAllowed(cfg, scope, role, Write);
      assert cfg.adminRole in RolesFor(cfg, Admin);
      assert Allowed(cfg, Bearer(cfg, scope, role), Admin);
    }
  }

  lemma WriteImpliesWorkspaceWriteExactly(cfg: Config)
    ensures Implies(cfg, Write, WorkspaceWrite) <==> RolesNest(cfg)
  {
    if RolesNest(cfg) {
      forall token | Allowed(cfg, token, Write) ensures Allowed(cfg, token, WorkspaceWrite) {
        WriteImpliesWorkspaceWrite(cfg, token);
      }
    } else {
      var role := Fresh(cfg.adminRole, cfg.readRole, "");
      BearerAllowed(cfg, cfg.writeScope, role, Write);
      BearerAllowed(cfg, cfg.writeScope, role, WorkspaceWrite);
      assert Allowed(cfg, Bearer(cfg, cfg.writeScope, role), Write);
    }
  }

  lemma WorkspaceWriteImpliesReadExactly(cfg: Config)
    ensures Implies(cfg, WorkspaceWrite, Read) <==> ScopesNest(cfg)
  {
    if ScopesNest(cfg) {
      forall token | Allowed(cfg, token, WorkspaceWrite) ensures Allowed(cfg, token, Read) {
        WorkspaceWriteImpliesRead(cfg, token);
      }
    } else {
      var scope := if cfg.writeScope == "" then Fresh(cfg.readScope, cfg.adminScope, WRITE_SCOPE)
                   else if !Covers(cfg, cfg.writeScope, cfg.readScope) then cfg.writeScope else WRITE_SCOPE;
      var role := if cfg.readRole == "" then "reader" else cfg.readRole;
      BearerAllowed(cfg, scope, role, WorkspaceWrite);
      BearerAllowed(cfg, scope, role, Read);
      assert cfg.readRole in RolesFor(cfg, WorkspaceWrite);
      assert Allowed(cfg, Bearer(cfg, scope, role), WorkspaceWrite);
    }
  }

  /** With the default scope names and all roles set, each action includes the next. */
  lemma ActionsAreOrdered(cfg: Config, token: Token)
    requires cfg.adminScope != "" && cfg.adminRole != "" && cfg.writeRole != ""
    requires cfg.readScope == READ_SCOPE && cfg.writeScope == WRITE_SCOPE
    ensures Allowed(cfg, token, Admin) ==> Allowed(cfg, token, Write)
    ensures Allowed(cfg, token, Write) <==> Allowed(cfg, token, TemplateWrite)
    ensures Allowed(cfg, token, Write) <==> Allowed(cfg, token, TemplateCreate)
    ensures Allowed(cfg, token, Write) ==> Allowed(cfg, token, WorkspaceWrite)
    ensures Allowed(cfg, token, WorkspaceWrite) ==> Allowed(cfg, token, Read)
  {
    if Allowed(cfg, token, Admin) { AdminImpliesWrite(cfg, token); }
    if Allowed(cfg, token, Write) { WriteImpliesWorkspaceWrite(cfg, token); }
    if Allowed(cfg, token, WorkspaceWrite) { WorkspaceWriteImpliesRead(cfg, token); }
    assert RolesFor(cfg, Write) == RolesFor(cfg, TemplateWrite) == RolesFor(cfg, TemplateCreate);
  }

  // ----- templates

  predicate TemplateAllowed(cfg: Config, enabled: bool, annotations: map<string, string>, token: Token, isAdmin: bool) {
    var roles := NonEmpty(Items(Lookup(annotations, ALLOWED_ROLES), ','));
    var scopes := NonEmpty(Items(Lookup(annotations, ALLOWED_SCOPES), ','));
    || !enabled || isAdmin || Allowed(cfg, token, Admin)
    || ((roles == [] || exists i :: 0 <= i < |roles| && HasRequiredRole(cfg, token, roles[i]))
        && (scopes == [] || exists i :: 0 <= i < |scopes| && HasRequiredScope(cfg, token, scopes[i], false)))
  }

  /** The items of a list in an annotation, without those that are blank. */
  ghost predicate Listed(line: string, item: string) {
    item != "" && exists part :: HasPart(line, Is(','), part) && item == Trim(part)
  }

  lemma ListedMeaning(line: string, item: string)
    ensures item in NonEmpty(Items(line, ',')) <==> Listed(line, item)
  {
    NonEmptyIn(Items(line, ','), item);
    ItemsMeaning(line, ',', item);
  }

  lemma NoneListed(line: string)
    ensures NonEmpty(Items(line, ',')) == [] <==> forall item :: !Listed(line, item)
  {
    var items := NonEmpty(Items(line, ','));
    if items != [] {
      ListedMeaning(line, items[0]);
    }
    forall item | Listed(line, item) ensures item in items { ListedMeaning(line, item); }
  }

  /** A template is open to administrators, and to those who have one of its roles and
      one of its scopes, as far as it lists any. */
  lemma TemplateMeaning(cfg: Config, enabled: bool, annotations: map<string, string>, token: Token, isAdmin: bool)
    ensures var roles, scopes := Lookup(annotations, "nogoo9/allowed-roles"), Lookup(annotations, "nogoo9/allowed-scopes");
            TemplateAllowed(cfg, enabled, annotations, token, isAdmin) <==>
            || !enabled || isAdmin || Allowed(cfg, token, Admin)
            || (((forall item :: !Listed(roles, item)) || exists item :: Listed(roles, item) && HasRequiredRole(cfg, token, item))
                && ((forall item :: !Listed(scopes, item)) ||
                    exists item :: Listed(scopes, item) && HasRequiredScope(cfg, token, item, false)))
  {
    var roles, scopes := Lookup(annotations, ALLOWED_ROLES), Lookup(annotations, ALLOWED_SCOPES);
    NoneListed(roles);
    NoneListed(scopes);
    var r, s := NonEmpty(Items(roles, ',')), NonEmpty(Items(scopes, ','));
    forall item ensures item in r <==> Listed(roles, item) { ListedMeaning(roles, item); }
    forall item ensures item in s <==> Listed(scopes, item) { ListedMeaning(scopes, item); }
    assert (exists i :: 0 <= i < |r| && HasRequiredRole(cfg, token, r[i])) <==>
           exists item :: item in r && HasRequiredRole(cfg, token, item);
    assert (exists i :: 0 <= i < |s| && HasRequiredScope(cfg, token, s[i], false)) <==>
           exists item :: item in s && HasRequiredScope(cfg, token, item, false);
  }

  // ----- visibility

  predicate StartsWith(s: string, prefix: string) { prefix <= s }

  /** The verdict of both proxies on a request to a port. */
  predicate Visible(cfg: Config, visibility: string, token: Token, user: string, owner: Option<string>) {
    if visibility == "internal" then true
    else if visibility == "admin" then
      owner == Some(user) ||
      ((cfg.adminScope == "" || HasRequiredScope(cfg, token, cfg.adminScope, false))
       && (cfg.adminRole == "" || HasRequiredRole(cfg, token, cfg.adminRole)))
    else if StartsWith(visibility, "scope:") then HasRequiredScope(cfg, token, Trim(visibility[6..]), true)
    else if StartsWith(visibility, "role:") then HasRequiredRole(cfg, token, Trim(visibility[5..]))
    else if visibility == "private" then owner == Some(user)
    else owner == Some(user) || user in Items(visibility, ',')
  }

  /** Who gets through to a port, for each kind of visibility. */
  lemma VisibleMeaning(cfg: Config, visibility: string, token: Token, user: string, owner: Option<string>, name: string)
    ensures visibility == "internal" ==> Visible(cfg, visibility, token, user, owner)
    ensures visibility == "private" ==> (Visible(cfg, visibility, token, user, owner) <==> owner == Some(user))
    ensures visibility == "admin" ==>
              (Visible(cfg, visibility, token, user, owner) <==>
               owner == Some(user) ||
               (HasRequiredScope(cfg, token, cfg.adminScope, false) && HasRequiredRole(cfg, token, cfg.adminRole)))
    ensures visibility == "scope:" + name ==>
              (Visible(cfg, visibility, token, user, owner) <==> HasRequiredScope(cfg, token, Trim(name), true))
    ensures visibility == "role:" + name ==>
              (Visible(cfg, visibility, token, user, owner) <==> HasRequiredRole(cfg, token, Trim(name)))
    ensures visibility !in {"internal", "private", "admin"} && !("scope:" <= visibility) && !("role:" <= visibility) ==>
              (Visible(cfg, visibility, token, user, owner) <==>
               owner == Some(user) || exists part :: HasPart(visibility, Is(','), part) && user == Trim(part))
  {
    ItemsMeaning(visibility, ',', user);
    assert ("scope:" + name)[6..] == name && ("role:" + name)[5..] == name;
    assert "scope:" <= "scope:" + name && "role:" <= "role:" + name;
    assert "scope:"[0] == 's' && "role:"[0] == 'r';
    assert "internal"[0] == 'i' && "admin"[0] == 'a' && "private"[0] == 'p';
    if visibility == "scope:" + name { assert visibility[0] == 's'; }
    if visibility == "role:" + name { assert visibility[0] == 'r'; }
  }

  // ----- more claims never mean less access, if there were some before

  /** Arrays that hold something may have got longer; nothing else has changed. */
  ghost predicate Extends(more: Token, less: Token) {
    && more.isObject == less.isObject && more.subject == less.subject
    && forall path :: Grown(more.claims(path), less.claims(path))
  }

  predicate Grown(more: Claim, less: Claim) {
    || more == less
    || (more.List? && less.List? && less.items != [] && forall x :: x in less.items ==> x in more.items)
  }

  lemma RenderedIn(items: seq<Item>, text: string)
    ensures text in Rendered(items) <==> exists x :: x in items && x.text == text
  {
    if text in Rendered(items) {
      var i :| 0 <= i < |items| && Rendered(items)[i] == text;
      assert items[i] in items;
    }
    if exists x :: x in items && x.text == text {
      var x :| x in items && x.text == text;
      var i :| 0 <= i < |items| && items[i] == x;
      assert Rendered(items)[i] == text;
    }
  }

  lemma GrownNames(more: Claim, less: Claim, separator: char -> bool, name: string)
    requires Grown(more, less)
    ensures Blank(more) == Blank(less)
    ensures name in Named(less, separator) ==> name in Named(more, separator)
  {
    if more != less {
      RenderedIn(less.items, name);
      RenderedIn(more.items, name);
      assert less.items[0] in more.items;
    }
  }

  lemma ScopeGrows(cfg: Config, more: Token, less: Token, required: string, strict: bool)
    requires Extends(more, less) && HasRequiredScope(cfg, less, required, strict)
    ensures HasRequiredScope(cfg, more, required, strict)
  {
    if required != "" {
      var m, l := ScopeClaim(more, cfg.scopePath), ScopeClaim(less, cfg.scopePath);
      assert Grown(more.claims(cfg.scopePath), less.claims(cfg.scopePath));
      assert Grown(more.claims("$.scope"), less.claims("$.scope")) && Grown(more.claims("$.scp"), less.claims("$.scp"));
      assert Grown(m, l);
      GrownNames(m, l, Space, required);
      GrownNames(m, l, Space, cfg.adminScope);
      GrownNames(m, l, Space, WRITE_SCOPE);
    }
  }

  lemma RoleGrows(cfg: Config, more: Token, less: Token, required: string)
    requires Extends(more, less) && HasRequiredRole(cfg, less, required)
    ensures HasRequiredRole(cfg, more, required)
  {
    if required != "" {
      var m, l := RoleClaim(more, cfg.rolesPath), RoleClaim(less, cfg.rolesPath);
      assert Grown(more.claims(cfg.rolesPath), less.claims(cfg.rolesPath));
      assert Grown(more.claims("$.roles"), less.claims("$.roles"));
      assert Grown(more.claims("$.realm_access.roles"), less.claims("$.realm_access.roles"));
      assert Grown(m, l);
      GrownNames(m, l, SpaceOrComma, required);
    }
  }

  /** Adding scopes or roles to lists that hold some takes no access away: not to an
      action, not to a template, not to a port. */
  lemma MoreClaimsMoreAccess(cfg: Config, more: Token, less: Token, action: Action)
    requires Extends(more, less) && Allowed(cfg, less, action)
    ensures Allowed(cfg, more, action)
  {
    if !IsListedAdmin(cfg, less) {
      var scope, roles := ScopeFor(cfg, action), RolesFor(cfg, action);
      if scope != "" { ScopeGrows(cfg, more, less, scope, false); }
      if PrimaryRole(cfg, action) != "" {
        var i :| 0 <= i < |roles| && roles[i] != "" && HasRequiredRole(cfg, less, roles[i]);
        RoleGrows(cfg, more, less, roles[i]);
      }
    }
  }

  lemma MoreClaimsMoreTemplates(cfg: Config, enabled: bool, annotations: map<string, string>, more: Token, less: Token, isAdmin: bool)
    requires Extends(more, less) && TemplateAllowed(cfg, enabled, annotations, less, isAdmin)
    ensures TemplateAllowed(cfg, enabled, annotations, more, isAdmin)
  {
    var roles := NonEmpty(Items(Lookup(annotations, ALLOWED_ROLES), ','));
    var scopes := NonEmpty(Items(Lookup(annotations, ALLOWED_SCOPES), ','));
    if Allowed(cfg, less, Admin) {
      MoreClaimsMoreAccess(cfg, more, less, Admin);
    } else if enabled && !isAdmin {
      if roles != [] {
        var i :| 0 <= i < |roles| && HasRequiredRole(cfg, less, roles[i]);
        RoleGrows(cfg, more, less, roles[i]);
      }
      if scopes != [] {
        var i :| 0 <= i < |scopes| && HasRequiredScope(cfg, less, scopes[i], false);
        ScopeGrows(cfg, more, less, scopes[i], false);
      }
    }
  }

  lemma MoreClaimsMorePorts(cfg: Config, visibility: string, more: Token, less: Token, user: string, owner: Option<string>)
    requires Extends(more, less) && Visible(cfg, visibility, less, user, owner)
    ensures Visible(cfg, visibility, more, user, owner)
  {
    if visibility == "internal" {
    } else if visibility == "admin" {
      if HasRequiredScope(cfg, less, cfg.adminScope, false) { ScopeGrows(cfg, more, less, cfg.adminScope, false); }
      if HasRequiredRole(cfg, less, cfg.adminRole) { RoleGrows(cfg, more, less, cfg.adminRole); }
    } else if StartsWith(visibility, "scope:") {
      ScopeGrows(cfg, more, less, Trim(visibility[6..]), true);
    } else if StartsWith(visibility, "role:") {
      RoleGrows(cfg, more, less, Trim(visibility[5..]));
    }
  }

  // ----- and if there were none

  /** Arrays may have got longer, empty ones included. */
  ghost predicate ExtendsAny(more: Token, less: Token) {
    && more.isObject == less.isObject && more.subject == less.subject
    && forall path :: GrownAny(more.claims(path), less.claims(path))
  }

  predicate GrownAny(more: Claim, less: Claim) {
    || more == less
    || (more.List? && less.List? && forall x :: x in less.items ==> x in more.items)
  }

  /** A check that was passed for lack of scopes is passed again only if there still
      are none or one of the new ones will do; no other check is affected. */
  lemma ScopeKeptExactly(cfg: Config, more: Token, less: Token, required: string)
    requires ExtendsAny(more, less) && HasRequiredScope(cfg, less, required, false) && required != ""
    ensures var m, l := ScopeClaim(more, cfg.scopePath), ScopeClaim(less, cfg.scopePath);
            HasRequiredScope(cfg, more, required, false) <==>
            !Blank(l) || Blank(m) || exists s :: s in Named(m, Space) && Covers(cfg, s, required)
  {
    var m, l := ScopeClaim(more, cfg.scopePath), ScopeClaim(less, cfg.scopePath);
    assert GrownAny(more.claims(cfg.scopePath), less.claims(cfg.scopePath));
    assert GrownAny(more.claims("$.scope"), less.claims("$.scope")) && GrownAny(more.claims("$.scp"), less.claims("$.scp"));
    assert GrownAny(m, l);
    ScopeMeaning(cfg, more, required, false);
    if !Blank(l) {
      GrownNames(m, l, Space, required);
      GrownNames(m, l, Space, cfg.adminScope);
      GrownNames(m, l, Space, WRITE_SCOPE);
    }
  }

  lemma RoleKeptExactly(cfg: Config, more: Token, less: Token, required: string)
    requires ExtendsAny(more, less) && HasRequiredRole(cfg, less, required) && required != ""
    ensures var m, l := RoleClaim(more, cfg.rolesPath), RoleClaim(less, cfg.rolesPath);
            HasRequiredRole(cfg, more, required) <==>
            !Blank(l) || Blank(m) || required in Named(m, SpaceOrComma)
            || ExtractAdminRole(more, cfg.rolesPath, cfg.adminRole)
  {
    var m, l := RoleClaim(more, cfg.rolesPath), RoleClaim(less, cfg.rolesPath);
    assert GrownAny(more.claims(cfg.rolesPath), less.claims(cfg.rolesPath));
    assert GrownAny(more.claims("$.roles"), less.claims("$.roles"));
    assert GrownAny(more.claims("$.realm_access.roles"), less.claims("$.realm_access.roles"));
    assert GrownAny(m, l);
    if !Blank(l) {
      GrownNames(m, l, SpaceOrComma, required);
    }
  }

  /** A token with one claim. */
  function Claiming(at: string, items: seq<Item>): Token {
    Token(true, None, (path: string) => if path == at then List(items) else Missing)
  }

  /** A token without scopes passes every scope check that is not strict, so one that
      is given its first scope can lose what it had. */
  lemma FirstScopeCanDeny(cfg: Config, required: string)
    requires required != ""
    ensures exists more: Token, less: Token, first: string ::
              && less.isObject && more.isObject
              && ScopeClaim(less, cfg.scopePath) == List([]) && ScopeClaim(more, cfg.scopePath) == List([Text(first)])
              && HasRequiredScope(cfg, less, required, false) && !HasRequiredScope(cfg, more, required, false)
  {
    var first := Fresh(required, cfg.adminScope, WRITE_SCOPE);
    var less := Claiming(cfg.scopePath, []);
    var more := Claiming(cfg.scopePath, [Text(first)]);
    assert Rendered([Text(first)]) == [first];
    assert ScopeClaim(less, cfg.scopePath) == List([]) && ScopeClaim(more, cfg.scopePath) == List([Text(first)]);
  }

  /** The same with the default role. */
  lemma FirstRoleCanDeny(cfg: Config)
    requires cfg.defaultRole != ""
    ensures exists more: Token, less: Token, first: string ::
              && less.isObject && more.isObject
              && RoleClaim(less, cfg.rolesPath) == List([]) && RoleClaim(more, cfg.rolesPath) == List([Text(first)])
              && HasRequiredRole(cfg, less, cfg.defaultRole) && !HasRequiredRole(cfg, more, cfg.defaultRole)
  {
    var first := Fresh(cfg.defaultRole, cfg.adminRole, "");
    var less := Claiming(cfg.rolesPath, []);
    var more := Claiming(cfg.rolesPath, [Text(first)]);
    assert Rendered([Text(first)]) == [first];
    assert RoleClaim(less, cfg.rolesPath) == List([]) && RoleClaim(more, cfg.rolesPath) == List([Text(first)]);
    assert !HasRequiredRole(cfg, more, cfg.defaultRole);
  }
}
