/** tenancy/issuer_index.py and the tenant resolution of auth/oauth.py. */
module IssuerIndex {
  import opened Prelude
  import opened Numerals

  datatype TenantConfig = TenantConfig(tenantId: string, oauthIssuer: Option<string>, defaultRbacRole: string,
                                       wazuhUserClaim: string)

  /** `rstrip("/")`. */
  function Canonical(s: string): string {
    if s != "" && s[|s| - 1] == '/' then Canonical(s[..|s| - 1]) else s
  }

  predicate IssuedBy(t: TenantConfig, key: string) {
    t.oauthIssuer.Some? && Canonical(t.oauthIssuer.value) == key
  }

  // ---------------------------------------------------------------- the two dictionaries

  function ByIssuer(ts: seq<TenantConfig>): map<string, Option<TenantConfig>> {
    if ts == [] then map[]
    else
      var m, t := ByIssuer(ts[..|ts| - 1]), ts[|ts| - 1];
      if t.oauthIssuer.None? then m
      else
        var key := Canonical(t.oauthIssuer.value);
        m[key := if key in m then None else Some(t)]
  }

  function ByTenantId(ts: seq<TenantConfig>): map<string, TenantConfig> {
    if ts == [] then map[] else ByTenantId(ts[..|ts| - 1])[ts[|ts| - 1].tenantId := ts[|ts| - 1]]
  }

  class Index {
    const byIssuer: map<string, Option<TenantConfig>>
    const byTenantId: map<string, TenantConfig>

    constructor (tenants: seq<TenantConfig>)
      ensures byIssuer == ByIssuer(tenants) && byTenantId == ByTenantId(tenants)
    {
      var issuers: map<string, Option<TenantConfig>>, ids: map<string, TenantConfig> := map[], map[];
      for i := 0 to |tenants|
        invariant issuers == ByIssuer(tenants[..i]) && ids == ByTenantId(tenants[..i])
      {
        assert tenants[..i + 1][..i] == tenants[..i];
        var t := tenants[i];
        ids := ids[t.tenantId := t];
        if t.oauthIssuer.Some? {
          var key := Canonical(t.oauthIssuer.value);
          if key in issuers {
            issuers := issuers[key := None];
          } else {
            issuers := issuers[key := Some(t)];
          }
        }
      }
      assert tenants[..|tenants|] == tenants;
      byIssuer, byTenantId := issuers, ids;
    }

    function Get(issuer: string): Option<TenantConfig> {
      if Canonical(issuer) in byIssuer then byIssuer[Canonical(issuer)] else None
    }

    function GetByTenantId(tenantId: string): Option<TenantConfig> {
      if tenantId in byTenantId then Some(byTenantId[tenantId]) else None
    }

    function KnownIssuers(): set<string> {
      byIssuer.Keys
    }
  }

  /** The lookups of an index built from `ts`. */
  function Get(ts: seq<TenantConfig>, issuer: string): Option<TenantConfig> {
    if Canonical(issuer) in ByIssuer(ts) then ByIssuer(ts)[Canonical(issuer)] else None
  }

  function GetByTenantId(ts: seq<TenantConfig>, tenantId: string): Option<TenantConfig> {
    if tenantId in ByTenantId(ts) then Some(ByTenantId(ts)[tenantId]) else None
  }

  // ---------------------------------------------------------------- who owns an issuer

  /** The tenants configured with an issuer. */
  function Owners(ts: seq<TenantConfig>, key: string): seq<TenantConfig> {
    if ts == [] then []
    else if IssuedBy(ts[|ts| - 1], key) then Owners(ts[..|ts| - 1], key) + [ts[|ts| - 1]]
    else Owners(ts[..|ts| - 1], key)
  }

  lemma {:induction false} IssuerEntry(ts: seq<TenantConfig>, key: string)
    ensures key in ByIssuer(ts) <==> Owners(ts, key) != []
    ensures key in ByIssuer(ts)
        ==> ByIssuer(ts)[key] == if |Owners(ts, key)| == 1 then Some(Owners(ts, key)[0]) else None
  {
    if ts != [] {
      IssuerEntry(ts[..|ts| - 1], key);
    }
  }

  /** An issuer leads to its tenant exactly when one entry alone is configured with it. */
  lemma GetIsTheOnlyOwner(ts: seq<TenantConfig>, issuer: string, t: TenantConfig)
    ensures Get(ts, issuer) == Some(t) <==> Owners(ts, Canonical(issuer)) == [t]
  {
    IssuerEntry(ts, Canonical(issuer));
  }

  lemma {:induction false} OwnersAreFiltered(ts: seq<TenantConfig>, key: string, t: TenantConfig)
    ensures multiset(Owners(ts, key))[t] == if IssuedBy(t, key) then multiset(ts)[t] else 0
  {
    if ts != [] {
      OwnersAreFiltered(ts[..|ts| - 1], key, t);
      assert ts == ts[..|ts| - 1] + [ts[|ts| - 1]];
    }
  }

  /** The order of the tenants does not matter to `get`. */
  lemma GetIgnoresOrder(a: seq<TenantConfig>, b: seq<TenantConfig>, issuer: string)
    requires multiset(a) == multiset(b)
    ensures Get(a, issuer) == Get(b, issuer)
  {
    var key := Canonical(issuer);
    IssuerEntry(a, key);
    IssuerEntry(b, key);
    forall t
      ensures multiset(Owners(a, key))[t] == multiset(Owners(b, key))[t]
    {
      OwnersAreFiltered(a, key, t);
      OwnersAreFiltered(b, key, t);
    }
    assert multiset(Owners(a, key)) == multiset(Owners(b, key));
    assert |Owners(a, key)| == |multiset(Owners(a, key))| == |Owners(b, key)|;
    if |Owners(a, key)| == 1 {
      assert Owners(a, key)[0] in multiset(Owners(b, key));
    }
  }

  lemma {:induction false} TenantIdEntry(ts: seq<TenantConfig>, id: string)
    ensures id in ByTenantId(ts) <==> exists i :: 0 <= i < |ts| && ts[i].tenantId == id
    ensures id in ByTenantId(ts) ==> ByTenantId(ts)[id] in ts && ByTenantId(ts)[id].tenantId == id
  {
    if ts != [] {
      TenantIdEntry(ts[..|ts| - 1], id);
      assert ts == ts[..|ts| - 1] + [ts[|ts| - 1]];
    }
  }

  /** Entries with the same id are the same. */
  ghost predicate OneEntryPerId(ts: seq<TenantConfig>) {
    forall t, u :: t in ts && u in ts && t.tenantId == u.tenantId ==> t == u
  }

  /** The lookup by tenant id depends on no order as long as no id comes with two different entries. */
  lemma TenantIdsIgnoreOrder(a: seq<TenantConfig>, b: seq<TenantConfig>, id: string)
    requires multiset(a) == multiset(b) && OneEntryPerId(a)
    ensures GetByTenantId(a, id) == GetByTenantId(b, id)
  {
    TenantIdEntry(a, id);
    TenantIdEntry(b, id);
    SameMembers(a, b);
    SameMembers(b, a);
    if id in ByTenantId(a) {
      var i :| 0 <= i < |a| && a[i].tenantId == id;
      assert a[i] in b;
    }
    if id in ByTenantId(b) {
      var x := ByTenantId(b)[id];
      assert x in a;
    }
  }

  lemma SameMembers(a: seq<TenantConfig>, b: seq<TenantConfig>)
    requires multiset(a) == multiset(b)
    ensures forall x :: x in a ==> x in b
  {
    forall x | x in a
      ensures x in b
    {
      assert x in multiset(a);
    }
  }

  /** The last entry with an id wins. */
  lemma {:induction false} LastEntryWins(ts: seq<TenantConfig>, k: nat)
    requires k < |ts| && forall j :: k < j < |ts| ==> ts[j].tenantId != ts[k].tenantId
    ensures GetByTenantId(ts, ts[k].tenantId) == Some(ts[k])
  {
    if k < |ts| - 1 {
      LastEntryWins(ts[..|ts| - 1], k);
    }
  }

  /** The same entries in every order give the same lookups. */
  ghost predicate OrderIsIrrelevant(ts: seq<TenantConfig>) {
    forall us, id :: multiset(us) == multiset(ts) ==> GetByTenantId(us, id) == GetByTenantId(ts, id)
  }

  function MovedLast(ts: seq<TenantConfig>, i: nat): seq<TenantConfig>
    requires i < |ts|
  {
    ts[..i] + ts[i + 1..] + [ts[i]]
  }

  lemma MovedLastWins(ts: seq<TenantConfig>, i: nat)
    requires i < |ts|
    ensures multiset(MovedLast(ts, i)) == multiset(ts)
    ensures GetByTenantId(MovedLast(ts, i), ts[i].tenantId) == Some(ts[i])
  {
    assert ts == ts[..i] + [ts[i]] + ts[i + 1..];
    LastEntryWins(MovedLast(ts, i), |ts| - 1);
  }

  /** The order of the entries is irrelevant to the lookups by id exactly when no id has two different entries. */
  lemma OrderIsIrrelevantIff(ts: seq<TenantConfig>)
    ensures OrderIsIrrelevant(ts) <==> OneEntryPerId(ts)
  {
    hide GetByTenantId;
    if OneEntryPerId(ts) {
      forall us, id | multiset(us) == multiset(ts)
        ensures GetByTenantId(us, id) == GetByTenantId(ts, id)
      {
        TenantIdsIgnoreOrder(ts, us, id);
      }
    } else {
      var t, u :| t in ts && u in ts && t.tenantId == u.tenantId && t != u;
      var i: nat :| i < |ts| && ts[i] == t;
      var j: nat :| j < |ts| && ts[j] == u;
      MovedLastWins(ts, i);
      MovedLastWins(ts, j);
      assert GetByTenantId(MovedLast(ts, i), t.tenantId) != GetByTenantId(MovedLast(ts, j), t.tenantId);
    }
  }

  // ---------------------------------------------------------------- which tokens are let in

  /** The canonical form is what is left when the final slashes are taken away. */
  lemma {:induction false} CanonicalHasNoSlash(s: string)
    ensures Canonical(s) == "" || Canonical(s)[|Canonical(s)| - 1] != '/'
    ensures Canonical(s) <= s && forall i :: |Canonical(s)| <= i < |s| ==> s[i] == '/'
  {
    if s != "" && s[|s| - 1] == '/' {
      CanonicalHasNoSlash(s[..|s| - 1]);
    }
  }

  predicate EndsInSlash(s: string) {
    s != "" && s[|s| - 1] == '/'
  }

  /** `_valid_issuers`: the global issuer and the known ones; a token's `iss` is compared to them as it stands. */
  function ValidIssuers(globalIssuer: string, ts: seq<TenantConfig>): set<string> {
    {Canonical(globalIssuer)} + ByIssuer(ts).Keys
  }

  /** `_valid_issuers`. */
  method ValidIssuersOf(globalIssuer: string, index: Index, ghost ts: seq<TenantConfig>) returns (r: set<string>)
    requires index.byIssuer == ByIssuer(ts)
    ensures r == ValidIssuers(globalIssuer, ts)
  {
    r := {Canonical(globalIssuer)};
    var rest := index.KnownIssuers();
    while rest != {}
      invariant r + rest == ValidIssuers(globalIssuer, ts)
    {
      var iss :| iss in rest;
      r := r + {iss};
      rest := rest - {iss};
    }
  }

  /** Which tokens get past the issuer check: those whose `iss` ends in no slash and, as it stands, is the global issuer
      or one of a tenant's, both without their final slashes. */
  lemma AcceptedIff(globalIssuer: string, ts: seq<TenantConfig>, iss: string)
    ensures iss in ValidIssuers(globalIssuer, ts)
       <==> !EndsInSlash(iss) && (iss == Canonical(globalIssuer) || Owners(ts, iss) != [])
  {
    KnownIssuersAreCanonical(ts);
    CanonicalHasNoSlash(globalIssuer);
    IssuerEntry(ts, iss);
  }

  /** Tokens of a tenant's configured issuer are meant to be accepted; they are exactly when the configured spelling
      does not end in a slash. */
  lemma ConfiguredIssuerIsAcceptedIff(globalIssuer: string, ts: seq<TenantConfig>, t: TenantConfig)
    requires t in ts && t.oauthIssuer.Some?
    ensures t.oauthIssuer.value in ValidIssuers(globalIssuer, ts) <==> !EndsInSlash(t.oauthIssuer.value)
  {
    var issuer := t.oauthIssuer.value;
    AcceptedIff(globalIssuer, ts, issuer);
    if !EndsInSlash(issuer) {
      OwnersAreFiltered(ts, issuer, t);
      assert t in multiset(ts);
    }
  }

  lemma {:induction false} KnownIssuersAreCanonical(ts: seq<TenantConfig>)
    ensures forall k :: k in ByIssuer(ts) ==> !EndsInSlash(k)
  {
    if ts != [] {
      KnownIssuersAreCanonical(ts[..|ts| - 1]);
      if ts[|ts| - 1].oauthIssuer.Some? {
        CanonicalHasNoSlash(ts[|ts| - 1].oauthIssuer.value);
      }
    }
  }

  // ---------------------------------------------------------------- sessions

  /** A JSON value; `repr` is what `str` makes of the kinds kept abstract. */
  datatype Claim = Null | Text(s: string) | Whole(n: int) | Listing(items: seq<Claim>, repr: string)
                 | Other(repr: string, truthy: bool)

  type Claims = map<string, Claim>

  function StrOf(c: Claim): string {
    match c
    case Null => "None"
    case Text(s) => s
    case Whole(n) => Str(n)
    case Listing(_, repr) => repr
    case Other(repr, _) => repr
  }

  predicate Truthy(c: Claim) {
    match c
    case Null => false
    case Text(s) => s != ""
    case Whole(n) => n != 0
    case Listing(items, _) => items != []
    case Other(_, truthy) => truthy
  }

  function ClaimOf(claims: Claims, name: string): Claim {
    if name in claims then claims[name] else Null
  }

  datatype AuthError = MissingClaim(name: string) | InvalidToken

  datatype Session = Session(userId: string, tenantId: string, rbacRole: string, wazuhUser: Option<string>)

  /** The role a claim gives: a list gives its first entry, an absent claim and an empty list none. */
  function RoleIn(c: Claim): Option<string> {
    match c
    case Null => None
    case Listing(items, _) => if items == [] then None else Some(StrOf(items[0]))
    case _ => Some(StrOf(c))
  }

  function FirstRole(claims: Claims, priority: seq<string>): Option<string> {
    if priority == [] then None
    else
      var r := RoleIn(ClaimOf(claims, priority[0]));
      if r.Some? then r else FirstRole(claims, priority[1..])
  }

  /** The role comes from the first claim in priority order that gives one, and there is none only if no claim does. */
  lemma {:induction false} FirstRoleIsFirst(claims: Claims, priority: seq<string>, role: string)
    ensures FirstRole(claims, priority) == Some(role)
       <==> exists i :: 0 <= i < |priority| && RoleIn(ClaimOf(claims, priority[i])) == Some(role)
                        && forall j :: 0 <= j < i ==> RoleIn(ClaimOf(claims, priority[j])) == None
  {
    if priority != [] {
      FirstRoleIsFirst(claims, priority[1..], role);
      if RoleIn(ClaimOf(claims, priority[0])).None? {
        if FirstRole(claims, priority) == Some(role) {
          var k :| 0 <= k < |priority[1..]| && RoleIn(ClaimOf(claims, priority[1..][k])) == Some(role)
                   && forall j :: 0 <= j < k ==> RoleIn(ClaimOf(claims, priority[1..][j])) == None;
          assert priority[k + 1] == priority[1..][k];
          assert forall j :: 1 <= j < k + 1 ==> priority[j] == priority[1..][j - 1];
        }
        if i :| 0 <= i < |priority| && RoleIn(ClaimOf(claims, priority[i])) == Some(role)
                && forall j :: 0 <= j < i ==> RoleIn(ClaimOf(claims, priority[j])) == None {
          assert priority[1..][i - 1] == priority[i];
          assert forall j :: 0 <= j < i - 1 ==> priority[1..][j] == priority[j + 1];
        }
      }
    }
  }

  /** `_pick_rbac`. */
  method PickRbac(claims: Claims, priority: seq<string>) returns (r: Option<string>)
    ensures r == FirstRole(claims, priority)
  {
    for i := 0 to |priority|
      invariant FirstRole(claims, priority) == FirstRole(claims, priority[i..])
    {
      var val := ClaimOf(claims, priority[i]);
      assert priority[i..][1..] == priority[i + 1..];
      if val.Null? {
        continue;
      }
      if val.Listing? {
        if val.items != [] {
          return Some(StrOf(val.items[0]));
        }
        continue;
      }
      return Some(StrOf(val));
    }
    return None;
  }

  /** `_pick_wazuh_user`; `strip` stands for Python's. */
  function PickWazuhUser(claims: Claims, cfg: Option<TenantConfig>, strip: string -> string): Option<string> {
    if cfg.None? then None
    else
      var val := ClaimOf(claims, cfg.value.wazuhUserClaim);
      match val
      case Null => None
      case Listing(items, _) => if items == [] then None else Some(StrOf(items[0]))
      case _ => if strip(StrOf(val)) == "" then None else Some(strip(StrOf(val)))
  }

  /** The tenant a token is for. */
  function ResolveTenant(ts: seq<TenantConfig>, claims: Claims): Result<string, AuthError> {
    var claimed, owner := ClaimOf(claims, "tenant_id"), Get(ts, IssOf(claims));
    if claimed != Null then
      if owner.Some? && claimed != Text(owner.value.tenantId) && GetByTenantId(ts, StrOf(claimed)).Some?
      then Err(InvalidToken) else Ok(StrOf(claimed))
    else if owner.Some? then Ok(owner.value.tenantId)
    else Err(MissingClaim("tenant_id"))
  }

  function IssOf(claims: Claims): string {
    if "iss" in claims then StrOf(claims["iss"]) else ""
  }

  function OrElse<T>(a: Option<T>, b: Option<T>): Option<T> {
    if a.Some? then a else b
  }

  /** `_build_session`. */
  method BuildSession(index: Index, rbacClaims: seq<string>, claims: Claims, strip: string -> string,
                      ghost ts: seq<TenantConfig>)
      returns (r: Result<Session, AuthError>)
    requires index.byIssuer == ByIssuer(ts) && index.byTenantId == ByTenantId(ts)
    ensures r == SessionOf(ts, rbacClaims, claims, strip)
  {
    var sub := ClaimOf(claims, "sub");
    if !Truthy(sub) {
      return Err(MissingClaim("sub"));
    }
    var claimed := ClaimOf(claims, "tenant_id");
    var owner := index.Get(IssOf(claims));
    var tenantId;
    if claimed != Null && owner.Some? {
      if claimed != Text(owner.value.tenantId) {
        if index.GetByTenantId(StrOf(claimed)).Some? {
          return Err(InvalidToken);
        }
      }
      tenantId := StrOf(claimed);
    } else if claimed != Null {
      tenantId := StrOf(claimed);
    } else if owner.Some? {
      tenantId := owner.value.tenantId;
    } else {
      return Err(MissingClaim("tenant_id"));
    }
    var cfg := OrElse(index.GetByTenantId(tenantId), owner);
    var role := PickRbac(claims, rbacClaims);
    if role.None? {
      if cfg.Some? {
        role := Some(cfg.value.defaultRbacRole);
      } else {
        return Err(MissingClaim("rbac_role"));
      }
    }
    return Ok(Session(StrOf(sub), tenantId, role.value, PickWazuhUser(claims, cfg, strip)));
  }

  /** Subject, tenant, role, in this order. */
  function SessionOf(ts: seq<TenantConfig>, rbacClaims: seq<string>, claims: Claims, strip: string -> string)
    : Result<Session, AuthError>
  {
    var sub, tenant := ClaimOf(claims, "sub"), ResolveTenant(ts, claims);
    if !Truthy(sub) then Err(MissingClaim("sub"))
    else if tenant.Err? then Err(tenant.error)
    else
      var cfg := OrElse(GetByTenantId(ts, tenant.value), Get(ts, IssOf(claims)));
      var role := FirstRole(claims, rbacClaims);
      if role.None? && cfg.None? then Err(MissingClaim("rbac_role"))
      else Ok(Session(StrOf(sub), tenant.value, if role.Some? then role.value else cfg.value.defaultRbacRole,
                      PickWazuhUser(claims, cfg, strip)))
  }

  /** A session from an issuer that one tenant owns is that tenant's, or carries a claimed id that no tenant has: never
      another registered tenant. */
  lemma OwnedIssuerStaysHome(ts: seq<TenantConfig>, rbacClaims: seq<string>, claims: Claims, strip: string -> string,
                             owner: TenantConfig)
    requires Owners(ts, Canonical(IssOf(claims))) == [owner] && SessionOf(ts, rbacClaims, claims, strip).Ok?
    ensures var s := SessionOf(ts, rbacClaims, claims, strip).value;
            s.tenantId == owner.tenantId || forall t :: t in ts ==> t.tenantId != s.tenantId
  {
    GetIsTheOnlyOwner(ts, IssOf(claims), owner);
    TenantIdEntry(ts, SessionOf(ts, rbacClaims, claims, strip).value.tenantId);
  }

  /** Seen from a registered tenant: its sessions come from its own issuer, or from one that several tenants share or
      none has. */
  lemma SessionsOfATenant(ts: seq<TenantConfig>, rbacClaims: seq<string>, claims: Claims, strip: string -> string,
                          t: TenantConfig)
    requires t in ts && OneEntryPerId(ts)
    requires SessionOf(ts, rbacClaims, claims, strip).Ok?
             && SessionOf(ts, rbacClaims, claims, strip).value.tenantId == t.tenantId
    ensures IssuedBy(t, Canonical(IssOf(claims))) || |Owners(ts, Canonical(IssOf(claims)))| != 1
  {
    var key := Canonical(IssOf(claims));
    if |Owners(ts, key)| == 1 {
      var owner := Owners(ts, key)[0];
      OwnedIssuerStaysHome(ts, rbacClaims, claims, strip, owner);
      OwnersAreFiltered(ts, key, owner);
      assert owner in multiset(Owners(ts, key));
      assert owner in ts && IssuedBy(owner, key);
    }
  }

  /** A token without a tenant claim gets in only from an issuer with one owner, and then as that owner. */
  lemma UnclaimedNeedsAnOwner(ts: seq<TenantConfig>, rbacClaims: seq<string>, claims: Claims, strip: string -> string)
    requires ClaimOf(claims, "tenant_id") == Null && Truthy(ClaimOf(claims, "sub"))
    ensures var owners := Owners(ts, Canonical(IssOf(claims)));
            && (SessionOf(ts, rbacClaims, claims, strip).Ok? <==> |owners| == 1)
            && (|owners| == 1 ==> SessionOf(ts, rbacClaims, claims, strip).value.tenantId == owners[0].tenantId)
            && (|owners| != 1 ==> SessionOf(ts, rbacClaims, claims, strip) == Err(MissingClaim("tenant_id")))
  {
    IssuerEntry(ts, Canonical(IssOf(claims)));
  }

  // ---------------------------------------------------------------- what a session holds

  ghost predicate LastWithId(ts: seq<TenantConfig>, k: nat, id: string) {
    k < |ts| && ts[k].tenantId == id && forall j :: k < j < |ts| ==> ts[j].tenantId != id
  }

  /** The configuration a session goes by: the last entry with the tenant's id; without one, the only owner of the
      issuer; without one, none. */
  ghost predicate GoesBy(ts: seq<TenantConfig>, id: string, iss: string, cfg: Option<TenantConfig>) {
    if exists t :: t in ts && t.tenantId == id then exists k: nat :: LastWithId(ts, k, id) && cfg == Some(ts[k])
    else if |Owners(ts, Canonical(iss))| == 1 then cfg == Some(Owners(ts, Canonical(iss))[0])
    else cfg == None
  }

  lemma {:induction false} LastExists(ts: seq<TenantConfig>, id: string) returns (k: nat)
    requires exists t :: t in ts && t.tenantId == id
    ensures LastWithId(ts, k, id)
  {
    k := |ts| - 1;
    while ts[k].tenantId != id
      invariant k < |ts| && forall j :: k < j < |ts| ==> ts[j].tenantId != id
      invariant exists j: nat :: j <= k && ts[j].tenantId == id
      decreases k
    {
      k := k - 1;
    }
  }

  lemma LookupsGoBy(ts: seq<TenantConfig>, id: string, iss: string)
    ensures GoesBy(ts, id, iss, OrElse(GetByTenantId(ts, id), Get(ts, iss)))
  {
    IssuerEntry(ts, Canonical(iss));
    TenantIdEntry(ts, id);
    if exists t :: t in ts && t.tenantId == id {
      var k := LastExists(ts, id);
      LastEntryWins(ts, k);
    }
  }

  /** The first claim in priority order that gives a role gives this one. */
  ghost predicate ClaimedFirst(claims: Claims, priority: seq<string>, role: string) {
    exists i :: 0 <= i < |priority| && RoleIn(ClaimOf(claims, priority[i])) == Some(role)
                && forall j :: 0 <= j < i ==> RoleIn(ClaimOf(claims, priority[j])) == None
  }

  ghost predicate NoneClaimed(claims: Claims, priority: seq<string>) {
    forall i :: 0 <= i < |priority| ==> RoleIn(ClaimOf(claims, priority[i])) == None
  }

  lemma {:induction false} NoRoleIff(claims: Claims, priority: seq<string>)
    ensures FirstRole(claims, priority) == None <==> NoneClaimed(claims, priority)
  {
    if priority != [] {
      NoRoleIff(claims, priority[1..]);
      assert NoneClaimed(claims, priority)
        <==> RoleIn(ClaimOf(claims, priority[0])) == None && NoneClaimed(claims, priority[1..]) by {
        assert forall i :: 1 <= i < |priority| ==> priority[i] == priority[1..][i - 1];
        assert forall i :: 0 <= i < |priority| - 1 ==> priority[1..][i] == priority[i + 1];
      }
    }
  }

  /** What a session holds: the subject; the role of the first claim that gives one, and the configured default only if
      none does; and the user that the configured claim names, the first of a list, any other text without blanks around
      it and not empty. */
  lemma SessionHolds(ts: seq<TenantConfig>, rbacClaims: seq<string>, claims: Claims, strip: string -> string)
      returns (cfg: Option<TenantConfig>)
    requires SessionOf(ts, rbacClaims, claims, strip).Ok?
    ensures var s := SessionOf(ts, rbacClaims, claims, strip).value;
            && s.userId == StrOf(ClaimOf(claims, "sub")) && GoesBy(ts, s.tenantId, IssOf(claims), cfg)
            && (ClaimedFirst(claims, rbacClaims, s.rbacRole)
                || (NoneClaimed(claims, rbacClaims) && cfg.Some? && s.rbacRole == cfg.value.defaultRbacRole))
            && forall u :: s.wazuhUser == Some(u) <==>
                 && cfg.Some?
                 && var c := ClaimOf(claims, cfg.value.wazuhUserClaim);
                    || (c.Listing? && c.items != [] && u == StrOf(c.items[0]))
                    || (!c.Null? && !c.Listing? && u == strip(StrOf(c)) && u != "")
  {
    hide Owners, ByTenantId;
    var tenant := ResolveTenant(ts, claims);
    cfg := OrElse(GetByTenantId(ts, tenant.value), Get(ts, IssOf(claims)));
    LookupsGoBy(ts, tenant.value, IssOf(claims));
    NoRoleIff(claims, rbacClaims);
    var role := FirstRole(claims, rbacClaims);
    if role.Some? {
      FirstRoleIsFirst(claims, rbacClaims, role.value);
    }
  }

  /** When there is no session, and why: no subject; else a claimed tenant other than the issuer's only owner that is
      registered; else neither a claimed tenant nor an only owner; else neither a role nor a configuration. */
  lemma RefusedIff(ts: seq<TenantConfig>, rbacClaims: seq<string>, claims: Claims, strip: string -> string)
    ensures var r := SessionOf(ts, rbacClaims, claims, strip);
            var sub, claimed := ClaimOf(claims, "sub"), ClaimOf(claims, "tenant_id");
            var owners := Owners(ts, Canonical(IssOf(claims)));
            var stranger := |owners| == 1 && claimed != Null && claimed != Text(owners[0].tenantId)
                            && exists t :: t in ts && t.tenantId == StrOf(claimed);
            var tenant := if claimed != Null then StrOf(claimed) else if |owners| == 1 then owners[0].tenantId else "";
            && (r == Err(MissingClaim("sub")) <==> !Truthy(sub))
            && (r == Err(InvalidToken) <==> Truthy(sub) && stranger)
            && (r == Err(MissingClaim("tenant_id")) <==> Truthy(sub) && claimed == Null && |owners| != 1)
            && (r == Err(MissingClaim("rbac_role")) <==>
                  Truthy(sub) && !stranger && (claimed != Null || |owners| == 1)
                  && NoneClaimed(claims, rbacClaims) && GoesBy(ts, tenant, IssOf(claims), None))
  {
    hide Owners, ByTenantId, GoesBy;
    var claimed, iss := ClaimOf(claims, "tenant_id"), IssOf(claims);
    IssuerEntry(ts, Canonical(iss));
    TenantIdEntry(ts, StrOf(claimed));
    NoRoleIff(claims, rbacClaims);
    RegisteredIff(ts, StrOf(claimed));
    if claimed != Null {
      LookupsGoBy(ts, StrOf(claimed), iss);
      OneConfig(ts, StrOf(claimed), iss);
    }
    if |Owners(ts, Canonical(iss))| == 1 {
      var own := Owners(ts, Canonical(iss))[0].tenantId;
      LookupsGoBy(ts, own, iss);
      OneConfig(ts, own, iss);
    }
  }

  lemma RegisteredIff(ts: seq<TenantConfig>, id: string)
    ensures GetByTenantId(ts, id).Some? <==> exists t :: t in ts && t.tenantId == id
  {
    TenantIdEntry(ts, id);
    if t :| t in ts && t.tenantId == id {
      var i :| 0 <= i < |ts| && ts[i] == t;
    }
  }

  lemma OneConfig(ts: seq<TenantConfig>, id: string, iss: string)
    ensures forall a, b :: GoesBy(ts, id, iss, a) && GoesBy(ts, id, iss, b) ==> a == b
  {
  }
}
