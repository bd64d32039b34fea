/**
 Launch-token creation and apps: the ceiling decision of the handler
 (internal/admin/admin_hdl.go), its service (internal/admin/admin_svc.go) and the
 app registry (internal/app/app_svc.go, apps table of internal/store/sql_store.go).
 */
module Admin {
  import opened Wrappers
  import opened Clock
  import opened Store
  import Scope
  import opened Tokens

  const LAUNCH_TOKENS: string := "launch-tokens"
  const ADMIN_LAUNCH: string := Scope.ScopeText("admin", LAUNCH_TOKENS, "*")
  const ADMIN_SCOPE: seq<string> :=
    [ADMIN_LAUNCH, Scope.ScopeText("admin", "revoke", "*"), Scope.ScopeText("admin", "audit", "*")]
  const APP_LAUNCH: string := Scope.ScopeText("app", LAUNCH_TOKENS, "*")
  const APP_SCOPE: seq<string> := [APP_LAUNCH, Scope.ScopeText("app", "agents", "*"), Scope.ScopeText("app", "audit", "read")]
  const DEFAULT_MAX_TTL: int := 300
  const DEFAULT_TOKEN_TTL: int := 30
  const MAX_APP_NAME: nat := 64
  const MIN_APP_TOKEN_TTL: int := 60
  const MAX_APP_TOKEN_TTL: int := 86400

  datatype AppRecord = AppRecord(name: string, clientId: string, ceiling: seq<string>, tokenTtl: int, active: bool)

  datatype AdminError = ErrAppNotFound | ErrCeilingExceeded | ErrAgentNameEmpty | ErrScopeEmpty

  datatype AppError =
    | ErrInvalidAppName | ErrInvalidScopeFormat | ErrInvalidTTL | ErrUnknownApp | ErrNameTaken | ErrDatabase

  datatype LaunchReq = LaunchReq(agentName: string, allowedScope: seq<string>, maxTtl: int, singleUse: Option<bool>,
                                 ttl: int)

  predicate IsApp(sub: string) {
    "app:" <= sub
  }

  /** The app a caller is, and whether its ceiling admits the requested scopes. Other callers pass with no app. */
  function CeilingDecision(apps: map<string, AppRecord>, sub: string, allowedScope: seq<string>)
    : Result<string, AdminError>
  {
    if !IsApp(sub) then Ok("")
    else
      var appId := sub[4..];
      if appId !in apps then Err(ErrAppNotFound)
      else if !Scope.Subset(allowedScope, apps[appId].ceiling) then Err(ErrCeilingExceeded)
      else Ok(appId)
  }

  function LaunchRecord(req: LaunchReq, createdBy: string, appId: string, now: int): LaunchToken {
    var ttl := if req.ttl <= 0 then DEFAULT_TOKEN_TTL else req.ttl;
    LaunchToken(req.agentName, req.allowedScope, if req.maxTtl <= 0 then DEFAULT_MAX_TTL else req.maxTtl,
                if req.singleUse.Some? then req.singleUse.value else true, now, now + ttl * SECOND, None, createdBy, appId)
  }

  /**
   The record is this caller's and is made now; it holds what was asked for, or the defaults: 300 seconds for the
   agent's token, 30 for the launch token itself, one use.
   */
  predicate MadeFrom(rec: LaunchToken, asked: LaunchReq, createdBy: string, appId: string, now: int) {
    AskedFor(rec, asked) && rec.createdAt == now && rec.consumedAt == None && rec.createdBy == createdBy && rec.appId == appId
  }

  predicate AskedFor(rec: LaunchToken, asked: LaunchReq) {
    && rec.agentName == asked.agentName != "" && rec.allowedScope == asked.allowedScope != []
    && rec.maxTtl == (if asked.maxTtl > 0 then asked.maxTtl else 300)
    && rec.expiresAt - rec.createdAt == (if asked.ttl > 0 then asked.ttl else 30) * 1_000_000_000
    && (rec.singleUse <==> asked.singleUse != Some(false))
  }

  function LaunchFieldMissing(req: LaunchReq): Option<AdminError> {
    if req.agentName == "" then Some(ErrAgentNameEmpty)
    else if req.allowedScope == [] then Some(ErrScopeEmpty)
    else None
  }

  /** The record a launch-token request creates for this caller, if it is allowed. */
  function LaunchDecision(apps: map<string, AppRecord>, sub: string, req: LaunchReq, now: int)
    : Result<LaunchToken, AdminError>
  {
    match CeilingDecision(apps, sub, req.allowedScope)
    case Err(e) => Err(e)
    case Ok(appId) =>
      match LaunchFieldMissing(req)
      case Some(e) => Err(e)
      case None => Ok(LaunchRecord(req, sub, appId, now))
  }

  /** An app is held to scopes its ceiling permits; no other caller is held to any. */
  lemma LaunchDecidedExactly(apps: map<string, AppRecord>, sub: string, req: LaunchReq, now: int)
    ensures LaunchDecision(apps, sub, req, now).Ok? <==>
              && req.agentName != "" && req.allowedScope != []
              && ("app:" <= sub ==> sub[4..] in apps
                                    && Scope.Meaning(req.allowedScope) <= Scope.Meaning(apps[sub[4..]].ceiling)
                                    && Scope.AllWellFormed(req.allowedScope))
    ensures LaunchDecision(apps, sub, req, now).Ok? ==>
              MadeFrom(LaunchDecision(apps, sub, req, now).value, req, sub, if "app:" <= sub then sub[4..] else "", now)
  {
    if "app:" <= sub && sub[4..] in apps {
      Scope.SubsetIsInclusion(req.allowedScope, apps[sub[4..]].ceiling);
    }
  }

  function AdminLoginReq(audience: seq<string>, ttl: int): IssueReq {
    IssueReq("admin", audience, ADMIN_SCOPE, "", "", "", ttl, [], "")
  }

  function AppLoginReq(audience: seq<string>, appId: string, ttl: int): IssueReq {
    IssueReq("app:" + appId, audience, APP_SCOPE, "", "", "", ttl, [], "")
  }

  class AdminSvc {
    const store: SqlStore

    constructor (store: SqlStore)
      ensures this.store == store
    {
      this.store := store;
    }

    method CreateLaunchToken(req: LaunchReq, createdBy: string, appId: string, token: string, now: int)
      returns (err: Option<AdminError>)
      modifies store
      ensures err == LaunchFieldMissing(req)
      ensures store.State() == if err.Some? then old(store.State())
                               else AddLaunchToken(old(store.State()), token, LaunchRecord(req, createdBy, appId, now))
      ensures err.None? <==> req.agentName != "" && req.allowedScope != []
      ensures err.Some? ==> err.value == if req.agentName == "" then ErrAgentNameEmpty else ErrScopeEmpty
      ensures err.None? ==> token in store.launchTokens && MadeFrom(store.launchTokens[token], req, createdBy, appId, now)
      ensures forall t | t != token :: t in store.launchTokens <==> t in old(store.launchTokens)
      ensures forall t | t != token && t in store.launchTokens :: store.launchTokens[t] == old(store.launchTokens)[t]
    {
      if req.agentName == "" {
        return Some(ErrAgentNameEmpty);
      }
      if req.allowedScope == [] {
        return Some(ErrScopeEmpty);
      }
      var maxTtl := req.maxTtl;
      if maxTtl <= 0 {
        maxTtl := DEFAULT_MAX_TTL;
      }
      var ttl := req.ttl;
      if ttl <= 0 {
        ttl := DEFAULT_TOKEN_TTL;
      }
      var singleUse := true;
      if req.singleUse.Some? {
        singleUse := req.singleUse.value;
      }
      store.SaveLaunchToken(token, LaunchToken(req.agentName, req.allowedScope, maxTtl, singleUse, now,
                                               now + ttl * SECOND, None, createdBy, appId));
      return None;
    }

    method HandleCreateLaunchToken(apps: map<string, AppRecord>, sub: string, req: LaunchReq, token: string, now: int)
      returns (err: Option<AdminError>)
      modifies store
      ensures match LaunchDecision(apps, sub, req, now)
              case Err(e) => err == Some(e) && store.State() == old(store.State())
              case Ok(rec) => err == None && store.State() == AddLaunchToken(old(store.State()), token, rec)
      ensures err.None? <==>
                && req.agentName != "" && req.allowedScope != []
                && ("app:" <= sub ==> sub[4..] in apps
                                      && Scope.Meaning(req.allowedScope) <= Scope.Meaning(apps[sub[4..]].ceiling)
                                      && Scope.AllWellFormed(req.allowedScope))
      ensures err.None? ==>
                && token in store.launchTokens
                && MadeFrom(store.launchTokens[token], req, sub, if "app:" <= sub then sub[4..] else "", now)
      ensures err.Some? ==> store.State() == old(store.State())
    {
      var appId := "";
      if IsApp(sub) {
        appId := sub[4..];
        if appId !in apps {
          return Some(ErrAppNotFound);
        }
        var within := Scope.ScopeIsSubset(req.allowedScope, apps[appId].ceiling);
        if !within {
          LaunchDecidedExactly(apps, sub, req, now);
          return Some(ErrCeilingExceeded);
        }
      }
      LaunchDecidedExactly(apps, sub, req, now);
      err := CreateLaunchToken(req, sub, appId, token, now);
    }
  }

  // ---------- apps ----------

  predicate TtlInBounds(ttl: int) {
    MIN_APP_TOKEN_TTL <= ttl <= MAX_APP_TOKEN_TTL
  }

  /** INSERT under the primary key and the two UNIQUE columns. */
  predicate Insertable(apps: map<string, AppRecord>, appId: string, rec: AppRecord) {
    appId !in apps && forall a | a in apps :: apps[a].name != rec.name && apps[a].clientId != rec.clientId
  }

  function WithCeiling(apps: map<string, AppRecord>, appId: string, scopes: seq<string>): Result<map<string, AppRecord>, AppError> {
    if !Scope.AllWellFormed(scopes) then Err(ErrInvalidScopeFormat)
    else if appId !in apps then Err(ErrUnknownApp)
    else Ok(apps[appId := apps[appId].(ceiling := scopes)])
  }

  function WithTtl(apps: map<string, AppRecord>, appId: string, ttl: int): Result<map<string, AppRecord>, AppError> {
    if !TtlInBounds(ttl) then Err(ErrInvalidTTL)
    else if appId !in apps then Err(ErrUnknownApp)
    else Ok(apps[appId := apps[appId].(tokenTtl := ttl)])
  }

  function WithoutApp(apps: map<string, AppRecord>, appId: string): Result<map<string, AppRecord>, AppError> {
    if appId !in apps then Err(ErrUnknownApp) else Ok(apps[appId := apps[appId].(active := false)])
  }

  predicate LowerOrDigit(c: char) {
    'a' <= c <= 'z' || '0' <= c <= '9'
  }

  /** Two to 64 lower-case letters, digits and hyphens: a letter first, no hyphen second, last or next to another. */
  predicate ValidAppName(name: string) {
    && 2 <= |name| <= MAX_APP_NAME && 'a' <= name[0] <= 'z' && LowerOrDigit(name[1])
    && forall i | 2 <= i < |name| ::
         LowerOrDigit(name[i]) || (name[i] == '-' && i + 1 < |name| && LowerOrDigit(name[i + 1]))
  }

  /** One or more lower-case letters or digits, after at most one hyphen. */
  predicate Chunk(s: string) {
    || (s != "" && forall c | c in s :: LowerOrDigit(c))
    || (|s| > 1 && s[0] == '-' && forall c | c in s[1..] :: LowerOrDigit(c))
  }

  /** Any number of chunks one after the other. */
  ghost predicate Chunks(s: string)
    decreases |s|
  {
    s == "" || exists k: nat | 0 < k <= |s| :: Chunk(s[..k]) && Chunks(s[k..])
  }

  /** Every character from here on is a letter or digit, or a hyphen before one. */
  predicate HyphensApart(s: string) {
    forall i | 0 <= i < |s| :: LowerOrDigit(s[i]) || (s[i] == '-' && i + 1 < |s| && LowerOrDigit(s[i + 1]))
  }

  lemma {:induction false} ChunksExactly(s: string)
    ensures Chunks(s) <==> HyphensApart(s)
    decreases |s|
  {
    if s == "" {
    } else {
      if HyphensApart(s) {
        var k := if s[0] == '-' then 2 else 1;
        assert Chunk(s[..k]);
        RestApart(s, k);
        ChunksExactly(s[k..]);
      }
      if Chunks(s) {
        var k: nat :| 0 < k <= |s| && Chunk(s[..k]) && Chunks(s[k..]);
        ChunksExactly(s[k..]);
        ChunkThenApart(s, k);
      }
    }
  }

  lemma RestApart(s: string, k: nat)
    requires HyphensApart(s) && k <= |s|
    ensures HyphensApart(s[k..])
  {
    forall i | 0 <= i < |s[k..]|
      ensures LowerOrDigit(s[k..][i]) || (s[k..][i] == '-' && i + 1 < |s[k..]| && LowerOrDigit(s[k..][i + 1]))
    {
      assert s[k..][i] == s[k + i];
    }
  }

  lemma ChunkThenApart(s: string, k: nat)
    requires 0 < k <= |s| && Chunk(s[..k]) && HyphensApart(s[k..])
    ensures HyphensApart(s)
  {
    forall i | 0 <= i < |s| ensures LowerOrDigit(s[i]) || (s[i] == '-' && i + 1 < |s| && LowerOrDigit(s[i + 1])) {
      if i >= k {
        assert s[i] == s[k..][i - k];
      } else {
        assert s[i] == s[..k][i];
        if i > 0 {
          assert s[..k][1..][i - 1] == s[i];
        } else if s[0] == '-' {
          assert s[..k][1..][0] == s[1];
        }
      }
    }
  }

  /** The names accepted are those of the regular expression `[a-z][a-z0-9](?:-?[a-z0-9]+)*`, up to 64 characters. */
  lemma ValidAppNameExactly(name: string)
    ensures ValidAppName(name) <==>
              2 <= |name| <= 64 && 'a' <= name[0] <= 'z' && LowerOrDigit(name[1]) && Chunks(name[2..])
  {
    if |name| >= 2 {
      ChunksExactly(name[2..]);
      assert forall i | 2 <= i < |name| :: name[i] == name[2..][i - 2];
      forall i | 2 <= i < |name| && HyphensApart(name[2..])
        ensures LowerOrDigit(name[i]) || (name[i] == '-' && i + 1 < |name| && LowerOrDigit(name[i + 1]))
      {
        assert name[2..][i - 2] == name[i];
      }
    }
  }

  function WithApp(apps: map<string, AppRecord>, appId: string, name: string, clientId: string, scopes: seq<string>,
                   tokenTtl: int, defaultTtl: int): Result<map<string, AppRecord>, AppError>
  {
    if !ValidAppName(name) then Err(ErrInvalidAppName)
    else if !Scope.AllWellFormed(scopes) then Err(ErrInvalidScopeFormat)
    else if tokenTtl != 0 && !TtlInBounds(tokenTtl) then Err(ErrInvalidTTL)
    else
      var rec := AppRecord(name, clientId, scopes, if tokenTtl == 0 then defaultTtl else tokenTtl, true);
      if Insertable(apps, appId, rec) then Ok(apps[appId := rec]) else Err(ErrNameTaken)
  }

  class AppSvc {
    var apps: map<string, AppRecord>
    const defaultTtl: int

    constructor (defaultTtl: int)
      ensures apps == map[] && this.defaultTtl == defaultTtl
    {
      apps := map[];
      this.defaultTtl := defaultTtl;
    }

    method ValidateScopes(scopes: seq<string>) returns (ok: bool)
      ensures ok <==> Scope.AllWellFormed(scopes)
    {
      for i := 0 to |scopes|
        invariant Scope.AllWellFormed(scopes[..i])
      {
        if Scope.ParseScope(scopes[i]).Err? {
          return false;
        }
      }
      assert scopes[..|scopes|] == scopes;
      return true;
    }

    /** The generated identifiers are inputs; `dbOk` says whether the database accepts the statement. */
    method RegisterApp(appId: string, name: string, clientId: string, scopes: seq<string>, tokenTtl: int, dbOk: bool)
      returns (err: Option<AppError>)
      modifies this`apps
      ensures match WithApp(old(apps), appId, name, clientId, scopes, tokenTtl, defaultTtl)
              case Ok(next) => if dbOk then err == None && apps == next else err == Some(ErrDatabase) && apps == old(apps)
              case Err(e) => err == Some(e) && apps == old(apps)
      ensures err.None? <==>
                && ValidAppName(name) && Scope.AllWellFormed(scopes) && (tokenTtl == 0 || 60 <= tokenTtl <= 86400) && dbOk
                && appId !in old(apps) && forall a | a in old(apps) :: old(apps)[a].name != name && old(apps)[a].clientId != clientId
      ensures apps == if err.Some? then old(apps)
                      else old(apps)[appId := AppRecord(name, clientId, scopes, if tokenTtl != 0 then tokenTtl else defaultTtl, true)]
    {
      if !ValidAppName(name) {
        return Some(ErrInvalidAppName);
      }
      var ok := ValidateScopes(scopes);
      if !ok {
        return Some(ErrInvalidScopeFormat);
      }
      var ttl := tokenTtl;
      if ttl == 0 {
        ttl := defaultTtl;
      } else if ttl < MIN_APP_TOKEN_TTL || ttl > MAX_APP_TOKEN_TTL {
        return Some(ErrInvalidTTL);
      }
      var rec := AppRecord(name, clientId, scopes, ttl, true);
      if !Insertable(apps, appId, rec) {
        return Some(ErrNameTaken);
      }
      if !dbOk {
        return Some(ErrDatabase);
      }
      apps := apps[appId := rec];
      return None;
    }

    method UpdateApp(appId: string, newScopes: seq<string>) returns (err: Option<AppError>)
      modifies this`apps
      ensures match WithCeiling(old(apps), appId, newScopes)
              case Ok(next) => err == None && apps == next
              case Err(e) => err == Some(e) && apps == old(apps)
      ensures err.None? <==> Scope.AllWellFormed(newScopes) && appId in old(apps)
      ensures err.None? ==> apps == old(apps)[appId := old(apps)[appId].(ceiling := newScopes)]
      ensures err.Some? ==> apps == old(apps)
    {
      var ok := ValidateScopes(newScopes);
      if !ok {
        return Some(ErrInvalidScopeFormat);
      }
      if appId !in apps {
        return Some(ErrUnknownApp);
      }
      apps := apps[appId := apps[appId].(ceiling := newScopes)];
      return None;
    }

    method UpdateAppTTL(appId: string, newTtl: int) returns (err: Option<AppError>)
      modifies this`apps
      ensures match WithTtl(old(apps), appId, newTtl)
              case Ok(next) => err == None && apps == next
              case Err(e) => err == Some(e) && apps == old(apps)
      ensures err.None? <==> 60 <= newTtl <= 86400 && appId in old(apps)
      ensures err.None? ==> apps == old(apps)[appId := old(apps)[appId].(tokenTtl := newTtl)]
      ensures err.Some? ==> apps == old(apps)
    {
      if newTtl < MIN_APP_TOKEN_TTL || newTtl > MAX_APP_TOKEN_TTL {
        return Some(ErrInvalidTTL);
      }
      if appId !in apps {
        return Some(ErrUnknownApp);
      }
      apps := apps[appId := apps[appId].(tokenTtl := newTtl)];
      return None;
    }

    method DeregisterApp(appId: string) returns (err: Option<AppError>)
      modifies this`apps
      ensures match WithoutApp(old(apps), appId)
              case Ok(next) => err == None && apps == next
              case Err(e) => err == Some(e) && apps == old(apps)
      ensures err.None? <==> appId in old(apps)
      ensures err.None? ==> apps == old(apps)[appId := old(apps)[appId].(active := false)]
      ensures err.Some? ==> apps == old(apps)
    {
      if appId !in apps {
        return Some(ErrUnknownApp);
      }
      apps := apps[appId := apps[appId].(active := false)];
      return None;
    }
  }
}
