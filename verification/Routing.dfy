/**
 Integration connections and the claims that route provider accounts to them. A Stripe connection
 claims its account while it has one and a placeholder before. Every write is fenced by the
 connection's revision; operations carry the connection row they read.
 */
module Routing {
  import opened Types

  type Account = string
  type Hash = string

  datatype Scope = Scope(environment: string, tenant: string, draft: string, domain: string)
  datatype ConnectionKey = ConnectionKey(scope: Scope, id: string)

  datatype Status = Pending | Active | Disabled

  datatype Connection = Connection(
    provider: string, mode: string, status: Status, revision: int,
    account: Option<Account>, ownership: Option<string>, ready: bool, hash: Hash)

  /** SHA-256 is injective, so a claim is named by what is hashed: an account reference, or the
      connection itself while there is none. */
  datatype ClaimKey =
    | AccountClaim(environment: string, mode: string, account: Account)
    | Placeholder(mode: string, connection: ConnectionKey)

  datatype Claim = Claim(connection: ConnectionKey, provider: string, hash: Hash)

  datatype Table = Table(
    connections: map<ConnectionKey, Connection>, claims: map<ClaimKey, Claim>, versions: set<(ConnectionKey, Connection)>)

  const EMPTY := Table(map[], map[], {})

  datatype Op =
    | Register(k: ConnectionKey, c: Connection)
    | UpdateStatus(k: ConnectionKey, status: Status, expected: int)
    | ActivateReady(k: ConnectionKey, expected: int)
    | Bind(k: ConnectionKey, read: Connection, account: Account, ownership: string, expected: int)
    | Rebind(k: ConnectionKey, read: Connection, account: Account, ownership: string, expected: int)
    | DisableAccount(k: ConnectionKey, read: Connection, account: Account, expected: int)

  /** The claim a connection should hold. */
  function ClaimKeyOf(k: ConnectionKey, c: Connection): ClaimKey {
    if c.provider == "stripe" && c.account.Some? then AccountClaim(k.scope.environment, c.mode, c.account.value)
    else Placeholder(c.mode, k)
  }

  predicate HasRevision(t: Table, k: ConnectionKey, expected: int) {
    k in t.connections && t.connections[k].revision == expected
  }

  predicate HoldsClaim(t: Table, key: ClaimKey, hash: Hash) { key in t.claims && t.claims[key].hash == hash }

  predicate Commits(t: Table, op: Op) {
    match op
    case Register(k, c) =>
      k !in t.connections && ClaimKeyOf(k, c) !in t.claims && 1 <= c.revision && (c.ownership.Some? ==> c.account.Some?)
    case UpdateStatus(k, status, expected) => HasRevision(t, k, expected) && status != Active
    case ActivateReady(k, expected) => HasRevision(t, k, expected) && t.connections[k].provider == "stripe"
    case Bind(k, read, account, ownership, expected) =>
      && (k, read) in t.versions
      && read.provider == "stripe" && read.status == Pending && read.revision == expected && read.account.None?
      && HasRevision(t, k, expected) && t.connections[k].provider == "stripe"
      && t.connections[k].hash == read.hash && t.connections[k].account.None?
      && HoldsClaim(t, ClaimKeyOf(k, read), read.hash)
      && AccountClaim(k.scope.environment, read.mode, account) !in t.claims
    case Rebind(k, read, account, ownership, expected) =>
      && (k, read) in t.versions
      && read.provider == "stripe" && read.status == Pending && read.revision == expected
      && read.account == Some(account) && read.ownership == Some(ownership)
      && HasRevision(t, k, expected) && t.connections[k].provider == "stripe" && t.connections[k].status == Pending
      && t.connections[k].hash == read.hash && t.connections[k].account == Some(account)
      && t.connections[k].ownership == Some(ownership)
      && ClaimKeyOf(k, read) in t.claims && t.claims[ClaimKeyOf(k, read)] == Claim(k, "stripe", read.hash)
    case DisableAccount(k, read, account, expected) =>
      && (k, read) in t.versions
      && read.provider == "stripe" && read.revision == expected && read.account == Some(account)
      && HasRevision(t, k, expected) && t.connections[k].provider == "stripe" && t.connections[k].hash == read.hash
      && HoldsClaim(t, ClaimKeyOf(k, read), read.hash)
  }

  function Put(t: Table, k: ConnectionKey, c: Connection, claims: map<ClaimKey, Claim>): Table {
    Table(t.connections[k := c], claims, t.versions + {(k, c)})
  }

  function Effect(t: Table, op: Op): Table
    requires Commits(t, op)
  {
    match op
    case Register(k, c) => Put(t, k, c, t.claims[ClaimKeyOf(k, c) := Claim(k, c.provider, c.hash)])
    case UpdateStatus(k, status, expected) =>
      Put(t, k, t.connections[k].(status := status, revision := expected + 1), t.claims)
    case ActivateReady(k, expected) =>
      Put(t, k, t.connections[k].(status := Active, revision := expected + 1, ready := true), t.claims)
    case Bind(k, read, account, ownership, expected) =>
      Put(t, k, t.connections[k].(revision := expected + 1, account := Some(account), ownership := Some(ownership)),
          (t.claims - {ClaimKeyOf(k, read)})[AccountClaim(k.scope.environment, read.mode, account) := Claim(k, "stripe", read.hash)])
    case Rebind(k, read, account, ownership, expected) =>
      Put(t, k, t.connections[k].(revision := expected + 1, ready := false), t.claims)
    case DisableAccount(k, read, account, expected) =>
      Put(t, k, t.connections[k].(status := Disabled, revision := expected + 1, account := None, ownership := None, ready := false),
          t.claims - {ClaimKeyOf(k, read)})
  }

  function Apply(t: Table, op: Op): Table { if Commits(t, op) then Effect(t, op) else t }

  function Run(t: Table, ops: seq<Op>): Table
    decreases |ops|
  {
    if ops == [] then t else Run(Apply(t, ops[0]), ops[1..])
  }

  // ---------------------------------------------------------------- invariant

  /** Whose claim a claim is. A connection whose account was disabled holds none. */
  predicate ClaimOk(t: Table, key: ClaimKey) {
    key in t.claims ==>
      var claim := t.claims[key];
      && claim.connection in t.connections
      && var c := t.connections[claim.connection];
         ClaimKeyOf(claim.connection, c) == key && c.hash == claim.hash && c.provider == claim.provider
  }

  predicate IsBound(c: Connection) { c.provider == "stripe" && c.account.Some? }

  predicate ConnectionOk(t: Table, k: ConnectionKey) {
    k in t.connections ==>
      var c := t.connections[k];
      && (k, c) in t.versions
      && (IsBound(c) ==> ClaimKeyOf(k, c) in t.claims && t.claims[ClaimKeyOf(k, c)] == Claim(k, "stripe", c.hash))
  }

  /** Old versions of a row have lower revisions. */
  predicate VersionOk(t: Table, x: (ConnectionKey, Connection)) {
    x in t.versions ==>
      && x.0 in t.connections
      && x.1.revision <= t.connections[x.0].revision
      && (x.1.revision == t.connections[x.0].revision ==> x.1 == t.connections[x.0])
  }

  ghost predicate Inv(t: Table) {
    && (forall key :: ClaimOk(t, key))
    && (forall k :: ConnectionOk(t, k))
    && (forall x :: VersionOk(t, x))
  }

  predicate ReadsCopy(op: Op) { op.Bind? || op.Rebind? || op.DisableAccount? }

  /** A committed operation worked on the current row, however old its copy. */
  lemma CommittedReadIsCurrent(t: Table, op: Op)
    requires Inv(t) && Commits(t, op) && ReadsCopy(op)
    ensures op.k in t.connections && op.read == t.connections[op.k]
  {
    assert VersionOk(t, (op.k, op.read));
  }

  lemma StepKeepsClaim(t: Table, op: Op, key: ClaimKey)
    requires Inv(t) && Commits(t, op)
    ensures ClaimOk(Effect(t, op), key)
  {
    if ReadsCopy(op) { CommittedReadIsCurrent(t, op); }
    assert ClaimOk(t, key);
    assert ConnectionOk(t, op.k);
    if op.k in t.connections { assert ClaimOk(t, ClaimKeyOf(op.k, t.connections[op.k])); }
    hide Inv;
  }

  lemma StepKeepsConnection(t: Table, op: Op, k: ConnectionKey)
    requires Inv(t) && Commits(t, op)
    ensures ConnectionOk(Effect(t, op), k)
  {
    if ReadsCopy(op) { CommittedReadIsCurrent(t, op); }
    assert ConnectionOk(t, op.k);
    assert ConnectionOk(t, k);
    if op.k in t.connections { assert ClaimOk(t, ClaimKeyOf(op.k, t.connections[op.k])); }
    hide Inv;
  }

  lemma StepKeepsVersion(t: Table, op: Op, x: (ConnectionKey, Connection))
    requires Inv(t) && Commits(t, op)
    ensures VersionOk(Effect(t, op), x)
  {
    if ReadsCopy(op) { CommittedReadIsCurrent(t, op); }
    assert VersionOk(t, x);
    assert ConnectionOk(t, op.k);
    hide Inv;
  }

  lemma StepKeepsInv(t: Table, op: Op)
    requires Inv(t)
    ensures Inv(Apply(t, op))
  {
    if Commits(t, op) {
      hide Commits;
      hide Effect;
      hide ClaimOk;
      hide ConnectionOk;
      hide VersionOk;
      forall key ensures ClaimOk(Effect(t, op), key) { StepKeepsClaim(t, op, key); }
      forall k ensures ConnectionOk(Effect(t, op), k) { StepKeepsConnection(t, op, k); }
      forall x ensures VersionOk(Effect(t, op), x) { StepKeepsVersion(t, op, x); }
    }
  }

  lemma {:induction false} RunKeepsInv(t: Table, ops: seq<Op>)
    requires Inv(t)
    ensures Inv(Run(t, ops))
    decreases |ops|
  {
    hide Inv;
    hide Apply;
    if ops == [] {
    } else {
      StepKeepsInv(t, ops[0]);
      RunKeepsInv(Apply(t, ops[0]), ops[1..]);
    }
  }

  // ---------------------------------------------------------------- results

  /** In every run a Stripe connection with an account owns that account's claim under its own
      registration hash, and a claim of an account is owned by such a connection. */
  lemma BoundConnectionsOwnTheirRoute(ops: seq<Op>, environment: string, mode: string, account: Account)
    ensures var t := Run(EMPTY, ops); var key := AccountClaim(environment, mode, account);
            && (forall k | k in t.connections && IsBound(t.connections[k]) && ClaimKeyOf(k, t.connections[k]) == key ::
                  key in t.claims && t.claims[key] == Claim(k, "stripe", t.connections[k].hash))
            && (key in t.claims ==>
                  && t.claims[key].connection in t.connections
                  && var c := t.connections[t.claims[key].connection];
                     && IsBound(c) && c.account.value == account && c.mode == mode && c.hash == t.claims[key].hash
                     && t.claims[key].connection.scope.environment == environment)
  {
    hide Run;
    RunKeepsInv(EMPTY, ops);
    var t, key := Run(EMPTY, ops), AccountClaim(environment, mode, account);
    assert ClaimOk(t, key);
    forall k | k in t.connections && IsBound(t.connections[k]) && ClaimKeyOf(k, t.connections[k]) == key
      ensures key in t.claims && t.claims[key] == Claim(k, "stripe", t.connections[k].hash)
    {
      assert ConnectionOk(t, k);
    }
  }

  /** In every run no two connections of one environment and mode have the same account. */
  lemma OneConnectionPerAccount(ops: seq<Op>, k: ConnectionKey, x: ConnectionKey)
    requires var t := Run(EMPTY, ops);
             && k in t.connections && x in t.connections && IsBound(t.connections[k]) && IsBound(t.connections[x])
             && k.scope.environment == x.scope.environment && t.connections[k].mode == t.connections[x].mode
             && t.connections[k].account == t.connections[x].account
    ensures k == x
  {
    hide Run;
    RunKeepsInv(EMPTY, ops);
    assert ConnectionOk(Run(EMPTY, ops), k) && ConnectionOk(Run(EMPTY, ops), x);
  }

  // ---------------------------------------------------------------- webhook routing

  /** What routing demands of the connection a webhook goes to. */
  predicate Accepts(c: Connection, mode: string, account: Account, deauthorized: bool) {
    && c.provider == "stripe" && c.mode == mode && c.account == Some(account)
    && (if deauthorized then c.status != Disabled else c.status == Active && c.ready)
  }

  function ModeOf(environment: string): string { if environment == "test" then "test" else "live" }

  predicate KnownEnvironment(environment: string) { environment == "test" || environment == "production" }

  /** Routing with the claim read from one table and its connection from a later one. */
  function RouteAcross(first: Table, second: Table, environment: string, mode: string, account: Account, deauthorized: bool): Option<ConnectionKey> {
    var key := AccountClaim(environment, mode, account);
    if !KnownEnvironment(environment) || mode != ModeOf(environment) || key !in first.claims then None
    else
      var claim := first.claims[key];
      if claim.provider == "stripe" && claim.connection in second.connections
         && second.connections[claim.connection].hash == claim.hash
         && Accepts(second.connections[claim.connection], mode, account, deauthorized)
      then Some(claim.connection) else None
  }

  /** Routing by the account's claim, with nobody in between. */
  function Route(t: Table, environment: string, mode: string, account: Account, deauthorized: bool): Option<ConnectionKey> {
    RouteAcross(t, t, environment, mode, account, deauthorized)
  }

  predicate Fits(t: Table, k: ConnectionKey, environment: string, account: Account, deauthorized: bool) {
    && k in t.connections && k.scope.environment == environment
    && Accepts(t.connections[k], ModeOf(environment), account, deauthorized)
  }

  /** In every run routing finds a connection exactly when it is a Stripe connection of the environment
      and its mode that has the account and is fit for the event: active and ready, or, when the account
      has been deauthorized, not yet disabled. There is at most one, so routing finds it or nothing. */
  lemma RoutingFindsTheBoundConnection(ops: seq<Op>, environment: string, mode: string, account: Account, deauthorized: bool, k: ConnectionKey)
    ensures var t := Run(EMPTY, ops);
            Route(t, environment, mode, account, deauthorized) == Some(k) <==>
              && ((environment == "test" && mode == "test") || (environment == "production" && mode == "live"))
              && k in t.connections && k.scope.environment == environment
              && var c := t.connections[k];
                 && c.provider == "stripe" && c.mode == mode && c.account == Some(account)
                 && (if deauthorized then c.status == Pending || c.status == Active else c.status == Active && c.ready)
  {
    BoundConnectionsOwnTheirRoute(ops, environment, mode, account);
  }

  // ---------------------------------------------------------------- after a disable

  /** A Stripe connection without an account and without its placeholder. */
  predicate IsAdrift(t: Table, k: ConnectionKey) {
    && k in t.connections && t.connections[k].provider == "stripe" && t.connections[k].account.None?
    && ClaimKeyOf(k, t.connections[k]) !in t.claims
  }

  lemma AdriftStep(t: Table, op: Op, k: ConnectionKey)
    requires Inv(t) && IsAdrift(t, k)
    ensures IsAdrift(Apply(t, op), k)
  {
    if Commits(t, op) && ReadsCopy(op) { CommittedReadIsCurrent(t, op); }
    hide Inv;
  }

  /** Such a connection never gets an account again: a later bind deletes the placeholder under a
      condition that can no longer hold, and nothing puts a placeholder back. */
  lemma {:induction false} AdriftConnectionsStayUnbound(t: Table, ops: seq<Op>, k: ConnectionKey)
    requires Inv(t) && IsAdrift(t, k)
    ensures IsAdrift(Run(t, ops), k)
    decreases |ops|
  {
    hide Inv;
    hide Apply;
    hide IsAdrift;
    if ops == [] {
    } else {
      AdriftStep(t, ops[0], k);
      StepKeepsInv(t, ops[0]);
      AdriftConnectionsStayUnbound(Apply(t, ops[0]), ops[1..], k);
    }
  }

  /** Once an account is disabled its connection is without an account in every later state. */
  lemma DisabledConnectionsAreNeverBoundAgain(before: seq<Op>, op: Op, ops: seq<Op>)
    requires op.DisableAccount? && Commits(Run(EMPTY, before), op)
    ensures var t := Run(Apply(Run(EMPTY, before), op), ops);
            op.k in t.connections && t.connections[op.k].account.None?
  {
    RunKeepsInv(EMPTY, before);
    StepKeepsInv(Run(EMPTY, before), op);
    DisableStep(Run(EMPTY, before), op, op.k);
    hide Inv;
    hide Apply;
    hide Commits;
    AdriftConnectionsStayUnbound(Apply(Run(EMPTY, before), op), ops, op.k);
  }

  // ---------------------------------------------------------------- when a connection can be bound

  predicate Disables(t: Table, op: Op, k: ConnectionKey) { op.DisableAccount? && op.k == k && Commits(t, op) }

  /** Some disable of the connection's account commits in the run. */
  predicate HasDisabled(t: Table, ops: seq<Op>, k: ConnectionKey)
    decreases |ops|
  {
    ops != [] && (Disables(t, ops[0], k) || HasDisabled(Apply(t, ops[0]), ops[1..], k))
  }

  predicate IsUnbound(t: Table, k: ConnectionKey) {
    k in t.connections && t.connections[k].provider == "stripe" && t.connections[k].account.None?
  }

  /** A Stripe connection without an account has its placeholder. */
  predicate IsPlaced(t: Table, k: ConnectionKey) {
    IsUnbound(t, k) ==> ClaimKeyOf(k, t.connections[k]) in t.claims
  }

  lemma PlacedStep(t: Table, op: Op, k: ConnectionKey)
    requires Inv(t) && IsPlaced(t, k) && !Disables(t, op, k)
    ensures IsPlaced(Apply(t, op), k)
  {
    if Commits(t, op) && ReadsCopy(op) { CommittedReadIsCurrent(t, op); }
    assert ConnectionOk(t, k);
    hide Inv;
  }

  lemma DisableStep(t: Table, op: Op, k: ConnectionKey)
    requires Inv(t) && Disables(t, op, k)
    ensures IsAdrift(Apply(t, op), k)
  {
    CommittedReadIsCurrent(t, op);
    assert ClaimOk(t, Placeholder(op.read.mode, op.k));
  }

  lemma {:induction false} PlacedUntilDisabled(t: Table, ops: seq<Op>, k: ConnectionKey)
    requires Inv(t) && IsPlaced(t, k)
    ensures if HasDisabled(t, ops, k) then IsAdrift(Run(t, ops), k) else IsPlaced(Run(t, ops), k)
    decreases |ops|
  {
    hide Inv;
    hide Apply;
    hide IsAdrift;
    hide IsPlaced;
    hide Disables;
    if ops == [] {
    } else {
      StepKeepsInv(t, ops[0]);
      if Disables(t, ops[0], k) {
        DisableStep(t, ops[0], k);
        AdriftConnectionsStayUnbound(Apply(t, ops[0]), ops[1..], k);
      } else {
        PlacedStep(t, ops[0], k);
        PlacedUntilDisabled(Apply(t, ops[0]), ops[1..], k);
      }
    }
  }

  /** In every run a Stripe connection without an account holds its placeholder under its own hash
      exactly when no disable of it has committed; so a bind of its current row to a free account
      commits exactly then, while the connection is pending. */
  lemma BindsExactlyUntilDisabled(ops: seq<Op>, k: ConnectionKey, account: Account, ownership: string)
    requires IsUnbound(Run(EMPTY, ops), k)
    ensures var t := Run(EMPTY, ops); var c := t.connections[k];
            HoldsClaim(t, Placeholder(c.mode, k), c.hash) <==> !HasDisabled(EMPTY, ops, k)
    ensures var t := Run(EMPTY, ops); var c := t.connections[k];
            AccountClaim(k.scope.environment, c.mode, account) !in t.claims ==>
              (Commits(t, Bind(k, c, account, ownership, c.revision)) <==> c.status == Pending && !HasDisabled(EMPTY, ops, k))
  {
    hide Run;
    hide HasDisabled;
    var t := Run(EMPTY, ops);
    RunKeepsInv(EMPTY, ops);
    PlacedUntilDisabled(EMPTY, ops, k);
    assert ConnectionOk(t, k) && ClaimOk(t, Placeholder(t.connections[k].mode, k));
  }

  // ---------------------------------------------------------------- the last word on a connection

  /** Whether the last committed operation on a connection made it live: an activation, or its
      registration as a live one. */
  predicate WasLeftLive(ops: seq<Op>, k: ConnectionKey)
    decreases |ops|
  {
    ops != [] &&
    var before, op := ops[..|ops| - 1], ops[|ops| - 1];
    if op.k == k && Commits(Run(EMPTY, before), op)
    then op.ActivateReady? || (op.Register? && op.c.status == Active && op.c.ready)
    else WasLeftLive(before, k)
  }

  /** Whether the last committed operation that says anything about a connection's readiness says yes. A
      bind and a change of status say nothing about it; a confirmed account and a disable say no. */
  predicate WasLeftReady(ops: seq<Op>, k: ConnectionKey)
    decreases |ops|
  {
    ops != [] &&
    var before, op := ops[..|ops| - 1], ops[|ops| - 1];
    if op.k == k && Commits(Run(EMPTY, before), op) && !op.Bind? && !op.UpdateStatus?
    then op.ActivateReady? || (op.Register? && op.c.ready)
    else WasLeftReady(before, k)
  }

  lemma {:induction false} RunLast(t: Table, ops: seq<Op>, op: Op)
    ensures Run(t, ops + [op]) == Apply(Run(t, ops), op)
    decreases |ops|
  {
    hide Apply;
    if ops == [] {
      assert Run(Apply(t, op), []) == Apply(t, op);
    } else {
      assert (ops + [op])[0] == ops[0] && (ops + [op])[1..] == ops[1..] + [op];
      RunLast(Apply(t, ops[0]), ops[1..], op);
    }
  }

  /** A pending connection is the only one that is bound or confirmed. */
  lemma OnlyActivationsMakeLive(t: Table, op: Op)
    requires Inv(t) && Commits(t, op)
    ensures var c := Effect(t, op).connections[op.k];
            (c.status == Active && c.ready) <==> op.ActivateReady? || (op.Register? && op.c.status == Active && op.c.ready)
    ensures var c := Effect(t, op).connections[op.k];
            c.ready <==> op.ActivateReady? || (op.Register? && op.c.ready)
                         || ((op.Bind? || op.UpdateStatus?) && op.k in t.connections && t.connections[op.k].ready)
  {
    if ReadsCopy(op) { CommittedReadIsCurrent(t, op); }
    hide Inv;
  }

  lemma OthersKeepTheirRow(t: Table, op: Op, k: ConnectionKey)
    requires op.k != k || !Commits(t, op)
    ensures k in Apply(t, op).connections <==> k in t.connections
    ensures k in t.connections ==> Apply(t, op).connections[k] == t.connections[k]
  {
  }

  /** In every run a connection is live exactly when the last committed operation on it was its activation,
      or its registration as a live one: a change of status, a confirmed account and a disable each take it
      out of service, and nothing else does. It is ready as the last operation that says so left it. */
  lemma {:induction false} LiveExactlyAfterActivation(ops: seq<Op>, k: ConnectionKey)
    requires k in Run(EMPTY, ops).connections
    ensures var c := Run(EMPTY, ops).connections[k];
            ((c.status == Active && c.ready) <==> WasLeftLive(ops, k)) && (c.ready <==> WasLeftReady(ops, k))
    decreases |ops|
  {
    hide Apply;
    hide Commits;
    if ops != [] {
      var before, op := ops[..|ops| - 1], ops[|ops| - 1];
      var t := Run(EMPTY, before);
      RunKeepsInv(EMPTY, before);
      hide Inv;
      assert ops == before + [op];
      RunLast(EMPTY, before, op);
      if op.k == k && Commits(t, op) {
        CommittedIsApplied(t, op);
        OnlyActivationsMakeLive(t, op);
        if k in t.connections { LiveExactlyAfterActivation(before, k); } else { OnlyRegistrationsAdd(t, op); }
      } else {
        OthersKeepTheirRow(t, op, k);
        LiveExactlyAfterActivation(before, k);
      }
    }
  }

  lemma CommittedIsApplied(t: Table, op: Op)
    requires Commits(t, op)
    ensures Apply(t, op) == Effect(t, op)
  {
  }

  lemma OnlyRegistrationsAdd(t: Table, op: Op)
    requires Commits(t, op) && op.k !in t.connections
    ensures op.Register?
  {
  }
}
