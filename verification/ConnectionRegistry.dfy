/**
 The connection registry as it runs: read the connection, check it, commit one fenced transaction
 and read the connection again, with other callers in between; and webhook routing by two reads.
 */
module ConnectionRegistry {
  import opened Types
  import opened Routing

  datatype Outcome = Done(connection: Connection) | Conflict

  lemma {:induction false} RunAppend(t: Table, a: seq<Op>, b: seq<Op>)
    ensures Run(t, a + b) == Run(Run(t, a), b)
    decreases |a|
  {
    hide Apply;
    if a == [] {
      assert a + b == b;
    } else {
      assert (a + b)[0] == a[0] && (a + b)[1..] == a[1..] + b;
      RunAppend(Apply(t, a[0]), a[1..], b);
    }
  }

  lemma RunOne(t: Table, op: Op)
    ensures Run(t, [op]) == Apply(t, op)
  {
    hide Apply;
    assert [op][1..] == [];
    assert Run(Apply(t, op), []) == Apply(t, op);
  }

  lemma StepRemembers(t: Table, op: Op)
    ensures t.versions <= Apply(t, op).versions
  {
    hide Commits;
  }

  lemma {:induction false} RunRemembers(t: Table, ops: seq<Op>)
    ensures t.versions <= Run(t, ops).versions
    decreases |ops|
  {
    hide Apply;
    if ops == [] {
    } else {
      StepRemembers(t, ops[0]);
      RunRemembers(Apply(t, ops[0]), ops[1..]);
    }
  }

  lemma CurrentIsVersion(t: Table, k: ConnectionKey)
    requires Inv(t) && k in t.connections
    ensures (k, t.connections[k]) in t.versions
  {
    assert ConnectionOk(t, k);
  }

  /** A claim that routing followed belongs to the connection it names, now and later. */
  lemma AccountOwnerIsUnique(t: Table, k: ConnectionKey, environment: string, mode: string, account: Account)
    requires Inv(t) && AccountClaim(environment, mode, account) in t.claims
    requires k == t.claims[AccountClaim(environment, mode, account)].connection
    ensures k.scope.environment == environment && k in t.connections && IsBound(t.connections[k])
  {
    assert ClaimOk(t, AccountClaim(environment, mode, account));
  }

  // ---------------------------------------------------------------- what each call comes to

  /** The transaction a bind sends after checking the connection it read; None when it refuses at once. */
  function BindOp(t: Table, k: ConnectionKey, account: Account, ownership: string, expected: int): Option<Op> {
    if k !in t.connections then None else
    var read := t.connections[k];
    if read.provider != "stripe" || read.status != Pending || read.revision != expected then None
    else if read.account.None? then Some(Bind(k, read, account, ownership, expected))
    else if read.account == Some(account) && read.ownership == Some(ownership)
      then Some(Rebind(k, read, account, ownership, expected))
    else None
  }

  function DisableOp(t: Table, k: ConnectionKey, account: Account, expected: int): Option<Op> {
    if k in t.connections && t.connections[k].provider == "stripe" && t.connections[k].revision == expected
       && t.connections[k].account == Some(account)
    then Some(DisableAccount(k, t.connections[k], account, expected)) else None
  }

  predicate Succeeds(t: Table, op: Option<Op>, turn: seq<Op>) {
    op.Some? && Commits(Run(t, turn), op.value)
  }

  /** With nobody in between, a pending Stripe connection at the expected revision is bound to an account
      exactly when it has none yet, still holds its placeholder under its hash and the account is free, or
      when it already has this account under this ownership. */
  lemma BindSucceedsExactly(t: Table, k: ConnectionKey, account: Account, ownership: string, expected: int)
    requires Inv(t)
    ensures Succeeds(t, BindOp(t, k, account, ownership, expected), []) <==>
              && k in t.connections
              && var c := t.connections[k];
                 && c.provider == "stripe" && c.status == Pending && c.revision == expected
                 && (|| (&& c.account == None
                         && Placeholder(c.mode, k) in t.claims && t.claims[Placeholder(c.mode, k)].hash == c.hash
                         && AccountClaim(k.scope.environment, c.mode, account) !in t.claims)
                     || (c.account == Some(account) && c.ownership == Some(ownership)))
  {
    NoRun(t);
    if k in t.connections { CurrentIsVersion(t, k); assert ConnectionOk(t, k); }
    hide Inv;
    hide Run;
  }

  /** With nobody in between, an account is taken away exactly from the Stripe connection that has it, at
      the expected revision and in whatever status. */
  lemma DisableSucceedsExactly(t: Table, k: ConnectionKey, account: Account, expected: int)
    requires Inv(t)
    ensures Succeeds(t, DisableOp(t, k, account, expected), []) <==>
              && k in t.connections
              && t.connections[k].provider == "stripe" && t.connections[k].revision == expected
              && t.connections[k].account == Some(account)
  {
    NoRun(t);
    if k in t.connections { CurrentIsVersion(t, k); assert ConnectionOk(t, k); }
    hide Inv;
    hide Run;
  }

  /** A transaction sent with others first, and others again before the read that follows it; or none. */
  function Sent(t: Table, op: Option<Op>, turn: seq<Op>, later: seq<Op>): seq<Op> {
    if op.None? then [] else turn + [op.value] + if Succeeds(t, op, turn) then later else []
  }

  /** The row of a connection some time after it was another row. */
  predicate IsSince(was: Connection, now: Connection) {
    was.revision <= now.revision && (was.revision == now.revision ==> was == now)
  }

  lemma VersionsAreOlder(t: Table, k: ConnectionKey, c: Connection)
    requires Inv(t) && (k, c) in t.versions
    ensures k in t.connections && IsSince(c, t.connections[k])
  {
    assert VersionOk(t, (k, c));
  }

  class Registry {
    var connections: map<ConnectionKey, Connection>
    var claims: map<ClaimKey, Claim>
    var versions: set<(ConnectionKey, Connection)>

    function Contents(): Table
      reads this
    {
      Table(connections, claims, versions)
    }

    ghost predicate Valid()
      reads this
    {
      Inv(Contents())
    }

    constructor ()
      ensures Valid() && Contents() == EMPTY
    {
      connections, claims, versions := map[], map[], {};
    }

    method PutConnection(k: ConnectionKey, c: Connection)
      modifies this
      ensures Contents() == Put(old(Contents()), k, c, old(claims))
    {
      connections := connections[k := c];
      versions := versions + {(k, c)};
    }

    method RunOthers(turn: seq<Op>)
      requires Valid()
      modifies this
      ensures Valid() && Contents() == Run(old(Contents()), turn) && old(versions) <= versions
    {
      hide Inv;
      hide Apply;
      ghost var before := Contents();
      RunRemembers(before, turn);
      for i := 0 to |turn|
        invariant Valid() && Contents() == Run(before, turn[..i])
      {
        ghost var middle := Contents();
        StepKeepsInv(middle, turn[i]);
        var t := Apply(Contents(), turn[i]);
        connections, claims, versions := t.connections, t.claims, t.versions;
        RunAppend(before, turn[..i], [turn[i]]);
        RunOne(middle, turn[i]);
        assert turn[..i + 1] == turn[..i] + [turn[i]];
      }
      assert turn[..|turn|] == turn;
    }

    /** Binds a pending connection to an account, or confirms the account it already has. Others run before
        the transaction and before the connection is read again; that read may fail, and then the call
        raises although the transaction committed. */
    method BindStripeAccount(k: ConnectionKey, account: Account, ownership: string, expected: int,
                             turn: seq<Op>, later: seq<Op>, readable: bool)
      returns (r: Outcome, ghost ran: seq<Op>)
      requires Valid()
      modifies this
      ensures Valid() && Contents() == Run(old(Contents()), ran)
      ensures ran == Sent(old(Contents()), BindOp(old(Contents()), k, account, ownership, expected), turn, later)
      ensures r.Done? <==> readable && Succeeds(old(Contents()), BindOp(old(Contents()), k, account, ownership, expected), turn)
      ensures var op := BindOp(old(Contents()), k, account, ownership, expected);
              Succeeds(old(Contents()), op, turn) ==>
                var t := Apply(Run(old(Contents()), turn), op.value);
                && k in t.connections
                && var c := t.connections[k];
                   && k in old(connections)
                   && c == old(connections)[k].(account := Some(account), ownership := Some(ownership), revision := expected + 1,
                                                ready := old(connections)[k].account.None? && old(connections)[k].ready)
                   && c.provider == "stripe" && c.status == Pending
                   && AccountClaim(k.scope.environment, c.mode, account) in t.claims
                   && t.claims[AccountClaim(k.scope.environment, c.mode, account)].connection == k
                   && (r.Done? ==> k in connections && r.connection == connections[k] && IsSince(c, r.connection))
    {
      hide Inv;
      hide Commits;
      hide Apply;
      hide Run;
      ghost var start := Contents();
      r, ran := Conflict, [];
      assert Run(start, []) == start by { NoRun(start); }
      if k !in connections { return; }
      var read := connections[k];
      CurrentIsVersion(Contents(), k);
      if read.provider != "stripe" || read.status != Pending || read.revision != expected { return; }
      if read.account.Some? && (read.account.value != account || read.ownership != Some(ownership)) { return; }
      RunOthers(turn);
      ghost var op := if read.account.Some? then Rebind(k, read, account, ownership, expected)
                      else Bind(k, read, account, ownership, expected);
      ran := turn + [op];
      RunAppend(start, turn, [op]);
      RunOne(Contents(), op);
      StepKeepsInv(Contents(), op);
      var ok;
      if read.account.Some? {
        ok := CommitRebind(k, read, account, ownership, expected);
      } else {
        ok := CommitBind(k, read, account, ownership, expected);
      }
      assert ran + [] == ran;
      if ok {
        ghost var bound := Contents();
        CurrentIsVersion(bound, k);
        RunAppend(start, ran, later);
        RunOthers(later);
        ran := ran + later;
        VersionsAreOlder(Contents(), k, bound.connections[k]);
        if readable { r := Done(connections[k]); }
      }
    }

    method CommitRebind(k: ConnectionKey, read: Connection, account: Account, ownership: string, expected: int) returns (ok: bool)
      requires Valid() && (k, read) in versions
      requires read.provider == "stripe" && read.status == Pending && read.revision == expected
      requires read.account == Some(account) && read.ownership == Some(ownership)
      modifies this
      ensures ok == Commits(old(Contents()), Rebind(k, read, account, ownership, expected))
      ensures Contents() == Apply(old(Contents()), Rebind(k, read, account, ownership, expected))
      ensures ok ==>
                && k in connections && connections[k] == read.(revision := expected + 1, ready := false)
                && AccountClaim(k.scope.environment, read.mode, account) in claims
                && claims[AccountClaim(k.scope.environment, read.mode, account)].connection == k
    {
      var claimKey := AccountClaim(k.scope.environment, read.mode, account);
      ok := k in connections && connections[k].revision == expected && connections[k].provider == "stripe"
            && connections[k].status == Pending && connections[k].hash == read.hash
            && connections[k].account == Some(account) && connections[k].ownership == Some(ownership);
      ok := ok && claimKey in claims && claims[claimKey] == Claim(k, "stripe", read.hash);
      if ok {
        CommittedReadIsCurrent(Contents(), Rebind(k, read, account, ownership, expected));
        hide Inv;
        PutConnection(k, connections[k].(revision := expected + 1, ready := false));
      }
    }

    method CommitBind(k: ConnectionKey, read: Connection, account: Account, ownership: string, expected: int) returns (ok: bool)
      requires Valid() && (k, read) in versions
      requires read.provider == "stripe" && read.status == Pending && read.revision == expected && read.account.None?
      modifies this
      ensures ok == Commits(old(Contents()), Bind(k, read, account, ownership, expected))
      ensures Contents() == Apply(old(Contents()), Bind(k, read, account, ownership, expected))
      ensures ok ==>
                && k in connections
                && connections[k] == read.(revision := expected + 1, account := Some(account), ownership := Some(ownership))
                && AccountClaim(k.scope.environment, read.mode, account) in claims
                && claims[AccountClaim(k.scope.environment, read.mode, account)].connection == k
    {
      var oldKey, newKey := Placeholder(read.mode, k), AccountClaim(k.scope.environment, read.mode, account);
      ok := k in connections && connections[k].revision == expected && connections[k].provider == "stripe"
            && connections[k].hash == read.hash && connections[k].account.None?;
      ok := ok && oldKey in claims && claims[oldKey].hash == read.hash && newKey !in claims;
      if ok {
        CommittedReadIsCurrent(Contents(), Bind(k, read, account, ownership, expected));
        hide Inv;
        PutConnection(k, connections[k].(revision := expected + 1, account := Some(account), ownership := Some(ownership)));
        claims := claims - {oldKey};
        claims := claims[newKey := Claim(k, "stripe", read.hash)];
      }
    }

    /** Takes the account and its claim away from a connection, and reads the connection again. */
    method DisableStripeAccount(k: ConnectionKey, account: Account, expected: int, turn: seq<Op>, later: seq<Op>, readable: bool)
      returns (r: Outcome, ghost ran: seq<Op>)
      requires Valid()
      modifies this
      ensures Valid() && Contents() == Run(old(Contents()), ran)
      ensures ran == Sent(old(Contents()), DisableOp(old(Contents()), k, account, expected), turn, later)
      ensures r.Done? <==> readable && Succeeds(old(Contents()), DisableOp(old(Contents()), k, account, expected), turn)
      ensures var op := DisableOp(old(Contents()), k, account, expected);
              Succeeds(old(Contents()), op, turn) ==>
                var t := Apply(Run(old(Contents()), turn), op.value);
                && k in t.connections
                && var c := t.connections[k];
                   && k in old(connections)
                   && c == old(connections)[k].(status := Disabled, account := None, ownership := None,
                                                revision := expected + 1, ready := false)
                   && AccountClaim(k.scope.environment, c.mode, account) !in t.claims
                   && (r.Done? ==> k in connections && r.connection == connections[k] && IsSince(c, r.connection))
    {
      hide Inv;
      hide Commits;
      hide Apply;
      hide Run;
      ghost var start := Contents();
      r, ran := Conflict, [];
      assert Run(start, []) == start by { NoRun(start); }
      if k !in connections { return; }
      var read := connections[k];
      CurrentIsVersion(Contents(), k);
      if read.provider != "stripe" || read.revision != expected || read.account != Some(account) { return; }
      RunOthers(turn);
      ghost var op := DisableAccount(k, read, account, expected);
      ran := turn + [op];
      RunAppend(start, turn, [op]);
      RunOne(Contents(), op);
      StepKeepsInv(Contents(), op);
      var ok := CommitDisable(k, read, account, expected);
      assert ran + [] == ran;
      if ok {
        ghost var disabled := Contents();
        CurrentIsVersion(disabled, k);
        RunAppend(start, ran, later);
        RunOthers(later);
        ran := ran + later;
        VersionsAreOlder(Contents(), k, disabled.connections[k]);
        if readable { r := Done(connections[k]); }
      }
    }

    method CommitDisable(k: ConnectionKey, read: Connection, account: Account, expected: int) returns (ok: bool)
      requires Valid() && (k, read) in versions
      requires read.provider == "stripe" && read.revision == expected && read.account == Some(account)
      modifies this
      ensures ok == Commits(old(Contents()), DisableAccount(k, read, account, expected))
      ensures Contents() == Apply(old(Contents()), DisableAccount(k, read, account, expected))
      ensures ok ==>
                && k in connections
                && connections[k] == read.(status := Disabled, account := None, ownership := None,
                                           revision := expected + 1, ready := false)
                && AccountClaim(k.scope.environment, connections[k].mode, account) !in claims
    {
      var claimKey := AccountClaim(k.scope.environment, read.mode, account);
      ok := k in connections && connections[k].revision == expected && connections[k].provider == "stripe"
            && connections[k].hash == read.hash && claimKey in claims && claims[claimKey].hash == read.hash;
      if ok {
        CommittedReadIsCurrent(Contents(), DisableAccount(k, read, account, expected));
        hide Inv;
        PutConnection(k, connections[k].(status := Disabled, revision := expected + 1, account := None, ownership := None, ready := false));
        claims := claims - {claimKey};
      }
    }

    /** Finds the connection of a webhook: one read of the claim, one of the connection, and others in
        between. What it returns is bound to the account at the second read; without others in between
        it misses nothing. */
    method StripeWebhookConnection(environment: string, mode: string, account: Account, deauthorized: bool, turn: seq<Op>)
      returns (r: Option<ConnectionKey>)
      requires Valid()
      modifies this
      ensures Valid() && (Contents() == Run(old(Contents()), turn) || (r.None? && Contents() == old(Contents())))
      ensures r.Some? ==> mode == ModeOf(environment) && Fits(Contents(), r.value, environment, account, deauthorized)
      ensures r == RouteAcross(old(Contents()), Run(old(Contents()), turn), environment, mode, account, deauthorized)
      ensures turn == [] ==> r == Route(old(Contents()), environment, mode, account, deauthorized)
    {
      hide Inv;
      hide Run;
      if !KnownEnvironment(environment) || mode != ModeOf(environment) { return None; }
      var key := AccountClaim(environment, mode, account);
      if key !in claims { return None; }
      var claim := claims[key];
      AccountOwnerIsUnique(Contents(), claim.connection, environment, mode, account);
      if claim.provider != "stripe" { return None; }
      if turn == [] { NoRun(Contents()); }
      RunOthers(turn);
      if claim.connection !in connections { return None; }
      var c := connections[claim.connection];
      if c.hash != claim.hash || !Accepts(c, mode, account, deauthorized) { return None; }
      return Some(claim.connection);
    }
  }

  lemma NoRun(t: Table)
    ensures Run(t, []) == t
  {
  }
}
