/** What a finished backfill promises, stated about the tables it leaves. */
module LedgerTheorems {
  import opened Options
  import opened Addresses
  import opened LedgerTables
  import opened LedgerProperties

  /**
   The account's pending address is canonical, nobody else's, claimed for this account, and
   backed by exactly one email-change code, which lapses with the claim.
   */
  ghost predicate Bound(t: Tables, now: Time, id: Id, c: Id) {
    && id in t.users
    && t.users[id].pendingEmail.Some?
    && var address := t.users[id].pendingEmail.value;
    && Canonical(address)
    && GroupAt(t.users, address) == {id}
    && !IsTaken(t.users, address)
    && CodesAt(t.codes, address) == {c}
    && t.codes[c].email == address
    && Matches(t.codes[c], id, GenerationOf(t.users[id]), now)
    && address in t.claims
    && t.claims[address] == Claim(CLAIM_KIND, Account(id), t.codes[c].expiresAt.value)
  }

  ghost predicate AllBound(t: Tables, now: Time) {
    forall id :: id in Pending(t.users) ==> exists c :: Bound(t, now, id, c)
  }

  ghost predicate NoConflict(t: Tables, now: Time) {
    forall address :: address in PendingAddresses(t.users) ==> !Conflicts(t, now, address)
  }

  // ---------- Every pending address left is bound ----------

  lemma KeptPending(t: Tables, now: Time, id: Id)
    requires id in Pending(Backfilled(t, now).users)
    ensures id in t.users && t.users[id].pendingEmail.Some?
    ensures var address := Normalise(t.users[id].pendingEmail.value);
      && address in PendingAddresses(t.users)
      && KeepsPending(t, now, id)
      && Backfilled(t, now).users[id] == t.users[id].(pendingEmail := Some(address))
  {
    assert id in t.users && t.users[id].pendingEmail.Some?;
    assert Normalise(t.users[id].pendingEmail.value) in PendingAddresses(t.users);
  }

  lemma KeptGroup(t: Tables, now: Time, address: string, k: Keeper)
    requires address in PendingAddresses(t.users) && KeeperAt(t, now, address) == Some(k)
    ensures GroupAt(Backfilled(t, now).users, address) == {k.user}
    ensures CodesAt(Backfilled(t, now).codes, address) == {k.code}
    ensures Backfilled(t, now).codes[k.code] == t.codes[k.code].(email := address)
  {
    var s := Backfilled(t, now);
    assert MatchesAt(t, now, address, k.user, k.code);
    NormaliseIdempotent(t.users[k.user].pendingEmail.value);
    forall id ensures id in GroupAt(s.users, address) <==> id == k.user {
      if id in Pending(s.users) {
        KeptPending(t, now, id);
        NormaliseIdempotent(t.users[id].pendingEmail.value);
      }
    }
    forall c ensures c in CodesAt(s.codes, address) <==> c == k.code {
      if c in t.codes {
        NormaliseIdempotent(t.codes[c].email);
      }
    }
  }

  lemma SameTaken(t: Tables, now: Time, address: string)
    ensures IsTaken(Backfilled(t, now).users, address) <==> IsTaken(t.users, address)
  {
    var s := Backfilled(t, now);
    if id :| id in t.users && t.users[id].email == Some(address) {
      assert s.users[id].email == Some(address);
    }
  }

  lemma KeptClaim(t: Tables, now: Time, address: string)
    requires address in PendingAddresses(t.users) && !Conflicts(t, now, address)
    requires ClaimAt(t, now, address).Some?
    ensures var s := Backfilled(t, now);
      address in s.claims && s.claims[address] == ClaimAt(t, now, address).value
  {}

  /** After a backfill that meets no conflicting claim, every pending address is bound. */
  lemma BackfillBindsEveryPendingAddress(t: Tables, now: Time)
    requires NoConflict(t, now)
    ensures AllBound(Backfilled(t, now), now)
  {
    var s := Backfilled(t, now);
    forall id | id in Pending(s.users) ensures exists c :: Bound(s, now, id, c) {
      KeptPending(t, now, id);
      var address := Normalise(t.users[id].pendingEmail.value);
      var k := KeeperAt(t, now, address).value;
      NormaliseIdempotent(t.users[id].pendingEmail.value);
      KeptGroup(t, now, address, k);
      SameTaken(t, now, address);
      KeptClaim(t, now, address);
      assert MatchesAt(t, now, address, id, k.code);
      assert Bound(s, now, id, k.code);
    }
  }

  // ---------- Bound tables are a fixed point ----------

  lemma BoundIsKept(t: Tables, now: Time, id: Id, c: Id)
    requires Bound(t, now, id, c)
    ensures var address := t.users[id].pendingEmail.value;
      && KeeperAt(t, now, address) == Some(Keeper(id, c))
      && !Conflicts(t, now, address)
      && KeepsPending(t, now, id)
      && KeepsCode(t, now, c)
  {
    var address := t.users[id].pendingEmail.value;
    assert c in CodesAt(t.codes, address) && id in GroupAt(t.users, address);
    assert MatchesAt(t, now, address, id, c);
    forall i, d | MatchesAt(t, now, address, i, d) ensures i == id && d == c {
      assert i in GroupAt(t.users, address) && d in CodesAt(t.codes, address);
    }
    KeeperIsUnique(t, now, address, Keeper(id, c));
  }

  lemma BoundAddress(t: Tables, now: Time, address: string) returns (id: Id, c: Id)
    requires AllBound(t, now) && address in PendingAddresses(t.users)
    ensures Bound(t, now, id, c) && t.users[id].pendingEmail == Some(address)
  {
    id :| id in t.users && t.users[id].pendingEmail.Some? && Normalise(t.users[id].pendingEmail.value) == address;
    assert id in Pending(t.users);
    c :| Bound(t, now, id, c);
  }

  /** Running again at the same moment meets no conflict, changes no row and clears nobody. */
  lemma BoundTablesAreFixed(t: Tables, now: Time)
    requires AllBound(t, now)
    ensures NoConflict(t, now)
    ensures Backfilled(t, now) == t
    ensures forall reason :: ClearedFor(t, now, PendingAddresses(t.users), reason) == {}
  {
    forall address | address in PendingAddresses(t.users)
      ensures !Conflicts(t, now, address) && (ClaimAt(t, now, address).Some? ==> address in t.claims)
    {
      var id, c := BoundAddress(t, now, address);
      BoundIsKept(t, now, id, c);
    }
    forall id | id in Pending(t.users)
      ensures KeepsPending(t, now, id) && Canonical(t.users[id].pendingEmail.value)
    {
      var c :| Bound(t, now, id, c);
      BoundIsKept(t, now, id, c);
    }
    forall c | c in t.codes && CodeConcerns(t.codes[c], PendingAddresses(t.users))
      ensures KeepsCode(t, now, c) && Canonical(t.codes[c].email)
    {
      var address := Normalise(t.codes[c].email);
      var id, d := BoundAddress(t, now, address);
      BoundIsKept(t, now, id, d);
      assert c in CodesAt(t.codes, address);
    }
    assert SettledUsers(t, now, PendingAddresses(t.users)) == t.users;
    assert SettledCodes(t, now, PendingAddresses(t.users)) == t.codes;
    assert SettledClaims(t, now, PendingAddresses(t.users)) == t.claims;
  }

  // ---------- Conservation ----------

  lemma KeptOrClearedFor(t: Tables, now: Time, id: Id)
    requires id in Pending(t.users)
    ensures var all := PendingAddresses(t.users);
      && (id in Pending(Backfilled(t, now).users) <==> KeepsPending(t, now, id))
      && forall reason :: id in ClearedFor(t, now, all, reason) <==>
           !KeepsPending(t, now, id) && reason == ReasonAt(t, Normalise(t.users[id].pendingEmail.value))
  {
    assert Normalise(t.users[id].pendingEmail.value) in PendingAddresses(t.users);
  }

  lemma PendingSplits(t: Tables, now: Time)
    ensures var all := PendingAddresses(t.users);
      var kept := Pending(Backfilled(t, now).users);
      var cleared :=
        ClearedFor(t, now, all, Taken) + ClearedFor(t, now, all, Ambiguous) + ClearedFor(t, now, all, Codeless);
      Pending(t.users) == kept + cleared && kept !! cleared
  {
    forall id ensures id in Pending(Backfilled(t, now).users) ==> id in Pending(t.users) {
      if id in Pending(Backfilled(t, now).users) {
        KeptPending(t, now, id);
      }
    }
    forall id | id in Pending(t.users)
      ensures id in Pending(Backfilled(t, now).users) <==>
        forall reason :: id !in ClearedFor(t, now, PendingAddresses(t.users), reason)
    {
      KeptOrClearedFor(t, now, id);
      var reason := ReasonAt(t, Normalise(t.users[id].pendingEmail.value));
      assert id in ClearedFor(t, now, PendingAddresses(t.users), reason) <==> !KeepsPending(t, now, id);
    }
    ClearedApart(t, now, PendingAddresses(t.users));
  }

  /** Every account that had a pending address keeps it or is cleared for exactly one reason. */
  lemma PendingIsKeptOrCleared(t: Tables, now: Time)
    ensures var all := PendingAddresses(t.users);
      |Pending(t.users)| == |Pending(Backfilled(t, now).users)| + |ClearedFor(t, now, all, Taken)|
        + |ClearedFor(t, now, all, Ambiguous)| + |ClearedFor(t, now, all, Codeless)|
  {
    PendingSplits(t, now);
    ClearedApart(t, now, PendingAddresses(t.users));
  }

  lemma ClearedApart(t: Tables, now: Time, done: set<string>)
    ensures ClearedFor(t, now, done, Taken) !! ClearedFor(t, now, done, Ambiguous) !! ClearedFor(t, now, done, Codeless)
    ensures forall reason :: ClearedFor(t, now, done, reason) <= Pending(t.users)
  {}

  lemma {:induction false} OneAddressEach(users: map<Id, User>, ids: set<Id>, addresses: set<string>)
    requires ids <= users.Keys
    requires forall id :: id in ids ==> users[id].pendingEmail.Some?
    requires forall id, other :: id in ids && other in ids && id != other ==>
      users[id].pendingEmail != users[other].pendingEmail
    requires addresses == set id | id in ids :: users[id].pendingEmail.value
    ensures |ids| == |addresses|
  {
    if id :| id in ids {
      var address := users[id].pendingEmail.value;
      OneAddressEach(users, ids - {id}, addresses - {address});
    }
  }

  lemma BoundAddressesDiffer(t: Tables, now: Time, id: Id, other: Id)
    requires AllBound(t, now) && id in Pending(t.users) && other in Pending(t.users) && id != other
    ensures t.users[id].pendingEmail != t.users[other].pendingEmail
  {
    var c :| Bound(t, now, id, c);
    var d :| Bound(t, now, other, d);
    assert other !in GroupAt(t.users, t.users[id].pendingEmail.value);
  }

  lemma ClaimedAddressIsPending(t: Tables, now: Time, address: string) returns (id: Id)
    requires t.claims == map[] && address in Backfilled(t, now).claims
    ensures id in Pending(Backfilled(t, now).users)
    ensures Backfilled(t, now).users[id].pendingEmail == Some(address)
  {
    assert address in PendingAddresses(t.users) && ClaimAt(t, now, address).Some?;
    var k := KeeperAt(t, now, address).value;
    id := k.user;
    assert MatchesAt(t, now, address, k.user, k.code);
    KeptOrClearedFor(t, now, id);
    KeptPending(t, now, id);
  }

  lemma OneClaimPerPendingAccount(t: Tables, now: Time)
    requires AllBound(t, now)
    requires forall address :: address in t.claims ==>
      exists id :: id in Pending(t.users) && t.users[id].pendingEmail == Some(address)
    ensures |t.claims| == |Pending(t.users)|
  {
    var ids := Pending(t.users);
    forall id, other | id in ids && other in ids && id != other
      ensures t.users[id].pendingEmail != t.users[other].pendingEmail
    {
      BoundAddressesDiffer(t, now, id, other);
    }
    forall id | id in ids ensures t.users[id].pendingEmail.value in t.claims {
      var c :| Bound(t, now, id, c);
    }
    assert t.claims.Keys == set id | id in ids :: t.users[id].pendingEmail.value;
    OneAddressEach(t.users, ids, t.claims.Keys);
  }

  /** From a ledger without claims, the claims written are the accounts that keep a pending address. */
  lemma ClaimsWrittenAreAccountsKept(t: Tables, now: Time)
    requires t.claims == map[]
    ensures |Backfilled(t, now).claims| == |Pending(Backfilled(t, now).users)|
  {
    var s := Backfilled(t, now);
    BackfillBindsEveryPendingAddress(t, now);
    forall address | address in s.claims
      ensures exists id :: id in Pending(s.users) && s.users[id].pendingEmail == Some(address)
    {
      var id := ClaimedAddressIsPending(t, now, address);
    }
    OneClaimPerPendingAccount(s, now);
  }
}
