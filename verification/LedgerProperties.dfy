/** Properties of `Settled`: addresses are settled independently, and what the result promises. */
module LedgerProperties {
  import opened Options
  import opened Addresses
  import opened LedgerTables

  // ---------- Settling one address does not disturb another ----------

  lemma OthersUntouched(t: Tables, now: Time, done: set<string>, address: string)
    requires address !in done
    ensures var s := Settled(t, now, done);
      && GroupAt(s.users, address) == GroupAt(t.users, address)
      && (forall id :: PendingAt(t.users, id, address) ==> s.users[id] == t.users[id])
      && (IsTaken(s.users, address) <==> IsTaken(t.users, address))
      && CodesAt(s.codes, address) == CodesAt(t.codes, address)
      && (forall c :: c in CodesAt(t.codes, address) ==> s.codes[c] == t.codes[c])
  {
    var s := Settled(t, now, done);
    forall id
      ensures PendingAt(s.users, id, address) <==> PendingAt(t.users, id, address)
      ensures PendingAt(t.users, id, address) ==> s.users[id] == t.users[id]
    {
      if id in t.users && t.users[id].pendingEmail.Some? {
        NormaliseIdempotent(t.users[id].pendingEmail.value);
      }
    }
    forall c
      ensures c in CodesAt(s.codes, address) <==> c in CodesAt(t.codes, address)
      ensures c in CodesAt(t.codes, address) ==> s.codes[c] == t.codes[c]
    {
      if c in t.codes {
        NormaliseIdempotent(t.codes[c].email);
      }
    }
    if IsTaken(t.users, address) {
      var id :| id in t.users && t.users[id].email == Some(address);
      assert s.users[id].email == Some(address);
    }
  }

  lemma SameMatches(t: Tables, now: Time, done: set<string>, address: string, id: Id, c: Id)
    requires address !in done
    ensures MatchesAt(Settled(t, now, done), now, address, id, c) <==> MatchesAt(t, now, address, id, c)
  {
    OthersUntouched(t, now, done, address);
    assert PendingAt(t.users, id, address) <==> id in GroupAt(t.users, address);
    assert PendingAt(Settled(t, now, done).users, id, address) <==> id in GroupAt(Settled(t, now, done).users, address);
    assert c in CodesAt(t.codes, address) <==> c in CodesAt(Settled(t, now, done).codes, address);
  }

  lemma SameKeeper(t: Tables, now: Time, done: set<string>, address: string)
    requires address !in done
    ensures KeeperAt(Settled(t, now, done), now, address) == KeeperAt(t, now, address)
  {
    var s := Settled(t, now, done);
    OthersUntouched(t, now, done, address);
    forall id, c ensures MatchesAt(s, now, address, id, c) <==> MatchesAt(t, now, address, id, c) {
      SameMatches(t, now, done, address, id, c);
    }
    forall c | c in CodesAt(t.codes, address) ensures s.codes[c] == t.codes[c] {}
    forall id, c | MatchesAt(t, now, address, id, c)
      ensures c in CodesAt(t.codes, address) && c in s.codes && s.codes[c] == t.codes[c]
    {}
    forall k ensures IsKeeper(s, now, address, k) <==> IsKeeper(t, now, address, k) {
      SameBest(s, t, now, address, k.user, k.code);
    }
    if k :| IsKeeper(t, now, address, k) {
      KeeperIsUnique(t, now, address, k);
      KeeperIsUnique(s, now, address, k);
    }
  }

  lemma SameBest(s: Tables, t: Tables, now: Time, address: string, id: Id, c: Id)
    requires forall i, d :: MatchesAt(s, now, address, i, d) <==> MatchesAt(t, now, address, i, d)
    requires forall i, d :: MatchesAt(t, now, address, i, d) ==> d in s.codes && s.codes[d] == t.codes[d]
    ensures IsBestCode(s, now, address, id, c) <==> IsBestCode(t, now, address, id, c)
  {}

  lemma ComposeOwnUser(t: Tables, now: Time, done: set<string>, address: string, id: Id)
    requires address !in done && PendingAt(t.users, id, address)
    ensures SettledUser(Settled(t, now, done), now, {address}, id) == SettledUser(t, now, done + {address}, id)
  {
    hide KeeperAt;
    OthersUntouched(t, now, done, address);
    SameKeeper(t, now, done, address);
  }

  lemma ComposeOtherUser(t: Tables, now: Time, done: set<string>, address: string, id: Id)
    requires address !in done && id in t.users && !PendingAt(t.users, id, address)
    ensures SettledUser(Settled(t, now, done), now, {address}, id) == SettledUser(t, now, done + {address}, id)
  {
    hide KeeperAt;
    if t.users[id].pendingEmail.Some? { NormaliseIdempotent(t.users[id].pendingEmail.value); }
  }

  lemma ComposeUsers(t: Tables, now: Time, done: set<string>, address: string)
    requires address !in done
    ensures SettledUsers(Settled(t, now, done), now, {address}) == SettledUsers(t, now, done + {address})
  {
    hide SettledUser, PendingAt;
    forall id | id in t.users
      ensures SettledUser(Settled(t, now, done), now, {address}, id) == SettledUser(t, now, done + {address}, id)
    {
      if PendingAt(t.users, id, address) {
        ComposeOwnUser(t, now, done, address, id);
      } else {
        ComposeOtherUser(t, now, done, address, id);
      }
    }
  }

  lemma ComposeCodes(t: Tables, now: Time, done: set<string>, address: string)
    requires address !in done
    ensures SettledCodes(Settled(t, now, done), now, {address}) == SettledCodes(t, now, done + {address})
  {
    var s := Settled(t, now, done);
    OthersUntouched(t, now, done, address);
    SameKeeper(t, now, done, address);
    forall c | c in t.codes
      ensures CodeSurvives(t, now, done + {address}, c) <==>
        CodeSurvives(t, now, done, c) && CodeSurvives(s, now, {address}, c)
      ensures CodeSurvives(t, now, done, c) ==>
        SettledCode(s, now, {address}, c) == SettledCode(t, now, done + {address}, c)
    {
      NormaliseIdempotent(t.codes[c].email);
      if IsAddressCode(t.codes[c], address) {
        assert c in CodesAt(t.codes, address);
      }
    }
  }

  lemma SameClaim(t: Tables, now: Time, done: set<string>, address: string)
    requires address !in done
    ensures ClaimAt(Settled(t, now, done), now, address) == ClaimAt(t, now, address)
  {
    OthersUntouched(t, now, done, address);
    SameKeeper(t, now, done, address);
    var keeper := KeeperAt(t, now, address);
    if keeper.Some? {
      assert keeper.value.code in CodesAt(t.codes, address);
    }
  }

  lemma WithClaimsComposes(
    claims: map<string, Claim>, done: set<string>, address: string,
    owed: string -> Option<Claim>, later: string -> Option<Claim>)
    requires owed(address) == later(address)
    ensures WithClaims(WithClaims(claims, done, owed), {address}, later) == WithClaims(claims, done + {address}, owed)
  {}

  lemma ComposeClaims(t: Tables, now: Time, done: set<string>, address: string)
    requires address !in done
    ensures SettledClaims(Settled(t, now, done), now, {address}) == SettledClaims(t, now, done + {address})
  {
    var s := Settled(t, now, done);
    SameClaim(t, now, done, address);
    WithClaimsComposes(t.claims, done, address, a => ClaimAt(t, now, a), a => ClaimAt(s, now, a));
  }

  /** Settling a set of addresses and then one more is settling them all at once. */
  lemma SettledComposes(t: Tables, now: Time, done: set<string>, address: string)
    requires address !in done
    ensures Settled(Settled(t, now, done), now, {address}) == Settled(t, now, done + {address})
  {
    ComposeUsers(t, now, done, address);
    ComposeCodes(t, now, done, address);
    ComposeClaims(t, now, done, address);
  }

  /** A conflict at an address is there before and after the others are settled, or not at all. */
  lemma SameConflict(t: Tables, now: Time, done: set<string>, address: string)
    requires address !in done
    ensures Conflicts(Settled(t, now, done), now, address) <==> Conflicts(t, now, address)
  {
    SameClaim(t, now, done, address);
  }

  lemma SettledNothing(t: Tables, now: Time)
    ensures Settled(t, now, {}) == t
  {
    assert SettledUsers(t, now, {}) == t.users;
    assert SettledCodes(t, now, {}) == t.codes;
    assert SettledClaims(t, now, {}) == t.claims;
  }

  lemma SameReason(t: Tables, now: Time, done: set<string>, address: string)
    requires address !in done
    ensures ReasonAt(Settled(t, now, done), address) == ReasonAt(t, address)
  {
    OthersUntouched(t, now, done, address);
  }

  lemma ClearedComposes(t: Tables, now: Time, done: set<string>, address: string, reason: Reason)
    requires address !in done
    ensures ClearedFor(t, now, done + {address}, reason) ==
      ClearedFor(t, now, done, reason) + ClearedFor(Settled(t, now, done), now, {address}, reason)
    ensures ClearedFor(t, now, done, reason) !! ClearedFor(Settled(t, now, done), now, {address}, reason)
  {
    var s := Settled(t, now, done);
    forall id | id in t.users
      ensures IsCleared(s, now, {address}, id, reason) <==> IsCleared(t, now, {address}, id, reason)
    {
      SameCleared(t, now, done, address, id, reason);
    }
    forall id
      ensures id in ClearedFor(s, now, {address}, reason) <==> id in t.users && IsCleared(t, now, {address}, id, reason)
    {}
  }

  lemma SameCleared(t: Tables, now: Time, done: set<string>, address: string, id: Id, reason: Reason)
    requires address !in done && id in t.users
    ensures IsCleared(Settled(t, now, done), now, {address}, id, reason) <==> IsCleared(t, now, {address}, id, reason)
  {
    OthersUntouched(t, now, done, address);
    SameKeeper(t, now, done, address);
    SameReason(t, now, done, address);
    if t.users[id].pendingEmail.Some? {
      NormaliseIdempotent(t.users[id].pendingEmail.value);
      assert PendingAt(t.users, id, address) <==> id in GroupAt(t.users, address);
    }
  }
}
