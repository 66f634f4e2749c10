/**
 What the backfill does to each row, told by the rows' own fields: who keeps a pending address, which
 code and which claim go with it, and why the others are cleared.
 */
module LedgerMeaning {
  import opened Options
  import opened Addresses
  import opened LedgerTables
  import opened LedgerTheorems
  import opened LedgerBackfill

  predicate IsPending(t: Tables, id: Id) {
    id in t.users && t.users[id].pendingEmail.Some?
  }

  /** A code mailed for this pending address, to this account as it is now, and not lapsed. */
  ghost predicate IsLiveCode(t: Tables, now: Time, id: Id, c: Id) {
    && IsPending(t, id) && c in t.codes
    && t.codes[c].purpose == "email-change"
    && SpelledAlike(t.codes[c].email, t.users[id].pendingEmail.value)
    && t.codes[c].userId == Some(id)
    && t.codes[c].generation == Some(if t.users[id].generation.Some? then t.users[id].generation.value else 0)
    && t.codes[c].expiresAt.Some? && now < t.codes[c].expiresAt.value
  }

  /** Two accounts wait for one address, whatever the spelling. */
  ghost predicate WantTheSame(t: Tables, id: Id, other: Id) {
    IsPending(t, id) && IsPending(t, other) && SpelledAlike(t.users[other].pendingEmail.value, t.users[id].pendingEmail.value)
  }

  ghost predicate HasOwner(t: Tables, address: string) {
    exists other: Id :: other in t.users && t.users[other].email == Some(address)
  }

  ghost predicate HasLiveCode(t: Tables, now: Time, id: Id) {
    exists c: Id :: IsLiveCode(t, now, id, c)
  }

  /** Nobody has the address, and of all who wait for it only this account has a live code. */
  ghost predicate Keeps(t: Tables, now: Time, id: Id) {
    && IsPending(t, id)
    && !HasOwner(t, Normalise(t.users[id].pendingEmail.value))
    && HasLiveCode(t, now, id)
    && forall other: Id :: other != id && WantTheSame(t, id, other) ==> !HasLiveCode(t, now, other)
  }

  /** Of the account's live codes the one that lapses last; of two, the one stored later. */
  ghost predicate IsLastCode(t: Tables, now: Time, id: Id, c: Id) {
    && IsLiveCode(t, now, id, c)
    && forall d: Id :: IsLiveCode(t, now, id, d) ==>
         t.codes[d].expiresAt.value < t.codes[c].expiresAt.value
         || (t.codes[d].expiresAt.value == t.codes[c].expiresAt.value && d <= c)
  }

  lemma LiveIsMatching(t: Tables, now: Time, id: Id, c: Id, address: string)
    requires IsPending(t, id) && Normalise(t.users[id].pendingEmail.value) == address
    ensures IsLiveCode(t, now, id, c) <==> MatchesAt(t, now, address, id, c)
  {
    hide Normalise, SpelledAlike;
    if c in t.codes { OneFormExactlyWhenAlike(t.codes[c].email, t.users[id].pendingEmail.value); }
  }

  lemma WantingIsGroup(t: Tables, id: Id, other: Id)
    requires IsPending(t, id)
    ensures WantTheSame(t, id, other) <==> PendingAt(t.users, other, Normalise(t.users[id].pendingEmail.value))
  {
    hide Normalise, SpelledAlike;
    if IsPending(t, other) { OneFormExactlyWhenAlike(t.users[other].pendingEmail.value, t.users[id].pendingEmail.value); }
  }

  lemma LastIsBest(t: Tables, now: Time, id: Id, c: Id, address: string)
    requires IsPending(t, id) && Normalise(t.users[id].pendingEmail.value) == address
    ensures IsLastCode(t, now, id, c) <==> IsBestCode(t, now, address, id, c)
  {
    hide Normalise, SpelledAlike, IsLiveCode, MatchesAt;
    forall d: Id ensures IsLiveCode(t, now, id, d) <==> MatchesAt(t, now, address, id, d) {
      LiveIsMatching(t, now, id, d, address);
    }
    LiveHasDate(t, now, id);
  }

  lemma LiveHasDate(t: Tables, now: Time, id: Id)
    ensures forall d: Id :: IsLiveCode(t, now, id, d) ==> d in t.codes && t.codes[d].expiresAt.Some?
  {}

  /** Of finitely many codes one lapses last. */
  lemma {:induction false} LastExists(codes: map<Id, Code>, among: set<Id>) returns (last: Id)
    requires among != {} && forall c :: c in among ==> c in codes && codes[c].expiresAt.Some?
    ensures last in among
    ensures forall d: Id :: d in among ==>
      codes[d].expiresAt.value < codes[last].expiresAt.value
      || (codes[d].expiresAt.value == codes[last].expiresAt.value && d <= last)
  {
    var c :| c in among;
    last := c;
    if among != {c} {
      var rest := LastExists(codes, among - {c});
      if codes[c].expiresAt.value < codes[rest].expiresAt.value
        || (codes[c].expiresAt.value == codes[rest].expiresAt.value && c <= rest)
      {
        last := rest;
      }
      assert among == (among - {c}) + {c};
    } else {
      assert forall d: Id :: d in among ==> d == c;
    }
  }

  lemma LastCodeExists(t: Tables, now: Time, id: Id)
    requires HasLiveCode(t, now, id)
    ensures exists c: Id :: IsLastCode(t, now, id, c)
  {
    hide IsLiveCode;
    LiveHasDate(t, now, id);
    var among := set c | c in t.codes && IsLiveCode(t, now, id, c);
    var some: Id :| IsLiveCode(t, now, id, some);
    assert some in among;
    var last := LastExists(t.codes, among);
    assert IsLastCode(t, now, id, last);
  }

  /** The keeper of the address is the account that keeps it, with its last code. */
  lemma KeeperIs(t: Tables, now: Time, id: Id, address: string)
    requires IsPending(t, id) && Normalise(t.users[id].pendingEmail.value) == address
    ensures Keeps(t, now, id) <==> KeeperAt(t, now, address).Some? && KeeperAt(t, now, address).value.user == id
    ensures Keeps(t, now, id) ==> IsLastCode(t, now, id, KeeperAt(t, now, address).value.code)
  {
    hide Normalise, IsLiveCode, MatchesAt, IsLastCode, IsBestCode, WantTheSame, PendingAt;
    forall other: Id ensures WantTheSame(t, id, other) <==> PendingAt(t.users, other, address) {
      WantingIsGroup(t, id, other);
    }
    forall other: Id, c: Id | PendingAt(t.users, other, address)
      ensures IsLiveCode(t, now, other, c) <==> MatchesAt(t, now, address, other, c)
    {
      PendingTells(t, other, address);
      LiveIsMatching(t, now, other, c, address);
    }
    forall other: Id, c: Id | MatchesAt(t, now, address, other, c) ensures PendingAt(t.users, other, address) {
      MatchingTells(t, now, address, other, c);
    }
    assert HasOwner(t, address) <==> IsTaken(t.users, address);
    PendingSelf(t, id, address);
    var keeper := KeeperAt(t, now, address);
    if keeper.Some? && keeper.value.user == id {
      BestIsLive(t, now, address, id, keeper.value.code);
      assert IsLiveCode(t, now, id, keeper.value.code);
    }
    if Keeps(t, now, id) {
      LastCodeExists(t, now, id);
      var c: Id :| IsLastCode(t, now, id, c);
      LastIsBest(t, now, id, c, address);
      assert forall other: Id, d: Id :: MatchesAt(t, now, address, other, d) ==> other == id;
      KeeperIsUnique(t, now, address, Keeper(id, c));
    }
  }

  lemma PendingTells(t: Tables, id: Id, address: string)
    requires PendingAt(t.users, id, address)
    ensures IsPending(t, id) && Normalise(t.users[id].pendingEmail.value) == address
  {}

  lemma PendingSelf(t: Tables, id: Id, address: string)
    requires IsPending(t, id) && Normalise(t.users[id].pendingEmail.value) == address
    ensures PendingAt(t.users, id, address)
  {}

  lemma MatchingTells(t: Tables, now: Time, address: string, id: Id, c: Id)
    requires MatchesAt(t, now, address, id, c)
    ensures PendingAt(t.users, id, address)
  {}

  lemma BestIsLive(t: Tables, now: Time, address: string, id: Id, c: Id)
    requires IsBestCode(t, now, address, id, c)
    ensures MatchesAt(t, now, address, id, c)
  {}

  // ---------- The rows after the backfill ----------

  /** A pending address is kept, in its normal form, by exactly the accounts that keep theirs, and cleared for the rest. */
  lemma UsersAfter(t: Tables, now: Time, id: Id)
    requires id in t.users
    ensures var after := Backfilled(t, now).users;
      && id in after
      && after[id] == t.users[id].(
           pendingEmail := if Keeps(t, now, id) then Some(Normalise(t.users[id].pendingEmail.value)) else None)
  {
    hide Normalise, KeeperAt;
    if IsPending(t, id) { KeeperIs(t, now, id, Normalise(t.users[id].pendingEmail.value)); }
  }

  /** The code is for an address some account waits for. */
  ghost predicate IsConcerned(t: Tables, c: Id) {
    && c in t.codes && t.codes[c].purpose == "email-change"
    && exists id: Id :: IsPending(t, id) && SpelledAlike(t.codes[c].email, t.users[id].pendingEmail.value)
  }

  ghost predicate IsKeptCode(t: Tables, now: Time, c: Id) {
    exists id: Id :: Keeps(t, now, id) && IsLastCode(t, now, id, c)
  }

  lemma ConcernedIs(t: Tables, c: Id)
    requires c in t.codes
    ensures IsConcerned(t, c) <==> CodeConcerns(t.codes[c], PendingAddresses(t.users))
  {
    hide Normalise, SpelledAlike;
    forall id: Id | IsPending(t, id)
      ensures SpelledAlike(t.codes[c].email, t.users[id].pendingEmail.value) <==>
        Normalise(t.codes[c].email) == Normalise(t.users[id].pendingEmail.value)
    {
      OneFormExactlyWhenAlike(t.codes[c].email, t.users[id].pendingEmail.value);
    }
  }

  lemma KeptCodeIs(t: Tables, now: Time, c: Id)
    requires IsConcerned(t, c)
    ensures IsKeptCode(t, now, c) <==> KeepsCode(t, now, c)
  {
    hide Normalise, SpelledAlike, KeeperAt, Keeps, IsLastCode;
    var address := Normalise(t.codes[c].email);
    if KeepsCode(t, now, c) {
      var k := KeeperAt(t, now, address).value;
      KeeperWaits(t, now, address);
      KeeperIs(t, now, k.user, address);
      assert Keeps(t, now, k.user) && IsLastCode(t, now, k.user, c);
    }
    if IsKeptCode(t, now, c) {
      var id: Id :| Keeps(t, now, id) && IsLastCode(t, now, id, c);
      KeptTells(t, now, id, c);
      KeeperIs(t, now, id, address);
      TwoLastAreOne(t, now, id, c, KeeperAt(t, now, address).value.code);
    }
  }

  lemma KeeperWaits(t: Tables, now: Time, address: string)
    requires KeeperAt(t, now, address).Some?
    ensures var id := KeeperAt(t, now, address).value.user;
      IsPending(t, id) && Normalise(t.users[id].pendingEmail.value) == address
  {}

  lemma KeptTells(t: Tables, now: Time, id: Id, c: Id)
    requires Keeps(t, now, id) && IsLastCode(t, now, id, c)
    ensures IsPending(t, id) && c in t.codes && t.codes[c].purpose == "email-change"
    ensures Normalise(t.codes[c].email) == Normalise(t.users[id].pendingEmail.value)
  {
    OneFormExactlyWhenAlike(t.codes[c].email, t.users[id].pendingEmail.value);
  }

  lemma TwoLastAreOne(t: Tables, now: Time, id: Id, c: Id, d: Id)
    requires IsLastCode(t, now, id, c) && IsLastCode(t, now, id, d)
    ensures c == d
  {
    hide IsLiveCode;
    LiveHasDate(t, now, id);
  }

  /** Of the codes for pending addresses exactly each keeper's last one is left, under the normal form; all others stay. */
  lemma CodesAfter(t: Tables, now: Time, c: Id)
    ensures var after := Backfilled(t, now).codes;
      && (c in after <==> c in t.codes && (IsConcerned(t, c) ==> IsKeptCode(t, now, c)))
      && (c in after ==> after[c] == if IsConcerned(t, c) then t.codes[c].(email := Normalise(t.codes[c].email)) else t.codes[c])
  {
    hide Normalise, IsConcerned, IsKeptCode, KeepsCode, CodeConcerns;
    if c in t.codes {
      ConcernedIs(t, c);
      if IsConcerned(t, c) { KeptCodeIs(t, now, c); }
    }
  }

  /** The claim an account that keeps its address is owed. */
  ghost predicate IsOwed(t: Tables, now: Time, address: string, claim: Claim) {
    exists id: Id, c: Id :: IsOwedTo(t, now, address, claim, id, c)
  }

  /** In the account's name, for as long as its last code is good. */
  ghost predicate IsOwedTo(t: Tables, now: Time, address: string, claim: Claim, id: Id, c: Id) {
    && Keeps(t, now, id) && IsLastCode(t, now, id, c) && Normalise(t.users[id].pendingEmail.value) == address
    && claim.kind == "EMAIL_CHANGE" && claim.owner == Account(id) && t.codes[c].expiresAt == Some(claim.lapsesAt)
  }

  lemma OwedTells(t: Tables, now: Time, address: string, claim: Claim, id: Id, c: Id)
    requires IsOwedTo(t, now, address, claim, id, c)
    ensures Keeps(t, now, id) && IsLastCode(t, now, id, c) && IsPending(t, id) && c in t.codes
    ensures Normalise(t.users[id].pendingEmail.value) == address
    ensures claim.kind == "EMAIL_CHANGE" && claim.owner == Account(id) && t.codes[c].expiresAt == Some(claim.lapsesAt)
  {}

  lemma OwedToKeeper(t: Tables, now: Time, address: string, claim: Claim, id: Id, c: Id)
    requires Keeps(t, now, id) && IsLastCode(t, now, id, c) && IsPending(t, id) && c in t.codes
    requires Normalise(t.users[id].pendingEmail.value) == address
    requires claim.kind == "EMAIL_CHANGE" && claim.owner == Account(id) && t.codes[c].expiresAt == Some(claim.lapsesAt)
    ensures IsOwed(t, now, address, claim)
  {
    assert IsOwedTo(t, now, address, claim, id, c);
  }

  lemma OwedIs(t: Tables, now: Time, address: string, claim: Claim)
    ensures IsOwed(t, now, address, claim) <==> ClaimAt(t, now, address) == Some(claim)
  {
    hide Normalise, KeeperAt, Keeps, IsLastCode, IsOwedTo;
    if ClaimAt(t, now, address) == Some(claim) {
      var k := KeeperAt(t, now, address).value;
      KeeperWaits(t, now, address);
      KeeperIs(t, now, k.user, address);
      LastTells(t, now, k.user, k.code);
      OwedToKeeper(t, now, address, claim, k.user, k.code);
    }
    if IsOwed(t, now, address, claim) {
      var id: Id, c: Id :| IsOwedTo(t, now, address, claim, id, c);
      OwedTells(t, now, address, claim, id, c);
      KeeperIs(t, now, id, address);
      TwoLastAreOne(t, now, id, c, KeeperAt(t, now, address).value.code);
    }
  }

  lemma LastTells(t: Tables, now: Time, id: Id, c: Id)
    requires IsLastCode(t, now, id, c)
    ensures c in t.codes && t.codes[c].expiresAt.Some?
  {}

  /** Every claim stays, and every address that is owed one and had none gets it. */
  lemma ClaimsAfter(t: Tables, now: Time, address: string, claim: Claim)
    ensures var after := Backfilled(t, now).claims;
      address in after && after[address] == claim <==>
        if address in t.claims then t.claims[address] == claim else IsOwed(t, now, address, claim)
  {
    hide Normalise, IsOwed;
    OwedIs(t, now, address, claim);
    if ClaimAt(t, now, address).Some? { OwedIsPending(t, now, address); }
  }

  lemma OwedIsPending(t: Tables, now: Time, address: string)
    requires ClaimAt(t, now, address).Some?
    ensures address in PendingAddresses(t.users)
  {
    KeeperWaits(t, now, address);
  }

  /** A claim conflicts exactly when the address is owed a claim and has one of another kind, owner or lapse. */
  lemma ConflictIs(t: Tables, now: Time, address: string)
    ensures Conflicts(t, now, address) <==>
      address in t.claims && !IsOwed(t, now, address, t.claims[address]) && exists claim :: IsOwed(t, now, address, claim)
  {
    hide Normalise, IsOwed;
    if address in t.claims { OwedIs(t, now, address, t.claims[address]); }
    forall claim ensures IsOwed(t, now, address, claim) <==> ClaimAt(t, now, address) == Some(claim) {
      OwedIs(t, now, address, claim);
    }
    if ClaimAt(t, now, address).Some? { assert IsOwed(t, now, address, ClaimAt(t, now, address).value); }
  }

  /** Another account waits for the address too. */
  ghost predicate IsContested(t: Tables, id: Id) {
    exists other: Id :: other != id && WantTheSame(t, id, other)
  }

  lemma ContestedIs(t: Tables, id: Id)
    requires IsPending(t, id)
    ensures IsContested(t, id) <==> |GroupAt(t.users, Normalise(t.users[id].pendingEmail.value))| > 1
  {
    hide Normalise, WantTheSame, PendingAt;
    var address := Normalise(t.users[id].pendingEmail.value);
    var group := GroupAt(t.users, address);
    forall other: Id ensures WantTheSame(t, id, other) <==> other in group {
      WantingIsGroup(t, id, other);
      InGroup(t, other, address);
    }
    PendingSelf(t, id, address);
    assert id in group;
    if other: Id :| other != id && other in group {
      assert {id, other} <= group && |{id, other}| == 2;
      assert group == {id, other} + (group - {id, other});
    } else {
      assert group == {id};
    }
  }

  lemma InGroup(t: Tables, id: Id, address: string)
    ensures id in GroupAt(t.users, address) <==> PendingAt(t.users, id, address)
  {}

  /** Who is cleared for which reason: somebody has the address, somebody else waits for it, or neither. */
  lemma ClearedMeans(t: Tables, now: Time, id: Id, reason: Reason)
    ensures id in ClearedFor(t, now, PendingAddresses(t.users), reason) <==>
      && IsPending(t, id) && !Keeps(t, now, id)
      && reason == (if HasOwner(t, Normalise(t.users[id].pendingEmail.value)) then Taken
                    else if IsContested(t, id) then Ambiguous
                    else Codeless)
  {
    hide Normalise, KeeperAt, Keeps;
    if IsPending(t, id) {
      KeeperIs(t, now, id, Normalise(t.users[id].pendingEmail.value));
      ContestedIs(t, id);
      assert HasOwner(t, Normalise(t.users[id].pendingEmail.value)) <==> IsTaken(t.users, Normalise(t.users[id].pendingEmail.value));
    }
  }

  /** The accounts that lose their pending address for the reason. */
  ghost function LosersFor(t: Tables, now: Time, reason: Reason): set<Id> {
    set id | id in t.users && IsPending(t, id) && !Keeps(t, now, id)
      && reason == (if HasOwner(t, Normalise(t.users[id].pendingEmail.value)) then Taken
                    else if IsContested(t, id) then Ambiguous
                    else Codeless)
  }

  /** What the migration reports: the rows of each kind, counted. */
  lemma CountsMean(t: Tables, now: Time)
    ensures var s := Backfilled(t, now);
      var counts := CountsAfter(ZERO_COUNTS, t, s, now, PendingAddresses(t.users));
      && counts.kept == |s.claims| - |t.claims| && counts.codesKilled == |t.codes| - |s.codes|
      && counts.clearedTaken == |LosersFor(t, now, Taken)|
      && counts.clearedAmbiguous == |LosersFor(t, now, Ambiguous)|
      && counts.clearedCodeless == |LosersFor(t, now, Codeless)|
  {
    hide Keeps, HasOwner, IsContested, Normalise, ClearedFor, Backfilled;
    LosersAreCleared(t, now, Taken);
    LosersAreCleared(t, now, Ambiguous);
    LosersAreCleared(t, now, Codeless);
  }

  lemma LosersAreCleared(t: Tables, now: Time, reason: Reason)
    ensures ClearedFor(t, now, PendingAddresses(t.users), reason) == LosersFor(t, now, reason)
  {
    hide Keeps, HasOwner, IsContested, Normalise;
    forall id: Id ensures id in ClearedFor(t, now, PendingAddresses(t.users), reason) <==> id in LosersFor(t, now, reason) {
      ClearedMeans(t, now, id, reason);
    }
  }
}
