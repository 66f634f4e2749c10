/** What every step of every process keeps, and what each process may rely on meanwhile. */
module SignInInvariants {
  import opened Options
  import opened SignInSpec

  // ---------- The stores ----------

  ghost predicate IdsAreIssued(db: Db) {
    && (forall id :: id in db.accounts ==> id < db.nextId)
    && (forall hash :: hash in db.links ==> hash < db.nextToken)
  }

  ghost predicate UniqueAddresses(db: Db) {
    forall one, other :: one in db.accounts && other in db.accounts ==>
      db.accounts[one].email == db.accounts[other].email ==> one == other
  }

  ghost predicate UniqueIdentities(db: Db) {
    forall one, other, identity :: one in db.accounts && other in db.accounts ==>
      identity in db.accounts[one].identities && identity in db.accounts[other].identities ==> one == other
  }

  /** An address with a live claim has no account but the claimant's. */
  ghost predicate ClaimsExclude(db: Db) {
    forall address, id :: ClaimIsLive(db, address) && id in db.accounts && db.accounts[id].email == address ==>
      id == db.claims[address].owner
  }

  /** While a unit of work holds the claim row of an address, nobody else has or takes that address. */
  ghost predicate LocksExclude(db: Db) {
    && (forall email :: email in db.reserved ==> !ClaimIsLive(db, email))
    && (forall email, id :: email in db.reserved && id in db.accounts ==> db.accounts[id].email != email)
  }

  ghost function PendingAt(db: Db, email: string): Account
    requires IsPending(db, email)
  {
    db.reserved[email].account.value
  }

  /** What is inserted and not committed yet breaks no unique rule, whoever commits first. */
  ghost predicate PendingsFit(db: Db) {
    && (forall email :: IsPending(db, email) ==>
          PendingAt(db, email).email == email && PendingAt(db, email).verified && !PendingAt(db, email).deleted)
    && (forall email, id, identity :: IsPending(db, email) && id in db.accounts ==>
          identity in PendingAt(db, email).identities ==> identity !in db.accounts[id].identities)
    && (forall email, other, identity :: IsPending(db, email) && IsPending(db, other) ==>
          identity in PendingAt(db, email).identities && identity in PendingAt(db, other).identities ==>
          email == other)
  }

  ghost predicate StoresOk(db: Db) {
    && IdsAreIssued(db) && UniqueAddresses(db) && UniqueIdentities(db) && ClaimsExclude(db)
    && LocksExclude(db) && PendingsFit(db)
  }

  predicate AccountGrew(before: Account, after: Account) {
    && after.email == before.email
    && (before.verified ==> after.verified)
    && before.identities <= after.identities
  }

  predicate LinkAged(before: Link, after: Link) {
    && after.(consumedAt := before.consumedAt) == before
    && (before.consumedAt.Some? ==> after.consumedAt == before.consumedAt)
  }

  /** A later database: accounts stay and keep their address, and no link comes back or is unspent. */
  ghost predicate Extends(db: Db, after: Db) {
    && db.nextId <= after.nextId && db.nextToken <= after.nextToken && db.now <= after.now
    && (forall id :: id in db.accounts ==> id in after.accounts && AccountGrew(db.accounts[id], after.accounts[id]))
    && (forall hash :: hash in after.links ==>
      if hash in db.links then LinkAged(db.links[hash], after.links[hash]) else hash >= db.nextToken)
  }

  lemma ExtendsComposes(one: Db, two: Db, three: Db)
    requires IdsAreIssued(one) && Extends(one, two) && Extends(two, three)
    ensures Extends(one, three)
  {}

  // ---------- One write at a time ----------

  lemma FoundAt(db: Db, email: string)
    requires StoresOk(db)
    ensures var found := AccountAt(db, email);
      if found.Some? then found.value in db.accounts && db.accounts[found.value].email == email
      else forall id :: id in db.accounts ==> db.accounts[id].email != email
  {}

  lemma FoundOf(db: Db, identity: Identity)
    requires StoresOk(db)
    ensures var found := AccountOf(db, identity);
      if found.Some? then found.value in db.accounts && identity in db.accounts[found.value].identities
      else forall id :: id in db.accounts ==> identity !in db.accounts[id].identities
  {}

  lemma SameAccountsKeep(db: Db, after: Db)
    requires StoresOk(db) && IdsAreIssued(after)
    requires after.accounts == db.accounts && after.claims == db.claims && after.reserved == db.reserved
    requires after.now >= db.now
    ensures StoresOk(after)
  {
    assert forall address :: ClaimIsLive(after, address) ==> ClaimIsLive(db, address);
    assert forall email :: IsPending(after, email) <==> IsPending(db, email);
  }

  lemma InsertLinkKeeps(db: Db, link: Link)
    requires StoresOk(db)
    ensures StoresOk(InsertLink(db, link)) && Extends(db, InsertLink(db, link))
  {
    hide UniqueAddresses, UniqueIdentities, ClaimsExclude, LocksExclude, PendingsFit;
    SameAccountsKeep(db, InsertLink(db, link));
  }

  lemma SetSlotKeeps(db: Db, email: string, slot: Slot)
    requires StoresOk(db)
    ensures StoresOk(SetSlot(db, email, slot)) && Extends(db, SetSlot(db, email, slot))
    ensures StoresOk(SlotDropped(db, email)) && Extends(db, SlotDropped(db, email))
  {
    hide UniqueAddresses, UniqueIdentities, ClaimsExclude, LocksExclude, PendingsFit;
    SameAccountsKeep(db, SetSlot(db, email, slot));
    SameAccountsKeep(db, SlotDropped(db, email));
  }

  lemma ClaimLinkKeeps(db: Db, hash: Hash, now: int)
    requires StoresOk(db) && Unspent(db, hash)
    ensures StoresOk(ClaimLink(db, hash, now)) && Extends(db, ClaimLink(db, hash, now))
  {
    hide UniqueAddresses, UniqueIdentities, ClaimsExclude, LocksExclude, PendingsFit;
    SameAccountsKeep(db, ClaimLink(db, hash, now));
  }

  lemma TickKeeps(db: Db, elapsed: nat)
    requires StoresOk(db)
    ensures StoresOk(db.(now := db.now + elapsed)) && Extends(db, db.(now := db.now + elapsed))
  {
    hide UniqueAddresses, UniqueIdentities, ClaimsExclude, LocksExclude, PendingsFit;
    SameAccountsKeep(db, db.(now := db.now + elapsed));
  }

  lemma DropKeeps(db: Db, hash: Hash)
    requires StoresOk(db)
    ensures StoresOk(db.(links := db.links - {hash})) && Extends(db, db.(links := db.links - {hash}))
  {
    hide UniqueAddresses, UniqueIdentities, ClaimsExclude, LocksExclude, PendingsFit;
    SameAccountsKeep(db, db.(links := db.links - {hash}));
  }

  // ---------- An account rewritten ----------

  function Rewritten(db: Db, id: AccountId, account: Account): Db {
    db.(accounts := db.accounts[id := account])
  }

  /** No other account and no insert under way has any of these identities. */
  ghost predicate AreFreeFor(db: Db, id: AccountId, identities: set<Identity>) {
    && (forall other, identity :: other in db.accounts && other != id && identity in identities ==>
          identity !in db.accounts[other].identities)
    && (forall email, identity :: IsPending(db, email) && identity in identities ==>
          identity !in PendingAt(db, email).identities)
  }

  lemma RewritingKeepsAddresses(db: Db, id: AccountId, account: Account)
    requires id in db.accounts && account.email == db.accounts[id].email
    requires UniqueAddresses(db) && ClaimsExclude(db) && LocksExclude(db)
    ensures var after := Rewritten(db, id, account); UniqueAddresses(after) && ClaimsExclude(after) && LocksExclude(after)
  {}

  lemma RewritingKeepsIdentities(db: Db, id: AccountId, account: Account)
    requires id in db.accounts && UniqueIdentities(db) && AreFreeFor(db, id, account.identities)
    ensures UniqueIdentities(Rewritten(db, id, account))
  {}

  lemma RewritingKeepsPendings(db: Db, id: AccountId, account: Account)
    requires id in db.accounts && PendingsFit(db) && AreFreeFor(db, id, account.identities)
    ensures PendingsFit(Rewritten(db, id, account))
  {
    var after := Rewritten(db, id, account);
    assert forall email :: IsPending(after, email) <==> IsPending(db, email);
    assert forall email :: IsPending(db, email) ==> PendingAt(after, email) == PendingAt(db, email);
  }

  lemma RewritingExtends(db: Db, id: AccountId, account: Account)
    requires id in db.accounts && AccountGrew(db.accounts[id], account) && IdsAreIssued(db)
    ensures IdsAreIssued(Rewritten(db, id, account)) && Extends(db, Rewritten(db, id, account))
  {}

  /** An account rewritten with its own address and identities that are free for it. */
  lemma RewritingKeeps(db: Db, id: AccountId, account: Account)
    requires StoresOk(db) && id in db.accounts && AccountGrew(db.accounts[id], account)
    requires AreFreeFor(db, id, account.identities)
    ensures StoresOk(Rewritten(db, id, account)) && Extends(db, Rewritten(db, id, account))
  {
    hide UniqueAddresses, UniqueIdentities, ClaimsExclude, IdsAreIssued, Extends, AccountGrew;
    hide LocksExclude, PendingsFit, AreFreeFor, Rewritten;
    assert account.email == db.accounts[id].email by { GrownKeepsItsAddress(db.accounts[id], account); }
    RewritingKeepsAddresses(db, id, account);
    RewritingKeepsIdentities(db, id, account);
    RewritingKeepsPendings(db, id, account);
    RewritingExtends(db, id, account);
  }

  lemma GrownKeepsItsAddress(before: Account, after: Account)
    requires AccountGrew(before, after)
    ensures after.email == before.email
  {}

  lemma NothingRewritten(db: Db)
    ensures Extends(db, db)
  {}

  lemma OwnAreFree(db: Db, id: AccountId)
    requires StoresOk(db) && id in db.accounts
    ensures AreFreeFor(db, id, db.accounts[id].identities)
  {
    hide UniqueAddresses, ClaimsExclude, LocksExclude, IdsAreIssued;
  }

  lemma MarkVerifiedKeeps(db: Db, id: AccountId)
    requires StoresOk(db)
    ensures StoresOk(MarkVerified(db, id)) && Extends(db, MarkVerified(db, id))
  {
    hide StoresOk, Extends, AreFreeFor;
    NothingRewritten(db);
    if id in db.accounts {
      OwnAreFree(db, id);
      RewritingKeeps(db, id, db.accounts[id].(verified := true));
    }
  }

  lemma DeletedKeeps(db: Db, id: AccountId, deleted: bool)
    requires StoresOk(db)
    ensures StoresOk(Deleted(db, id, deleted)) && Extends(db, Deleted(db, id, deleted))
  {
    hide StoresOk, Extends, AreFreeFor;
    NothingRewritten(db);
    if id in db.accounts {
      OwnAreFree(db, id);
      RewritingKeeps(db, id, db.accounts[id].(deleted := deleted));
    }
  }

  lemma OneMoreIsFree(db: Db, id: AccountId, identity: Identity)
    requires id in db.accounts && AreFreeFor(db, id, db.accounts[id].identities)
    requires forall other :: other in db.accounts && other != id ==> identity !in db.accounts[other].identities
    requires !IdentityIsPending(db, identity)
    ensures AreFreeFor(db, id, db.accounts[id].identities + {identity})
  {}

  lemma LinkIdentityKeeps(db: Db, id: AccountId, identity: Identity)
    requires StoresOk(db) && !IdentityIsPending(db, identity)
    requires forall other :: other in db.accounts && other != id ==> identity !in db.accounts[other].identities
    ensures StoresOk(LinkIdentity(db, id, identity)) && Extends(db, LinkIdentity(db, id, identity))
  {
    hide StoresOk, Extends, AreFreeFor, IdentityIsPending;
    NothingRewritten(db);
    if id in db.accounts {
      var account := db.accounts[id];
      OwnAreFree(db, id);
      OneMoreIsFree(db, id, identity);
      RewritingKeeps(db, id, account.(verified := true, identities := account.identities + {identity}));
    }
  }

  // ---------- An account added ----------

  lemma AddingKeepsAddresses(db: Db, account: Account)
    requires StoresOk(db) && account.email !in db.reserved
    requires forall id :: id in db.accounts ==> db.accounts[id].email != account.email
    ensures var after := Added(db, account);
      IdsAreIssued(after) && UniqueAddresses(after) && ClaimsExclude(after) && LocksExclude(after)
  {
    hide UniqueIdentities, PendingsFit;
    assert forall address :: ClaimIsLive(Added(db, account), address) ==> ClaimIsLive(db, address);
  }

  lemma AddingKeepsIdentities(db: Db, account: Account)
    requires StoresOk(db) && AreFreeFor(db, db.nextId, account.identities)
    ensures var after := Added(db, account); UniqueIdentities(after) && PendingsFit(after)
  {
    hide UniqueAddresses, ClaimsExclude, LocksExclude;
    var after := Added(db, account);
    assert forall email :: IsPending(after, email) <==> IsPending(db, email);
    assert forall email :: IsPending(db, email) ==> PendingAt(after, email) == PendingAt(db, email);
  }

  lemma AddingExtends(db: Db, account: Account)
    requires IdsAreIssued(db)
    ensures Extends(db, Added(db, account))
  {}

  /** A new account at an address nobody has or holds, with identities nobody has. */
  lemma AddingKeeps(db: Db, account: Account)
    requires StoresOk(db) && account.email !in db.reserved && AreFreeFor(db, db.nextId, account.identities)
    requires forall id :: id in db.accounts ==> db.accounts[id].email != account.email
    ensures StoresOk(Added(db, account)) && Extends(db, Added(db, account))
  {
    hide UniqueAddresses, UniqueIdentities, ClaimsExclude, Extends, LocksExclude, PendingsFit, AreFreeFor, Added;
    AddingKeepsAddresses(db, account);
    AddingKeepsIdentities(db, account);
    AddingExtends(db, account);
  }

  lemma MadeKeeps(db: Db, email: string, verified: bool)
    requires StoresOk(db)
    ensures StoresOk(Made(db, email, verified)) && Extends(db, Made(db, email, verified))
  {
    hide StoresOk, Extends;
    NothingRewritten(db);
    FoundAt(db, email);
    if Made(db, email, verified) != db { AddingKeeps(db, Account(email, verified, false, {})); }
  }

  // ---------- The unit of work ----------

  /** The claim rows that other calls hold are as they were. */
  ghost predicate LocksKept(db: Db, after: Db, me: nat) {
    forall email :: email in db.reserved && db.reserved[email].owner != me ==>
      email in after.reserved && after.reserved[email] == db.reserved[email]
  }

  /** This call's unit of work holds the claim row of the address. */
  predicate HoldsRow(db: Db, email: string, me: nat) {
    email in db.reserved && db.reserved[email].owner == me
  }

  lemma SameTable(db: Db, after: Db)
    requires after.accounts == db.accounts
    ensures UniqueAddresses(after) <==> UniqueAddresses(db)
    ensures UniqueIdentities(after) <==> UniqueIdentities(db)
  {}

  ghost predicate NobodyHas(db: Db, identities: set<Identity>) {
    && (forall id, identity :: id in db.accounts && identity in identities ==> identity !in db.accounts[id].identities)
    && (forall email, identity :: IsPending(db, email) && identity in identities ==>
          identity !in PendingAt(db, email).identities)
  }

  function WithRow(db: Db, email: string, row: Reservation): Db {
    db.(reserved := db.reserved[email := row])
  }

  lemma RowKeepsPendings(db: Db, email: string, row: Reservation)
    requires PendingsFit(db)
    requires row.account.Some? ==>
      && row.account.value.email == email && row.account.value.verified && !row.account.value.deleted
      && NobodyHas(db, row.account.value.identities)
    ensures PendingsFit(WithRow(db, email, row))
  {
    var after := WithRow(db, email, row);
    assert forall other :: IsPending(after, other) && other != email ==>
      IsPending(db, other) && PendingAt(after, other) == PendingAt(db, other);
    assert row.account.Some? ==> PendingAt(after, email) == row.account.value;
  }

  lemma RowKeepsTheRest(db: Db, email: string, row: Reservation)
    requires IdsAreIssued(db) && ClaimsExclude(db) && LocksExclude(db)
    requires !ClaimIsLive(db, email) && forall id :: id in db.accounts ==> db.accounts[id].email != email
    ensures var after := WithRow(db, email, row);
      IdsAreIssued(after) && ClaimsExclude(after) && LocksExclude(after) && Extends(db, after)
  {
    NothingRewritten(db);
    assert forall other :: ClaimIsLive(WithRow(db, email, row), other) <==> ClaimIsLive(db, other);
  }

  /** A claim row written by an open unit of work, at an address that is free. */
  lemma RowKeeps(db: Db, email: string, row: Reservation)
    requires StoresOk(db)
    requires !ClaimIsLive(db, email) && forall id :: id in db.accounts ==> db.accounts[id].email != email
    requires row.account.Some? ==>
      && row.account.value.email == email && row.account.value.verified && !row.account.value.deleted
      && NobodyHas(db, row.account.value.identities)
    ensures StoresOk(WithRow(db, email, row)) && Extends(db, WithRow(db, email, row))
  {
    hide UniqueAddresses, UniqueIdentities, PendingsFit, IdsAreIssued, ClaimsExclude, LocksExclude, Extends, NobodyHas;
    SameTable(db, WithRow(db, email, row));
    RowKeepsPendings(db, email, row);
    RowKeepsTheRest(db, email, row);
  }

  lemma ReserveKeeps(db: Db, email: string, me: nat)
    requires StoresOk(db)
    ensures var (after, reserving) := Reserve(db, email, me);
      && StoresOk(after) && Extends(db, after) && LocksKept(db, after, me)
      && (reserving.Reserved? ==> HoldsRow(after, email, me))
      && after.accounts == db.accounts && after.links == db.links
  {
    hide StoresOk, Extends;
    FoundAt(db, email);
    NothingRewritten(db);
    if Reserve(db, email, me).1.Reserved? { RowKeeps(db, email, Reservation(me, None)); }
  }

  lemma RollbackKeeps(db: Db, email: string, me: nat)
    requires StoresOk(db)
    ensures var after := Rollback(db, email);
      && StoresOk(after) && Extends(db, after)
      && (HoldsRow(db, email, me) ==> LocksKept(db, after, me))
  {
    hide UniqueAddresses, UniqueIdentities;
    NothingRewritten(db);
    var after := Rollback(db, email);
    SameTable(db, after);
    assert forall other :: IsPending(after, other) ==> IsPending(db, other) && PendingAt(after, other) == PendingAt(db, other);
    assert forall other :: ClaimIsLive(after, other) <==> ClaimIsLive(db, other);
  }

  lemma PendingKeeps(db: Db, email: string, identities: set<Identity>, me: nat)
    requires StoresOk(db) && HoldsRow(db, email, me) && NobodyHas(db, identities)
    ensures var after := db.(reserved := db.reserved[email := Reservation(me, Some(Account(email, true, false, identities)))]);
      StoresOk(after) && Extends(db, after) && LocksKept(db, after, me)
  {
    hide StoresOk, Extends, NobodyHas;
    HeldRowExcludes(db, email, me);
    RowKeeps(db, email, Reservation(me, Some(Account(email, true, false, identities))));
  }

  /**
   The claim row excludes: whatever ran between the reservation and the insert, no account has the
   address, so the insert is never refused for it.
   */
  lemma InsertKeeps(db: Db, email: string, identities: set<Identity>, me: nat)
    requires StoresOk(db) && HoldsRow(db, email, me)
    ensures var (after, inserting) := Insert(db, email, identities, me);
      && StoresOk(after) && Extends(db, after) && LocksKept(db, after, me)
      && !inserting.AddressInUse?
      && (inserting.IdentityInUse? || inserting.RunAgain? ==> identities != {})
      && (inserting.Inserted? ==>
            HoldsRow(after, email, me) && after.reserved[email].account == Some(Account(email, true, false, identities)))
      && after.accounts == db.accounts && after.links == db.links
  {
    hide StoresOk, Extends, LocksKept;
    RollbackKeeps(db, email, me);
    HeldRowExcludes(db, email, me);
    if Insert(db, email, identities, me).1.Inserted? {
      FreeIsNobodys(db, identities);
      PendingKeeps(db, email, identities, me);
    }
  }

  lemma FreeIsNobodys(db: Db, identities: set<Identity>)
    requires forall id, identity :: id in db.accounts && identity in identities ==>
      identity !in db.accounts[id].identities
    requires forall identity :: identity in identities ==> !IdentityIsPending(db, identity)
    ensures NobodyHas(db, identities)
  {
    forall email, identity | IsPending(db, email) && identity in identities
      ensures identity !in PendingAt(db, email).identities
    {
      assert !IdentityIsPending(db, identity);
    }
  }

  lemma HeldRowExcludes(db: Db, email: string, me: nat)
    requires StoresOk(db) && HoldsRow(db, email, me)
    ensures !ClaimIsLive(db, email) && AccountAt(db, email).None?
    ensures forall id :: id in db.accounts ==> db.accounts[id].email != email
  {
    FoundAt(db, email);
  }

  lemma PendingIsFree(db: Db, email: string)
    requires StoresOk(db) && IsPending(db, email)
    ensures AreFreeFor(Rollback(db, email), db.nextId, PendingAt(db, email).identities)
    ensures PendingAt(db, email).email == email && PendingAt(db, email).verified
    ensures forall identity :: identity in PendingAt(db, email).identities ==> AccountOf(db, identity).None?
  {
    hide UniqueAddresses, UniqueIdentities, ClaimsExclude, LocksExclude;
    var after := Rollback(db, email);
    forall other, identity | IsPending(after, other) && identity in PendingAt(db, email).identities
      ensures identity !in PendingAt(after, other).identities
    {
      assert IsPending(db, other) && PendingAt(after, other) == PendingAt(db, other);
    }
    forall identity | identity in PendingAt(db, email).identities ensures AccountOf(db, identity).None? {
      FoundOf(db, identity);
    }
  }

  /** A commit adds exactly the inserted account, whose address and identities are still free. */
  lemma CommitKeeps(db: Db, email: string, commits: bool, me: nat)
    requires StoresOk(db) && HoldsRow(db, email, me) && IsPending(db, email)
    ensures var (after, id) := Commit(db, email, commits);
      && StoresOk(after) && Extends(db, after) && LocksKept(db, after, me)
      && id == (if commits then Some(db.nextId) else None)
      && db.nextId !in db.accounts
      && after.accounts == (if commits then db.accounts[db.nextId := PendingAt(db, email)] else db.accounts)
      && after.links == db.links && (commits ==> email !in after.claims)
  {
    hide StoresOk, Extends, LocksKept, AreFreeFor;
    RollbackKeeps(db, email, me);
    HeldRowExcludes(db, email, me);
    PendingIsFree(db, email);
    NewIdIsNew(db);
    if commits {
      AddingKeeps(Rollback(db, email), PendingAt(db, email));
      LocksOfAdded(db, email, me);
      AddedExtends(db, email);
    }
  }

  lemma NewIdIsNew(db: Db)
    requires StoresOk(db)
    ensures db.nextId !in db.accounts
  {}

  lemma LocksOfAdded(db: Db, email: string, me: nat)
    requires HoldsRow(db, email, me) && IsPending(db, email)
    ensures LocksKept(db, Added(Rollback(db, email), PendingAt(db, email)), me)
  {}

  lemma AddedExtends(db: Db, email: string)
    requires StoresOk(db) && IsPending(db, email)
    ensures Extends(db, Added(Rollback(db, email), PendingAt(db, email)))
  {
    hide UniqueAddresses, UniqueIdentities, ClaimsExclude, LocksExclude, PendingsFit;
  }

  lemma ClaimedKeeps(db: Db, address: string, claim: Claim)
    requires StoresOk(db)
    ensures StoresOk(Claimed(db, address, claim)) && Extends(db, Claimed(db, address, claim))
  {
    hide UniqueAddresses, UniqueIdentities;
    NothingRewritten(db);
    var after := Claimed(db, address, claim);
    SameTable(db, after);
    assert forall email :: IsPending(after, email) <==> IsPending(db, email);
    assert forall email :: IsPending(db, email) ==> PendingAt(after, email) == PendingAt(db, email);
    assert forall other :: other != address ==> (ClaimIsLive(after, other) <==> ClaimIsLive(db, other));
  }

  // ---------- What a process may rely on ----------

  predicate IsSpent(db: Db, hash: Hash) {
    hash < db.nextToken && (hash in db.links ==> db.links[hash].consumedAt.Some?)
  }

  predicate Known(db: Db, id: AccountId, email: string) {
    id in db.accounts && db.accounts[id].email == email
  }

  predicate Verified(db: Db, id: AccountId) {
    id in db.accounts && db.accounts[id].verified
  }

  /** The link was read, and came back to the browser that asked for it. */
  predicate CameBack(db: Db, visit: Visit, link: Link) {
    && !visit.confirm && visit.presented.Some? && link.nonceHash == visit.presented
    && visit.hash < db.nextToken
    && (visit.hash in db.links ==> db.links[visit.hash].(consumedAt := link.consumedAt) == link)
  }

  /** Why this visit may spend the link, for as long as the link is stored. */
  predicate Grounded(db: Db, visit: Visit, grounds: Grounds) {
    match grounds
    case Confirmed => visit.confirm
    case SameBrowser(session) =>
      && !visit.confirm && visit.presented.Some? && visit.hash < db.nextToken
      && (visit.hash in db.links ==> db.links[visit.hash].nonceHash == visit.presented)
      && (session.Some? && visit.hash in db.links ==> Known(db, session.value, db.links[visit.hash].email))
  }

  predicate SpentOk(db: Db, spent: Spent) {
    && IsSpent(db, spent.visit.hash)
    && Grounded(db, spent.visit, spent.grounds)
    && (spent.visit.hash in db.links ==> db.links[spent.visit.hash].email == spent.email)
    && (spent.grounds.SameBrowser? && spent.grounds.session.Some? ==>
      Known(db, spent.grounds.session.value, spent.email))
  }

  /** This call's insert is made and waits for its commit. */
  predicate HasInserted(db: Db, email: string, identities: set<Identity>, me: nat) {
    HoldsRow(db, email, me) && db.reserved[email].account == Some(Account(email, true, false, identities))
  }

  predicate ProcOk(db: Db, proc: Proc, me: nat) {
    match proc
    case AskingRecipient(_, _, _) => true
    case AskingSlot(_, _, _, _) => true
    case StoringLink(_, _, _, _) => true
    case LinkStored(_, hash, mailed) => mailed || IsSpent(db, hash)
    case AskingNativeSlot(_, _) => true
    case NativeCounted(_, _) => true
    case ReadingLink(visit) => !visit.confirm
    case AskingSession(visit, link) => CameBack(db, visit, link)
    case AskingOwner(visit, link, _) => CameBack(db, visit, link)
    case AwaitsConfirmation(visit, _) => !visit.confirm
    case ClaimingLink(visit, grounds) => Grounded(db, visit, grounds)
    case Resolving(spent) => SpentOk(db, spent)
    case MarkingVerified(spent, id) => SpentOk(db, spent) && Known(db, id, spent.email)
    case CreatingForLink(spent) => SpentOk(db, spent)
    case InsertingForLink(spent) => SpentOk(db, spent) && HoldsRow(db, spent.email, me)
    case CommittingForLink(spent) => SpentOk(db, spent) && HasInserted(db, spent.email, {}, me)
    case LostRace(spent, reservationTaken) => SpentOk(db, spent) && reservationTaken
    case Completing(spent, id) => SpentOk(db, spent) && Known(db, id, spent.email) && Verified(db, id)
    case SignedIn(spent, id) => SpentOk(db, spent) && Known(db, id, spent.email) && Verified(db, id)
    case FindingIdentity(_, _) => true
    case FindingAddress(_, _) => true
    case LinkingFirst(provider, profile, id) =>
      provider.autoLinksByEmail && Known(db, id, profile.email) && Verified(db, id)
    case CreatingForProvider(provider, _) => provider.autoLinksByEmail
    case InsertingForProvider(provider, profile) => provider.autoLinksByEmail && HoldsRow(db, profile.email, me)
    case CommittingForProvider(provider, profile) =>
      provider.autoLinksByEmail && HasInserted(db, profile.email, {IdentityOf(provider, profile)}, me)
    case Admitted(identity, id) => id in db.accounts && identity in db.accounts[id].identities
    case Failed(failure, held) => failure != AddressConflict && (held.Some? ==> IsSpent(db, held.value))
  }

  lemma VisitFactsStay(db: Db, after: Db, visit: Visit, link: Link, grounds: Grounds)
    requires Extends(db, after)
    ensures CameBack(db, visit, link) ==> CameBack(after, visit, link)
    ensures Grounded(db, visit, grounds) ==> Grounded(after, visit, grounds)
  {}

  lemma HashFactsStay(db: Db, after: Db, hash: Hash)
    requires Extends(db, after) && IsSpent(db, hash)
    ensures IsSpent(after, hash)
  {}

  lemma SpentFactsStay(db: Db, after: Db, spent: Spent)
    requires Extends(db, after) && SpentOk(db, spent)
    ensures SpentOk(after, spent)
  {
    hide Grounded;
    HashFactsStay(db, after, spent.visit.hash);
    VisitFactsStay(db, after, spent.visit, Link("", 0, None, None), spent.grounds);
  }

  lemma AccountFactsStay(db: Db, after: Db, id: AccountId, email: string)
    requires Extends(db, after)
    ensures Known(db, id, email) ==> Known(after, id, email)
    ensures Verified(db, id) ==> Verified(after, id)
  {}

  /** The claim rows this call holds are as they were. */
  ghost predicate OwnRowsKept(db: Db, after: Db, me: nat) {
    forall email :: HoldsRow(db, email, me) ==> HoldsRow(after, email, me) && after.reserved[email] == db.reserved[email]
  }

  lemma CreatingFactsStay(db: Db, after: Db, proc: Proc, me: nat)
    requires Extends(db, after) && OwnRowsKept(db, after, me) && ProcOk(db, proc, me) && Creating(proc)
    ensures ProcOk(after, proc, me)
  {
    hide Extends, SpentOk;
    if proc.CreatingForLink? || proc.InsertingForLink? || proc.CommittingForLink? {
      SpentFactsStay(db, after, proc.spent);
    }
  }

  lemma SpendingFactsStay(db: Db, after: Db, proc: Proc, me: nat)
    requires Extends(db, after) && ProcOk(db, proc, me)
    requires proc.Resolving? || proc.MarkingVerified? || proc.LostRace? || proc.Completing? || proc.SignedIn?
    ensures ProcOk(after, proc, me)
  {
    hide Extends, SpentOk, Known, Verified;
    SpentFactsStay(db, after, proc.spent);
    if proc.MarkingVerified? || proc.Completing? || proc.SignedIn? {
      AccountFactsStay(db, after, proc.id, proc.spent.email);
    }
  }

  lemma VisitingFactsStay(db: Db, after: Db, proc: Proc, me: nat)
    requires Extends(db, after) && ProcOk(db, proc, me)
    requires proc.AskingSession? || proc.AskingOwner? || proc.ClaimingLink?
    ensures ProcOk(after, proc, me)
  {
    hide Extends, CameBack, Grounded;
    match proc
    case AskingSession(visit, link) => VisitFactsStay(db, after, visit, link, Confirmed);
    case AskingOwner(visit, link, _) => VisitFactsStay(db, after, visit, link, Confirmed);
    case ClaimingLink(visit, grounds) => VisitFactsStay(db, after, visit, Link("", 0, None, None), grounds);
  }

  /** Whatever other processes do, what this one relies on stays true. */
  lemma ProcFactsStay(db: Db, after: Db, proc: Proc, me: nat)
    requires Extends(db, after) && OwnRowsKept(db, after, me) && ProcOk(db, proc, me)
    ensures ProcOk(after, proc, me)
  {
    hide IsSpent, CameBack, Grounded, SpentOk, Known, Verified, AccountGrew, HoldsRow, HasInserted, OwnRowsKept, Extends;
    if proc.Resolving? || proc.MarkingVerified? || proc.LostRace? || proc.Completing? || proc.SignedIn? {
      SpendingFactsStay(db, after, proc, me);
    } else if proc.AskingSession? || proc.AskingOwner? || proc.ClaimingLink? {
      VisitingFactsStay(db, after, proc, me);
    } else if Creating(proc) {
      CreatingFactsStay(db, after, proc, me);
    } else if proc.LinkStored? {
      if !proc.mailed { HashFactsStay(db, after, proc.hash); }
    } else if proc.LinkingFirst? {
      AccountFactsStay(db, after, proc.id, proc.profile.email);
    } else if proc.Admitted? {
      IdentityStays(db, after, proc.identity, proc.id);
    } else if proc.Failed? && proc.held.Some? {
      HashFactsStay(db, after, proc.held.value);
    }
  }

  lemma IdentityStays(db: Db, after: Db, identity: Identity, id: AccountId)
    requires Extends(db, after) && id in db.accounts && identity in db.accounts[id].identities
    ensures id in after.accounts && identity in after.accounts[id].identities
  {
    assert AccountGrew(db.accounts[id], after.accounts[id]);
  }
}
