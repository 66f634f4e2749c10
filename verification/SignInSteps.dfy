/** Each step of a process keeps the stores sound and leaves the process what it relies on. */
module SignInSteps {
  import opened Options
  import opened SignInSpec
  import opened SignInInvariants

  /** The link a process has spent, or stored already spent: no other process may come to hold it. */
  function Holder(proc: Proc): Option<Hash> {
    match proc
    case LinkStored(_, hash, mailed) => if mailed then None else Some(hash)
    case Resolving(spent) => Some(spent.visit.hash)
    case MarkingVerified(spent, _) => Some(spent.visit.hash)
    case CreatingForLink(spent) => Some(spent.visit.hash)
    case InsertingForLink(spent) => Some(spent.visit.hash)
    case CommittingForLink(spent) => Some(spent.visit.hash)
    case LostRace(spent, _) => Some(spent.visit.hash)
    case Completing(spent, _) => Some(spent.visit.hash)
    case SignedIn(spent, _) => Some(spent.visit.hash)
    case Failed(_, held) => held
    case _ => None
  }

  /** A process comes to hold only a link nobody holds: one unspent until now, or a new one. */
  predicate HoldsFairly(db: Db, before: Proc, after: Proc) {
    || Holder(after) == Holder(before)
    || (Holder(before).None? && (Unspent(db, Holder(after).value) || Holder(after).value >= db.nextToken))
  }

  ghost predicate KeepsAll(db: Db, before: Proc, after: Db, proc: Proc, me: nat) {
    && StoresOk(after) && Extends(db, after) && LocksKept(db, after, me)
    && ProcOk(after, proc, me) && HoldsFairly(db, before, proc)
  }

  lemma HeldIsSpent(db: Db, proc: Proc, me: nat)
    requires ProcOk(db, proc, me) && Holder(proc).Some?
    ensures IsSpent(db, Holder(proc).value)
  {}

  lemma RequestStepKeeps(db: Db, proc: Proc, me: nat)
    requires StoresOk(db) && Requesting(proc)
    ensures var (after, next) := RequestStep(db, proc); KeepsAll(db, proc, after, next, me)
  {
    hide UniqueAddresses, UniqueIdentities, ClaimsExclude, LocksExclude, PendingsFit, Extends;
    match proc
    case AskingRecipient(_, _, _) => NothingRewritten(db);
    case AskingSlot(email, _, now, _) => SetSlotKeeps(db, email, SlotAfter(db, email, now));
    case AskingNativeSlot(email, now) => SetSlotKeeps(db, email, SlotAfter(db, email, now));
    case StoringLink(email, nonceHash, now, mailed) =>
      InsertLinkKeeps(
        db, Link(email, now + db.settings.expiresIn, Some(nonceHash), if mailed then None else Some(now)));
  }

  lemma CheckStepKeeps(db: Db, proc: Proc, outside: Outside, me: nat)
    requires StoresOk(db) && Checking(proc) && ProcOk(db, proc, me)
    ensures KeepsAll(db, proc, db, CheckStep(db, proc, outside), me)
  {
    hide UniqueAddresses, UniqueIdentities, ClaimsExclude, LocksExclude, PendingsFit, Extends;
    NothingRewritten(db);
    match proc
    case AskingOwner(visit, link, session) => FoundAt(db, link.email);
    case _ =>
  }

  lemma SettleKeeps(db: Db, spent: Spent, id: AccountId, me: nat)
    requires SpentOk(db, spent) && Known(db, id, spent.email)
    ensures ProcOk(db, Settle(db, spent, id), me) && Holder(Settle(db, spent, id)) == Some(spent.visit.hash)
  {}

  lemma ClaimingKeeps(db: Db, visit: Visit, grounds: Grounds, me: nat)
    requires StoresOk(db) && Grounded(db, visit, grounds)
    ensures var proc := ClaimingLink(visit, grounds);
      var (after, next) := SpendStep(db, proc); KeepsAll(db, proc, after, next, me)
  {
    hide UniqueAddresses, UniqueIdentities, ClaimsExclude, LocksExclude, PendingsFit, Extends;
    NothingRewritten(db);
    if Unspent(db, visit.hash) {
      ClaimLinkKeeps(db, visit.hash, visit.now);
    }
  }

  lemma SpentIsSpent(db: Db, spent: Spent)
    requires SpentOk(db, spent)
    ensures IsSpent(db, spent.visit.hash)
  {}

  lemma SpendStepKeeps(db: Db, proc: Proc, me: nat)
    requires StoresOk(db) && Spending(proc) && ProcOk(db, proc, me)
    ensures var (after, next) := SpendStep(db, proc); KeepsAll(db, proc, after, next, me)
  {
    hide StoresOk, Extends, SpentOk, IsSpent, Grounded, ClaimLink, Unspent, MarkVerified;
    NothingRewritten(db);
    match proc
    case ClaimingLink(visit, grounds) => ClaimingKeeps(db, visit, grounds, me);
    case Resolving(spent) =>
      FoundAt(db, spent.email);
      if AccountAt(db, spent.email).Some? { SettleKeeps(db, spent, AccountAt(db, spent.email).value, me); }
    case MarkingVerified(spent, id) => MarkingKeeps(db, spent, id, me);
    case LostRace(spent, reservationTaken) =>
      FoundAt(db, spent.email);
      SpentIsSpent(db, spent);
      if AccountAt(db, spent.email).Some? { SettleKeeps(db, spent, AccountAt(db, spent.email).value, me); }
    case Completing(spent, id) =>
  }

  lemma MarkingKeeps(db: Db, spent: Spent, id: AccountId, me: nat)
    requires StoresOk(db) && ProcOk(db, MarkingVerified(spent, id), me)
    ensures var proc := MarkingVerified(spent, id);
      var (after, next) := SpendStep(db, proc); KeepsAll(db, proc, after, next, me)
  {
    hide StoresOk, Extends, SpentOk;
    MarkVerifiedKeeps(db, id);
    SpentFactsStay(db, MarkVerified(db, id), spent);
  }

  lemma LinkingKeeps(db: Db, proc: Proc, me: nat)
    requires StoresOk(db) && proc.LinkingFirst? && ProcOk(db, proc, me)
    ensures var (after, next) := ProviderStep(db, proc); KeepsAll(db, proc, after, next, me)
  {
    hide StoresOk, Extends, Verified, IdentityIsPending, AccountAt, FindByEmail;
    NothingRewritten(db);
    var identity := IdentityOf(proc.provider, proc.profile);
    if
      && (forall other :: other in db.accounts && other != proc.id ==> identity !in db.accounts[other].identities)
      && !IdentityIsPending(db, identity)
    {
      LinkIdentityKeeps(db, proc.id, identity);
    }
  }

  lemma ProviderStepKeeps(db: Db, proc: Proc, me: nat)
    requires StoresOk(db) && Providing(proc) && ProcOk(db, proc, me)
    ensures var (after, next) := ProviderStep(db, proc); KeepsAll(db, proc, after, next, me)
  {
    hide StoresOk, Extends, LinkIdentity, IdentityIsPending;
    match proc
    case FindingIdentity(provider, profile) =>
      NothingRewritten(db);
      FoundOf(db, IdentityOf(provider, profile));
    case FindingAddress(_, profile) =>
      NothingRewritten(db);
      FoundAt(db, profile.email);
    case LinkingFirst(_, _, _) => LinkingKeeps(db, proc, me);
  }

  // ---------- Inside the unit of work ----------

  lemma SpentStays(db: Db, after: Db, proc: Proc)
    requires Extends(db, after)
    requires proc.CreatingForLink? || proc.InsertingForLink? || proc.CommittingForLink? ==> SpentOk(db, proc.spent)
    ensures proc.CreatingForLink? || proc.InsertingForLink? || proc.CommittingForLink? ==>
      SpentOk(after, proc.spent) && IsSpent(after, proc.spent.visit.hash)
  {
    hide Extends;
    if proc.CreatingForLink? || proc.InsertingForLink? || proc.CommittingForLink? {
      SpentFactsStay(db, after, proc.spent);
    }
  }

  lemma ReservingKeeps(db: Db, proc: Proc, outside: Outside, me: nat)
    requires StoresOk(db) && ProcOk(db, proc, me) && (proc.CreatingForLink? || proc.CreatingForProvider?)
    ensures var (after, next) := CreateStep(db, proc, outside, me); KeepsAll(db, proc, after, next, me)
  {
    hide StoresOk, Extends, SpentOk, Reserve, LocksKept;
    NothingRewritten(db);
    NoRowTouched(db, me);
    SpentStays(db, db, proc);
    if outside.mayCreate {
      ReserveKeeps(db, MakesAt(proc), me);
      SpentStays(db, Reserve(db, MakesAt(proc), me).0, proc);
    }
  }

  lemma NoRowTouched(db: Db, me: nat)
    ensures LocksKept(db, db, me)
  {}

  lemma InsertingKeeps(db: Db, proc: Proc, outside: Outside, me: nat)
    requires StoresOk(db) && ProcOk(db, proc, me) && (proc.InsertingForLink? || proc.InsertingForProvider?)
    ensures var (after, next) := CreateStep(db, proc, outside, me); KeepsAll(db, proc, after, next, me)
  {
    hide StoresOk, Extends, SpentOk, Insert, LocksKept;
    InsertKeeps(db, MakesAt(proc), MakesWith(proc), me);
    SpentStays(db, Insert(db, MakesAt(proc), MakesWith(proc), me).0, proc);
  }

  lemma CommittingKeeps(db: Db, proc: Proc, outside: Outside, me: nat)
    requires StoresOk(db) && ProcOk(db, proc, me) && (proc.CommittingForLink? || proc.CommittingForProvider?)
    ensures var (after, next) := CreateStep(db, proc, outside, me); KeepsAll(db, proc, after, next, me)
  {
    hide StoresOk, Extends, SpentOk, Commit, LocksKept;
    CommitKeeps(db, MakesAt(proc), outside.commits, me);
    SpentStays(db, Commit(db, MakesAt(proc), outside.commits).0, proc);
  }

  lemma CreateStepKeeps(db: Db, proc: Proc, outside: Outside, me: nat)
    requires StoresOk(db) && Creating(proc) && ProcOk(db, proc, me)
    ensures var (after, next) := CreateStep(db, proc, outside, me); KeepsAll(db, proc, after, next, me)
  {
    hide StoresOk, ProcOk, CreateStep, KeepsAll;
    if proc.CreatingForLink? || proc.CreatingForProvider? {
      ReservingKeeps(db, proc, outside, me);
    } else if proc.InsertingForLink? || proc.InsertingForProvider? {
      InsertingKeeps(db, proc, outside, me);
    } else {
      CommittingKeeps(db, proc, outside, me);
    }
  }

  lemma ProcStepKeeps(db: Db, proc: Proc, outside: Outside, me: nat)
    requires StoresOk(db) && ProcOk(db, proc, me)
    ensures var (after, next) := ProcStep(db, proc, outside, me); KeepsAll(db, proc, after, next, me)
  {
    hide StoresOk, Extends, ProcOk, RequestStep, CheckStep, SpendStep, ProviderStep, CreateStep;
    if Requesting(proc) { RequestStepKeeps(db, proc, me); }
    else if Checking(proc) { CheckStepKeeps(db, proc, outside, me); }
    else if Spending(proc) { SpendStepKeeps(db, proc, me); }
    else if Providing(proc) { ProviderStepKeeps(db, proc, me); }
    else if Creating(proc) { CreateStepKeeps(db, proc, outside, me); }
    else { NothingRewritten(db); }
  }

  // ---------- The whole state ----------

  /** No two calls hold one link. */
  predicate UniqueHolders(procs: seq<Proc>) {
    forall p, q :: 0 <= p < q < |procs| && Holder(procs[p]).Some? ==> Holder(procs[p]) != Holder(procs[q])
  }

  ghost predicate Inv(s: State) {
    && StoresOk(s.db)
    && (forall p :: 0 <= p < |s.procs| ==> ProcOk(s.db, s.procs[p], p))
    && UniqueHolders(s.procs)
  }

  /** A write from outside: it touches no claim row that a unit of work holds. */
  lemma DbChangeKeeps(s: State, after: Db)
    requires Inv(s) && StoresOk(after) && Extends(s.db, after) && after.reserved == s.db.reserved
    ensures Inv(s.(db := after))
  {
    hide StoresOk, Extends, ProcOk, UniqueHolders;
    forall p | 0 <= p < |s.procs| ensures ProcOk(after, s.procs[p], p) {
      ProcFactsStay(s.db, after, s.procs[p], p);
    }
  }

  lemma NewProcKeeps(s: State, proc: Proc)
    requires Inv(s) && ProcOk(s.db, proc, |s.procs|) && Holder(proc).None?
    ensures Inv(s.(procs := s.procs + [proc]))
  {
    hide StoresOk, ProcOk, Holder;
  }

  lemma NewHolderIsAlone(s: State, p: nat, proc: Proc)
    requires Inv(s) && p < |s.procs| && HoldsFairly(s.db, s.procs[p], proc)
    ensures UniqueHolders(s.procs[p := proc])
  {
    hide StoresOk, ProcOk, Holder;
    forall q | 0 <= q < |s.procs| && q != p && Holder(s.procs[q]).Some?
      ensures Holder(s.procs[q]) != Holder(proc)
    {
      HeldIsSpent(s.db, s.procs[q], q);
    }
  }

  lemma OthersRowsKept(db: Db, after: Db, me: nat, other: nat)
    requires LocksKept(db, after, me) && other != me
    ensures OwnRowsKept(db, after, other)
  {}

  lemma AdvanceKeeps(s: State, p: nat, outside: Outside)
    requires Inv(s) && p < |s.procs|
    ensures Inv(Step(s, Advance(p, outside))) && Extends(s.db, Step(s, Advance(p, outside)).db)
  {
    hide StoresOk, Extends, ProcOk, UniqueHolders, HoldsFairly, ProcStep, LocksKept, OwnRowsKept;
    ProcStepKeeps(s.db, s.procs[p], outside, p);
    var (after, proc) := ProcStep(s.db, s.procs[p], outside, p);
    NewHolderIsAlone(s, p, proc);
    forall q | 0 <= q < |s.procs| && q != p ensures ProcOk(after, s.procs[q], q) {
      OthersRowsKept(s.db, after, p, q);
      ProcFactsStay(s.db, after, s.procs[q], q);
    }
  }

  lemma StepKeeps(s: State, event: Event)
    requires Inv(s)
    ensures Inv(Step(s, event)) && Extends(s.db, Step(s, event).db)
  {
    hide StoresOk, Extends, ProcOk, UniqueHolders, Inv, ProcStep;
    assert StoresOk(s.db) by { InvGivesStores(s); }
    NothingRewritten(s.db);
    match event
    case Request(email, nonceHash) => StartKeeps(s, AskingRecipient(email, nonceHash, s.db.now));
    case NativeRequest(email) => StartKeeps(s, AskingNativeSlot(email, s.db.now));
    case Verify(hash, confirm, presented) => StartKeeps(s, Verification(s.db, hash, confirm, presented));
    case SignInWith(provider, profile) => StartKeeps(s, ProviderCall(provider, profile));
    case Advance(p, outside) => if p < |s.procs| { AdvanceKeeps(s, p, outside); }
    case Tick(elapsed) =>
      TickKeeps(s.db, elapsed);
      DbChangeKeeps(s, s.db.(now := s.db.now + elapsed));
    case DropLink(hash) =>
      DropKeeps(s.db, hash);
      DbChangeKeeps(s, s.db.(links := s.db.links - {hash}));
    case DropSlot(email) =>
      SetSlotKeeps(s.db, email, Slot(0, 0));
      DbChangeKeeps(s, SlotDropped(s.db, email));
    case MakeAccount(email, verified) =>
      MadeKeeps(s.db, email, verified);
      DbChangeKeeps(s, Made(s.db, email, verified));
    case SetDeleted(id, deleted) =>
      DeletedKeeps(s.db, id, deleted);
      DbChangeKeeps(s, Deleted(s.db, id, deleted));
    case ClaimAddress(address, owner, lapsesAt) =>
      ClaimedKeeps(s.db, address, Claim(owner, lapsesAt));
      DbChangeKeeps(s, Claimed(s.db, address, Claim(owner, lapsesAt)));
  }

  lemma InvGivesStores(s: State)
    requires Inv(s)
    ensures StoresOk(s.db)
  {}

  /** A call that has just begun: it holds nothing and has read nothing. */
  lemma StartKeeps(s: State, proc: Proc)
    requires Inv(s)
    requires proc.AskingRecipient? || proc.AskingNativeSlot? || (proc.ReadingLink? && !proc.visit.confirm)
      || (proc.ClaimingLink? && proc.grounds == Confirmed && proc.visit.confirm)
      || proc.FindingIdentity? || proc == Failed(EmailUnverified, None)
    ensures Inv(s.(procs := s.procs + [proc]))
  {
    hide Inv;
    NewProcKeeps(s, proc);
  }
}
