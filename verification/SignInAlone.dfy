/** What a call answers when nothing runs beside it, for every database and every argument. */
module SignInAlone {
  import opened Options
  import opened SignInSpec
  import opened SignInInvariants
  import opened SignInSteps

  /** Any call: which one it is decides nothing when no other holds a claim row. */
  const ME: nat := 0

  /** No other unit of work is open, and this call's own commits. */
  predicate IsAlone(db: Db, outside: Outside) {
    db.reserved == map[] && outside.commits
  }

  /** The next `n` steps of one process. */
  function Alone(db: Db, proc: Proc, outside: Outside, n: nat): (Db, Proc)
    decreases n
  {
    if n == 0 then (db, proc)
    else
      var (after, next) := ProcStep(db, proc, outside, ME);
      Alone(after, next, outside, n - 1)
  }

  predicate IsLive(db: Db, hash: Hash) {
    Unspent(db, hash) && db.links[hash].expiresAt > db.now
  }

  /** The address behind a spent link can be signed in to, or an account can be made for it. */
  predicate MayResolve(db: Db, email: string, mayCreate: bool) {
    var existing := AccountAt(db, email);
    if existing.Some? then existing.value in db.accounts && !db.accounts[existing.value].deleted
    else mayCreate && !ClaimIsLive(db, email)
  }

  /** The link is back in the browser that asked for it, signed out or signed in to its owner. */
  predicate ComesHome(db: Db, link: Link, presented: Option<Hash>, session: Option<AccountId>) {
    && presented.Some? && link.nonceHash == presented
    && (session.Some? ==> AccountAt(db, link.email) == session)
  }

  /** Why a spent link opens nothing: the policy's refusal, or the one answer for everything else. */
  function FailsToResolve(db: Db, email: string, mayCreate: bool): Failure {
    if AccountAt(db, email).None? && !mayCreate then PolicyRefuses else InvalidLink
  }

  lemma SettlesAlone(db: Db, spent: Spent, id: AccountId, outside: Outside)
    requires StoresOk(db) && AccountAt(db, spent.email) == Some(id) && id in db.accounts
    requires !db.accounts[id].deleted
    ensures var (after, end) := Alone(db, Settle(db, spent, id), outside, 2);
      end == SignedIn(spent, id) && AccountAt(after, spent.email) == Some(id) && Verified(after, id)
  {
    hide StoresOk, AccountAt, Extends;
    var next := Settle(db, spent, id);
    MarkVerifiedKeeps(db, id);
    if next.MarkingVerified? {
      var marked := MarkVerified(db, id);
      assert ProcStep(db, next, outside, ME) == (marked, Completing(spent, id));
      assert Alone(marked, Completing(spent, id), outside, 1) == (marked, SignedIn(spent, id));
      SameAddress(db, marked, id, spent.email);
    } else {
      assert Alone(db, SignedIn(spent, id), outside, 1) == (db, SignedIn(spent, id));
    }
  }

  lemma SameAddress(db: Db, after: Db, id: AccountId, email: string)
    requires StoresOk(db) && StoresOk(after) && Extends(db, after) && AccountAt(db, email) == Some(id)
    ensures AccountAt(after, email) == Some(id)
  {
    FoundAt(db, email);
    FoundAt(after, email);
    assert AccountGrew(db.accounts[id], after.accounts[id]);
  }

  lemma EndedStays(db: Db, proc: Proc, outside: Outside, n: nat)
    requires proc.SignedIn? || proc.Failed? || proc.Admitted? || proc.AwaitsConfirmation?
    ensures Alone(db, proc, outside, n) == (db, proc)
  {}

  lemma {:induction false} AloneAdds(db: Db, proc: Proc, outside: Outside, m: nat, n: nat)
    ensures var (after, next) := Alone(db, proc, outside, m);
      Alone(after, next, outside, n) == Alone(db, proc, outside, m + n)
    decreases m
  {
    hide ProcStep;
    if m > 0 {
      var (after, next) := ProcStep(db, proc, outside, ME);
      AloneAdds(after, next, outside, m - 1, n);
    }
  }

  /** From a spent link on: signed in exactly when the address can be resolved. */
  lemma ResolvesAlone(db: Db, spent: Spent, outside: Outside)
    requires StoresOk(db) && IsAlone(db, outside)
    ensures var (after, end) := Alone(db, Resolving(spent), outside, 5);
      if MayResolve(db, spent.email, outside.mayCreate) then
        && end.SignedIn? && end.spent == spent
        && AccountAt(after, spent.email) == Some(end.id) && Verified(after, end.id)
      else
        end == Failed(FailsToResolve(db, spent.email, outside.mayCreate), Some(spent.visit.hash)) && after.accounts == db.accounts
  {
    hide StoresOk, AccountAt, Verified, Alone;
    FoundAt(db, spent.email);
    var existing := AccountAt(db, spent.email);
    Unfold(db, Resolving(spent), outside, 5);
    if existing.Some? {
      var next := Settle(db, spent, existing.value);
      if next.Failed? {
        EndedStays(db, next, outside, 4);
      } else {
        SettlesAlone(db, spent, existing.value, outside);
        var (after, end) := Alone(db, next, outside, 2);
        AloneAdds(db, next, outside, 2, 2);
        EndedStays(after, end, outside, 2);
      }
    } else {
      CreatesAlone(db, spent, outside);
    }
  }

  lemma Unfold(db: Db, proc: Proc, outside: Outside, n: nat)
    requires n > 0
    ensures var (after, next) := ProcStep(db, proc, outside, ME);
      Alone(db, proc, outside, n) == Alone(after, next, outside, n - 1)
  {}

  /** Reserve, insert and commit, one after another: the account is there, and nothing is left held. */
  lemma UnitAlone(db: Db, account: Account)
    requires StoresOk(db) && db.reserved == map[] && AccountAt(db, account.email).None? && !ClaimIsLive(db, account.email)
    requires account == Account(account.email, true, false, account.identities)
    requires forall identity :: identity in account.identities ==> AccountOf(db, identity).None?
    ensures var (reserved, reserving) := Reserve(db, account.email, ME);
      var (pending, inserting) := Insert(reserved, account.email, account.identities, ME);
      var (after, id) := Commit(pending, account.email, true);
      && reserving == Reserved && inserting == Inserted && id == Some(db.nextId)
      && after == Added(db, account) && StoresOk(after)
  {
    hide StoresOk, Extends, LocksKept;
    var (reserved, reserving) := Reserve(db, account.email, ME);
    ReserveKeeps(db, account.email, ME);
    InsertKeeps(reserved, account.email, account.identities, ME);
    NoneHas(db, account.identities);
    NonePending(reserved, account.email, account.identities);
    var (pending, inserting) := Insert(reserved, account.email, account.identities, ME);
    CommitKeeps(pending, account.email, true, ME);
    assert reserved.reserved - {account.email} == map[];
    assert pending.reserved - {account.email} == map[];
  }

  lemma NoneHas(db: Db, identities: set<Identity>)
    requires StoresOk(db) && forall identity :: identity in identities ==> AccountOf(db, identity).None?
    ensures forall id, identity :: id in db.accounts && identity in identities ==>
      identity !in db.accounts[id].identities
  {
    forall identity | identity in identities
      ensures forall id :: id in db.accounts ==> identity !in db.accounts[id].identities
    {
      FoundOf(db, identity);
    }
  }

  lemma NonePending(db: Db, email: string, identities: set<Identity>)
    requires db.reserved.Keys <= {email} && !IsPending(db, email)
    ensures forall identity :: identity in identities ==> !IdentityIsPending(db, identity)
  {}

  lemma CreatesAlone(db: Db, spent: Spent, outside: Outside)
    requires StoresOk(db) && IsAlone(db, outside) && AccountAt(db, spent.email).None?
    ensures var (after, end) := Alone(db, CreatingForLink(spent), outside, 4);
      if outside.mayCreate && !ClaimIsLive(db, spent.email) then
        && end.SignedIn? && end.spent == spent
        && AccountAt(after, spent.email) == Some(end.id) && Verified(after, end.id)
      else end == Failed(FailsToResolve(db, spent.email, outside.mayCreate), Some(spent.visit.hash)) && after == db
  {
    hide StoresOk, Alone, AccountAt, Insert, Commit, Verified;
    Unfold(db, CreatingForLink(spent), outside, 4);
    if !outside.mayCreate {
      EndedStays(db, Failed(PolicyRefuses, Some(spent.visit.hash)), outside, 3);
    } else if ClaimIsLive(db, spent.email) {
      Unfold(db, LostRace(spent, true), outside, 3);
      EndedStays(db, Failed(InvalidLink, Some(spent.visit.hash)), outside, 2);
    } else {
      CreatesForLinkAlone(db, spent, outside);
    }
  }

  lemma CreatesForLinkAlone(db: Db, spent: Spent, outside: Outside)
    requires StoresOk(db) && IsAlone(db, outside) && outside.mayCreate
    requires AccountAt(db, spent.email).None? && !ClaimIsLive(db, spent.email)
    ensures var (after, end) := Alone(db, CreatingForLink(spent), outside, 4);
      end == SignedIn(spent, db.nextId) && AccountAt(after, spent.email) == Some(db.nextId) && Verified(after, db.nextId)
  {
    hide StoresOk, Alone, Insert, Commit, Reserve, AccountAt;
    UnitAlone(db, Account(spent.email, true, false, {}));
    var reserved := Reserve(db, spent.email, ME).0;
    var pending := Insert(reserved, spent.email, {}, ME).0;
    var after := Commit(pending, spent.email, true).0;
    Unfold(db, CreatingForLink(spent), outside, 4);
    Unfold(reserved, InsertingForLink(spent), outside, 3);
    Unfold(pending, CommittingForLink(spent), outside, 2);
    Unfold(after, Completing(spent, db.nextId), outside, 1);
    EndedStays(after, SignedIn(spent, db.nextId), outside, 0);
    FoundNew(after, db.nextId, spent.email);
  }

  lemma FoundNew(db: Db, id: AccountId, email: string)
    requires StoresOk(db) && Known(db, id, email)
    ensures AccountAt(db, email) == Some(id)
  {
    FoundAt(db, email);
  }

  /**
   An account that was made after the call had read there was none: its reservation is taken, and
   it signs in to that account, verifying it, or fails when it was deleted meanwhile.
   */
  lemma LostRaceSettles(db: Db, spent: Spent, outside: Outside, id: AccountId)
    requires StoresOk(db) && db.reserved == map[] && outside.mayCreate
    requires AccountAt(db, spent.email) == Some(id) && id in db.accounts
    ensures var (after, end) := Alone(db, CreatingForLink(spent), outside, 4);
      if db.accounts[id].deleted then end == Failed(InvalidLink, Some(spent.visit.hash)) && after == db
      else end == SignedIn(spent, id) && AccountAt(after, spent.email) == Some(id) && Verified(after, id)
  {
    hide StoresOk, Alone, AccountAt, Verified;
    var next := Settle(db, spent, id);
    Unfold(db, CreatingForLink(spent), outside, 4);
    Unfold(db, LostRace(spent, true), outside, 3);
    if next.Failed? { EndedStays(db, next, outside, 2); } else { SettlesAlone(db, spent, id, outside); }
  }

  lemma ClaimsAlone(db: Db, visit: Visit, grounds: Grounds, outside: Outside)
    requires StoresOk(db) && IsAlone(db, outside)
    ensures var (after, end) := Alone(db, ClaimingLink(visit, grounds), outside, 6);
      if IsLive(db, visit.hash) && MayResolve(db, db.links[visit.hash].email, outside.mayCreate) then
        var email := db.links[visit.hash].email;
        && end.SignedIn? && end.spent == Spent(visit, grounds, email)
        && AccountAt(after, email) == Some(end.id) && Verified(after, end.id)
      else
        && end.Failed? && after.accounts == db.accounts
        && end.failure == if IsLive(db, visit.hash) then FailsToResolve(db, db.links[visit.hash].email, outside.mayCreate)
                          else InvalidLink
  {
    hide StoresOk, Alone, Verified;
    var proc := ClaimingLink(visit, grounds);
    Unfold(db, proc, outside, 6);
    var (after, next) := ProcStep(db, proc, outside, ME);
    if next.Failed? {
      EndedStays(after, next, outside, 5);
    } else {
      ClaimLinkKeeps(db, visit.hash, visit.now);
      ResolvesAlone(after, next.spent, outside);
      assert MayResolve(after, next.spent.email, outside.mayCreate)
          == MayResolve(db, next.spent.email, outside.mayCreate);
    }
  }

  /**
   A visit that runs alone signs in exactly when the link is live, a person confirmed or the link
   is back home, and its address can be resolved; it is asked to confirm exactly when the link is
   live and the visit has no grounds; and otherwise it fails and no account changes.
   */
  lemma VisitAlone(db: Db, hash: Hash, confirm: bool, presented: Option<Hash>, outside: Outside)
    requires StoresOk(db) && IsAlone(db, outside)
    ensures var (after, end) := Alone(db, Verification(db, hash, confirm, presented), outside, 9);
      var granted := IsLive(db, hash)
        && (confirm || ComesHome(db, db.links[hash], presented, outside.session));
      && (end.SignedIn? <==> granted && MayResolve(db, db.links[hash].email, outside.mayCreate))
      && (end.SignedIn? ==> AccountAt(after, db.links[hash].email) == Some(end.id) && Verified(after, end.id))
      && (end.AwaitsConfirmation? <==> IsLive(db, hash) && !granted)
      && (end.AwaitsConfirmation? ==> after == db && end.email == db.links[hash].email)
      && (end.Failed? <==> !end.SignedIn? && !end.AwaitsConfirmation?)
      && (end.Failed? ==> after.accounts == db.accounts)
      && (end.Failed? ==>
            end.failure == if granted then FailsToResolve(db, db.links[hash].email, outside.mayCreate) else InvalidLink)
  {
    hide StoresOk, Alone, Verified, SpendStep, MayResolve, AccountAt, FailsToResolve;
    var visit := Visit(hash, confirm, presented, db.now);
    if confirm {
      GrantedAlone(db, visit, Confirmed, outside, 9);
    } else {
      Unfold(db, ReadingLink(visit), outside, 9);
      var next := CheckStep(db, ReadingLink(visit), outside);
      if !next.AskingSession? {
        EndedStays(db, next, outside, 8);
      } else {
        AsksAlone(db, visit, db.links[hash], outside);
      }
    }
  }

  lemma GrantedAlone(db: Db, visit: Visit, grounds: Grounds, outside: Outside, n: nat)
    requires StoresOk(db) && IsAlone(db, outside) && n >= 6
    ensures Alone(db, ClaimingLink(visit, grounds), outside, n)
      == Alone(db, ClaimingLink(visit, grounds), outside, 6)
    ensures var (after, end) := Alone(db, ClaimingLink(visit, grounds), outside, 6);
      if IsLive(db, visit.hash) && MayResolve(db, db.links[visit.hash].email, outside.mayCreate) then
        var email := db.links[visit.hash].email;
        end.SignedIn? && AccountAt(after, email) == Some(end.id) && Verified(after, end.id)
      else
        && end.Failed? && after.accounts == db.accounts
        && end.failure == if IsLive(db, visit.hash) then FailsToResolve(db, db.links[visit.hash].email, outside.mayCreate)
                          else InvalidLink
  {
    hide StoresOk, Alone, Verified, IsLive, MayResolve, AccountAt;
    ClaimsAlone(db, visit, grounds, outside);
    var (after, end) := Alone(db, ClaimingLink(visit, grounds), outside, 6);
    EndedStays(after, end, outside, n - 6);
    AloneAdds(db, ClaimingLink(visit, grounds), outside, 6, n - 6);
  }

  /** The session question: either it is asked to confirm, or it goes on to spend. */
  lemma AsksAlone(db: Db, visit: Visit, link: Link, outside: Outside)
    requires StoresOk(db) && IsAlone(db, outside)
    ensures var end := Alone(db, AskingSession(visit, link), outside, 8);
      if outside.session.Some? && AccountAt(db, link.email) != outside.session then
        end == (db, AwaitsConfirmation(visit, link.email))
      else
        var grounds := SameBrowser(outside.session);
        && end == Alone(db, ClaimingLink(visit, grounds), outside, 6)
        && (if IsLive(db, visit.hash) && MayResolve(db, db.links[visit.hash].email, outside.mayCreate) then
          var email := db.links[visit.hash].email;
          end.1.SignedIn? && AccountAt(end.0, email) == Some(end.1.id) && Verified(end.0, end.1.id)
        else
          && end.1.Failed? && end.0.accounts == db.accounts
          && end.1.failure == if IsLive(db, visit.hash) then FailsToResolve(db, db.links[visit.hash].email, outside.mayCreate)
                              else InvalidLink)
  {
    hide StoresOk, Alone, Verified, IsLive, MayResolve, AccountAt, SpendStep;
    Unfold(db, AskingSession(visit, link), outside, 8);
    if outside.session.Some? {
      Unfold(db, AskingOwner(visit, link, outside.session.value), outside, 7);
      EndedStays(db, AwaitsConfirmation(visit, link.email), outside, 6);
      GrantedAlone(db, visit, SameBrowser(outside.session), outside, 6);
    } else {
      GrantedAlone(db, visit, SameBrowser(None), outside, 7);
    }
  }

  /** The address's window has room for one more request; an old or missing one starts anew. */
  predicate HasRoom(db: Db, email: string) {
    if email in db.slots && db.slots[email].startedAt + db.settings.windowMs > db.now then
      db.slots[email].taken < db.settings.maxPerHour
    else db.settings.maxPerHour > 0
  }

  /**
   Every request stores one new link, and one that is already spent exactly when the account is
   deleted or the address has no room left; either way the request is counted.
   */
  lemma RequestAlone(db: Db, email: string, nonceHash: Hash, outside: Outside)
    requires StoresOk(db)
    ensures var (after, end) := Alone(db, AskingRecipient(email, nonceHash, db.now), outside, 3);
      var deleted := exists id :: Known(db, id, email) && db.accounts[id].deleted;
      && end == LinkStored(email, db.nextToken, HasRoom(db, email) && !deleted)
      && end.hash !in db.links && after.links.Keys == db.links.Keys + {end.hash}
      && (forall hash :: hash in db.links ==> after.links[hash] == db.links[hash])
      && (Unspent(after, end.hash) <==> HasRoom(db, email) && !deleted)
      && after.links[end.hash].email == email && after.links[end.hash].nonceHash == Some(nonceHash)
      && after.links[end.hash].expiresAt == db.now + db.settings.expiresIn
      && email in after.slots && after.slots[email].taken > 0
      && (after.slots[email].taken <= db.settings.maxPerHour <==> HasRoom(db, email))
      && after.accounts == db.accounts && after.claims == db.claims
  {
    hide Alone, UniqueIdentities, ClaimsExclude, LocksExclude, PendingsFit, AccountAt;
    FoundAt(db, email);
    RequestRuns(db, email, nonceHash, outside);
  }

  lemma RequestRuns(db: Db, email: string, nonceHash: Hash, outside: Outside)
    requires StoresOk(db)
    ensures var owner := AccountAt(db, email);
      var mailed := HasRoom(db, email) && !(owner.Some? && db.accounts[owner.value].deleted);
      var link := Link(email, db.now + db.settings.expiresIn, Some(nonceHash), if mailed then None else Some(db.now));
      Alone(db, AskingRecipient(email, nonceHash, db.now), outside, 3) ==
        (InsertLink(SetSlot(db, email, SlotAfter(db, email, db.now)), link), LinkStored(email, db.nextToken, mailed))
  {
    hide Alone, UniqueIdentities, ClaimsExclude, LocksExclude, PendingsFit, AccountAt, SpendStep, ProviderStep, CreateStep;
    FoundAt(db, email);
    var owner := AccountAt(db, email);
    var deleted := owner.Some? && db.accounts[owner.value].deleted;
    var asking := AskingSlot(email, nonceHash, db.now, deleted);
    var slot := SlotAfter(db, email, db.now);
    var storing := StoringLink(email, nonceHash, db.now, !deleted && slot.taken <= db.settings.maxPerHour);
    Unfold(db, AskingRecipient(email, nonceHash, db.now), outside, 3);
    Unfold(db, asking, outside, 2);
    Unfold(SetSlot(db, email, slot), storing, outside, 1);
    Zero(ProcStep(SetSlot(db, email, slot), storing, outside, ME).0, LinkStored(email, db.nextToken, storing.mailed), outside);
  }

  /** A request of the native app is counted once in the same hour, and is under the cap exactly when there is room. */
  lemma NativeRequestAlone(db: Db, email: string, outside: Outside)
    requires StoresOk(db)
    ensures var (after, end) := Alone(db, AskingNativeSlot(email, db.now), outside, 1);
      && end == NativeCounted(email, HasRoom(db, email))
      && email in after.slots && after.slots[email].taken > 0
      && (after.slots[email].taken <= db.settings.maxPerHour <==> HasRoom(db, email))
      && after == db.(slots := db.slots[email := after.slots[email]])
  {
    hide SpendStep, ProviderStep, CreateStep, CheckStep;
    Unfold(db, AskingNativeSlot(email, db.now), outside, 1);
    Zero(ProcStep(db, AskingNativeSlot(email, db.now), outside, ME).0, NativeCounted(email, HasRoom(db, email)), outside);
  }

  lemma Zero(db: Db, proc: Proc, outside: Outside)
    ensures Alone(db, proc, outside, 0) == (db, proc)
  {}

  /** What a provider's profile gives access to. */
  predicate MayAdmit(db: Db, provider: Provider, profile: Profile, mayCreate: bool) {
    var linked := AccountOf(db, IdentityOf(provider, profile));
    var byEmail := AccountAt(db, profile.email);
    && (profile.emailVerified || provider.emailAlwaysVerified)
    && if linked.Some? then linked.value in db.accounts && !db.accounts[linked.value].deleted
       else
         && provider.autoLinksByEmail
         && if byEmail.Some? then
              && byEmail.value in db.accounts
              && db.accounts[byEmail.value].verified && !db.accounts[byEmail.value].deleted
            else mayCreate && !ClaimIsLive(db, profile.email)
  }

  /** Why a provider sign-in is turned away. */
  function WhyNotAdmitted(db: Db, provider: Provider, profile: Profile, mayCreate: bool): Failure {
    var linked := AccountOf(db, IdentityOf(provider, profile));
    var byEmail := AccountAt(db, profile.email);
    if !profile.emailVerified && !provider.emailAlwaysVerified then EmailUnverified
    else if linked.Some? then AccountDeleted
    else if byEmail.Some? then
      if byEmail.value in db.accounts && db.accounts[byEmail.value].deleted then AccountDeleted else AddressTaken
    else if !provider.autoLinksByEmail then EmailUnverified
    else if !mayCreate then PolicyRefuses
    else AddressTaken
  }

  /**
   A provider sign-in that runs alone is let in exactly when its identity or its address may, to the
   account that then has the identity; otherwise it fails and changes nothing.
   */
  lemma ProviderAlone(db: Db, provider: Provider, profile: Profile, outside: Outside)
    requires StoresOk(db) && IsAlone(db, outside)
    ensures var identity := IdentityOf(provider, profile);
      var (after, end) := Alone(db, ProviderCall(provider, profile), outside, 5);
      && (end.Admitted? <==> MayAdmit(db, provider, profile, outside.mayCreate))
      && (end.Admitted? ==>
        && end.identity == identity && AccountOf(after, identity) == Some(end.id)
        && (AccountOf(db, identity).Some? ==> after == db)
        && (AccountOf(db, identity).None? ==> AccountAt(after, profile.email) == Some(end.id) && Verified(after, end.id)))
      && (!end.Admitted? ==> end == Failed(WhyNotAdmitted(db, provider, profile, outside.mayCreate), None) && after == db)
  {
    hide StoresOk, Alone, Verified, ProviderStep;
    if profile.emailVerified || provider.emailAlwaysVerified {
      var identity := IdentityOf(provider, profile);
      FoundOf(db, identity);
      FoundAt(db, profile.email);
      Unfold(db, FindingIdentity(provider, profile), outside, 5);
      FirstLook(db, provider, profile);
      var next := ProviderStep(db, FindingIdentity(provider, profile)).1;
      if next.FindingAddress? {
        Unfold(db, next, outside, 4);
        SecondLook(db, provider, profile);
        var third := ProviderStep(db, next).1;
        if third.LinkingFirst? || third.CreatingForProvider? {
          LastStep(db, third, outside);
        } else {
          EndedStays(db, third, outside, 3);
        }
      } else {
        EndedStays(db, next, outside, 4);
      }
    } else {
      EndedStays(db, Failed(EmailUnverified, None), outside, 5);
    }
  }

  lemma FirstLook(db: Db, provider: Provider, profile: Profile)
    requires StoresOk(db)
    ensures var (after, next) := ProviderStep(db, FindingIdentity(provider, profile));
      var linked := AccountOf(db, IdentityOf(provider, profile));
      && after == db
      && (linked.None? ==> next == FindingAddress(provider, profile))
      && (linked.Some? ==> linked.value in db.accounts)
      && (linked.Some? ==>
        next == if db.accounts[linked.value].deleted then Failed(AccountDeleted, None)
          else Admitted(IdentityOf(provider, profile), linked.value))
  {}

  lemma SecondLook(db: Db, provider: Provider, profile: Profile)
    requires StoresOk(db)
    ensures var (after, next) := ProviderStep(db, FindingAddress(provider, profile));
      var byEmail := AccountAt(db, profile.email);
      && after == db
      && (next.Failed? || next.LinkingFirst? || next.CreatingForProvider?)
      && (next.LinkingFirst? <==>
        && byEmail.Some? && byEmail.value in db.accounts && !db.accounts[byEmail.value].deleted
        && db.accounts[byEmail.value].verified && provider.autoLinksByEmail)
      && (next.LinkingFirst? ==> next == LinkingFirst(provider, profile, byEmail.value))
      && (next.CreatingForProvider? <==> byEmail.None? && provider.autoLinksByEmail)
      && (next.CreatingForProvider? ==> next == CreatingForProvider(provider, profile))
      && (next.Failed? ==>
            next == Failed(
              if byEmail.None? then EmailUnverified
              else if byEmail.value in db.accounts && db.accounts[byEmail.value].deleted then AccountDeleted
              else AddressTaken, None))
  {}

  /** The identity is free: the write goes through unless the unit of work is refused. */
  lemma LastStep(db: Db, proc: Proc, outside: Outside)
    requires StoresOk(db) && IsAlone(db, outside)
    requires proc.CreatingForProvider? || (proc.LinkingFirst? && Known(db, proc.id, proc.profile.email))
    requires AccountOf(db, IdentityOf(proc.provider, proc.profile)).None?
    requires proc.CreatingForProvider? ==> AccountAt(db, proc.profile.email).None?
    ensures var (after, end) := Alone(db, proc, outside, 3);
      var identity := IdentityOf(proc.provider, proc.profile);
      && (end.Admitted? <==> proc.LinkingFirst? || (outside.mayCreate && !ClaimIsLive(db, proc.profile.email)))
      && (end.Admitted? ==>
        && end.identity == identity && AccountOf(after, identity) == Some(end.id)
        && AccountAt(after, proc.profile.email) == Some(end.id) && Verified(after, end.id))
      && (!end.Admitted? ==> end == Failed(if outside.mayCreate then AddressTaken else PolicyRefuses, None) && after == db)
  {
    hide StoresOk, Alone, Insert, Commit, Reserve, AccountOf, AccountAt, Extends;
    var identity := IdentityOf(proc.provider, proc.profile);
    Unfold(db, proc, outside, 3);
    if proc.LinkingFirst? {
      LinksAlone(db, proc);
      EndedStays(LinkIdentity(db, proc.id, identity), Admitted(identity, proc.id), outside, 2);
    } else if !outside.mayCreate {
      EndedStays(db, Failed(PolicyRefuses, None), outside, 2);
    } else if ClaimIsLive(db, proc.profile.email) {
      ReserveTaken(db, proc.profile.email);
      EndedStays(db, Failed(AddressTaken, None), outside, 2);
    } else {
      CreatesForProviderAlone(db, proc, outside);
    }
  }

  lemma ReserveTaken(db: Db, email: string)
    requires db.reserved == map[] && ClaimIsLive(db, email)
    ensures Reserve(db, email, ME) == (db, Taken)
  {}

  lemma LinksAlone(db: Db, proc: Proc)
    requires StoresOk(db) && db.reserved == map[] && proc.LinkingFirst? && Known(db, proc.id, proc.profile.email)
    requires AccountOf(db, IdentityOf(proc.provider, proc.profile)).None?
    ensures var identity := IdentityOf(proc.provider, proc.profile);
      var after := LinkIdentity(db, proc.id, identity);
      && ProviderStep(db, proc) == (after, Admitted(identity, proc.id))
      && AccountOf(after, identity) == Some(proc.id) && AccountAt(after, proc.profile.email) == Some(proc.id)
      && Verified(after, proc.id)
  {
    hide StoresOk, Extends, AccountOf, AccountAt;
    var identity := IdentityOf(proc.provider, proc.profile);
    FoundOf(db, identity);
    LinkIdentityKeeps(db, proc.id, identity);
    FoundNew(LinkIdentity(db, proc.id, identity), proc.id, proc.profile.email);
    FoundHolder(LinkIdentity(db, proc.id, identity), proc.id, identity);
  }

  lemma CreatesForProviderAlone(db: Db, proc: Proc, outside: Outside)
    requires StoresOk(db) && IsAlone(db, outside) && proc.CreatingForProvider? && outside.mayCreate
    requires AccountOf(db, IdentityOf(proc.provider, proc.profile)).None?
    requires AccountAt(db, proc.profile.email).None? && !ClaimIsLive(db, proc.profile.email)
    ensures var (after, end) := Alone(db, proc, outside, 3);
      var identity := IdentityOf(proc.provider, proc.profile);
      && end == Admitted(identity, db.nextId) && AccountOf(after, identity) == Some(db.nextId)
      && AccountAt(after, proc.profile.email) == Some(db.nextId) && Verified(after, db.nextId)
  {
    hide StoresOk, Alone, Insert, Commit, Reserve, AccountOf, AccountAt;
    var provider, profile := proc.provider, proc.profile;
    var identity := IdentityOf(provider, profile);
    UnitAlone(db, Account(profile.email, true, false, {identity}));
    var reserved := Reserve(db, profile.email, ME).0;
    var pending := Insert(reserved, profile.email, {identity}, ME).0;
    var after := Commit(pending, profile.email, true).0;
    Unfold(db, proc, outside, 3);
    Unfold(reserved, InsertingForProvider(provider, profile), outside, 2);
    Unfold(pending, CommittingForProvider(provider, profile), outside, 1);
    EndedStays(after, Admitted(identity, db.nextId), outside, 0);
    FoundNew(after, db.nextId, profile.email);
    FoundHolder(after, db.nextId, identity);
  }

  lemma FoundHolder(db: Db, id: AccountId, identity: Identity)
    requires StoresOk(db) && id in db.accounts && identity in db.accounts[id].identities
    ensures AccountOf(db, identity) == Some(id)
  {
    FoundOf(db, identity);
  }
}
