/** What holds over every interleaving of sign-ins by link and by provider. */
module SignInTheorems {
  import opened Options
  import opened SignInSpec
  import opened SignInInvariants
  import opened SignInSteps

  lemma {:induction false} RunKeeps(s: State, events: seq<Event>)
    requires Inv(s)
    ensures Inv(Run(s, events)) && Extends(s.db, Run(s, events).db)
  {
    hide Inv, Step, Extends;
    if events == [] {
      NothingRewritten(s.db);
    } else {
      var before := Run(s, events[..|events| - 1]);
      RunKeeps(s, events[..|events| - 1]);
      StepKeeps(before, events[|events| - 1]);
      InvGivesStores(s);
      ExtendsComposes(s.db, before.db, Run(s, events).db);
    }
  }

  lemma {:induction false} RunsJoin(s: State, first: seq<Event>, second: seq<Event>)
    ensures Run(Run(s, first), second) == Run(s, first + second)
  {
    hide Step;
    if second == [] {
      assert first + second == first;
    } else {
      var shorter := second[..|second| - 1];
      RunsJoin(s, first, shorter);
      assert (first + second)[..|first + second| - 1] == first + shorter;
    }
  }

  /** Any moment of a run and any later moment of it. */
  lemma MomentsExtend(s: State, events: seq<Event>, i: nat, j: nat)
    requires Inv(s) && i <= j <= |events|
    ensures Inv(Run(s, events[..i])) && Inv(Run(s, events[..j]))
    ensures Extends(Run(s, events[..i]).db, Run(s, events[..j]).db)
  {
    hide Inv, Run, Extends;
    RunKeeps(s, events[..i]);
    RunKeeps(Run(s, events[..i]), events[i..j]);
    RunsJoin(s, events[..i], events[i..j]);
    assert events[..i] + events[i..j] == events[..j];
  }

  function Start(db: Db): State {
    State(db, [])
  }

  lemma Reached(db: Db, events: seq<Event>)
    requires StoresOk(db)
    ensures Inv(Run(Start(db), events))
  {
    hide StoresOk;
    RunKeeps(Start(db), events);
  }

  // ---------- Links ----------

  predicate SignedInBy(s: State, p: nat, hash: Hash) {
    p < |s.procs| && s.procs[p].SignedIn? && s.procs[p].spent.visit.hash == hash
  }

  ghost predicate NobodyHolds(s: State, hash: Hash) {
    && IsSpent(s.db, hash)
    && forall p :: 0 <= p < |s.procs| ==> Holder(s.procs[p]) != Some(hash)
  }

  lemma NobodyTakesASpentLink(s: State, event: Event, hash: Hash)
    requires Inv(s) && NobodyHolds(s, hash)
    ensures NobodyHolds(Step(s, event), hash)
  {
    hide StoresOk, ProcOk, UniqueHolders, ProcStep, Holder;
    StepKeeps(s, event);
    HashFactsStay(s.db, Step(s, event).db, hash);
    match event
    case Advance(p, outside) => if p < |s.procs| { ProcStepKeeps(s.db, s.procs[p], outside, p); }
    case Request(email, nonceHash) => StartsHolding(AskingRecipient(email, nonceHash, s.db.now));
    case NativeRequest(email) => StartsHolding(AskingNativeSlot(email, s.db.now));
    case Verify(link, confirm, presented) => StartsHolding(Verification(s.db, link, confirm, presented));
    case SignInWith(provider, profile) => StartsHolding(ProviderCall(provider, profile));
    case _ =>
  }

  lemma StartsHolding(proc: Proc)
    ensures (proc.AskingRecipient? || proc.AskingNativeSlot? || proc.ReadingLink? || proc.ClaimingLink? || proc.FindingIdentity?
       || proc == Failed(EmailUnverified, None)) ==> Holder(proc).None?
  {}

  lemma {:induction false} SpentLinksStayUnheld(db: Db, events: seq<Event>, hash: Hash)
    requires StoresOk(db) && IsSpent(db, hash)
    ensures NobodyHolds(Run(Start(db), events), hash)
  {
    hide Step, StoresOk;
    if events != [] {
      var before := events[..|events| - 1];
      SpentLinksStayUnheld(db, before, hash);
      Reached(db, before);
      NobodyTakesASpentLink(Run(Start(db), before), events[|events| - 1], hash);
    }
  }

  /**
   One stored link completes at most one sign-in; a link stored spent completes none, whether it
   was stored by a request of the run or before the run began.
   */
  lemma OneSignInPerLink(db: Db, events: seq<Event>, hash: Hash, p: nat, q: nat)
    requires StoresOk(db)
    ensures var s := Run(Start(db), events);
      && (SignedInBy(s, p, hash) && SignedInBy(s, q, hash) ==> p == q)
      && (SignedInBy(s, p, hash) && q < |s.procs| && s.procs[q].LinkStored? && s.procs[q].hash == hash ==>
            s.procs[q].mailed)
      && (hash in db.links && db.links[hash].consumedAt.Some? ==> !SignedInBy(s, p, hash))
      && (SignedInBy(s, p, hash) ==> hash < s.db.nextToken && !Unspent(s.db, hash))
  {
    hide Run, UniqueAddresses, UniqueIdentities, ClaimsExclude, LocksExclude, PendingsFit;
    Reached(db, events);
    if hash in db.links && db.links[hash].consumedAt.Some? {
      SpentLinksStayUnheld(db, events, hash);
    }
  }

  /** A call that was answered with a sign-in: its account has the link's address, verified. */
  lemma SignedInAccountHasTheAddress(db: Db, events: seq<Event>, p: nat)
    requires StoresOk(db)
    ensures var s := Run(Start(db), events);
      p < |s.procs| && s.procs[p].SignedIn? ==>
        var spent := s.procs[p].spent;
        && AccountAt(s.db, spent.email) == Some(s.procs[p].id)
        && Verified(s.db, s.procs[p].id)
        && (spent.visit.hash in s.db.links ==> s.db.links[spent.visit.hash].email == spent.email)
  {
    hide Run, UniqueHolders, ClaimsExclude;
    Reached(db, events);
    var s := Run(Start(db), events);
    if p < |s.procs| && s.procs[p].SignedIn? {
      FoundAt(s.db, s.procs[p].spent.email);
    }
  }

  /** A person confirmed, or the link is back in its browser, signed out or signed in to its owner. */
  predicate MaySpend(db: Db, visit: Visit) {
    && visit.hash in db.links
    && (visit.confirm || (visit.presented.Some? && db.links[visit.hash].nonceHash == visit.presented))
  }

  predicate SessionFits(db: Db, visit: Visit, grounds: Grounds) {
    visit.hash in db.links && grounds.SameBrowser? && grounds.session.Some? ==>
      AccountAt(db, db.links[visit.hash].email) == grounds.session
  }

  lemma OnlyLinkStepsTouchLinks(db: Db, proc: Proc, outside: Outside, me: nat)
    ensures !proc.StoringLink? && !proc.ClaimingLink? ==> ProcStep(db, proc, outside, me).0.links == db.links
    ensures proc.ClaimingLink? ==>
      ProcStep(db, proc, outside, me).0.links ==
        if Unspent(db, proc.visit.hash) then ClaimLink(db, proc.visit.hash, proc.visit.now).links else db.links
    ensures proc.StoringLink? ==>
      forall hash :: hash in db.links && hash < db.nextToken ==>
        hash in ProcStep(db, proc, outside, me).0.links && ProcStep(db, proc, outside, me).0.links[hash] == db.links[hash]
  {
    hide CreateStep, CheckStep, ProviderStep, SpendStep, RequestStep;
    if Requesting(proc) { RequestingOnlyAddsLinks(db, proc); }
    if Spending(proc) { SpendingTouchesItsLink(db, proc); }
    if Creating(proc) { CreatingTouchesNoLink(db, proc, outside, me); }
    if Providing(proc) { ProvidingTouchesNoLink(db, proc); }
  }

  lemma RequestingOnlyAddsLinks(db: Db, proc: Proc)
    requires Requesting(proc)
    ensures !proc.StoringLink? ==> RequestStep(db, proc).0.links == db.links
    ensures forall hash :: hash in db.links && hash < db.nextToken ==>
      hash in RequestStep(db, proc).0.links && RequestStep(db, proc).0.links[hash] == db.links[hash]
  {}

  lemma SpendingTouchesItsLink(db: Db, proc: Proc)
    requires Spending(proc)
    ensures SpendStep(db, proc).0.links ==
      if proc.ClaimingLink? && Unspent(db, proc.visit.hash) then ClaimLink(db, proc.visit.hash, proc.visit.now).links
      else db.links
  {}

  lemma ProvidingTouchesNoLink(db: Db, proc: Proc)
    requires Providing(proc)
    ensures ProviderStep(db, proc).0.links == db.links
  {}

  lemma CreatingTouchesNoLink(db: Db, proc: Proc, outside: Outside, me: nat)
    requires Creating(proc)
    ensures CreateStep(db, proc, outside, me).0.links == db.links
  {
    hide AccountAt, ClaimIsLive, IdentityIsPending, FindByEmail, IsPending;
  }

  /** Whatever step spends a stored link, it had the grounds to. */
  lemma SpendingHasGrounds(s: State, event: Event, hash: Hash)
    requires Inv(s) && Unspent(s.db, hash)
    requires hash in Step(s, event).db.links && !Unspent(Step(s, event).db, hash)
    ensures event.Advance? && event.p < |s.procs| && s.procs[event.p].ClaimingLink?
    ensures var proc := s.procs[event.p];
      && proc.visit.hash == hash && MaySpend(s.db, proc.visit) && SessionFits(s.db, proc.visit, proc.grounds)
      && proc.visit.confirm == proc.grounds.Confirmed?
      && Step(s, event).db.links[hash].consumedAt == Some(proc.visit.now)
  {
    hide ProcStep, UniqueHolders, UniqueIdentities, ClaimsExclude, LocksExclude, PendingsFit;
    if event.Advance? && event.p < |s.procs| {
      var proc := s.procs[event.p];
      OnlyLinkStepsTouchLinks(s.db, proc, event.outside, event.p);
      assert proc.ClaimingLink? && proc.visit.hash == hash;
      assert ProcOk(s.db, proc, event.p);
      FoundAt(s.db, s.db.links[hash].email);
    }
  }

  predicate BeforeSpending(proc: Proc) {
    proc.ReadingLink? || proc.AskingSession? || proc.AskingOwner? || proc.AwaitsConfirmation?
  }

  lemma StepBeforeSpending(s: State, event: Event, p: nat)
    requires p < |s.procs| && BeforeSpending(Step(s, event).procs[p])
    ensures BeforeSpending(s.procs[p])
    ensures event.Advance? && event.p == p ==> Step(s, event).db.links == s.db.links
  {
    hide RequestStep, SpendStep, ProviderStep, CreateStep, Holder;
    if event.Advance? && event.p < |s.procs| && !BeforeSpending(s.procs[event.p]) { NeverBackToChecks(s.db, s.procs[event.p], event.outside, event.p); }
  }

  lemma NeverBackToChecks(db: Db, proc: Proc, outside: Outside, me: nat)
    requires !BeforeSpending(proc)
    ensures !BeforeSpending(ProcStep(db, proc, outside, me).1)
  {}

  lemma ProcsOnlyGrow(s: State, event: Event)
    ensures |s.procs| <= |Step(s, event).procs|
  {}

  /** A call answered with `requiresConfirmation` changed no link at any of its own steps. */
  lemma {:induction false} ConfirmationSpendsNothing(s: State, events: seq<Event>, p: nat, i: nat)
    requires p < |Run(s, events).procs| && BeforeSpending(Run(s, events).procs[p])
    requires i < |events| && events[i].Advance? && events[i].p == p
    ensures Run(s, events[..i + 1]).db.links == Run(s, events[..i]).db.links
  {
    hide Step, BeforeSpending;
    var shorter := events[..|events| - 1];
    var before := Run(s, shorter);
    if i == |shorter| {
      assert events[..i + 1] == events && events[..i] == shorter;
      if p < |before.procs| { StepBeforeSpending(before, events[i], p); } else { AbsentAdvance(before, events[i]); }
    } else {
      assert events[..i + 1] == shorter[..i + 1] && events[..i] == shorter[..i];
      if p < |before.procs| {
        StepBeforeSpending(before, events[|shorter|], p);
        ConfirmationSpendsNothing(s, shorter, p, i);
      } else {
        ProcsGrowAlong(s, shorter, i);
        AbsentAdvance(Run(s, events[..i]), events[i]);
        assert events[..i + 1][..i] == events[..i];
      }
    }
  }

  lemma AbsentAdvance(s: State, event: Event)
    requires event.Advance? && event.p >= |s.procs|
    ensures Step(s, event) == s
  {}

  lemma {:induction false} ProcsGrowAlong(s: State, events: seq<Event>, i: nat)
    requires i <= |events|
    ensures |Run(s, events[..i]).procs| <= |Run(s, events).procs|
  {
    hide Step;
    if i == |events| {
      assert events[..i] == events;
    } else {
      var shorter := events[..|events| - 1];
      assert events[..i] == shorter[..i];
      ProcsGrowAlong(s, shorter, i);
      ProcsOnlyGrow(Run(s, shorter), events[|events| - 1]);
    }
  }

  // ---------- Accounts ----------

  /**
   Once an account has an address or an identity, every later lookup of either finds that account,
   and what was verified stays so.
   */
  lemma AccountsStayThemselves(s: State, events: seq<Event>, i: nat, j: nat, id: AccountId, identity: Identity)
    requires Inv(s) && i <= j <= |events|
    requires id in Run(s, events[..i]).db.accounts
    ensures var (before, after) := (Run(s, events[..i]).db, Run(s, events[..j]).db);
      && AccountAt(after, before.accounts[id].email) == Some(id)
      && (identity in before.accounts[id].identities ==> AccountOf(after, identity) == Some(id))
      && (Verified(before, id) ==> Verified(after, id))
  {
    hide Run;
    MomentsExtend(s, events, i, j);
    var (before, after) := (Run(s, events[..i]).db, Run(s, events[..j]).db);
    LookupsFind(before, after, id, identity);
  }

  lemma LookupsFind(before: Db, after: Db, id: AccountId, identity: Identity)
    requires StoresOk(after) && Extends(before, after) && id in before.accounts
    ensures AccountAt(after, before.accounts[id].email) == Some(id)
    ensures identity in before.accounts[id].identities ==> AccountOf(after, identity) == Some(id)
    ensures Verified(before, id) ==> Verified(after, id)
  {
    hide ClaimsExclude;
    assert AccountGrew(before.accounts[id], after.accounts[id]);
    FoundAt(after, before.accounts[id].email);
    FoundOf(after, identity);
  }

  /** A provider sign-in that was let in resolves to its account from then on. */
  lemma AdmittedIdentityResolves(db: Db, events: seq<Event>, p: nat)
    requires StoresOk(db)
    ensures var s := Run(Start(db), events);
      p < |s.procs| && s.procs[p].Admitted? ==> AccountOf(s.db, s.procs[p].identity) == Some(s.procs[p].id)
  {
    hide Run, UniqueHolders, UniqueAddresses, ClaimsExclude;
    Reached(db, events);
    var s := Run(Start(db), events);
    if p < |s.procs| && s.procs[p].Admitted? {
      FoundOf(s.db, s.procs[p].identity);
    }
  }

  /** What a step of a call does to the accounts: a new one only at a commit, more identities only by linking. */
  lemma AccountChanges(db: Db, proc: Proc, outside: Outside, me: nat, id: AccountId)
    requires StoresOk(db) && ProcOk(db, proc, me) && id in db.accounts
    ensures var after := ProcStep(db, proc, outside, me).0;
      && id in after.accounts
      && (after.accounts[id].identities != db.accounts[id].identities ==>
        && proc.LinkingFirst? && proc.id == id && !IdentityIsPending(db, IdentityOf(proc.provider, proc.profile))
        && after.accounts[id].identities == db.accounts[id].identities + {IdentityOf(proc.provider, proc.profile)})
  {
    hide StoresOk, CreateStep, CheckStep, RequestStep, SpendStep, ProviderStep, IdentityIsPending;
    if Creating(proc) { CreatingChanges(db, proc, outside, me); }
    if Requesting(proc) { RequestingKeepsAccounts(db, proc); }
    if Spending(proc) { SpendingKeepsIdentities(db, proc, id); }
    if Providing(proc) { ProvidingLinks(db, proc, id); }
  }

  lemma RequestingKeepsAccounts(db: Db, proc: Proc)
    requires Requesting(proc)
    ensures RequestStep(db, proc).0.accounts == db.accounts
  {}

  lemma SpendingKeepsIdentities(db: Db, proc: Proc, id: AccountId)
    requires Spending(proc) && id in db.accounts
    ensures var after := SpendStep(db, proc).0;
      id in after.accounts && after.accounts[id].identities == db.accounts[id].identities
  {}

  lemma ProvidingLinks(db: Db, proc: Proc, id: AccountId)
    requires Providing(proc) && id in db.accounts
    ensures var after := ProviderStep(db, proc).0;
      && id in after.accounts
      && (after.accounts[id].identities != db.accounts[id].identities ==>
        && proc.LinkingFirst? && proc.id == id && !IdentityIsPending(db, IdentityOf(proc.provider, proc.profile))
        && after.accounts[id].identities == db.accounts[id].identities + {IdentityOf(proc.provider, proc.profile)})
  {
    hide IdentityIsPending;
  }

  lemma CreatingChanges(db: Db, proc: Proc, outside: Outside, me: nat)
    requires StoresOk(db) && ProcOk(db, proc, me) && Creating(proc)
    ensures var after := CreateStep(db, proc, outside, me).0;
      if outside.commits && (proc.CommittingForLink? || proc.CommittingForProvider?) then
        && db.nextId !in db.accounts
        && after.accounts == db.accounts[db.nextId := Account(MakesAt(proc), true, false, MakesWith(proc))]
        && !ClaimIsLive(db, MakesAt(proc)) && AccountAt(db, MakesAt(proc)).None? && MakesAt(proc) !in after.claims
        && (forall identity :: identity in MakesWith(proc) ==> AccountOf(db, identity).None?)
      else after.accounts == db.accounts
  {
    hide StoresOk, Extends, LocksKept, SpentOk, Reserve, Insert, Commit;
    if proc.CreatingForLink? || proc.CreatingForProvider? {
      ReserveKeeps(db, MakesAt(proc), me);
    } else if proc.InsertingForLink? || proc.InsertingForProvider? {
      InsertKeeps(db, MakesAt(proc), MakesWith(proc), me);
    } else {
      CommitKeeps(db, MakesAt(proc), outside.commits, me);
      HeldRowExcludes(db, MakesAt(proc), me);
      PendingIsFree(db, MakesAt(proc));
    }
  }

  /**
   An identity joins an account that was there before only by that account's own address, when the
   account is verified and the provider vouches for each address.
   */
  lemma IdentityJoinsOnlyAVerifiedAccount(s: State, event: Event, id: AccountId, identity: Identity)
    requires Inv(s) && id in s.db.accounts && identity !in s.db.accounts[id].identities
    requires id in Step(s, event).db.accounts && identity in Step(s, event).db.accounts[id].identities
    ensures event.Advance? && event.p < |s.procs| && s.procs[event.p].LinkingFirst?
    ensures var proc := s.procs[event.p];
      && identity == IdentityOf(proc.provider, proc.profile) && proc.provider.autoLinksByEmail
      && AccountAt(s.db, proc.profile.email) == Some(id) && Verified(s.db, id)
      && AccountOf(s.db, identity).None?
  {
    hide ProcStep, UniqueHolders, StoresOk;
    InvGivesStoresAndCalls(s);
    if event.Advance? && event.p < |s.procs| {
      var proc := s.procs[event.p];
      AccountChanges(s.db, proc, event.outside, event.p, id);
      JoiningFinds(s.db, proc, event.outside, event.p);
    } else if event.MakeAccount? {
      MadeIsNew(s.db, event.email, event.verified);
    }
  }

  lemma InvGivesStoresAndCalls(s: State)
    requires Inv(s)
    ensures StoresOk(s.db) && forall p :: 0 <= p < |s.procs| ==> ProcOk(s.db, s.procs[p], p)
  {}

  lemma MadeIsNew(db: Db, email: string, verified: bool)
    requires StoresOk(db)
    ensures var after := Made(db, email, verified);
      if email !in db.reserved && !ClaimIsLive(db, email) && AccountAt(db, email).None? then
        && db.nextId !in db.accounts && email !in after.claims
        && after.accounts == db.accounts[db.nextId := Account(email, verified, false, {})]
      else after == db
  {}

  lemma JoiningFinds(db: Db, proc: Proc, outside: Outside, me: nat)
    requires StoresOk(db) && proc.LinkingFirst? && ProcOk(db, proc, me)
    ensures AccountAt(db, proc.profile.email) == Some(proc.id)
    ensures var identity := IdentityOf(proc.provider, proc.profile);
      identity !in db.accounts[proc.id].identities && ProcStep(db, proc, outside, me).0 != db ==>
        AccountOf(db, identity).None?
  {
    hide LinkIdentity, ClaimsExclude, LocksExclude, PendingsFit;
    FoundAt(db, proc.profile.email);
    FoundOf(db, IdentityOf(proc.provider, proc.profile));
  }

  /** A new account takes an address nobody has and nobody else has a live claim on. */
  lemma NewAccountsTakeFreeAddresses(s: State, event: Event, id: AccountId)
    requires Inv(s) && id !in s.db.accounts && id in Step(s, event).db.accounts
    ensures var account := Step(s, event).db.accounts[id];
      && AccountAt(s.db, account.email).None? && !ClaimIsLive(s.db, account.email)
      && account.email !in Step(s, event).db.claims
      && (event.Advance? ==> account.verified) && !account.deleted && |account.identities| <= 1
      && (forall identity :: identity in account.identities ==> AccountOf(s.db, identity).None?)
  {
    hide UniqueHolders, StoresOk, ProcOk, CreateStep, CheckStep, Made, FindByEmail, FindByIdentity;
    InvGivesStoresAndCalls(s);
    match event
    case Advance(p, outside) =>
      if p < |s.procs| { StepAddsFairly(s.db, s.procs[p], outside, p, id); }
    case MakeAccount(email, verified) => MadeIsNew(s.db, email, verified);
    case _ =>
  }

  lemma StepAddsFairly(db: Db, proc: Proc, outside: Outside, me: nat, id: AccountId)
    requires StoresOk(db) && ProcOk(db, proc, me) && id !in db.accounts
    ensures var after := ProcStep(db, proc, outside, me).0;
      id in after.accounts ==>
        var account := after.accounts[id];
        && AccountAt(db, account.email).None? && !ClaimIsLive(db, account.email) && account.email !in after.claims
        && account.verified && !account.deleted && |account.identities| <= 1
        && (forall identity :: identity in account.identities ==> AccountOf(db, identity).None?)
  {
    hide StoresOk, ProcOk, CreateStep, CheckStep, FindByEmail, FindByIdentity;
    if Creating(proc) { CreatingChanges(db, proc, outside, me); }
  }

  /** An address is never held by a live claim of one account while another account has it. */
  lemma ClaimedAddressHasNoOtherAccount(db: Db, events: seq<Event>, address: string)
    requires StoresOk(db)
    ensures var after := Run(Start(db), events).db;
      ClaimIsLive(after, address) && AccountAt(after, address).Some? ==>
        AccountAt(after, address) == Some(after.claims[address].owner)
  {
    hide Run, UniqueHolders, UniqueIdentities, ProcOk;
    Reached(db, events);
    FoundAt(Run(Start(db), events).db, address);
  }

  /**
   The claim row excludes: while a call is between its reservation and its commit, whatever else
   runs, its address has no account and no live claim. So the database's own refusal of the address
   never reaches a caller, and the lost race is only ever entered through a taken reservation.
   */
  lemma AddressRuleIsNeverMet(db: Db, events: seq<Event>, p: nat)
    requires StoresOk(db)
    ensures var s := Run(Start(db), events);
      p < |s.procs| ==>
        && !(s.procs[p].Failed? && s.procs[p].failure == AddressConflict)
        && (s.procs[p].LostRace? ==> s.procs[p].reservationTaken)
        && (Creating(s.procs[p]) && !s.procs[p].CreatingForLink? && !s.procs[p].CreatingForProvider? ==>
              && HoldsRow(s.db, MakesAt(s.procs[p]), p)
              && AccountAt(s.db, MakesAt(s.procs[p])).None? && !ClaimIsLive(s.db, MakesAt(s.procs[p]))
              && !Insert(s.db, MakesAt(s.procs[p]), MakesWith(s.procs[p]), p).1.AddressInUse?)
  {
    hide Run, UniqueHolders, StoresOk, SpentOk, Insert;
    Reached(db, events);
    var s := Run(Start(db), events);
    if p < |s.procs| {
      InvGivesStoresAndCalls(s);
      assert ProcOk(s.db, s.procs[p], p);
      if Creating(s.procs[p]) && !s.procs[p].CreatingForLink? && !s.procs[p].CreatingForProvider? {
        HeldRowExcludes(s.db, MakesAt(s.procs[p]), p);
        InsertKeeps(s.db, MakesAt(s.procs[p]), MakesWith(s.procs[p]), p);
      }
    }
  }

  /** The account a call is about to act on, if this is where it settled on one. */
  function SettledOn(proc: Proc): Option<AccountId> {
    match proc
    case MarkingVerified(_, id) => Some(id)
    case Completing(_, id) => Some(id)
    case LinkingFirst(_, _, id) => Some(id)
    case Admitted(_, id) => Some(id)
    case _ => None
  }

  /** Whichever read settles on an existing account, a deleted one is turned away there and then. */
  lemma DeletedAccountsAreTurnedAway(s: State, p: nat, outside: Outside, id: AccountId)
    requires Inv(s) && p < |s.procs|
    requires SettledOn(s.procs[p]).None?
    requires SettledOn(Step(s, Advance(p, outside)).procs[p]) == Some(id)
    ensures if id in s.db.accounts then !s.db.accounts[id].deleted
      else s.procs[p].CommittingForLink? || s.procs[p].CommittingForProvider?
  {
    hide StoresOk, Reserve, Insert, Commit;
    var (db, proc) := (s.db, s.procs[p]);
    InvGivesStoresAndCalls(s);
    if proc.CommittingForLink? || proc.CommittingForProvider? { CommitKeeps(db, MakesAt(proc), outside.commits, p); }
  }

  /**
   A claim of an address is granted exactly when no other account has the address, no other holds a
   live claim on it, and no unit of work holds its row; it then stands alone there.
   */
  lemma ClaimingIsExclusive(s: State, address: string, owner: AccountId, lapsesAt: int)
    requires StoresOk(s.db)
    ensures var after := Step(s, ClaimAddress(address, owner, lapsesAt)).db;
      var held := ClaimIsLive(s.db, address) && s.db.claims[address].owner != owner;
      var had := AccountAt(s.db, address).Some? && AccountAt(s.db, address) != Some(owner);
      if !held && !had && address !in s.db.reserved then after == s.db.(claims := s.db.claims[address := Claim(owner, lapsesAt)])
      else after == s.db
  {
    hide ClaimsExclude, LocksExclude, PendingsFit, UniqueIdentities;
    FoundAt(s.db, address);
  }

  /** Deactivating an account changes nothing else, and every lookup that settles on it then turns away. */
  lemma DeactivationShows(s: State, id: AccountId, deleted: bool)
    ensures var after := Step(s, SetDeleted(id, deleted)).db;
      && after.accounts.Keys == s.db.accounts.Keys
      && (id in s.db.accounts ==> after.accounts[id] == s.db.accounts[id].(deleted := deleted))
      && forall other :: other in s.db.accounts && other != id ==> after.accounts[other] == s.db.accounts[other]
  {}
}
