/**
 The services over their stores, updated in place: every method is the stretch of a call between
 two awaits, and is proved to do the step of `SignInSpec` it stands for.
 */
module SignInServer {
  import opened Options
  import opened SignInSpec
  import opened SignInInvariants
  import opened SignInSteps

  class Stores {
    var links: map<Hash, Link>
    var accounts: map<AccountId, Account>
    var claims: map<string, Claim>
    var reserved: map<string, Reservation>
    var slots: map<string, Slot>
    var nextId: AccountId
    var nextToken: Hash
    var now: int
    const settings: Settings

    constructor (now: int, settings: Settings)
      ensures StoresOk(Contents()) && accounts == map[] && links == map[] && claims == map[] && reserved == map[]
    {
      links, accounts, claims, slots, reserved := map[], map[], map[], map[], map[];
      nextId, nextToken, this.now, this.settings := 0, 0, now, settings;
    }

    function Contents(): Db
      reads this
    {
      Db(links, accounts, claims, reserved, slots, nextId, nextToken, now, settings)
    }

    /** True while the address is inside its hourly cap, this request counted. */
    method TakeRequestSlot(email: string, at: int) returns (underCap: bool)
      modifies this
      ensures var slot := SlotAfter(old(Contents()), email, at);
        Contents() == SetSlot(old(Contents()), email, slot) && underCap == (slot.taken <= settings.maxPerHour)
    {
      if email !in slots || slots[email].startedAt <= at - settings.windowMs {
        slots := slots[email := Slot(at, 1)];
      } else {
        slots := slots[email := slots[email].(taken := slots[email].taken + 1)];
      }
      return slots[email].taken <= settings.maxPerHour;
    }

    method StoreLink(link: Link) returns (hash: Hash)
      modifies this
      ensures Contents() == InsertLink(old(Contents()), link) && hash == old(nextToken)
    {
      hash := nextToken;
      links := links[hash := link];
      nextToken := nextToken + 1;
    }

    method FindUnspentLink(hash: Hash) returns (link: Option<Link>)
      ensures link == if Unspent(Contents(), hash) then Some(links[hash]) else None
    {
      if hash in links && links[hash].consumedAt.None? { return Some(links[hash]); }
      return None;
    }

    /** Spends the link for one caller; every other gets nothing. */
    method SpendLink(hash: Hash, at: int) returns (link: Option<Link>)
      modifies this
      ensures if old(Unspent(Contents(), hash)) then
          link == Some(old(links[hash])) && Contents() == ClaimLink(old(Contents()), hash, at)
        else link == None && Contents() == old(Contents())
    {
      if hash in links && links[hash].consumedAt.None? {
        link := Some(links[hash]);
        links := links[hash := links[hash].(consumedAt := Some(at))];
      } else {
        link := None;
      }
    }

    method MarkAccountVerified(id: AccountId)
      modifies this
      ensures Contents() == MarkVerified(old(Contents()), id)
    {
      if id in accounts { accounts := accounts[id := accounts[id].(verified := true)]; }
    }

    method LinkFirstSignIn(id: AccountId, identity: Identity) returns (refused: bool)
      modifies this
      ensures refused <==>
        exists other :: other in old(accounts) && other != id && identity in old(accounts)[other].identities
      ensures Contents() == if refused then old(Contents()) else LinkIdentity(old(Contents()), id, identity)
    {
      refused := exists other :: other in accounts && other != id && identity in accounts[other].identities;
      if !refused && id in accounts {
        var account := accounts[id];
        accounts := accounts[id := account.(verified := true, identities := account.identities + {identity})];
      }
    }

    /** Writes the claim row, which holds the address until this unit of work ends. */
    method ReserveForAccount(email: string, me: nat) returns (reserving: Reserving)
      modifies this
      ensures (Contents(), reserving) == Reserve(old(Contents()), email, me)
    {
      if email in reserved { return RowIsHeld; }
      var owner := FindByEmail(accounts, email, nextId);
      if ClaimIsLive(Contents(), email) || owner.Some? { return Taken; }
      reserved := reserved[email := Reservation(me, None)];
      return Reserved;
    }

    /** Inserts the account for this unit of work alone, or rolls it back where a unique rule refuses. */
    method InsertAccount(email: string, identities: set<Identity>, me: nat) returns (inserting: Inserting)
      modifies this
      ensures (Contents(), inserting) == Insert(old(Contents()), email, identities, me)
    {
      if exists id :: id in accounts && accounts[id].email == email {
        inserting := AddressInUse;
      } else if exists id, identity :: id in accounts && identity in identities && identity in accounts[id].identities {
        inserting := IdentityInUse;
      } else if exists identity :: identity in identities && IdentityIsPending(Contents(), identity) {
        inserting := RunAgain;
      } else {
        reserved := reserved[email := Reservation(me, Some(Account(email, true, false, identities)))];
        return Inserted;
      }
      reserved := reserved - {email};
    }

    /** Ends the reservation and shows the account to everyone, or leaves nothing. */
    method CommitAccount(email: string, commits: bool) returns (id: Option<AccountId>)
      requires email in reserved && reserved[email].account.Some? && reserved[email].account.value.email == email
      modifies this
      ensures (Contents(), id) == Commit(old(Contents()), email, commits)
    {
      var account := reserved[email].account.value;
      reserved := reserved - {email};
      if !commits { return None; }
      id := Some(nextId);
      accounts := accounts[nextId := account];
      nextId := nextId + 1;
      claims := claims - {email};
    }
  }

  class Server {
    const stores: Stores
    var calls: seq<Proc>

    constructor (now: int, settings: Settings)
      ensures fresh(stores) && Inv(Now()) && calls == []
    {
      stores := new Stores(now, settings);
      calls := [];
    }

    function Now(): State
      reads this, stores
    {
      State(stores.Contents(), calls)
    }

    method ContinueRequest(call: Proc) returns (next: Proc)
      requires Requesting(call)
      modifies stores
      ensures (stores.Contents(), next) == RequestStep(old(stores.Contents()), call)
    {
      match call
      case AskingRecipient(email, nonceHash, now) =>
        var owner := FindByEmail(stores.accounts, email, stores.nextId);
        next := AskingSlot(email, nonceHash, now, owner.Some? && stores.accounts[owner.value].deleted);
      case AskingSlot(email, nonceHash, now, deleted) =>
        var underCap := stores.TakeRequestSlot(email, now);
        next := StoringLink(email, nonceHash, now, !deleted && underCap);
      case AskingNativeSlot(email, now) =>
        var underCap := stores.TakeRequestSlot(email, now);
        next := NativeCounted(email, underCap);
      case StoringLink(email, nonceHash, now, mailed) =>
        var consumedAt := if mailed then None else Some(now);
        var hash := stores.StoreLink(Link(email, now + stores.settings.expiresIn, Some(nonceHash), consumedAt));
        next := LinkStored(email, hash, mailed);
    }

    method ContinueCheck(call: Proc, outside: Outside) returns (next: Proc)
      requires Checking(call)
      ensures next == CheckStep(stores.Contents(), call, outside)
    {
      match call
      case ReadingLink(visit) =>
        var link := stores.FindUnspentLink(visit.hash);
        if link.None? || link.value.expiresAt <= visit.now {
          next := Failed(InvalidLink, None);
        } else if visit.presented.None? || link.value.nonceHash != visit.presented {
          next := AwaitsConfirmation(visit, link.value.email);
        } else {
          next := AskingSession(visit, link.value);
        }
      case AskingSession(visit, link) =>
        next := if outside.session.None? then ClaimingLink(visit, SameBrowser(None))
          else AskingOwner(visit, link, outside.session.value);
      case AskingOwner(visit, link, session) =>
        var owner := FindByEmail(stores.accounts, link.email, stores.nextId);
        next := if owner != Some(session) then AwaitsConfirmation(visit, link.email)
          else ClaimingLink(visit, SameBrowser(Some(session)));
    }

    /** An account behind a spent link: refused when deleted, verified when it was not. */
    method SettleOn(spent: Spent, id: AccountId) returns (next: Proc)
      requires id in stores.accounts
      ensures next == Settle(stores.Contents(), spent, id)
    {
      var account := stores.accounts[id];
      if account.deleted { return Failed(InvalidLink, Some(spent.visit.hash)); }
      return if account.verified then Completing(spent, id) else MarkingVerified(spent, id);
    }

    method ContinueSpend(call: Proc) returns (next: Proc)
      requires Spending(call)
      modifies stores
      ensures (stores.Contents(), next) == SpendStep(old(stores.Contents()), call)
    {
      match call
      case ClaimingLink(visit, grounds) =>
        var link := stores.SpendLink(visit.hash, visit.now);
        if link.None? {
          next := Failed(InvalidLink, None);
        } else if link.value.expiresAt <= stores.now {
          next := Failed(InvalidLink, Some(visit.hash));
        } else {
          next := Resolving(Spent(visit, grounds, link.value.email));
        }
      case Resolving(spent) =>
        var existing := FindByEmail(stores.accounts, spent.email, stores.nextId);
        if existing.Some? { next := SettleOn(spent, existing.value); } else { next := CreatingForLink(spent); }
      case MarkingVerified(spent, id) =>
        stores.MarkAccountVerified(id);
        next := Completing(spent, id);
      case LostRace(spent, reservationTaken) =>
        var created := FindByEmail(stores.accounts, spent.email, stores.nextId);
        if created.None? {
          next := Failed(if reservationTaken then InvalidLink else AddressConflict, Some(spent.visit.hash));
        } else if reservationTaken {
          next := SettleOn(spent, created.value);
        } else {
          next := Completing(spent, created.value);
        }
      case Completing(spent, id) => next := SignedIn(spent, id);
    }

    method ContinueProvider(call: Proc) returns (next: Proc)
      requires Providing(call)
      modifies stores
      ensures (stores.Contents(), next) == ProviderStep(old(stores.Contents()), call)
    {
      var identity := IdentityOf(call.provider, call.profile);
      match call
      case FindingIdentity(provider, profile) =>
        var linked := FindByIdentity(stores.accounts, identity, stores.nextId);
        if linked.None? {
          next := FindingAddress(provider, profile);
        } else {
          next := if stores.accounts[linked.value].deleted then Failed(AccountDeleted, None)
            else Admitted(identity, linked.value);
        }
      case FindingAddress(provider, profile) =>
        var byEmail := FindByEmail(stores.accounts, profile.email, stores.nextId);
        if byEmail.Some? {
          var account := stores.accounts[byEmail.value];
          next := if account.deleted then Failed(AccountDeleted, None)
            else if provider.autoLinksByEmail && account.verified then LinkingFirst(provider, profile, byEmail.value)
            else Failed(AddressTaken, None);
        } else {
          next := if provider.autoLinksByEmail then CreatingForProvider(provider, profile)
            else Failed(EmailUnverified, None);
        }
      case LinkingFirst(_, _, id) =>
        if !IdentityIsPending(stores.Contents(), identity) {
          var refused := stores.LinkFirstSignIn(id, identity);
          next := if refused then Failed(LinkedElsewhere, None) else Admitted(identity, id);
        } else {
          var refused := exists other ::
            other in stores.accounts && other != id && identity in stores.accounts[other].identities;
          next := if refused then Failed(LinkedElsewhere, None) else call;
        }
    }

    /** Policy and reservation, insert, or commit: one of the three stretches of the unit of work. */
    method ContinueCreation(call: Proc, outside: Outside, me: nat) returns (next: Proc)
      requires Creating(call) && StoresOk(stores.Contents()) && ProcOk(stores.Contents(), call, me)
      modifies stores
      ensures (stores.Contents(), next) == CreateStep(old(stores.Contents()), call, outside, me)
    {
      match call
      case CreatingForLink(spent) =>
        if !outside.mayCreate { return Failed(PolicyRefuses, Some(spent.visit.hash)); }
        var reserving := stores.ReserveForAccount(spent.email, me);
        next := match reserving
          case Reserved => InsertingForLink(spent)
          case Taken => LostRace(spent, true)
          case RowIsHeld => call;
      case InsertingForLink(spent) =>
        var inserting := stores.InsertAccount(spent.email, {}, me);
        next := match inserting
          case Inserted => CommittingForLink(spent)
          case AddressInUse => LostRace(spent, false)
          case IdentityInUse => LostRace(spent, false)
          case RunAgain => CreatingForLink(spent);
      case CommittingForLink(spent) =>
        var id := stores.CommitAccount(spent.email, outside.commits);
        next := if id.Some? then Completing(spent, id.value) else CreatingForLink(spent);
      case CreatingForProvider(provider, profile) =>
        if !outside.mayCreate { return Failed(PolicyRefuses, None); }
        var reserving := stores.ReserveForAccount(profile.email, me);
        next := match reserving
          case Reserved => InsertingForProvider(provider, profile)
          case Taken => Failed(AddressTaken, None)
          case RowIsHeld => call;
      case InsertingForProvider(provider, profile) =>
        var inserting := stores.InsertAccount(profile.email, {IdentityOf(provider, profile)}, me);
        next := match inserting
          case Inserted => CommittingForProvider(provider, profile)
          case AddressInUse => Failed(LinkedElsewhere, None)
          case IdentityInUse => Failed(LinkedElsewhere, None)
          case RunAgain => CreatingForProvider(provider, profile);
      case CommittingForProvider(provider, profile) =>
        var id := stores.CommitAccount(profile.email, outside.commits);
        next := if id.Some? then Admitted(IdentityOf(provider, profile), id.value) else CreatingForProvider(provider, profile);
    }

    /** Lets one call run up to its next await. Every invariant of the state survives. */
    method Continue(p: nat, outside: Outside)
      requires p < |calls| && Inv(Now())
      modifies this, stores
      ensures Now() == Step(old(Now()), Advance(p, outside))
      ensures Inv(Now()) && Extends(old(Now()).db, Now().db)
    {
      ghost var before := Now();
      var call := calls[p];
      var next := call;
      if Requesting(call) { next := ContinueRequest(call); }
      else if Checking(call) { next := ContinueCheck(call, outside); }
      else if Spending(call) { next := ContinueSpend(call); }
      else if Providing(call) { next := ContinueProvider(call); }
      else if Creating(call) { next := ContinueCreation(call, outside, p); }
      calls := calls[p := next];
      StepKeeps(before, Advance(p, outside));
    }

    /** A call begins: what runs before its first await. */
    method Begin(event: Event) returns (p: nat)
      requires (event.Request? || event.NativeRequest? || event.Verify? || event.SignInWith?) && Inv(Now())
      modifies this
      ensures Now() == Step(old(Now()), event) && Inv(Now())
      ensures p == old(|calls|) && |calls| == p + 1
    {
      ghost var before := Now();
      p := |calls|;
      match event {
        case Request(email, nonceHash) => calls := calls + [AskingRecipient(email, nonceHash, stores.now)];
        case NativeRequest(email) => calls := calls + [AskingNativeSlot(email, stores.now)];
        case Verify(hash, confirm, presented) =>
          var visit := Visit(hash, confirm, presented, stores.now);
          calls := calls + [if confirm then ClaimingLink(visit, Confirmed) else ReadingLink(visit)];
        case SignInWith(provider, profile) =>
          calls := calls + [
            if profile.emailVerified || provider.emailAlwaysVerified then FindingIdentity(provider, profile)
            else Failed(EmailUnverified, None)];
      }
      StepKeeps(before, event);
    }
  }
}
