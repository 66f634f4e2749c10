/**
 Sign-in by mailed link and by provider, as processes that share one database.

 Every `await` of the source is a boundary: between two of its steps a process keeps only what
 its code has captured, and any other process may run. A unit of work holds the claim row of its
 address from the reservation on, and nothing it writes is seen before it commits.
 */
module SignInSpec {
  import opened Options

  type Hash = nat
  type AccountId = nat

  // ---------- What is stored ----------

  datatype Link = Link(email: string, expiresAt: int, nonceHash: Option<Hash>, consumedAt: Option<int>)

  datatype Identity = Identity(provider: string, providerId: string)

  datatype Account = Account(email: string, verified: bool, deleted: bool, identities: set<Identity>)

  datatype Claim = Claim(owner: AccountId, lapsesAt: int)

  /** A claim row that an open unit of work has written, and the account it has inserted so far. */
  datatype Reservation = Reservation(owner: nat, account: Option<Account>)

  /** The hourly counter of one address. */
  datatype Slot = Slot(startedAt: int, taken: nat)

  datatype Settings = Settings(expiresIn: nat, windowMs: nat, maxPerHour: nat)

  /** `nextId` and `nextToken` stand for ids and random tokens that were never used before. */
  datatype Db = Db(
    links: map<Hash, Link>,
    accounts: map<AccountId, Account>,
    claims: map<string, Claim>,
    reserved: map<string, Reservation>,
    slots: map<string, Slot>,
    nextId: AccountId,
    nextToken: Hash,
    now: int,
    settings: Settings)

  // ---------- What a process has captured ----------

  /** A call of `verify`, and the browser it came from. */
  datatype Visit = Visit(hash: Hash, confirm: bool, presented: Option<Hash>, now: int)

  /** Why a link could be spent: a person confirmed, or it came back to the browser that asked. */
  datatype Grounds = Confirmed | SameBrowser(session: Option<AccountId>)

  datatype Spent = Spent(visit: Visit, grounds: Grounds, email: string)

  datatype Provider = Provider(id: string, autoLinksByEmail: bool, emailAlwaysVerified: bool)

  datatype Profile = Profile(providerId: string, email: string, emailVerified: bool)

  datatype Failure =
    | InvalidLink
    | PolicyRefuses
    | AddressConflict
    | EmailUnverified
    | AccountDeleted
    | AddressTaken
    | LinkedElsewhere

  datatype Proc =
    // request
    | AskingRecipient(email: string, nonceHash: Hash, now: int)
    | AskingSlot(email: string, nonceHash: Hash, now: int, deleted: bool)
    | StoringLink(email: string, nonceHash: Hash, now: int, mailed: bool)
    | LinkStored(email: string, hash: Hash, mailed: bool)
    // a request of the native app, as far as it counts in the same hour
    | AskingNativeSlot(email: string, now: int)
    | NativeCounted(email: string, underCap: bool)
    // verify
    | ReadingLink(visit: Visit)
    | AskingSession(visit: Visit, link: Link)
    | AskingOwner(visit: Visit, link: Link, session: AccountId)
    | AwaitsConfirmation(visit: Visit, email: string)
    | ClaimingLink(visit: Visit, grounds: Grounds)
    | Resolving(spent: Spent)
    | MarkingVerified(spent: Spent, id: AccountId)
    | CreatingForLink(spent: Spent)
    | InsertingForLink(spent: Spent)
    | CommittingForLink(spent: Spent)
    | LostRace(spent: Spent, reservationTaken: bool)
    | Completing(spent: Spent, id: AccountId)
    | SignedIn(spent: Spent, id: AccountId)
    // a provider's profile
    | FindingIdentity(provider: Provider, profile: Profile)
    | FindingAddress(provider: Provider, profile: Profile)
    | LinkingFirst(provider: Provider, profile: Profile, id: AccountId)
    | CreatingForProvider(provider: Provider, profile: Profile)
    | InsertingForProvider(provider: Provider, profile: Profile)
    | CommittingForProvider(provider: Provider, profile: Profile)
    | Admitted(identity: Identity, id: AccountId)
    // any of them
    | Failed(failure: Failure, held: Option<Hash>)

  /** What the world outside the stores answers when a step asks it. */
  datatype Outside = Outside(session: Option<AccountId>, mayCreate: bool, commits: bool)

  // ---------- Reads ----------

  function FindByEmail(accounts: map<AccountId, Account>, email: string, below: AccountId): (found: Option<AccountId>)
    ensures found.Some? ==>
      found.value in accounts && found.value < below && accounts[found.value].email == email
    ensures found.None? ==> forall id :: id in accounts && id < below ==> accounts[id].email != email
  {
    if below == 0 then None
    else if below - 1 in accounts && accounts[below - 1].email == email then Some(below - 1)
    else FindByEmail(accounts, email, below - 1)
  }

  function FindByIdentity(accounts: map<AccountId, Account>, identity: Identity, below: AccountId)
    : (found: Option<AccountId>)
    ensures found.Some? ==>
      found.value in accounts && found.value < below && identity in accounts[found.value].identities
    ensures found.None? ==> forall id :: id in accounts && id < below ==> identity !in accounts[id].identities
  {
    if below == 0 then None
    else if below - 1 in accounts && identity in accounts[below - 1].identities then Some(below - 1)
    else FindByIdentity(accounts, identity, below - 1)
  }

  function AccountAt(db: Db, email: string): Option<AccountId> {
    FindByEmail(db.accounts, email, db.nextId)
  }

  function AccountOf(db: Db, identity: Identity): Option<AccountId> {
    FindByIdentity(db.accounts, identity, db.nextId)
  }

  function IdentityOf(provider: Provider, profile: Profile): Identity {
    Identity(provider.id, profile.providerId)
  }

  predicate ClaimIsLive(db: Db, address: string) {
    address in db.claims && db.claims[address].lapsesAt > db.now
  }

  // ---------- Writes ----------

  /** Counts a request; a window that started `windowMs` or longer ago starts again at it. */
  function SlotAfter(db: Db, email: string, now: int): Slot {
    if email !in db.slots || db.slots[email].startedAt <= now - db.settings.windowMs then Slot(now, 1)
    else Slot(db.slots[email].startedAt, db.slots[email].taken + 1)
  }

  function SetSlot(db: Db, email: string, slot: Slot): Db {
    db.(slots := db.slots[email := slot])
  }

  function InsertLink(db: Db, link: Link): Db {
    db.(links := db.links[db.nextToken := link], nextToken := db.nextToken + 1)
  }

  predicate Unspent(db: Db, hash: Hash) {
    hash in db.links && db.links[hash].consumedAt.None?
  }

  function ClaimLink(db: Db, hash: Hash, now: int): Db
    requires hash in db.links
  {
    db.(links := db.links[hash := db.links[hash].(consumedAt := Some(now))])
  }

  function MarkVerified(db: Db, id: AccountId): Db {
    if id in db.accounts then db.(accounts := db.accounts[id := db.accounts[id].(verified := true)]) else db
  }

  function LinkIdentity(db: Db, id: AccountId, identity: Identity): Db {
    if id in db.accounts then
      var account := db.accounts[id];
      db.(accounts := db.accounts[id := account.(verified := true, identities := account.identities + {identity})])
    else db
  }

  // ---------- The unit of work that makes an account ----------

  datatype Reserving = Reserved | Taken | RowIsHeld

  /** The claim row is the lock: while another open unit of work has written it, this one runs again. */
  function Reserve(db: Db, email: string, me: nat): (Db, Reserving) {
    if email in db.reserved then (db, RowIsHeld)
    else if ClaimIsLive(db, email) || AccountAt(db, email).Some? then (db, Taken)
    else (db.(reserved := db.reserved[email := Reservation(me, None)]), Reserved)
  }

  datatype Inserting = Inserted | AddressInUse | IdentityInUse | RunAgain

  function Rollback(db: Db, email: string): Db {
    db.(reserved := db.reserved - {email})
  }

  predicate IsPending(db: Db, email: string) {
    email in db.reserved && db.reserved[email].account.Some?
  }

  /** An insert nobody has committed yet holds the identity. */
  predicate IdentityIsPending(db: Db, identity: Identity) {
    exists email ::
      && email in db.reserved && db.reserved[email].account.Some?
      && identity in db.reserved[email].account.value.identities
  }

  /**
   The insert decides by the unique rules alone, whatever the reservation said. What it writes is
   seen by nobody else; a key another unit of work has inserted makes this one run again.
   */
  function Insert(db: Db, email: string, identities: set<Identity>, me: nat): (Db, Inserting) {
    if exists id :: id in db.accounts && db.accounts[id].email == email then (Rollback(db, email), AddressInUse)
    else if exists id, identity :: id in db.accounts && identity in identities && identity in db.accounts[id].identities
    then (Rollback(db, email), IdentityInUse)
    else if exists identity :: identity in identities && IdentityIsPending(db, identity)
    then (Rollback(db, email), RunAgain)
    else
      (db.(reserved := db.reserved[email := Reservation(me, Some(Account(email, true, false, identities)))]), Inserted)
  }

  /** A new account, and the claim row of its address gone. */
  function Added(db: Db, account: Account): Db {
    db.(accounts := db.accounts[db.nextId := account], nextId := db.nextId + 1, claims := db.claims - {account.email})
  }

  /** Everything is seen at once, and the claim row is gone; or nothing ever was. */
  function Commit(db: Db, email: string, commits: bool): (Db, Option<AccountId>) {
    if commits && IsPending(db, email) then
      (Added(Rollback(db, email), db.reserved[email].account.value), Some(db.nextId))
    else (Rollback(db, email), None)
  }

  // ---------- One step of a process ----------

  predicate Requesting(proc: Proc) {
    proc.AskingRecipient? || proc.AskingSlot? || proc.StoringLink? || proc.AskingNativeSlot?
  }

  predicate Checking(proc: Proc) {
    proc.ReadingLink? || proc.AskingSession? || proc.AskingOwner?
  }

  predicate Spending(proc: Proc) {
    || proc.ClaimingLink? || proc.Resolving? || proc.MarkingVerified? || proc.LostRace? || proc.Completing?
  }

  predicate Providing(proc: Proc) {
    proc.FindingIdentity? || proc.FindingAddress? || proc.LinkingFirst?
  }

  /** Inside the unit of work that makes an account. */
  predicate Creating(proc: Proc) {
    || proc.CreatingForLink? || proc.InsertingForLink? || proc.CommittingForLink?
    || proc.CreatingForProvider? || proc.InsertingForProvider? || proc.CommittingForProvider?
  }

  function RequestStep(db: Db, proc: Proc): (Db, Proc)
    requires Requesting(proc)
  {
    match proc
    case AskingRecipient(email, nonceHash, now) =>
      var owner := AccountAt(db, email);
      (db, AskingSlot(email, nonceHash, now, owner.Some? && db.accounts[owner.value].deleted))
    case AskingSlot(email, nonceHash, now, deleted) =>
      var slot := SlotAfter(db, email, now);
      (SetSlot(db, email, slot),
       StoringLink(email, nonceHash, now, !deleted && slot.taken <= db.settings.maxPerHour))
    case AskingNativeSlot(email, now) =>
      var slot := SlotAfter(db, email, now);
      (SetSlot(db, email, slot), NativeCounted(email, slot.taken <= db.settings.maxPerHour))
    case StoringLink(email, nonceHash, now, mailed) =>
      var link := Link(email, now + db.settings.expiresIn, Some(nonceHash), if mailed then None else Some(now));
      (InsertLink(db, link), LinkStored(email, db.nextToken, mailed))
  }

  /** What `verify` decides before it spends: nothing here writes. */
  function CheckStep(db: Db, proc: Proc, outside: Outside): Proc
    requires Checking(proc)
  {
    match proc
    case ReadingLink(visit) =>
      if !Unspent(db, visit.hash) then Failed(InvalidLink, None)
      else
        var link := db.links[visit.hash];
        if link.expiresAt <= visit.now then Failed(InvalidLink, None)
        else if visit.presented.None? || link.nonceHash != visit.presented then AwaitsConfirmation(visit, link.email)
        else AskingSession(visit, link)
    case AskingSession(visit, link) =>
      if outside.session.None? then ClaimingLink(visit, SameBrowser(None))
      else AskingOwner(visit, link, outside.session.value)
    case AskingOwner(visit, link, session) =>
      if AccountAt(db, link.email) != Some(session) then AwaitsConfirmation(visit, link.email)
      else ClaimingLink(visit, SameBrowser(Some(session)))
  }

  /** From the spent link on. */
  function SpendStep(db: Db, proc: Proc): (Db, Proc)
    requires Spending(proc)
  {
    match proc
    case ClaimingLink(visit, grounds) =>
      if !Unspent(db, visit.hash) then (db, Failed(InvalidLink, None))
      else
        var link := db.links[visit.hash];
        (ClaimLink(db, visit.hash, visit.now),
         if link.expiresAt <= db.now then Failed(InvalidLink, Some(visit.hash))
         else Resolving(Spent(visit, grounds, link.email)))
    case Resolving(spent) =>
      var existing := AccountAt(db, spent.email);
      (db, if existing.None? then CreatingForLink(spent) else Settle(db, spent, existing.value))
    case MarkingVerified(spent, id) => (MarkVerified(db, id), Completing(spent, id))
    case LostRace(spent, reservationTaken) =>
      var created := AccountAt(db, spent.email);
      (db,
       if created.None? then
         Failed(if reservationTaken then InvalidLink else AddressConflict, Some(spent.visit.hash))
       else if reservationTaken then Settle(db, spent, created.value)
       else Completing(spent, created.value))
    case Completing(spent, id) => (db, SignedIn(spent, id))
  }

  /** An account behind a spent link: refused when deleted, verified when it was not. */
  function Settle(db: Db, spent: Spent, id: AccountId): Proc
    requires id in db.accounts
  {
    if db.accounts[id].deleted then Failed(InvalidLink, Some(spent.visit.hash))
    else if db.accounts[id].verified then Completing(spent, id)
    else MarkingVerified(spent, id)
  }

  function ProviderStep(db: Db, proc: Proc): (Db, Proc)
    requires Providing(proc)
  {
    match proc
    case FindingIdentity(provider, profile) =>
      var identity := IdentityOf(provider, profile);
      var linked := AccountOf(db, identity);
      (db,
       if linked.None? then FindingAddress(provider, profile)
       else if db.accounts[linked.value].deleted then Failed(AccountDeleted, None)
       else Admitted(identity, linked.value))
    case FindingAddress(provider, profile) =>
      var byEmail := AccountAt(db, profile.email);
      (db,
       if byEmail.Some? then
         var account := db.accounts[byEmail.value];
         if account.deleted then Failed(AccountDeleted, None)
         else if provider.autoLinksByEmail && account.verified then LinkingFirst(provider, profile, byEmail.value)
         else Failed(AddressTaken, None)
       else if provider.autoLinksByEmail then CreatingForProvider(provider, profile)
       else Failed(EmailUnverified, None))
    case LinkingFirst(provider, profile, id) =>
      var identity := IdentityOf(provider, profile);
      if exists other :: other in db.accounts && other != id && identity in db.accounts[other].identities then
        (db, Failed(LinkedElsewhere, None))
      else if IdentityIsPending(db, identity) then (db, proc)
      else (LinkIdentity(db, id, identity), Admitted(identity, id))
  }

  /** The address and the identities of the account a unit of work is making. */
  function MakesAt(proc: Proc): string
    requires Creating(proc)
  {
    if proc.CreatingForLink? || proc.InsertingForLink? || proc.CommittingForLink? then proc.spent.email
    else proc.profile.email
  }

  function MakesWith(proc: Proc): set<Identity>
    requires Creating(proc)
  {
    if proc.CreatingForLink? || proc.InsertingForLink? || proc.CommittingForLink? then {}
    else {IdentityOf(proc.provider, proc.profile)}
  }

  /** Policy and reservation, insert, and commit; other calls run between the three. */
  function CreateStep(db: Db, proc: Proc, outside: Outside, me: nat): (Db, Proc)
    requires Creating(proc)
  {
    match proc
    case CreatingForLink(spent) =>
      if !outside.mayCreate then (db, Failed(PolicyRefuses, Some(spent.visit.hash)))
      else
        var (after, reserving) := Reserve(db, spent.email, me);
        (after,
         match reserving
         case Reserved => InsertingForLink(spent)
         case Taken => LostRace(spent, true)
         case RowIsHeld => proc)
    case InsertingForLink(spent) =>
      var (after, inserting) := Insert(db, spent.email, {}, me);
      (after,
       match inserting
       case Inserted => CommittingForLink(spent)
       case AddressInUse => LostRace(spent, false)
       case IdentityInUse => LostRace(spent, false)
       case RunAgain => CreatingForLink(spent))
    case CommittingForLink(spent) =>
      var (after, id) := Commit(db, spent.email, outside.commits);
      (after, if id.Some? then Completing(spent, id.value) else CreatingForLink(spent))
    case CreatingForProvider(provider, profile) =>
      if !outside.mayCreate then (db, Failed(PolicyRefuses, None))
      else
        var (after, reserving) := Reserve(db, profile.email, me);
        (after,
         match reserving
         case Reserved => InsertingForProvider(provider, profile)
         case Taken => Failed(AddressTaken, None)
         case RowIsHeld => proc)
    case InsertingForProvider(provider, profile) =>
      var (after, inserting) := Insert(db, profile.email, {IdentityOf(provider, profile)}, me);
      (after,
       match inserting
       case Inserted => CommittingForProvider(provider, profile)
       case AddressInUse => Failed(LinkedElsewhere, None)
       case IdentityInUse => Failed(LinkedElsewhere, None)
       case RunAgain => CreatingForProvider(provider, profile))
    case CommittingForProvider(provider, profile) =>
      var (after, id) := Commit(db, profile.email, outside.commits);
      (after, if id.Some? then Admitted(IdentityOf(provider, profile), id.value) else CreatingForProvider(provider, profile))
  }

  /** `me` tells the call from every other, as the random owner of its reservation does. */
  function ProcStep(db: Db, proc: Proc, outside: Outside, me: nat): (Db, Proc) {
    if Requesting(proc) then RequestStep(db, proc)
    else if Checking(proc) then (db, CheckStep(db, proc, outside))
    else if Spending(proc) then SpendStep(db, proc)
    else if Providing(proc) then ProviderStep(db, proc)
    else if Creating(proc) then CreateStep(db, proc, outside, me)
    else (db, proc)
  }

  // ---------- Runs ----------

  /** Every call ever made is kept, ended ones too: a call that ends stays as it ended. */
  datatype State = State(db: Db, procs: seq<Proc>)

  datatype Event =
    | Request(email: string, nonceHash: Hash)
    | NativeRequest(email: string)
    | Verify(hash: Hash, confirm: bool, presented: Option<Hash>)
    | SignInWith(provider: Provider, profile: Profile)
    | Advance(p: nat, outside: Outside)
    // the rest of the application and the database itself
    | Tick(elapsed: nat)
    | DropLink(hash: Hash)
    | DropSlot(email: string)
    | MakeAccount(email: string, verified: bool)
    | SetDeleted(id: AccountId, deleted: bool)
    | ClaimAddress(address: string, owner: AccountId, lapsesAt: int)

  function Verification(db: Db, hash: Hash, confirm: bool, presented: Option<Hash>): Proc {
    var visit := Visit(hash, confirm, presented, db.now);
    if confirm then ClaimingLink(visit, Confirmed) else ReadingLink(visit)
  }

  function ProviderCall(provider: Provider, profile: Profile): Proc {
    if profile.emailVerified || provider.emailAlwaysVerified then FindingIdentity(provider, profile)
    else Failed(EmailUnverified, None)
  }

  function Deleted(db: Db, id: AccountId, deleted: bool): Db {
    if id in db.accounts then db.(accounts := db.accounts[id := db.accounts[id].(deleted := deleted)]) else db
  }

  /** Cleanup of an hourly counter, once its window is over. */
  function SlotDropped(db: Db, email: string): Db {
    if email in db.slots && db.slots[email].startedAt + db.settings.windowMs <= db.now then
      db.(slots := db.slots - {email})
    else db
  }

  /** Registration, an administrator or a seed makes an account, through the same claim row. */
  function Made(db: Db, email: string, verified: bool): Db {
    if email in db.reserved || ClaimIsLive(db, email) || AccountAt(db, email).Some? then db
    else Added(db, Account(email, verified, false, {}))
  }

  /** A claim of an email change: refused while another holds the address or has an account at it. */
  function Claimed(db: Db, address: string, claim: Claim): Db {
    if address in db.reserved
      || (ClaimIsLive(db, address) && db.claims[address].owner != claim.owner)
      || (exists id :: id in db.accounts && id != claim.owner && db.accounts[id].email == address)
    then db
    else db.(claims := db.claims[address := claim])
  }

  function Step(s: State, event: Event): State {
    match event
    case Request(email, nonceHash) => s.(procs := s.procs + [AskingRecipient(email, nonceHash, s.db.now)])
    case NativeRequest(email) => s.(procs := s.procs + [AskingNativeSlot(email, s.db.now)])
    case Verify(hash, confirm, presented) => s.(procs := s.procs + [Verification(s.db, hash, confirm, presented)])
    case SignInWith(provider, profile) => s.(procs := s.procs + [ProviderCall(provider, profile)])
    case Advance(p, outside) =>
      if p < |s.procs| then
        var (db, proc) := ProcStep(s.db, s.procs[p], outside, p);
        State(db, s.procs[p := proc])
      else s
    case Tick(elapsed) => s.(db := s.db.(now := s.db.now + elapsed))
    case DropLink(hash) => s.(db := s.db.(links := s.db.links - {hash}))
    case DropSlot(email) => s.(db := SlotDropped(s.db, email))
    case MakeAccount(email, verified) => s.(db := Made(s.db, email, verified))
    case SetDeleted(id, deleted) => s.(db := Deleted(s.db, id, deleted))
    case ClaimAddress(address, owner, lapsesAt) => s.(db := Claimed(s.db, address, Claim(owner, lapsesAt)))
  }

  function Run(s: State, events: seq<Event>): State {
    if events == [] then s else Step(Run(s, events[..|events| - 1]), events[|events| - 1])
  }
}
