/**
 The three collections the address-ledger migration reads and writes, the rules their
 unique indexes enforce, and what the migration is meant to leave in them.

 An ObjectId is a 96-bit number compared numerically, so it is a `nat` here; `String(id)` is
 injective, so a claim's owner is either an account's id or some other text.
 */
module LedgerTables {
  import opened Options
  import opened Addresses

  type Id = nat
  type Time = int

  const CLAIM_KIND := "EMAIL_CHANGE"
  const CODE_PURPOSE := "email-change"

  /** `None` stands for a field that is missing or not of the type the migration asks for. */
  datatype User = User(email: Option<string>, pendingEmail: Option<string>, generation: Option<int>)

  datatype Code = Code(
    email: string, purpose: string, userId: Option<Id>, generation: Option<int>, expiresAt: Option<Time>)

  datatype Owner = Account(id: Id) | Text(text: string)

  datatype Claim = Claim(kind: string, owner: Owner, lapsesAt: Time)

  datatype Tables = Tables(users: map<Id, User>, codes: map<Id, Code>, claims: map<string, Claim>)

  // ---------- What the unique indexes refuse ----------

  ghost predicate UniqueEmails(users: map<Id, User>) {
    forall i, j :: i in users && j in users && i != j && users[i].email.Some? ==> users[i].email != users[j].email
  }

  ghost predicate UniqueCodes(codes: map<Id, Code>) {
    forall c, d :: c in codes && d in codes && c != d ==>
      codes[c].email != codes[d].email || codes[c].purpose != codes[d].purpose
  }

  ghost predicate IndexesHold(t: Tables) {
    UniqueEmails(t.users) && UniqueCodes(t.codes)
  }

  ghost predicate CanonicalEmails(users: map<Id, User>) {
    forall i :: i in users && users[i].email.Some? ==> Canonical(users[i].email.value)
  }

  // ---------- Groups ----------

  function GenerationOf(user: User): int {
    if user.generation.Some? then user.generation.value else 0
  }

  predicate PendingAt(users: map<Id, User>, id: Id, address: string) {
    id in users && users[id].pendingEmail.Some? && Normalise(users[id].pendingEmail.value) == address
  }

  function GroupAt(users: map<Id, User>, address: string): set<Id> {
    set id | id in users && PendingAt(users, id, address)
  }

  function Pending(users: map<Id, User>): set<Id> {
    set id | id in users && users[id].pendingEmail.Some?
  }

  function PendingAddresses(users: map<Id, User>): set<string> {
    set id | id in users && users[id].pendingEmail.Some? :: Normalise(users[id].pendingEmail.value)
  }

  // ---------- The keeper of an address ----------

  ghost predicate IsTaken(users: map<Id, User>, address: string) {
    exists id :: id in users && users[id].email == Some(address)
  }

  predicate IsAddressCode(code: Code, address: string) {
    code.purpose == CODE_PURPOSE && Normalise(code.email) == address
  }

  function CodesAt(codes: map<Id, Code>, address: string): set<Id> {
    set c | c in codes && IsAddressCode(codes[c], address)
  }

  /** A live code bound to exactly this account at this generation. */
  predicate Matches(code: Code, id: Id, generation: int, now: Time) {
    && code.expiresAt.Some?
    && code.expiresAt.value > now
    && code.userId == Some(id)
    && code.generation == Some(generation)
  }

  /** The order `{ expiresAt: -1, _id: -1 }`; a value that is no date sorts after every date. */
  predicate Before(x: (Id, Code), y: (Id, Code)) {
    match (x.1.expiresAt, y.1.expiresAt)
    case (Some(a), Some(b)) => a > b || (a == b && x.0 > y.0)
    case (Some(_), None) => true
    case (None, Some(_)) => false
    case (None, None) => x.0 > y.0
  }

  ghost predicate MatchesAt(t: Tables, now: Time, address: string, id: Id, c: Id) {
    && PendingAt(t.users, id, address)
    && c in t.codes
    && IsAddressCode(t.codes[c], address)
    && Matches(t.codes[c], id, GenerationOf(t.users[id]), now)
  }

  ghost predicate IsBestCode(t: Tables, now: Time, address: string, id: Id, c: Id) {
    && MatchesAt(t, now, address, id, c)
    && forall d :: d != c && MatchesAt(t, now, address, id, d) ==> Before((c, t.codes[c]), (d, t.codes[d]))
  }

  datatype Keeper = Keeper(user: Id, code: Id)

  /**
   The account that keeps the address: no account has it as its own, and this is the only
   pending account with a live code bound to it. It keeps its code that lapses last.
   */
  ghost predicate IsKeeper(t: Tables, now: Time, address: string, k: Keeper) {
    && !IsTaken(t.users, address)
    && IsBestCode(t, now, address, k.user, k.code)
    && forall id, c :: MatchesAt(t, now, address, id, c) ==> id == k.user
  }

  ghost function KeeperAt(t: Tables, now: Time, address: string): (keeper: Option<Keeper>)
    ensures keeper.Some? ==> IsKeeper(t, now, address, keeper.value)
  {
    if exists k :: IsKeeper(t, now, address, k) then
      var k :| IsKeeper(t, now, address, k);
      Some(k)
    else
      None
  }

  lemma KeeperIsUnique(t: Tables, now: Time, address: string, k: Keeper)
    requires IsKeeper(t, now, address, k)
    ensures KeeperAt(t, now, address) == Some(k)
  {
    var l := KeeperAt(t, now, address).value;
    assert MatchesAt(t, now, address, l.user, l.code) && MatchesAt(t, now, address, k.user, k.code);
    assert k.code != l.code ==> Before((k.code, t.codes[k.code]), (l.code, t.codes[l.code]));
  }

  /** The code that is kept lapses after every other live code of its account at the address; of two, the later row. */
  lemma KeptCodeLapsesLast(t: Tables, now: Time, address: string, d: Id)
    requires var keeper := KeeperAt(t, now, address);
      keeper.Some? && MatchesAt(t, now, address, keeper.value.user, d)
    ensures var kept := KeeperAt(t, now, address).value.code;
      && kept in t.codes && d in t.codes
      && t.codes[kept].expiresAt.Some? && t.codes[d].expiresAt.Some?
      && t.codes[d].expiresAt.value <= t.codes[kept].expiresAt.value
      && (t.codes[d].expiresAt == t.codes[kept].expiresAt ==> d <= kept)
  {
    var k := KeeperAt(t, now, address).value;
    assert d != k.code ==> Before((k.code, t.codes[k.code]), (d, t.codes[d]));
  }

  /** The claim the address ought to have: its keeper's, until the keeper's code lapses. */
  ghost function ClaimAt(t: Tables, now: Time, address: string): Option<Claim> {
    var keeper := KeeperAt(t, now, address);
    if keeper.None? then
      None
    else
      Some(Claim(CLAIM_KIND, Account(keeper.value.user), t.codes[keeper.value.code].expiresAt.value))
  }

  /** The address has a keeper and its claim row says something else. */
  ghost predicate Conflicts(t: Tables, now: Time, address: string) {
    var claim := ClaimAt(t, now, address);
    claim.Some? && address in t.claims && t.claims[address] != claim.value
  }

  // ---------- The tables once a set of addresses is settled ----------

  ghost predicate KeepsPending(t: Tables, now: Time, id: Id) {
    && id in t.users
    && t.users[id].pendingEmail.Some?
    && var keeper := KeeperAt(t, now, Normalise(t.users[id].pendingEmail.value));
       keeper.Some? && keeper.value.user == id
  }

  ghost predicate KeepsCode(t: Tables, now: Time, c: Id) {
    && c in t.codes
    && t.codes[c].purpose == CODE_PURPOSE
    && var keeper := KeeperAt(t, now, Normalise(t.codes[c].email));
       keeper.Some? && keeper.value.code == c
  }

  ghost function SettledUser(t: Tables, now: Time, done: set<string>, id: Id): User
    requires id in t.users
  {
    var user := t.users[id];
    if user.pendingEmail.None? || Normalise(user.pendingEmail.value) !in done then
      user
    else if KeepsPending(t, now, id) then
      user.(pendingEmail := Some(Normalise(user.pendingEmail.value)))
    else
      user.(pendingEmail := None)
  }

  ghost predicate CodeConcerns(code: Code, done: set<string>) {
    code.purpose == CODE_PURPOSE && Normalise(code.email) in done
  }

  ghost predicate CodeSurvives(t: Tables, now: Time, done: set<string>, c: Id) {
    c in t.codes && (CodeConcerns(t.codes[c], done) ==> KeepsCode(t, now, c))
  }

  ghost function SettledCode(t: Tables, now: Time, done: set<string>, c: Id): Code
    requires c in t.codes
  {
    var code := t.codes[c];
    if CodeConcerns(code, done) then code.(email := Normalise(code.email)) else code
  }

  ghost function SettledUsers(t: Tables, now: Time, done: set<string>): map<Id, User> {
    map id | id in t.users :: SettledUser(t, now, done, id)
  }

  ghost function SettledCodes(t: Tables, now: Time, done: set<string>): map<Id, Code> {
    map c | c in t.codes && CodeSurvives(t, now, done, c) :: SettledCode(t, now, done, c)
  }

  /** `claims` with a row for every address in `done` that has none and is owed one. */
  ghost function WithClaims(claims: map<string, Claim>, done: set<string>, owed: string -> Option<Claim>)
    : map<string, Claim>
  {
    map address | address in claims.Keys + done && (address in claims || owed(address).Some?) ::
      if address in claims then claims[address] else owed(address).value
  }

  ghost function SettledClaims(t: Tables, now: Time, done: set<string>): map<string, Claim> {
    WithClaims(t.claims, done, address => ClaimAt(t, now, address))
  }

  /**
   Every address in `done` is settled and nothing else is touched. It is a function of the
   set, so the order in which addresses are visited cannot matter.
   */
  ghost function Settled(t: Tables, now: Time, done: set<string>): Tables {
    Tables(SettledUsers(t, now, done), SettledCodes(t, now, done), SettledClaims(t, now, done))
  }

  /** What the whole backfill leaves. */
  ghost function Backfilled(t: Tables, now: Time): Tables {
    Settled(t, now, PendingAddresses(t.users))
  }

  // ---------- Why a pending address is cleared ----------

  datatype Reason = Taken | Ambiguous | Codeless

  ghost function ReasonAt(t: Tables, address: string): Reason {
    if IsTaken(t.users, address) then Taken
    else if |GroupAt(t.users, address)| > 1 then Ambiguous
    else Codeless
  }

  ghost predicate IsCleared(t: Tables, now: Time, done: set<string>, id: Id, reason: Reason) {
    && id in t.users
    && t.users[id].pendingEmail.Some?
    && Normalise(t.users[id].pendingEmail.value) in done
    && !KeepsPending(t, now, id)
    && ReasonAt(t, Normalise(t.users[id].pendingEmail.value)) == reason
  }

  ghost function ClearedFor(t: Tables, now: Time, done: set<string>, reason: Reason): set<Id> {
    set id | id in t.users && IsCleared(t, now, done, id, reason)
  }
}
