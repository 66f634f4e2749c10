/**
 The move of per-provider id fields into a list of linked accounts, and its undoing.

 Both directions read a cursor, collect one update per user and write them in batches.
 */
module LinkedAccounts {
  import opened Options

  type Id = nat
  type Time = int

  const EMAIL_PROVIDER := "email"
  const BATCH_SIZE := 500
  const PROVIDERS := ["google", "facebook", "github"]

  datatype IdValue = Missing | Null | Text(text: string) | Number(number: int)

  datatype Account = Account(provider: string, providerId: IdValue, linkedAt: Time)

  datatype Links = Absent | NotArray | List(accounts: seq<Account>)

  datatype User = User(
    googleId: IdValue, facebookId: IdValue, githubId: IdValue, linkedProviders: Option<seq<string>>, links: Links,
    authProvider: string, stamp: Option<Time>)

  type Rows = map<Id, User>

  predicate IsProvider(provider: string) {
    provider in PROVIDERS
  }

  function IdOf(user: User, provider: string): IdValue {
    if provider == "google" then user.googleId
    else if provider == "facebook" then user.facebookId
    else if provider == "github" then user.githubId
    else Missing
  }

  function WithId(user: User, provider: string, value: IdValue): User {
    if provider == "google" then user.(googleId := value)
    else if provider == "facebook" then user.(facebookId := value)
    else if provider == "github" then user.(githubId := value)
    else user
  }

  /** What JavaScript counts as true. */
  predicate Truthy(value: IdValue) {
    match value
    case Text(text) => text != ""
    case Number(number) => number != 0
    case _ => false
  }

  function Digits(n: nat): string {
    var last := ['0' + (n % 10) as char];
    if n < 10 then last else Digits(n / 10) + last
  }

  /** `String(value)` */
  function ToText(value: IdValue): string {
    match value
    case Text(text) => text
    case Number(number) => if number < 0 then "-" + Digits(-number) else Digits(number)
    case Null => "null"
    case Missing => "undefined"
  }

  // ---------- What one user becomes ----------

  /** The users the forward cursor finds: some id field holds a value. */
  predicate Selected(user: User) {
    exists provider | provider in PROVIDERS :: IdOf(user, provider) !in {Missing, Null}
  }

  function Existing(user: User): seq<Account> {
    if user.links.List? then user.links.accounts else []
  }

  function LinkedOnce(user: User, accounts: seq<Account>, provider: string, linkedAt: Time): seq<Account> {
    if !Truthy(IdOf(user, provider)) || exists account | account in accounts :: account.provider == provider then
      accounts
    else
      accounts + [Account(provider, Text(ToText(IdOf(user, provider))), linkedAt)]
  }

  /** The accounts once the first `n` provider fields are linked. */
  function LinkedUpTo(user: User, n: nat, linkedAt: Time): seq<Account>
    requires n <= |PROVIDERS|
  {
    if n == 0 then Existing(user)
    else LinkedOnce(user, LinkedUpTo(user, n - 1, linkedAt), PROVIDERS[n - 1], linkedAt)
  }

  function LinkedAt(user: User, now: Time): Time {
    if user.stamp.Some? then user.stamp.value else now
  }

  function LinkedUser(user: User, accounts: seq<Account>): User {
    user.(
      googleId := Missing, facebookId := Missing, githubId := Missing, linkedProviders := None, links := List(accounts))
  }

  function UpUser(user: User, now: Time): User {
    if Selected(user) then LinkedUser(user, LinkedUpTo(user, |PROVIDERS|, LinkedAt(user, now)))
    else if user.links.Absent? then user.(links := List([]), linkedProviders := None)
    else user
  }

  /** An account the legacy fields cannot hold. */
  predicate Unsupported(account: Account) {
    account.provider != "" && !IsProvider(account.provider)
  }

  predicate Supported(user: User) {
    forall account | account in Existing(user) :: !Unsupported(account)
  }

  /** A user can be rolled back when each of its accounts is of one of the three providers, or names none. */
  lemma SupportedMeans(user: User)
    ensures Supported(user) <==>
      forall account :: user.links.List? && account in user.links.accounts ==>
        account.provider in ["", "google", "facebook", "github"]
  {
    assert forall provider :: IsProvider(provider) <==> provider in ["google", "facebook", "github"];
    assert forall account :: account in Existing(user) <==> user.links.List? && account in user.links.accounts;
  }

  function RestoredIds(user: User, accounts: seq<Account>): User {
    if accounts == [] then user
    else
      var last := accounts[|accounts| - 1];
      WithId(RestoredIds(user, accounts[..|accounts| - 1]), last.provider, last.providerId)
  }

  function ProvidersOf(accounts: seq<Account>): seq<string> {
    seq(|accounts|, i requires 0 <= i < |accounts| => accounts[i].provider)
  }

  function SignInProviders(user: User): seq<string> {
    if user.authProvider == EMAIL_PROVIDER then [EMAIL_PROVIDER] else []
  }

  function DownUser(user: User): User {
    RestoredIds(user, Existing(user)).(
      linkedProviders := Some(SignInProviders(user) + ProvidersOf(Existing(user))), links := Absent)
  }

  // ---------- What `up` keeps and what it adds ----------

  function ProviderRank(provider: string): nat {
    if provider == "google" then 0 else if provider == "facebook" then 1 else if provider == "github" then 2 else 3
  }

  predicate HasProvider(accounts: seq<Account>, provider: string) {
    exists i :: 0 <= i < |accounts| && accounts[i].provider == provider
  }

  /** The account at `k` was added for an id field that holds something, when no account before it had the provider. */
  ghost predicate IsAdded(user: User, accounts: seq<Account>, k: nat, now: Time)
    requires k < |accounts|
  {
    var account := accounts[k];
    && account.provider in ["google", "facebook", "github"]
    && Truthy(IdOf(user, account.provider))
    && account.providerId == Text(ToText(IdOf(user, account.provider)))
    && account.linkedAt == (if user.stamp.Some? then user.stamp.value else now)
    && !HasProvider(accounts[..k], account.provider)
  }

  /** `before` and then one new account for each provider among the first `n` that has an id and no account. */
  ghost predicate Grown(user: User, before: seq<Account>, after: seq<Account>, n: nat, now: Time) {
    && before <= after
    && (forall k :: |before| <= k < |after| ==> IsAdded(user, after, k, now) && ProviderRank(after[k].provider) < n)
    && (forall j, k :: |before| <= j < k < |after| ==> ProviderRank(after[j].provider) < ProviderRank(after[k].provider))
    && (forall provider :: provider in ["google", "facebook", "github"] && ProviderRank(provider) < n ==>
          Truthy(IdOf(user, provider)) ==> HasProvider(after, provider))
  }

  lemma OneMoreProvider(user: User, before: seq<Account>, accounts: seq<Account>, n: nat, now: Time)
    requires n < 3 && Grown(user, before, accounts, n, now)
    ensures Grown(user, before, LinkedOnce(user, accounts, PROVIDERS[n], LinkedAt(user, now)), n + 1, now)
  {
    hide ToText, Truthy, Grown, HasProvider;
    var provider := PROVIDERS[n];
    KnownProviders(accounts, provider);
    if Truthy(IdOf(user, provider)) && !HasProvider(accounts, provider) {
      AddedProvider(user, before, accounts, n, now);
    } else {
      SkippedProvider(user, before, accounts, n, now);
    }
  }

  lemma SkippedProvider(user: User, before: seq<Account>, accounts: seq<Account>, n: nat, now: Time)
    requires n < 3 && Grown(user, before, accounts, n, now)
    requires Truthy(IdOf(user, PROVIDERS[n])) ==> HasProvider(accounts, PROVIDERS[n])
    ensures Grown(user, before, accounts, n + 1, now)
  {
    hide ToText, Truthy, HasProvider, IsAdded;
    assert ProviderRank(PROVIDERS[n]) == n;
  }

  lemma AddedProvider(user: User, before: seq<Account>, accounts: seq<Account>, n: nat, now: Time)
    requires n < 3 && Grown(user, before, accounts, n, now)
    requires Truthy(IdOf(user, PROVIDERS[n])) && !HasProvider(accounts, PROVIDERS[n])
    ensures Grown(
      user, before,
      accounts + [Account(PROVIDERS[n], Text(ToText(IdOf(user, PROVIDERS[n]))), LinkedAt(user, now))], n + 1, now)
  {
    hide ToText, Truthy, HasProvider;
    var provider := PROVIDERS[n];
    assert ProviderRank(provider) == n;
    var after := accounts + [Account(provider, Text(ToText(IdOf(user, provider))), LinkedAt(user, now))];
    assert after[..|accounts|] == accounts;
    forall k | |before| <= k < |accounts| ensures IsAdded(user, after, k, now) {
      assert after[..k] == accounts[..k];
    }
    ProvidersStay(accounts, after[|accounts|]);
  }

  lemma ProvidersStay(accounts: seq<Account>, account: Account)
    ensures HasProvider(accounts + [account], account.provider)
    ensures forall p :: HasProvider(accounts, p) ==> HasProvider(accounts + [account], p)
  {
    var after := accounts + [account];
    assert after[|accounts|] == account;
    forall p | HasProvider(accounts, p) ensures HasProvider(after, p) {
      var i :| 0 <= i < |accounts| && accounts[i].provider == p;
      assert after[i].provider == p;
    }
  }

  lemma KnownProviders(accounts: seq<Account>, provider: string)
    ensures HasProvider(accounts, provider) <==> exists account :: account in accounts && account.provider == provider
  {
    if HasProvider(accounts, provider) {
      var i :| 0 <= i < |accounts| && accounts[i].provider == provider;
      assert accounts[i] in accounts;
    }
  }

  lemma {:induction false} LinkedUpToGrows(user: User, n: nat, now: Time)
    requires n <= 3
    ensures Grown(user, Existing(user), LinkedUpTo(user, n, LinkedAt(user, now)), n, now)
  {
    if n > 0 {
      LinkedUpToGrows(user, n - 1, now);
      OneMoreProvider(user, Existing(user), LinkedUpTo(user, n - 1, LinkedAt(user, now)), n - 1, now);
    }
  }

  /** What the migration makes of one user, whatever accounts it had: they stay, in place, and what is added follows. */
  ghost predicate MovedTo(before: User, after: User, now: Time) {
    && after.authProvider == before.authProvider && after.stamp == before.stamp
    && if exists provider :: provider in ["google", "facebook", "github"] && IdOf(before, provider) !in {Missing, Null} then
         && after.googleId == Missing && after.facebookId == Missing && after.githubId == Missing
         && after.linkedProviders == None && after.links.List?
         && Grown(before, if before.links.List? then before.links.accounts else [], after.links.accounts, 3, now)
       else if before.links.Absent? then
         after == before.(links := List([]), linkedProviders := None)
       else after == before
  }

  /** Accounts that were there stay in front, and each provider with an id and no account gets exactly one. */
  lemma UpKeepsAndAdds(user: User, now: Time)
    ensures MovedTo(user, UpUser(user, now), now)
    ensures |PROVIDERS| == 3
  {
    LinkedUpToGrows(user, 3, now);
  }

  /** The id a list of accounts holds for a provider: the last one's, or what there was without any. */
  function LastIdOf(accounts: seq<Account>, provider: string, otherwise: IdValue): IdValue {
    if accounts == [] then otherwise
    else if accounts[|accounts| - 1].provider == provider then accounts[|accounts| - 1].providerId
    else LastIdOf(accounts[..|accounts| - 1], provider, otherwise)
  }

  lemma {:induction false} RestoredIdsAre(user: User, accounts: seq<Account>)
    ensures var after := RestoredIds(user, accounts);
      && (forall p :: p in ["google", "facebook", "github"] ==> IdOf(after, p) == LastIdOf(accounts, p, IdOf(user, p)))
      && after.links == user.links && after.authProvider == user.authProvider && after.stamp == user.stamp
  {
    if accounts != [] { RestoredIdsAre(user, accounts[..|accounts| - 1]); }
  }

  /**
   What rolling back makes of one user, whatever accounts it had: each id field is its provider's last
   account's, the sign-in methods are email, for who signs in by it, and then the providers in order.
   */
  lemma DownRestores(user: User)
    ensures var after := DownUser(user);
      var accounts := if user.links.List? then user.links.accounts else [];
      && (forall p :: p in ["google", "facebook", "github"] ==> IdOf(after, p) == LastIdOf(accounts, p, IdOf(user, p)))
      && after.links.Absent? && after.authProvider == user.authProvider && after.stamp == user.stamp
      && after.linkedProviders.Some?
      && var first := if user.authProvider == "email" then 1 else 0;
         && |after.linkedProviders.value| == first + |accounts|
         && (first == 1 ==> after.linkedProviders.value[0] == "email")
         && forall i :: 0 <= i < |accounts| ==> after.linkedProviders.value[first + i] == accounts[i].provider
  {
    RestoredIdsAre(user, Existing(user));
  }

  /** An id counts when it is a text that is not empty or a number that is not zero; other providers have no field. */
  lemma IdsCount(user: User, value: IdValue, provider: string)
    ensures Truthy(value) <==> (value.Text? && value.text != "") || (value.Number? && (value.number > 0 || value.number < 0))
    ensures provider !in ["google", "facebook", "github"] ==> IdOf(user, provider) == Missing
  {}

  /** The decimal digits of a number read back as that number. */
  function ReadDigits(digits: string): int {
    if digits == [] then 0 else ReadDigits(digits[..|digits| - 1]) * 10 + (digits[|digits| - 1] as int - '0' as int)
  }

  lemma {:induction false} DigitsReadBack(n: nat)
    ensures ReadDigits(Digits(n)) == n && Digits(n) != []
    ensures forall i :: 0 <= i < |Digits(n)| ==> '0' <= Digits(n)[i] <= '9'
    ensures |Digits(n)| > 1 ==> Digits(n)[0] != '0'
  {
    if n >= 10 {
      DigitsReadBack(n / 10);
      assert Digits(n)[..|Digits(n)| - 1] == Digits(n / 10);
      if n / 10 < 10 { assert Digits(n / 10) == ['0' + (n / 10) as char]; }
    }
  }

  /** The text of an id: a text is itself, and a number is its decimal form. */
  lemma TextIsReadable(value: IdValue)
    ensures value.Text? ==> ToText(value) == value.text
    ensures value.Number? && value.number >= 0 ==> ReadDigits(ToText(value)) == value.number
    ensures value.Number? && value.number < 0 ==>
      ToText(value) != [] && ToText(value)[0] == '-' && ReadDigits(ToText(value)[1..]) == -value.number
  {
    if value.Number? {
      if value.number >= 0 {
        DigitsReadBack(value.number);
      } else {
        DigitsReadBack(-value.number);
        assert ToText(value)[1..] == Digits(-value.number);
      }
    }
  }

  // ---------- The collection ----------

  datatype Operation = Operation(id: Id, user: User)

  function Written(rows: Rows, operations: seq<Operation>): Rows {
    if operations == [] then rows
    else
      var last := operations[|operations| - 1];
      Written(rows, operations[..|operations| - 1])[last.id := last.user]
  }

  class Users {
    var rows: Rows

    constructor (rows: Rows)
      ensures this.rows == rows
    {
      this.rows := rows;
    }

    /** Writes the batch in order and says how many documents it changed. */
    method BulkWrite(operations: seq<Operation>) returns (modified: nat)
      requires forall operation :: operation in operations ==> operation.id in rows
      requires forall i, j :: 0 <= i < j < |operations| ==> operations[i].id != operations[j].id
      modifies this
      ensures rows == Written(old(rows), operations)
      ensures (forall operation :: operation in operations ==> operation.user != old(rows)[operation.id]) ==>
        modified == |operations|
    {
      modified := 0;
      for i := 0 to |operations|
        invariant rows == Written(old(rows), operations[..i])
        invariant forall id :: id in old(rows) ==> id in rows
        invariant forall j :: i <= j < |operations| ==> rows[operations[j].id] == old(rows)[operations[j].id]
        invariant (forall operation :: operation in operations ==> operation.user != old(rows)[operation.id]) ==>
          modified == i
      {
        if rows[operations[i].id] != operations[i].user {
          modified := modified + 1;
        }
        assert operations[..i + 1][..i] == operations[..i];
        rows := rows[operations[i].id := operations[i].user];
      }
      assert operations[..|operations|] == operations;
    }
  }

  method Flush(users: Users, operations: seq<Operation>) returns (modified: nat)
    requires forall operation :: operation in operations ==> operation.id in users.rows
    requires forall i, j :: 0 <= i < j < |operations| ==> operations[i].id != operations[j].id
    modifies users
    ensures users.rows == Written(old(users.rows), operations)
    ensures (forall operation :: operation in operations ==> operation.user != old(users.rows)[operation.id]) ==>
      modified == |operations|
  {
    if operations == [] {
      return 0;
    }
    modified := users.BulkWrite(operations);
  }

  /** A cursor: the users found, each once, in whatever order the collection has them. */
  ghost predicate IsCursor(order: seq<Id>, found: set<Id>) {
    && (forall i, j :: 0 <= i < j < |order| ==> order[i] != order[j])
    && (forall id :: id in order <==> id in found)
  }

  method Find(found: set<Id>) returns (order: seq<Id>)
    ensures IsCursor(order, found) && |order| == |found|
  {
    order := [];
    var remaining := found;
    while remaining != {}
      invariant remaining <= found && IsCursor(order, found - remaining)
      invariant |order| + |remaining| == |found|
    {
      var id :| id in remaining;
      order := order + [id];
      remaining := remaining - {id};
    }
    assert found - remaining == found;
  }

  function IdSet(order: seq<Id>): set<Id> {
    set id | id in order
  }

  /** `rows` with `f` applied to the users in `done`. */
  function Mapped(rows: Rows, done: set<Id>, f: User -> User): Rows {
    map id | id in rows :: if id in done then f(rows[id]) else rows[id]
  }

  ghost predicate OperationsFor(rows: Rows, order: seq<Id>, from: nat, operations: seq<Operation>, f: User -> User) {
    && from + |operations| <= |order|
    && forall k :: from <= k < from + |operations| ==>
         order[k] in rows && operations[k - from] == Operation(order[k], f(rows[order[k]]))
  }

  lemma OperationsPrefix(
    rows: Rows, order: seq<Id>, from: nat, operations: seq<Operation>, f: User -> User, n: nat)
    requires OperationsFor(rows, order, from, operations, f) && n <= |operations|
    ensures OperationsFor(rows, order, from, operations[..n], f)
  {}

  /** Writing one batch is applying the per-user change to the batch's users. */
  lemma {:induction false} BatchIsPerUser(
    rows: Rows, order: seq<Id>, from: nat, operations: seq<Operation>, f: User -> User)
    requires OperationsFor(rows, order, from, operations, f)
    ensures Written(Mapped(rows, IdSet(order[..from]), f), operations) ==
      Mapped(rows, IdSet(order[..from + |operations|]), f)
  {
    if operations != [] {
      var n := |operations| - 1;
      OperationsPrefix(rows, order, from, operations, f, n);
      BatchIsPerUser(rows, order, from, operations[..n], f);
      assert order[..from + |operations|] == order[..from + n] + [order[from + n]];
    }
  }

  // ---------- Up ----------

  /** The inner loop over the provider fields of one user. */
  method BuildLinks(user: User, now: Time) returns (accounts: seq<Account>)
    ensures accounts == LinkedUpTo(user, |PROVIDERS|, LinkedAt(user, now))
  {
    var linkedAt := LinkedAt(user, now);
    accounts := Existing(user);
    for i := 0 to |PROVIDERS|
      invariant accounts == LinkedUpTo(user, i, linkedAt)
    {
      var value := IdOf(user, PROVIDERS[i]);
      if Truthy(value) {
        var alreadyLinked := exists account | account in accounts :: account.provider == PROVIDERS[i];
        if !alreadyLinked {
          accounts := accounts + [Account(PROVIDERS[i], Text(ToText(value)), linkedAt)];
        }
      }
    }
  }

  function SelectedIds(rows: Rows): set<Id> {
    set id | id in rows && Selected(rows[id])
  }

  lemma BatchIds(rows: Rows, order: seq<Id>, from: nat, operations: seq<Operation>, f: User -> User)
    requires OperationsFor(rows, order, from, operations, f)
    ensures forall operation :: operation in operations ==>
      exists k :: from <= k < from + |operations| && order[k] == operation.id && operation.user == f(rows[order[k]])
    ensures forall i, j :: 0 <= i < j < |operations| ==>
      operations[i].id == order[from + i] && operations[j].id == order[from + j]
  {
    forall operation | operation in operations
      ensures exists k ::
        from <= k < from + |operations| && order[k] == operation.id && operation.user == f(rows[order[k]])
    {
      var i :| 0 <= i < |operations| && operations[i] == operation;
      assert operations[from + i - from] == Operation(order[from + i], f(rows[order[from + i]]));
    }
    forall i | 0 <= i < |operations| ensures operations[i].id == order[from + i] {
      assert operations[from + i - from].id == order[from + i];
    }
  }

  /** One flush of up to 500 updates, or of what is left. */
  method FlushBatch(
    users: Users, operations: seq<Operation>, ghost rows: Rows, ghost order: seq<Id>, ghost from: nat,
    ghost f: User -> User)
    returns (modified: nat)
    requires OperationsFor(rows, order, from, operations, f)
    requires forall i, j :: 0 <= i < j < |order| ==> order[i] != order[j]
    requires users.rows == Mapped(rows, IdSet(order[..from]), f)
    requires forall id :: id in order && id in rows ==> f(rows[id]) != rows[id]
    modifies users
    ensures users.rows == Mapped(rows, IdSet(order[..from + |operations|]), f)
    ensures modified == |operations|
  {
    BatchIsPerUser(rows, order, from, operations, f);
    forall k | from <= k < from + |operations|
      ensures operations[k - from].id == order[k] && order[k] in users.rows && users.rows[order[k]] == rows[order[k]]
    {
      assert order[k] !in order[..from];
    }
    BatchIds(rows, order, from, operations, f);
    modified := Flush(users, operations);
  }

  /** What the loop keeps: `flushed` users are written and the updates of the next ones wait. */
  ghost predicate Batched(
    now: Rows, rows: Rows, order: seq<Id>, flushed: nat, operations: seq<Operation>, f: User -> User)
  {
    && OperationsFor(rows, order, flushed, operations, f)
    && now == Mapped(rows, IdSet(order[..flushed]), f)
  }

  lemma NothingBatched(rows: Rows, order: seq<Id>, f: User -> User)
    ensures Batched(rows, rows, order, 0, [], f)
  {
    assert Mapped(rows, IdSet(order[..0]), f) == rows;
  }

  lemma UnwrittenReadsAsBefore(
    now: Rows, rows: Rows, order: seq<Id>, flushed: nat, operations: seq<Operation>, f: User -> User, i: nat)
    requires Batched(now, rows, order, flushed, operations, f)
    requires forall j, k :: 0 <= j < k < |order| ==> order[j] != order[k]
    requires flushed <= i < |order| && order[i] in rows
    ensures order[i] in now && now[order[i]] == rows[order[i]]
  {
    assert order[i] !in order[..flushed];
  }

  /** A loop that stops at `i` has written the whole batches before it. */
  lemma WrittenWhenStopped(
    now: Rows, rows: Rows, order: seq<Id>, flushed: nat, operations: seq<Operation>, f: User -> User, i: nat)
    requires Batched(now, rows, order, flushed, operations, f)
    requires flushed + |operations| == i <= |order| && |operations| < BATCH_SIZE && flushed % BATCH_SIZE == 0
    ensures WrittenBefore(i) <= |order| && now == Mapped(rows, IdSet(order[..WrittenBefore(i)]), f)
  {
    assert WrittenBefore(i) == flushed;
  }

  /** The last flush writes what is left of the cursor. */
  method FlushRest(
    users: Users, operations: seq<Operation>, ghost rows: Rows, ghost order: seq<Id>, ghost flushed: nat,
    ghost f: User -> User)
    returns (modified: nat)
    requires Batched(users.rows, rows, order, flushed, operations, f) && flushed + |operations| == |order|
    requires forall i, j :: 0 <= i < j < |order| ==> order[i] != order[j]
    requires forall id :: id in order && id in rows ==> f(rows[id]) != rows[id]
    modifies users
    ensures users.rows == Mapped(rows, IdSet(order), f)
    ensures flushed + modified == |order|
  {
    modified := FlushBatch(users, operations, rows, order, flushed, f);
    assert order[..|order|] == order;
  }

  /** Queues one more update and flushes when the batch is full. */
  method Queue(
    users: Users, operations: seq<Operation>, next: Operation, ghost rows: Rows, ghost order: seq<Id>,
    ghost flushed: nat, ghost f: User -> User)
    returns (left: seq<Operation>, modified: nat)
    requires Batched(users.rows, rows, order, flushed, operations, f)
    requires flushed + |operations| < |order| && |operations| < BATCH_SIZE && flushed % BATCH_SIZE == 0
    requires var id := order[flushed + |operations|]; id in rows && next == Operation(id, f(rows[id]))
    requires forall i, j :: 0 <= i < j < |order| ==> order[i] != order[j]
    requires forall id :: id in order && id in rows ==> f(rows[id]) != rows[id]
    modifies users
    ensures modified + |left| == |operations| + 1 && |left| < BATCH_SIZE && modified % BATCH_SIZE == 0
    ensures Batched(users.rows, rows, order, flushed + modified, left, f)
  {
    left := operations + [next];
    modified := 0;
    assert OperationsFor(rows, order, flushed, left, f);
    if |left| >= BATCH_SIZE {
      modified := FlushBatch(users, left, rows, order, flushed, f);
      left := [];
    }
  }

  lemma AllMoved(rows: Rows, now: Time)
    ensures forall id :: id in rows ==> MovedTo(rows[id], UpUser(rows[id], now), now)
  {
    hide MovedTo, UpUser;
    forall id | id in rows ensures MovedTo(rows[id], UpUser(rows[id], now), now) {
      UpKeepsAndAdds(rows[id], now);
    }
  }

  /** The batched loop is the plain per-user change, for any number of users. */
  method Up(users: Users, now: Time) returns (migrated: nat)
    modifies users
    ensures users.rows == map id | id in old(users.rows) :: UpUser(old(users.rows)[id], now)
    ensures forall id :: id in old(users.rows) ==> id in users.rows && MovedTo(old(users.rows)[id], users.rows[id], now)
    ensures migrated == |SelectedIds(old(users.rows))|
  {
    hide Batched, LinkedUpTo, RestoredIds, Mapped, MovedTo;
    ghost var rows := users.rows;
    AllMoved(rows, now);
    ghost var f := (user: User) => UpUser(user, now);
    var order := Find(SelectedIds(users.rows));
    var operations := [];
    migrated := 0;
    NothingBatched(rows, order, f);
    for i := 0 to |order|
      invariant migrated + |operations| == i && |operations| < BATCH_SIZE && migrated % BATCH_SIZE == 0
      invariant Batched(users.rows, rows, order, migrated, operations, f)
    {
      assert order[i] in order;
      UnwrittenReadsAsBefore(users.rows, rows, order, migrated, operations, f, i);
      var user := users.rows[order[i]];
      var accounts := BuildLinks(user, now);
      var left, modified := Queue(
        users, operations, Operation(order[i], LinkedUser(user, accounts)), rows, order, migrated, f);
      operations, migrated := left, migrated + modified;
    }
    var modified := FlushRest(users, operations, rows, order, migrated, f);
    migrated := migrated + modified;
    assert IdSet(order) == SelectedIds(rows);
    GiveEmptyLists(users, rows, now);
  }

  /** The last `updateMany`: users without the field get an empty list. */
  method GiveEmptyLists(users: Users, ghost rows: Rows, ghost now: Time)
    requires users.rows == Mapped(rows, SelectedIds(rows), user => UpUser(user, now))
    modifies users
    ensures users.rows == map id | id in rows :: UpUser(rows[id], now)
  {
    users.rows := map id | id in users.rows ::
      if users.rows[id].links.Absent? then users.rows[id].(links := List([]), linkedProviders := None)
      else users.rows[id];
  }

  // ---------- Down ----------

  function LinkedIds(rows: Rows): set<Id> {
    set id | id in rows && !rows[id].links.Absent?
  }

  method RestoreUser(user: User) returns (restored: User)
    ensures restored == DownUser(user)
  {
    var linkedProviders := [];
    if user.authProvider == EMAIL_PROVIDER {
      linkedProviders := linkedProviders + [EMAIL_PROVIDER];
    }
    restored := user;
    var accounts := Existing(user);
    for i := 0 to |accounts|
      invariant restored == RestoredIds(user, accounts[..i])
      invariant linkedProviders == SignInProviders(user) + ProvidersOf(accounts[..i])
    {
      assert accounts[..i + 1][..i] == accounts[..i];
      assert ProvidersOf(accounts[..i + 1]) == ProvidersOf(accounts[..i]) + [accounts[i].provider];
      restored := WithId(restored, accounts[i].provider, accounts[i].providerId);
      linkedProviders := linkedProviders + [accounts[i].provider];
    }
    assert accounts[..|accounts|] == accounts;
    restored := restored.(linkedProviders := Some(linkedProviders), links := Absent);
  }

  predicate SupportedAt(rows: Rows, id: Id) {
    id in rows && Supported(rows[id])
  }

  ghost predicate FirstRefused(rows: Rows, order: seq<Id>, k: nat)
    requires k < |order|
  {
    && order[k] in rows && !Supported(rows[order[k]])
    && forall i | 0 <= i < k :: SupportedAt(rows, order[i])
  }

  lemma LinkedUsersChange(rows: Rows)
    ensures forall id :: id in LinkedIds(rows) ==> DownUser(rows[id]) != rows[id]
  {}

  /** The users already rolled back when the one at `k` of the cursor is refused: whole batches only. */
  function WrittenBefore(k: nat): nat {
    k / BATCH_SIZE * BATCH_SIZE
  }

  /**
   Rolls every user back, or stops at the first user of the cursor whose accounts the legacy
   fields cannot hold. The batches before that one stay written.
   */
  method Down(users: Users) returns (result: Result<nat, Id>, ghost order: seq<Id>)
    modifies users
    ensures IsCursor(order, LinkedIds(old(users.rows)))
    ensures result.Ok? <==> forall id | id in LinkedIds(old(users.rows)) :: Supported(old(users.rows)[id])
    ensures result.Ok? ==>
      && users.rows == Mapped(old(users.rows), LinkedIds(old(users.rows)), DownUser)
      && result.value == |LinkedIds(old(users.rows))|
    ensures result.Err? ==>
      exists k | 0 <= k < |order| ::
        && order[k] == result.error
        && FirstRefused(old(users.rows), order, k)
        && users.rows == Mapped(old(users.rows), IdSet(order[..WrittenBefore(k)]), DownUser)
  {
    hide Batched, Mapped, DownUser, RestoredIds, Supported;
    ghost var rows := users.rows;
    var cursor := Find(LinkedIds(users.rows));
    order := cursor;
    var operations := [];
    var restored := 0;
    NothingBatched(rows, cursor, DownUser);
    LinkedUsersChange(rows);
    for i := 0 to |cursor|
      invariant restored + |operations| == i && |operations| < BATCH_SIZE && restored % BATCH_SIZE == 0
      invariant Batched(users.rows, rows, cursor, restored, operations, DownUser)
      invariant forall j | 0 <= j < i :: SupportedAt(rows, cursor[j])
    {
      assert cursor[i] in cursor;
      UnwrittenReadsAsBefore(users.rows, rows, cursor, restored, operations, DownUser, i);
      var user := users.rows[cursor[i]];
      if !Supported(user) {
        WrittenWhenStopped(users.rows, rows, cursor, restored, operations, DownUser, i);
        return Err(cursor[i]), cursor;
      }
      var restoredUser := RestoreUser(user);
      var left, modified := Queue(users, operations, Operation(cursor[i], restoredUser), rows, cursor, restored, DownUser);
      operations, restored := left, restored + modified;
    }
    var modified := FlushRest(users, operations, rows, cursor, restored, DownUser);
    restored := restored + modified;
    assert IdSet(cursor) == LinkedIds(rows);
    forall id | id in LinkedIds(rows) ensures Supported(rows[id]) {
      var j :| 0 <= j < |cursor| && cursor[j] == id;
      assert SupportedAt(rows, cursor[j]);
    }
    result := Ok(restored);
  }

  /** A refused rollback has changed nothing exactly when the refused user is in the first batch. */
  lemma RefusalChangesNothingInFirstBatch(rows: Rows, order: seq<Id>, k: nat)
    requires IsCursor(order, LinkedIds(rows)) && k < |order|
    ensures Mapped(rows, IdSet(order[..WrittenBefore(k)]), DownUser) == rows <==> k < BATCH_SIZE
  {
    hide DownUser, Supported;
    var after := Mapped(rows, IdSet(order[..WrittenBefore(k)]), DownUser);
    LinkedUsersChange(rows);
    if k >= BATCH_SIZE {
      assert order[0] in order[..WrittenBefore(k)] && order[0] in LinkedIds(rows);
      assert after[order[0]] != rows[order[0]];
    } else {
      assert after == rows;
    }
  }

  function SupportedIds(rows: Rows): set<Id> {
    set id | id in LinkedIds(rows) && Supported(rows[id])
  }

  /** Whatever order the cursor has, a refused rollback leaves the rows as they were. */
  ghost predicate RefusalsChangeNothing(rows: Rows) {
    forall order, k: nat | IsCursor(order, LinkedIds(rows)) && k < |order| && FirstRefused(rows, order, k) ::
      Mapped(rows, IdSet(order[..WrittenBefore(k)]), DownUser) == rows
  }

  lemma {:induction false} DistinctAreNoMore(order: seq<Id>, all: set<Id>)
    requires forall i, j :: 0 <= i < j < |order| ==> order[i] != order[j]
    requires forall id :: id in order ==> id in all
    ensures |order| <= |all|
  {
    if order != [] {
      var n := |order| - 1;
      forall id | id in order[..n] ensures id in all - {order[n]} {}
      DistinctAreNoMore(order[..n], all - {order[n]});
    }
  }

  lemma {:induction false} Arranged(all: set<Id>) returns (order: seq<Id>)
    ensures IsCursor(order, all) && |order| == |all|
  {
    if all == {} {
      order := [];
    } else {
      var id :| id in all;
      var rest := Arranged(all - {id});
      order := rest + [id];
      assert all == (all - {id}) + {id};
    }
  }

  /**
   A rollback that is refused is known beforehand to change nothing exactly when fewer than 500
   linked users could be rolled back. With 500 or more, some order of the cursor writes a batch first.
   */
  lemma RefusalsChangeNothingExactly(rows: Rows)
    requires exists id :: id in LinkedIds(rows) && !Supported(rows[id])
    ensures RefusalsChangeNothing(rows) <==> |SupportedIds(rows)| < BATCH_SIZE
  {
    hide Supported, DownUser, Mapped, IsCursor;
    if |SupportedIds(rows)| < BATCH_SIZE {
      forall order, k: nat | IsCursor(order, LinkedIds(rows)) && k < |order| && FirstRefused(rows, order, k)
        ensures Mapped(rows, IdSet(order[..WrittenBefore(k)]), DownUser) == rows
      {
        SupportedComeFirst(rows, order, k);
        RefusalChangesNothingInFirstBatch(rows, order, k);
      }
    } else {
      var order, k := LateRefusal(rows);
      RefusalChangesNothingInFirstBatch(rows, order, k);
    }
  }

  lemma SupportedComeFirst(rows: Rows, order: seq<Id>, k: nat)
    requires IsCursor(order, LinkedIds(rows)) && k < |order| && FirstRefused(rows, order, k)
    ensures k <= |SupportedIds(rows)|
  {
    forall id | id in order[..k] ensures id in SupportedIds(rows) {
      var i :| 0 <= i < k && order[i] == id;
      assert SupportedAt(rows, order[i]) && id in order;
    }
    DistinctAreNoMore(order[..k], SupportedIds(rows));
  }

  lemma LateRefusal(rows: Rows) returns (order: seq<Id>, k: nat)
    requires exists id :: id in LinkedIds(rows) && !Supported(rows[id])
    ensures IsCursor(order, LinkedIds(rows)) && k < |order| && FirstRefused(rows, order, k)
    ensures k == |SupportedIds(rows)|
  {
    hide Supported;
    var id :| id in LinkedIds(rows) && !Supported(rows[id]);
    var first := Arranged(SupportedIds(rows));
    var second := Arranged(LinkedIds(rows) - SupportedIds(rows));
    assert id in second;
    order, k := first + second, |first|;
    assert order[k] in second;
    forall i | 0 <= i < k ensures SupportedAt(rows, order[i]) { assert order[i] in first; }
    forall i, j | 0 <= i < j < |order| ensures order[i] != order[j] {
      if i < k <= j { assert order[i] in first && order[j] in second; }
    }
  }

  /** At most 500 linked users: a refused rollback changes nothing. */
  lemma RefusalInASmallTable(rows: Rows, order: seq<Id>, k: nat)
    requires IsCursor(order, LinkedIds(rows)) && k < |order| && FirstRefused(rows, order, k)
    requires |LinkedIds(rows)| <= BATCH_SIZE
    ensures Mapped(rows, IdSet(order[..WrittenBefore(k)]), DownUser) == rows
  {
    DistinctAreNoMore(order, LinkedIds(rows));
    RefusalChangesNothingInFirstBatch(rows, order, k);
  }

  // ---------- Down after up ----------

  /** Which id fields a round trip gives back exactly. */
  predicate ComesBack(user: User, provider: string) {
    match IdOf(user, provider)
    case Missing => true
    case Text(text) => text != ""
    case Null => !Selected(user)
    case Number(_) => false
  }

  function NewAccount(user: User, provider: string, linkedAt: Time): seq<Account> {
    if Truthy(IdOf(user, provider)) then [Account(provider, Text(ToText(IdOf(user, provider))), linkedAt)] else []
  }

  lemma LinksOfFreshUser(user: User, linkedAt: Time)
    requires Existing(user) == []
    ensures LinkedUpTo(user, 3, linkedAt) ==
      NewAccount(user, "google", linkedAt) + NewAccount(user, "facebook", linkedAt) + NewAccount(user, "github", linkedAt)
  {
    assert PROVIDERS[0] == "google" && PROVIDERS[1] == "facebook" && PROVIDERS[2] == "github";
    assert LinkedUpTo(user, 1, linkedAt) == NewAccount(user, "google", linkedAt);
    assert LinkedUpTo(user, 2, linkedAt) == NewAccount(user, "google", linkedAt) + NewAccount(user, "facebook", linkedAt);
  }

  lemma {:induction false} RestoredIdsConcat(user: User, a: seq<Account>, b: seq<Account>)
    ensures RestoredIds(user, a + b) == RestoredIds(RestoredIds(user, a), b)
  {
    if b == [] {
      assert a + b == a;
    } else {
      assert (a + b)[..|a + b| - 1] == a + b[..|b| - 1];
      RestoredIdsConcat(user, a, b[..|b| - 1]);
    }
  }

  function Restored(user: User, provider: string, value: IdValue): User {
    if Truthy(value) then WithId(user, provider, Text(ToText(value))) else user
  }

  lemma RestoreNewAccount(user: User, from: User, provider: string, linkedAt: Time)
    ensures RestoredIds(user, NewAccount(from, provider, linkedAt)) == Restored(user, provider, IdOf(from, provider))
  {
    assert RestoredIds(user, []) == user;
  }

  function Names(user: User, provider: string): seq<string> {
    if Truthy(IdOf(user, provider)) then [provider] else []
  }

  lemma RestoredAccounts(user: User, bare: User, linkedAt: Time)
    ensures RestoredIds(bare,
        NewAccount(user, "google", linkedAt) + NewAccount(user, "facebook", linkedAt) + NewAccount(user, "github", linkedAt))
      == Restored(Restored(Restored(bare, "google", user.googleId), "facebook", user.facebookId), "github", user.githubId)
  {
    var google, facebook, github :=
      NewAccount(user, "google", linkedAt), NewAccount(user, "facebook", linkedAt), NewAccount(user, "github", linkedAt);
    RestoredIdsConcat(bare, google + facebook, github);
    RestoredIdsConcat(bare, google, facebook);
    RestoreNewAccount(bare, user, "google", linkedAt);
    RestoreNewAccount(RestoredIds(bare, google), user, "facebook", linkedAt);
    RestoreNewAccount(RestoredIds(RestoredIds(bare, google), facebook), user, "github", linkedAt);
  }

  lemma ProvidersOfAccounts(user: User, linkedAt: Time)
    ensures ProvidersOf(
        NewAccount(user, "google", linkedAt) + NewAccount(user, "facebook", linkedAt) + NewAccount(user, "github", linkedAt))
      == Names(user, "google") + Names(user, "facebook") + Names(user, "github")
  {}

  lemma RoundTripOfSelected(user: User, now: Time)
    requires Selected(user) && Existing(user) == []
    ensures var back := DownUser(UpUser(user, now));
      && (forall provider | provider in PROVIDERS ::
            IdOf(back, provider) ==
              if Truthy(IdOf(user, provider)) then Text(ToText(IdOf(user, provider))) else Missing)
      && back.linkedProviders ==
           Some(SignInProviders(user) + (Names(user, "google") + Names(user, "facebook") + Names(user, "github")))
  {
    hide Digits, ToText, LinkedUpTo, RestoredIds, NewAccount, ProvidersOf;
    var linkedAt := LinkedAt(user, now);
    LinksOfFreshUser(user, linkedAt);
    RestoredAccounts(user, LinkedUser(user, LinkedUpTo(user, 3, linkedAt)), linkedAt);
    ProvidersOfAccounts(user, linkedAt);
    assert forall provider | provider in PROVIDERS ::
        provider == "google" || provider == "facebook" || provider == "github";
  }

  /**
   For a user without linked accounts, rolling back restores an id field exactly when it was
   absent, or a non-empty string, or `null` on a user no id of which had a value. The legacy
   list is rebuilt as email, for an email account, followed by the linked providers in order.
   */
  lemma DownUndoesUpExactly(user: User, now: Time, provider: string)
    requires Existing(user) == [] && provider in PROVIDERS
    ensures var back := DownUser(UpUser(user, now));
      && (IdOf(back, provider) == IdOf(user, provider) <==> ComesBack(user, provider))
      && back.links.Absent?
      && back.linkedProviders ==
           Some(SignInProviders(user) + (Names(user, "google") + Names(user, "facebook") + Names(user, "github")))
  {
    if Selected(user) {
      RoundTripOfSelected(user, now);
    } else {
      assert forall p | p in PROVIDERS :: IdOf(user, p) in {Missing, Null};
      assert "google" in PROVIDERS && "facebook" in PROVIDERS && "github" in PROVIDERS;
      assert Names(user, "google") + Names(user, "facebook") + Names(user, "github") == [];
      assert Existing(UpUser(user, now)) == [] && ProvidersOf([]) == [];
      assert RestoredIds(UpUser(user, now), []) == UpUser(user, now);
    }
  }

  /** What `up` leaves is never refused by `down`, unless it was there before. */
  lemma UpIsSupported(user: User, now: Time)
    requires Supported(user)
    ensures Supported(UpUser(user, now))
  {
    var linkedAt := LinkedAt(user, now);
    assert forall account | account in LinkedUpTo(user, 1, linkedAt) :: !Unsupported(account);
    assert forall account | account in LinkedUpTo(user, 2, linkedAt) :: !Unsupported(account);
    assert forall account | account in LinkedUpTo(user, 3, linkedAt) :: !Unsupported(account);
  }
}
