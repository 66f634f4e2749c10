/**
 The migration itself: `up` and `backfill` over a database whose every write is one step.

 `Database.trace` records the tables after each write, so `Valid()` says that both unique
 indexes hold in every state the migration passes through. Rows come back from a query in
 whatever order the database likes, which `:|` models.
 */
module LedgerBackfill {
  import opened Options
  import opened Addresses
  import opened LedgerTables
  import opened LedgerProperties
  import opened LedgerTheorems

  datatype Counts = Counts(
    kept: int, clearedTaken: int, clearedAmbiguous: int, clearedCodeless: int, codesKilled: int)

  datatype Failure = ClaimConflict(address: string) | Collision(ids: set<Id>)

  datatype Member = Member(id: Id, generation: int)

  datatype Group = Group(address: string, members: seq<Member>)

  datatype CodeRow = CodeRow(id: Id, code: Code)

  datatype Match = Match(member: Member, row: CodeRow)

  // ---------- Single writes as functions ----------

  function RewrittenCodes(codes: map<Id, Code>, id: Id, address: string): map<Id, Code> {
    if id in codes && codes[id].email != address then codes[id := codes[id].(email := address)] else codes
  }

  function RewrittenUsers(users: map<Id, User>, id: Id, address: string): map<Id, User> {
    if id in users && users[id].pendingEmail != Some(address)
    then users[id := users[id].(pendingEmail := Some(address))] else users
  }

  function ClearedUsers(users: map<Id, User>, ids: set<Id>): map<Id, User> {
    map id | id in users :: if id in ids then users[id].(pendingEmail := None) else users[id]
  }

  function WithNormalEmail(user: User): User {
    if user.email.Some? then user.(email := Some(Normalise(user.email.value))) else user
  }

  function NormalisedUsers(users: map<Id, User>, done: set<Id>): map<Id, User> {
    map id | id in users :: if id in done then WithNormalEmail(users[id]) else users[id]
  }

  /** Half-way, the rows in `done` have their normal form and the others are as they were. */
  lemma HalfNormalised(users: map<Id, User>, done: set<Id>, id: Id)
    requires id in users
    ensures var after := NormalisedUsers(users, done);
      && id in after && after[id].pendingEmail == users[id].pendingEmail && after[id].generation == users[id].generation
      && (id !in done || users[id].email.None? ==> after[id] == users[id])
      && (id in done && users[id].email.Some? ==> after[id].email == Some(Normalise(users[id].email.value)))
  {}

  /** The accounts whose address reads the same as another account's once normalised. */
  function Colliding(users: map<Id, User>): set<Id> {
    set i | i in users && users[i].email.Some? &&
            exists j | j in users ::
              j != i && users[j].email.Some? && Normalise(users[j].email.value) == Normalise(users[i].email.value)
  }

  // ---------- The database ----------

  /** Both unique indexes hold in every state of the trace. */
  ghost predicate AllIndexed(trace: seq<Tables>) {
    trace != [] ==> IndexesHold(trace[|trace| - 1]) && AllIndexed(trace[..|trace| - 1])
  }

  lemma {:induction false} IndexedThroughout(trace: seq<Tables>)
    requires AllIndexed(trace)
    ensures forall t :: t in trace ==> IndexesHold(t)
  {
    if trace != [] {
      IndexedThroughout(trace[..|trace| - 1]);
    }
  }

  class Database {
    var users: map<Id, User>
    var codes: map<Id, Code>
    var claims: map<string, Claim>
    ghost var trace: seq<Tables>

    ghost function Contents(): Tables
      reads this
    {
      Tables(users, codes, claims)
    }

    ghost predicate Valid()
      reads this
    {
      trace != [] && trace[|trace| - 1] == Contents() && AllIndexed(trace)
    }

    constructor (users: map<Id, User>, codes: map<Id, Code>, claims: map<string, Claim>)
      requires UniqueEmails(users) && UniqueCodes(codes)
      ensures Valid() && Contents() == Tables(users, codes, claims)
    {
      this.users, this.codes, this.claims := users, codes, claims;
      trace := [Tables(users, codes, claims)];
    }

    /** `updateOne` with `$setOnInsert` and `upsert`: an existing row is left alone. */
    method InsertClaim(address: string, claim: Claim) returns (upserted: nat)
      requires Valid()
      modifies this
      ensures Valid() && trace == old(trace) + [Contents()]
      ensures Contents() == old(Contents()).(claims :=
        if address in old(claims) then old(claims) else old(claims)[address := claim])
      ensures upserted == |claims| - |old(claims)|
    {
      upserted := 0;
      if address !in claims {
        claims := claims[address := claim];
        upserted := 1;
      }
      trace := trace + [Contents()];
    }

    method DeleteCodes(ids: set<Id>) returns (deleted: nat)
      requires Valid()
      modifies this
      ensures Valid() && trace == old(trace) + [Contents()]
      ensures Contents() == old(Contents()).(codes := old(codes) - ids)
      ensures deleted == |old(codes)| - |codes|
    {
      deleted := |codes| - |codes - ids| by {
        assert (codes - ids).Keys <= codes.Keys;
        SubsetIsNoLarger((codes - ids).Keys, codes.Keys);
      }
      codes := codes - ids;
      trace := trace + [Contents()];
    }

    /** The unique index on (email, purpose) refuses any rewrite that breaks it. */
    method RewriteCodeEmail(id: Id, address: string)
      requires Valid()
      requires UniqueCodes(RewrittenCodes(codes, id, address))
      modifies this
      ensures Valid() && trace == old(trace) + [Contents()]
      ensures Contents() == old(Contents()).(codes := RewrittenCodes(old(codes), id, address))
    {
      codes := RewrittenCodes(codes, id, address);
      trace := trace + [Contents()];
    }

    method RewritePending(id: Id, address: string)
      requires Valid()
      modifies this
      ensures Valid() && trace == old(trace) + [Contents()]
      ensures Contents() == old(Contents()).(users := RewrittenUsers(old(users), id, address))
    {
      users := RewrittenUsers(users, id, address);
      trace := trace + [Contents()];
    }

    method ClearPending(ids: set<Id>) returns (modified: nat)
      requires Valid()
      modifies this
      ensures Valid() && trace == old(trace) + [Contents()]
      ensures Contents() == old(Contents()).(users := ClearedUsers(old(users), ids))
      ensures modified == |ids * Pending(old(users))|
    {
      modified := |ids * Pending(users)|;
      users := ClearedUsers(users, ids);
      trace := trace + [Contents()];
    }

    /** The unique index on email refuses any rewrite that breaks it. */
    method NormaliseEmail(id: Id)
      requires Valid() && id in users
      requires UniqueEmails(users[id := WithNormalEmail(users[id])])
      modifies this
      ensures Valid() && trace == old(trace) + [Contents()]
      ensures Contents() == old(Contents()).(users := old(users)[id := WithNormalEmail(old(users)[id])])
    {
      users := users[id := WithNormalEmail(users[id])];
      trace := trace + [Contents()];
    }

    /** An aborted transaction leaves what was there when it started. */
    method Abort(users: map<Id, User>, codes: map<Id, Code>, claims: map<string, Claim>)
      requires Valid() && Tables(users, codes, claims) in trace
      modifies this
      ensures Valid() && trace == old(trace) + [Contents()]
      ensures Contents() == Tables(users, codes, claims)
    {
      IndexedThroughout(trace);
      this.users, this.codes, this.claims := users, codes, claims;
      trace := trace + [Contents()];
    }
  }

  lemma SubsetIsNoLarger<T>(a: set<T>, b: set<T>)
    requires a <= b
    ensures |a| <= |b|
  {
    assert b == a + (b - a);
  }

  // ---------- Queries ----------

  ghost predicate Sorted(rows: seq<CodeRow>) {
    forall i, j :: 0 <= i < j < |rows| ==> Before((rows[i].id, rows[i].code), (rows[j].id, rows[j].code))
  }

  ghost predicate RowsOf(codes: map<Id, Code>, ids: set<Id>, rows: seq<CodeRow>) {
    && Sorted(rows)
    && (forall row :: row in rows ==> row.id in ids && row.id in codes && codes[row.id] == row.code)
    && (forall c :: c in ids && c in codes ==> CodeRow(c, codes[c]) in rows)
  }

  function InsertRow(row: CodeRow, rows: seq<CodeRow>): (result: seq<CodeRow>)
    requires Sorted(rows) && forall r :: r in rows ==> r.id != row.id
    ensures Sorted(result)
    ensures forall r :: r in result <==> r == row || r in rows
  {
    if rows == [] then [row]
    else if Before((row.id, row.code), (rows[0].id, rows[0].code)) then
      assert forall r :: r in rows ==> Before((row.id, row.code), (r.id, r.code));
      [row] + rows
    else
      assert Before((rows[0].id, rows[0].code), (row.id, row.code));
      var rest := InsertRow(row, rows[1..]);
      assert forall r :: r in rest ==> Before((rows[0].id, rows[0].code), (r.id, r.code));
      assert forall r :: r in rows <==> r == rows[0] || r in rows[1..];
      [rows[0]] + rest
  }

  /** `find` with the code filter, sorted by lapse time and then id, latest first. */
  method FindAddressCodes(db: Database, address: string) returns (rows: seq<CodeRow>)
    ensures RowsOf(db.codes, CodesAt(db.codes, address), rows)
  {
    rows := [];
    var found := CodesAt(db.codes, address);
    var remaining := found;
    while remaining != {}
      invariant remaining <= found
      invariant RowsOf(db.codes, found - remaining, rows)
    {
      var c :| c in remaining;
      rows := InsertRow(CodeRow(c, db.codes[c]), rows);
      remaining := remaining - {c};
    }
    assert found - remaining == found;
  }

  ghost predicate IsGroup(users: map<Id, User>, group: Group) {
    && (forall i, j :: 0 <= i < j < |group.members| ==> group.members[i].id != group.members[j].id)
    && (forall m :: m in group.members ==>
          PendingAt(users, m.id, group.address) && m.generation == GenerationOf(users[m.id]))
    && (forall id :: PendingAt(users, id, group.address) ==>
          Member(id, GenerationOf(users[id])) in group.members)
  }

  ghost predicate IsGrouping(users: map<Id, User>, groups: seq<Group>) {
    && (forall i :: 0 <= i < |groups| ==> IsGroup(users, groups[i]) && groups[i].address in PendingAddresses(users))
    && (forall i, j :: 0 <= i < j < |groups| ==> groups[i].address != groups[j].address)
    && (forall address :: address in PendingAddresses(users) ==>
          exists i :: 0 <= i < |groups| && groups[i].address == address)
  }

  method CollectMembers(db: Database, address: string) returns (members: seq<Member>)
    ensures IsGroup(db.users, Group(address, members))
  {
    members := [];
    var found := GroupAt(db.users, address);
    var remaining := found;
    while remaining != {}
      invariant remaining <= found
      invariant forall m :: m in members ==>
        m.id in found - remaining && m.generation == GenerationOf(db.users[m.id])
      invariant forall id :: id in found - remaining ==> Member(id, GenerationOf(db.users[id])) in members
      invariant forall i, j :: 0 <= i < j < |members| ==> members[i].id != members[j].id
    {
      var id :| id in remaining;
      members := members + [Member(id, GenerationOf(db.users[id]))];
      remaining := remaining - {id};
    }
    forall id | PendingAt(db.users, id, address) ensures id in found - remaining {}
  }

  /** One group for each of the addresses in `covered`. */
  ghost predicate GroupsFor(users: map<Id, User>, groups: seq<Group>, covered: set<string>) {
    && (forall i :: 0 <= i < |groups| ==> IsGroup(users, groups[i]) && groups[i].address in covered)
    && (forall i, j :: 0 <= i < j < |groups| ==> groups[i].address != groups[j].address)
    && (forall address :: address in covered ==> exists i :: 0 <= i < |groups| && groups[i].address == address)
  }

  lemma OneMoreGroup(users: map<Id, User>, groups: seq<Group>, covered: set<string>, group: Group)
    requires GroupsFor(users, groups, covered) && IsGroup(users, group) && group.address !in covered
    ensures GroupsFor(users, groups + [group], covered + {group.address})
  {
    hide IsGroup;
    var more := groups + [group];
    assert more[|groups|] == group;
    forall address | address in covered ensures exists i :: 0 <= i < |more| && more[i].address == address {
      var i :| 0 <= i < |groups| && groups[i].address == address;
      assert more[i].address == address;
    }
  }

  /** The aggregation: accounts with a pending address, grouped by its canonical form. */
  method GroupByPending(db: Database) returns (groups: seq<Group>)
    ensures IsGrouping(db.users, groups)
  {
    groups := [];
    var found := PendingAddresses(db.users);
    var remaining := found;
    while remaining != {}
      invariant remaining <= found && GroupsFor(db.users, groups, found - remaining)
    {
      hide GroupsFor, PendingAddresses;
      var address :| address in remaining;
      var members := CollectMembers(db, address);
      OneMoreGroup(db.users, groups, found - remaining, Group(address, members));
      groups := groups + [Group(address, members)];
      assert found - (remaining - {address}) == (found - remaining) + {address};
      remaining := remaining - {address};
    }
    assert found - remaining == found;
  }

  // ---------- Choosing the keeper ----------

  function MatchingRows(rows: seq<CodeRow>, member: Member, now: Time): (result: seq<CodeRow>) {
    if rows == [] then []
    else
      (if Matches(rows[0].code, member.id, member.generation, now) then [rows[0]] else []) +
      MatchingRows(rows[1..], member, now)
  }

  function MatchesOf(members: seq<Member>, rows: seq<CodeRow>, now: Time): seq<Match> {
    if members == [] then []
    else
      var matching := MatchingRows(rows, members[0], now);
      (if matching == [] then [] else [Match(members[0], matching[0])]) + MatchesOf(members[1..], rows, now)
  }

  function Choose(taken: bool, matches: seq<Match>): Option<Match> {
    if !taken && |matches| == 1 then Some(matches[0]) else None
  }

  /** The first matching row is the one that sorts before every other match. */
  lemma {:induction false} FirstMatchingRow(rows: seq<CodeRow>, member: Member, now: Time)
    requires Sorted(rows)
    ensures var matching := MatchingRows(rows, member, now);
      && (matching == [] <==> forall row :: row in rows ==> !Matches(row.code, member.id, member.generation, now))
      && (matching != [] ==>
            && matching[0] in rows
            && Matches(matching[0].code, member.id, member.generation, now)
            && forall row ::
                 row in rows && row.id != matching[0].id && Matches(row.code, member.id, member.generation, now) ==>
                   Before((matching[0].id, matching[0].code), (row.id, row.code)))
  {
    if rows != [] {
      FirstMatchingRow(rows[1..], member, now);
      assert forall row :: row in rows <==> row == rows[0] || row in rows[1..];
    }
  }

  lemma {:induction false} MatchesOfMembers(members: seq<Member>, rows: seq<CodeRow>, now: Time)
    ensures var matches := MatchesOf(members, rows, now);
      && |matches| <= |members|
      && (forall x :: x in matches ==>
            && x.member in members
            && MatchingRows(rows, x.member, now) != []
            && x.row == MatchingRows(rows, x.member, now)[0])
      && (forall m :: m in members && MatchingRows(rows, m, now) != [] ==>
            Match(m, MatchingRows(rows, m, now)[0]) in matches)
      && ((forall i, j :: 0 <= i < j < |members| ==> members[i].id != members[j].id) ==>
            forall i, j :: 0 <= i < j < |matches| ==> matches[i].member.id != matches[j].member.id)
  {
    if members != [] {
      MatchesOfMembers(members[1..], rows, now);
      assert forall m :: m in members <==> m == members[0] || m in members[1..];
    }
  }

  lemma RowMatchesAt(t: Tables, group: Group, rows: seq<CodeRow>, now: Time, m: Member)
    requires IsGroup(t.users, group) && RowsOf(t.codes, CodesAt(t.codes, group.address), rows)
    requires m in group.members
    ensures forall c :: MatchesAt(t, now, group.address, m.id, c) <==>
      c in t.codes && CodeRow(c, t.codes[c]) in rows && Matches(t.codes[c], m.id, m.generation, now)
  {}

  lemma MemberHasBest(t: Tables, group: Group, rows: seq<CodeRow>, now: Time, m: Member)
    requires IsGroup(t.users, group) && RowsOf(t.codes, CodesAt(t.codes, group.address), rows)
    requires m in group.members
    ensures MatchingRows(rows, m, now) == [] <==> forall c :: !MatchesAt(t, now, group.address, m.id, c)
    ensures MatchingRows(rows, m, now) != [] ==>
      && IsBestCode(t, now, group.address, m.id, MatchingRows(rows, m, now)[0].id)
      && MatchingRows(rows, m, now)[0] in rows
  {
    FirstMatchingRow(rows, m, now);
    RowMatchesAt(t, group, rows, now, m);
    forall row | row in rows ensures CodeRow(row.id, t.codes[row.id]) == row {}
  }

  lemma EmptyExactlyWithoutMatch(t: Tables, group: Group, rows: seq<CodeRow>, now: Time)
    requires IsGroup(t.users, group) && RowsOf(t.codes, CodesAt(t.codes, group.address), rows)
    ensures forall m :: m in group.members ==>
      (MatchingRows(rows, m, now) == [] <==> forall c :: !MatchesAt(t, now, group.address, m.id, c))
  {
    hide RowsOf, MatchesAt, IsBestCode;
    forall m | m in group.members
      ensures MatchingRows(rows, m, now) == [] <==> forall c :: !MatchesAt(t, now, group.address, m.id, c)
    {
      MemberHasBest(t, group, rows, now, m);
    }
  }

  lemma MemberOf(t: Tables, group: Group, now: Time, id: Id, c: Id)
    requires IsGroup(t.users, group) && MatchesAt(t, now, group.address, id, c)
    ensures id in t.users && Member(id, GenerationOf(t.users[id])) in group.members
  {}

  lemma MatcherIsAMatch(t: Tables, group: Group, rows: seq<CodeRow>, now: Time, id: Id, c: Id)
    requires IsGroup(t.users, group) && RowsOf(t.codes, CodesAt(t.codes, group.address), rows)
    requires MatchesAt(t, now, group.address, id, c)
    ensures exists x :: x in MatchesOf(group.members, rows, now) && x.member.id == id
  {
    hide RowsOf, MatchesAt, IsGroup;
    MemberOf(t, group, now, id, c);
    var m := Member(id, GenerationOf(t.users[id]));
    MatchesOfMembers(group.members, rows, now);
    EmptyExactlyWithoutMatch(t, group, rows, now);
    assert Match(m, MatchingRows(rows, m, now)[0]) in MatchesOf(group.members, rows, now);
  }

  lemma ChosenIsKeeper(t: Tables, group: Group, rows: seq<CodeRow>, now: Time, x: Match)
    requires IsGroup(t.users, group) && RowsOf(t.codes, CodesAt(t.codes, group.address), rows)
    requires !IsTaken(t.users, group.address) && MatchesOf(group.members, rows, now) == [x]
    ensures KeeperAt(t, now, group.address) == Some(Keeper(x.member.id, x.row.id))
    ensures x.member in group.members && x.row in rows
  {
    hide RowsOf, MatchesAt, IsGroup, MatchesOf, IsBestCode;
    MatchesOfMembers(group.members, rows, now);
    assert x in [x];
    MemberHasBest(t, group, rows, now, x.member);
    forall id, c | MatchesAt(t, now, group.address, id, c) ensures id == x.member.id {
      MatcherIsAMatch(t, group, rows, now, id, c);
    }
    BestIsKeeper(t, now, group.address, Keeper(x.member.id, x.row.id));
  }

  lemma BestIsKeeper(t: Tables, now: Time, address: string, k: Keeper)
    requires !IsTaken(t.users, address) && IsBestCode(t, now, address, k.user, k.code)
    requires forall id, c :: MatchesAt(t, now, address, id, c) ==> id == k.user
    ensures KeeperAt(t, now, address) == Some(k)
  {
    KeeperIsUnique(t, now, address, k);
  }

  lemma KeeperIsChosen(t: Tables, group: Group, rows: seq<CodeRow>, now: Time, k: Keeper)
    requires IsGroup(t.users, group) && RowsOf(t.codes, CodesAt(t.codes, group.address), rows)
    requires KeeperAt(t, now, group.address) == Some(k)
    ensures |MatchesOf(group.members, rows, now)| == 1
  {
    hide RowsOf, MatchesAt, IsGroup, MatchesOf;
    var matches := MatchesOf(group.members, rows, now);
    MatcherIsAMatch(t, group, rows, now, k.user, k.code);
    if |matches| > 1 {
      DifferentMatches(t, group, rows, now);
      var other := MatchOfAnother(matches, k.user);
      MatchesOfMembers(group.members, rows, now);
      MemberHasBest(t, group, rows, now, other.member);
      OnlyKeeperMatches(t, now, group.address, k, other.member.id, other.row.id);
      assert false;
    }
  }

  lemma DifferentMatches(t: Tables, group: Group, rows: seq<CodeRow>, now: Time)
    requires IsGroup(t.users, group) && |MatchesOf(group.members, rows, now)| > 1
    ensures var matches := MatchesOf(group.members, rows, now); matches[0].member.id != matches[1].member.id
  {
    hide MatchesOf;
    MatchesOfMembers(group.members, rows, now);
  }

  lemma OnlyKeeperMatches(t: Tables, now: Time, address: string, k: Keeper, id: Id, c: Id)
    requires KeeperAt(t, now, address) == Some(k) && IsBestCode(t, now, address, id, c)
    ensures id == k.user
  {}

  /** The loop's choice over sorted rows is the keeper the specification picks. */
  lemma ChoiceIsKeeper(t: Tables, group: Group, rows: seq<CodeRow>, taken: bool, now: Time)
    requires IsGroup(t.users, group) && RowsOf(t.codes, CodesAt(t.codes, group.address), rows)
    requires taken <==> IsTaken(t.users, group.address)
    ensures var choice := Choose(taken, MatchesOf(group.members, rows, now));
      && (choice.None? ==> KeeperAt(t, now, group.address).None?)
      && (choice.Some? ==>
            && KeeperAt(t, now, group.address) == Some(Keeper(choice.value.member.id, choice.value.row.id))
            && choice.value.member in group.members
            && choice.value.row in rows)
  {
    hide RowsOf, IsGroup, MatchesOf, IsTaken;
    var matches := MatchesOf(group.members, rows, now);
    if KeeperAt(t, now, group.address).Some? {
      KeeperIsChosen(t, group, rows, now, KeeperAt(t, now, group.address).value);
      TakenHasNoKeeper(t, now, group.address);
    }
    if Choose(taken, matches).Some? {
      assert matches == [matches[0]];
      ChosenIsKeeper(t, group, rows, now, matches[0]);
    }
  }

  lemma TakenHasNoKeeper(t: Tables, now: Time, address: string)
    requires KeeperAt(t, now, address).Some?
    ensures !IsTaken(t.users, address)
  {}

  lemma MatchOfAnother(matches: seq<Match>, id: Id) returns (other: Match)
    requires |matches| > 1 && matches[0].member.id != matches[1].member.id
    ensures other in matches && other.member.id != id
  {
    other := if matches[0].member.id != id then matches[0] else matches[1];
  }

  // ---------- One group ----------

  /** The writes for a kept address add up to settling it. */
  lemma SettledByKeeping(t: Tables, now: Time, address: string, k: Keeper)
    requires KeeperAt(t, now, address) == Some(k)
    ensures SettledUsers(t, now, {address}) ==
      ClearedUsers(RewrittenUsers(t.users, k.user, address), GroupAt(t.users, address) - {k.user})
    ensures SettledCodes(t, now, {address}) ==
      RewrittenCodes(t.codes - (CodesAt(t.codes, address) - {k.code}), k.code, address)
  {
    assert MatchesAt(t, now, address, k.user, k.code);
    forall id | id in t.users
      ensures SettledUser(t, now, {address}, id) ==
        ClearedUsers(RewrittenUsers(t.users, k.user, address), GroupAt(t.users, address) - {k.user})[id]
    {
      assert id in GroupAt(t.users, address) <==> PendingAt(t.users, id, address);
    }
    forall c | c in t.codes
      ensures CodeSurvives(t, now, {address}, c) <==> c !in CodesAt(t.codes, address) - {k.code}
    {}
  }

  /** The writes for an address nobody keeps add up to settling it. */
  lemma SettledByClearing(t: Tables, now: Time, address: string)
    requires KeeperAt(t, now, address).None?
    ensures Settled(t, now, {address}) ==
      Tables(ClearedUsers(t.users, GroupAt(t.users, address)), t.codes - CodesAt(t.codes, address), t.claims)
  {
    assert SettledUsers(t, now, {address}) == ClearedUsers(t.users, GroupAt(t.users, address));
    assert SettledCodes(t, now, {address}) == t.codes - CodesAt(t.codes, address);
    assert SettledClaims(t, now, {address}) == t.claims;
  }

  lemma SettledClaimsOfOne(t: Tables, now: Time, address: string)
    requires ClaimAt(t, now, address).Some?
    ensures SettledClaims(t, now, {address}) ==
      if address in t.claims then t.claims else t.claims[address := ClaimAt(t, now, address).value]
  {}

  /** Who is cleared at one address, and why. */
  lemma ClearedAtOne(t: Tables, now: Time, address: string, reason: Reason)
    ensures var keeper := KeeperAt(t, now, address);
      ClearedFor(t, now, {address}, reason) ==
        if reason != ReasonAt(t, address) then {}
        else GroupAt(t.users, address) - (if keeper.Some? then {keeper.value.user} else {})
  {
    forall id | id in t.users
      ensures IsCleared(t, now, {address}, id, reason) <==>
        id in GroupAt(t.users, address) && !KeepsPending(t, now, id) && reason == ReasonAt(t, address)
    {}
  }

  /** `before`, grown by what the change from `t` to `s` did to the addresses in `done`. */
  ghost function CountsAfter(before: Counts, t: Tables, s: Tables, now: Time, done: set<string>): Counts {
    Counts(
      before.kept + |s.claims| - |t.claims|,
      before.clearedTaken + |ClearedFor(t, now, done, Taken)|,
      before.clearedAmbiguous + |ClearedFor(t, now, done, Ambiguous)|,
      before.clearedCodeless + |ClearedFor(t, now, done, Codeless)|,
      before.codesKilled + |t.codes| - |s.codes|)
  }

  lemma {:induction false} DistinctMembers(members: seq<Member>, ids: set<Id>)
    requires forall i, j :: 0 <= i < j < |members| ==> members[i].id != members[j].id
    requires ids == set m | m in members :: m.id
    ensures |ids| == |members|
  {
    if members != [] {
      var rest := members[1..];
      assert forall m :: m in members <==> m == members[0] || m in rest;
      assert ids == {members[0].id} + set m | m in rest :: m.id;
      assert members[0].id !in set m | m in rest :: m.id;
      DistinctMembers(rest, set m | m in rest :: m.id);
    }
  }

  lemma GroupSize(users: map<Id, User>, group: Group)
    requires IsGroup(users, group)
    ensures (set m | m in group.members :: m.id) == GroupAt(users, group.address)
    ensures |GroupAt(users, group.address)| == |group.members|
  {
    var ids := set m | m in group.members :: m.id;
    forall id ensures id in ids <==> id in GroupAt(users, group.address) {
      if id in GroupAt(users, group.address) {
        assert Member(id, GenerationOf(users[id])) in group.members;
      }
    }
    DistinctMembers(group.members, ids);
  }

  /** Once the losing rows are gone, no other row holds the key the keeper is given. */
  lemma RewriteKeepsIndex(codes: map<Id, Code>, address: string, keeper: Id)
    requires UniqueCodes(codes) && keeper in CodesAt(codes, address)
    requires Canonical(address)
    ensures UniqueCodes(RewrittenCodes(codes - (CodesAt(codes, address) - {keeper}), keeper, address))
  {
    var left := codes - (CodesAt(codes, address) - {keeper});
    var after := RewrittenCodes(left, keeper, address);
    forall c, d | c in after && d in after && c != d
      ensures after[c].email != after[d].email || after[c].purpose != after[d].purpose
    {
      if c == keeper || d == keeper {
        var other := if c == keeper then d else c;
        assert other !in CodesAt(codes, address);
      }
    }
  }

  lemma RowIdsAre(codes: map<Id, Code>, ids: set<Id>, rows: seq<CodeRow>)
    requires ids <= codes.Keys && RowsOf(codes, ids, rows)
    ensures (set row | row in rows :: row.id) == ids
  {
    forall c | c in ids ensures c in set row | row in rows :: row.id {
      assert CodeRow(c, codes[c]) in rows;
    }
  }

  /** Deletes the losing rows, then gives their key to the keeper's row. */
  method KeepCode(db: Database, address: string, rows: seq<CodeRow>, keeper: Id) returns (killed: nat)
    requires db.Valid() && Canonical(address)
    requires RowsOf(db.codes, CodesAt(db.codes, address), rows) && keeper in CodesAt(db.codes, address)
    modifies db
    ensures db.Valid() && old(db.trace) <= db.trace
    ensures db.Contents() == old(db.Contents()).(codes :=
      RewrittenCodes(old(db.codes) - (CodesAt(old(db.codes), address) - {keeper}), keeper, address))
    ensures killed == |old(db.codes)| - |db.codes|
  {
    hide Before, IsAddressCode;
    RowIdsAre(db.codes, CodesAt(db.codes, address), rows);
    var discarded := (set row | row in rows :: row.id) - {keeper};
    RewriteKeepsIndex(db.codes, address, keeper);
    killed := 0;
    if discarded != {} {
      killed := db.DeleteCodes(discarded);
    }
    assert db.codes == old(db.codes) - discarded;
    // One of the rows deleted here may hold the very key the keeper is given next.
    RewriteKeepsSize(db.codes, keeper, address);
    db.RewriteCodeEmail(keeper, address);
  }

  lemma RewriteKeepsSize(codes: map<Id, Code>, id: Id, address: string)
    ensures |RewrittenCodes(codes, id, address)| == |codes|
  {
    assert RewrittenCodes(codes, id, address).Keys == codes.Keys;
  }

  /** Writes the keeper's claim, unless the address already has a different one. */
  method KeepClaim(db: Database, address: string, claim: Claim) returns (upserted: Result<nat, Failure>)
    requires db.Valid()
    modifies db
    ensures db.Valid() && old(db.trace) <= db.trace
    ensures upserted.Err? <==> address in old(db.claims) && old(db.claims)[address] != claim
    ensures upserted.Err? ==> upserted.error == ClaimConflict(address) && db.Contents() == old(db.Contents())
    ensures upserted.Ok? ==> db.Contents() == old(db.Contents()).(claims :=
      if address in old(db.claims) then old(db.claims) else old(db.claims)[address := claim])
    ensures upserted.Ok? ==> upserted.value == |db.claims| - |old(db.claims)|
  {
    if address in db.claims && db.claims[address] != claim {
      return Err(ClaimConflict(address));
    }
    var inserted := db.InsertClaim(address, claim);
    upserted := Ok(inserted);
  }

  /** The writes for a group that has a keeper, up to clearing the others. */
  method Keep(db: Database, address: string, rows: seq<CodeRow>, keeper: Match, now: Time, counts: Counts)
    returns (result: Result<Counts, Failure>)
    requires db.Valid() && Canonical(address)
    requires RowsOf(db.codes, CodesAt(db.codes, address), rows) && keeper.row in rows
    requires KeeperAt(db.Contents(), now, address) == Some(Keeper(keeper.member.id, keeper.row.id))
    modifies db
    ensures db.Valid() && old(db.trace) <= db.trace
    ensures result.Err? <==> Conflicts(old(db.Contents()), now, address)
    ensures result.Err? ==> result.error == ClaimConflict(address) && db.Contents() == old(db.Contents())
    ensures result.Ok? ==>
      && db.users == RewrittenUsers(old(db.users), keeper.member.id, address)
      && db.codes == SettledCodes(old(db.Contents()), now, {address})
      && db.claims == SettledClaims(old(db.Contents()), now, {address})
    ensures result.Ok? ==>
      && result.value.kept == counts.kept + |db.claims| - |old(db.claims)|
      && result.value.codesKilled == counts.codesKilled + |old(db.codes)| - |db.codes|
      && result.value == counts.(kept := result.value.kept, codesKilled := result.value.codesKilled)
  {
    ghost var t := db.Contents();
    KeeperRow(t, now, address, keeper.member.id, keeper.row.id);
    assert keeper.row.code == t.codes[keeper.row.id];
    var claim := Claim(CLAIM_KIND, Account(keeper.member.id), keeper.row.code.expiresAt.value);
    var upserted := KeepClaim(db, address, claim);
    if upserted.Err? {
      return Err(upserted.error);
    }
    var killed := KeepCode(db, address, rows, keeper.row.id);
    db.RewritePending(keeper.member.id, address);
    result := Ok(counts.(kept := counts.kept + upserted.value, codesKilled := counts.codesKilled + killed));
    SettledByKeeping(t, now, address, Keeper(keeper.member.id, keeper.row.id));
    SettledClaimsOfOne(t, now, address);
  }

  lemma KeeperRow(t: Tables, now: Time, address: string, user: Id, code: Id)
    requires KeeperAt(t, now, address) == Some(Keeper(user, code))
    ensures code in CodesAt(t.codes, address) && t.codes[code].expiresAt.Some?
    ensures ClaimAt(t, now, address) == Some(Claim(CLAIM_KIND, Account(user), t.codes[code].expiresAt.value))
    ensures user in GroupAt(t.users, address)
  {
    assert MatchesAt(t, now, address, user, code);
  }

  function CountCleared(counts: Counts, reason: Reason, cleared: nat): Counts {
    match reason
    case Taken => counts.(clearedTaken := counts.clearedTaken + cleared)
    case Ambiguous => counts.(clearedAmbiguous := counts.clearedAmbiguous + cleared)
    case Codeless => counts.(clearedCodeless := counts.clearedCodeless + cleared)
  }

  /** Clears the members that are not kept; `doomed` are the address's codes when nobody keeps it. */
  method ClearRest(db: Database, clearedIds: set<Id>, doomed: set<Id>, reason: Reason, counts: Counts)
    returns (after: Counts)
    requires db.Valid()
    requires clearedIds == {} ==> doomed == {}
    modifies db
    ensures db.Valid() && old(db.trace) <= db.trace
    ensures db.Contents() == Tables(ClearedUsers(old(db.users), clearedIds), old(db.codes) - doomed, old(db.claims))
    ensures after.codesKilled == counts.codesKilled + |old(db.codes)| - |db.codes|
    ensures after ==
      CountCleared(counts, reason, |clearedIds * Pending(old(db.users))|).(codesKilled := after.codesKilled)
  {
    after := counts;
    if clearedIds != {} {
      var cleared := db.ClearPending(clearedIds);
      after := CountCleared(counts, reason, cleared);
      if doomed != {} {
        var killed := db.DeleteCodes(doomed);
        after := after.(codesKilled := after.codesKilled + killed);
      }
    } else {
      assert ClearedUsers(db.users, clearedIds) == db.users;
      assert clearedIds * Pending(db.users) == {};
    }
  }

  lemma CountsOfOne(
    before: Counts, kept: Counts, after: Counts, t: Tables, s: Tables, now: Time, address: string)
    requires kept == before.(kept := kept.kept, codesKilled := kept.codesKilled)
    requires kept.kept == before.kept + |s.claims| - |t.claims|
    requires after.codesKilled == before.codesKilled + |t.codes| - |s.codes|
    requires var keeper := KeeperAt(t, now, address);
      var cleared := GroupAt(t.users, address) - (if keeper.Some? then {keeper.value.user} else {});
      after == CountCleared(kept, ReasonAt(t, address), |cleared|).(codesKilled := after.codesKilled)
    ensures after == CountsAfter(before, t, s, now, {address})
  {
    hide KeeperAt, GroupAt, ClearedFor, ReasonAt;
    ClearedAtOne(t, now, address, Taken);
    ClearedAtOne(t, now, address, Ambiguous);
    ClearedAtOne(t, now, address, Codeless);
  }

  /** The reads of one turn of the loop: nothing is written before the keeper is chosen. */
  method ChooseKeeper(db: Database, group: Group, now: Time)
    returns (taken: bool, rows: seq<CodeRow>, matched: nat, keeper: Option<Match>)
    requires IsGroup(db.users, group)
    ensures taken <==> IsTaken(db.users, group.address)
    ensures RowsOf(db.codes, CodesAt(db.codes, group.address), rows)
    ensures matched <= |group.members|
    ensures keeper.None? ==> KeeperAt(db.Contents(), now, group.address).None?
    ensures keeper.Some? ==>
      && KeeperAt(db.Contents(), now, group.address) == Some(Keeper(keeper.value.member.id, keeper.value.row.id))
      && keeper.value.row in rows
  {
    taken := exists id | id in db.users :: db.users[id].email == Some(group.address);
    rows := FindAddressCodes(db, group.address);
    var matches := MatchesOf(group.members, rows, now);
    matched := |matches|;
    keeper := Choose(taken, matches);
    MatchesOfMembers(group.members, rows, now);
    ChoiceIsKeeper(db.Contents(), group, rows, taken, now);
  }

  method ToClear(group: Group, rows: seq<CodeRow>, keeper: Option<Match>, ghost t: Tables)
    returns (clearedIds: set<Id>, doomed: set<Id>)
    requires IsGroup(t.users, group) && group.members != []
    requires RowsOf(t.codes, CodesAt(t.codes, group.address), rows)
    ensures clearedIds == GroupAt(t.users, group.address) - (if keeper.Some? then {keeper.value.member.id} else {})
    ensures doomed == if keeper.Some? then {} else CodesAt(t.codes, group.address)
    ensures clearedIds == {} ==> doomed == {}
  {
    GroupSize(t.users, group);
    RowIdsAre(t.codes, CodesAt(t.codes, group.address), rows);
    var memberIds := set m | m in group.members :: m.id;
    clearedIds := memberIds - (if keeper.Some? then {keeper.value.member.id} else {});
    doomed := if keeper.Some? then {} else set row | row in rows :: row.id;
    assert keeper.None? ==> group.members[0].id in clearedIds;
  }

  lemma ClearedWerePending(
    before: map<Id, User>, users: map<Id, User>, address: string, keeper: Option<Match>, ids: set<Id>)
    requires ids <= GroupAt(before, address)
    requires users == if keeper.Some? then RewrittenUsers(before, keeper.value.member.id, address) else before
    ensures ids * Pending(users) == ids
  {
    forall id | id in ids ensures id in Pending(users) {
      assert PendingAt(before, id, address);
    }
  }

  lemma ReasonOfGroup(t: Tables, group: Group, taken: bool, matched: nat)
    requires IsGroup(t.users, group) && matched <= |group.members| && (taken <==> IsTaken(t.users, group.address))
    ensures ReasonAt(t, group.address) ==
      if taken then Taken else if |group.members| > 1 || matched > 1 then Ambiguous else Codeless
  {
    GroupSize(t.users, group);
  }

  /** The tables and counts once the keeper of an address, if any, has what it keeps. */
  ghost predicate AfterKeeping(
    t: Tables, s: Tables, now: Time, address: string, keeper: Option<Match>, counts: Counts, kept: Counts)
  {
    && (keeper.None? ==> KeeperAt(t, now, address).None? && s == t && kept == counts)
    && (keeper.Some? ==>
          && KeeperAt(t, now, address) == Some(Keeper(keeper.value.member.id, keeper.value.row.id))
          && s == Tables(
               RewrittenUsers(t.users, keeper.value.member.id, address),
               SettledCodes(t, now, {address}), SettledClaims(t, now, {address})))
    && kept == counts.(kept := kept.kept, codesKilled := kept.codesKilled)
    && kept.kept == counts.kept + |s.claims| - |t.claims|
    && kept.codesKilled == counts.codesKilled + |t.codes| - |s.codes|
  }

  /** The tables once `clearedIds` are cleared and `doomed` deleted, and the counts for it. */
  ghost predicate AfterClearing(
    s: Tables, u: Tables, clearedIds: set<Id>, doomed: set<Id>, reason: Reason, kept: Counts, after: Counts)
  {
    && u == Tables(ClearedUsers(s.users, clearedIds), s.codes - doomed, s.claims)
    && after.codesKilled == kept.codesKilled + |s.codes| - |u.codes|
    && after == CountCleared(kept, reason, |clearedIds * Pending(s.users)|).(codesKilled := after.codesKilled)
  }

  lemma ClearingSettles(
    t: Tables, s: Tables, u: Tables, now: Time, address: string, keeper: Option<Match>, clearedIds: set<Id>,
    doomed: set<Id>, counts: Counts, kept: Counts, after: Counts)
    requires AfterKeeping(t, s, now, address, keeper, counts, kept)
    requires AfterClearing(s, u, clearedIds, doomed, ReasonAt(t, address), kept, after)
    requires clearedIds == GroupAt(t.users, address) - (if keeper.Some? then {keeper.value.member.id} else {})
    requires doomed == if keeper.Some? then {} else CodesAt(t.codes, address)
    ensures u == Settled(t, now, {address})
    ensures after == CountsAfter(counts, t, u, now, {address})
  {
    hide KeeperAt, GroupAt, CodesAt, ClearedUsers, RewrittenUsers, SettledCodes, SettledClaims, Settled;
    hide CountsAfter, ReasonAt, Pending;
    SettledAfterGroup(t, s, now, address, keeper, clearedIds);
    ClearedWerePending(t.users, s.users, address, keeper, clearedIds);
    CountsOfOne(counts, kept, after, t, u, now, address);
  }

  /** Clears whoever is not kept, which settles the address. */
  method FinishGroup(
    db: Database, group: Group, rows: seq<CodeRow>, taken: bool, matched: nat, keeper: Option<Match>, now: Time,
    ghost counts: Counts, kept: Counts, ghost t: Tables)
    returns (after: Counts)
    requires db.Valid() && IsGroup(t.users, group) && group.members != [] && matched <= |group.members|
    requires taken <==> IsTaken(t.users, group.address)
    requires RowsOf(t.codes, CodesAt(t.codes, group.address), rows)
    requires AfterKeeping(t, db.Contents(), now, group.address, keeper, counts, kept)
    modifies db
    ensures db.Valid() && old(db.trace) <= db.trace
    ensures db.Contents() == Settled(t, now, {group.address})
    ensures after == CountsAfter(counts, t, db.Contents(), now, {group.address})
  {
    hide AfterKeeping, GroupAt, CodesAt, ClearedUsers, Settled;
    hide CountsAfter, RowsOf, IsGroup, ReasonAt, IsTaken, Pending;
    ghost var s := db.Contents();
    var clearedIds, doomed := ToClear(group, rows, keeper, t);
    var reason :=
      if taken then Taken
      else if |group.members| > 1 || matched > 1 then Ambiguous
      else Codeless;
    ReasonOfGroup(t, group, taken, matched);
    after := ClearRest(db, clearedIds, doomed, reason, kept);
    ClearingSettles(t, s, db.Contents(), now, group.address, keeper, clearedIds, doomed, counts, kept, after);
  }

  /** One turn of the loop over groups settles exactly the group's address. */
  method BackfillGroup(db: Database, group: Group, now: Time, counts: Counts)
    returns (result: Result<Counts, Failure>)
    requires db.Valid() && Canonical(group.address)
    requires IsGroup(db.users, group) && group.members != []
    modifies db
    ensures db.Valid() && old(db.trace) <= db.trace
    ensures result.Err? <==> Conflicts(old(db.Contents()), now, group.address)
    ensures result.Err? ==> result.error == ClaimConflict(group.address)
    ensures result.Ok? ==> db.Contents() == Settled(old(db.Contents()), now, {group.address})
    ensures result.Ok? ==> result.value == CountsAfter(counts, old(db.Contents()), db.Contents(), now, {group.address})
  {
    hide KeeperAt, GroupAt, CodesAt, RewrittenUsers, SettledCodes, SettledClaims, Settled, CountsAfter, RowsOf, IsGroup, IsTaken;
    ghost var t := db.Contents();
    var taken, rows, matched, keeper := ChooseKeeper(db, group, now);
    var kept := counts;
    if keeper.Some? {
      var attempt := Keep(db, group.address, rows, keeper.value, now, counts);
      if attempt.Err? {
        return Err(attempt.error);
      }
      kept := attempt.value;
    }
    var after := FinishGroup(db, group, rows, taken, matched, keeper, now, counts, kept, t);
    result := Ok(after);
  }

  /** Keeping or not, and then clearing the rest, leaves the address settled. */
  lemma SettledAfterGroup(
    t: Tables, kept: Tables, now: Time, address: string, keeper: Option<Match>, clearedIds: set<Id>)
    requires keeper.None? ==>
      KeeperAt(t, now, address).None? && kept == t && clearedIds == GroupAt(t.users, address)
    requires keeper.Some? ==>
      && KeeperAt(t, now, address) == Some(Keeper(keeper.value.member.id, keeper.value.row.id))
      && clearedIds == GroupAt(t.users, address) - {keeper.value.member.id}
      && kept == Tables(
           RewrittenUsers(t.users, keeper.value.member.id, address),
           SettledCodes(t, now, {address}), SettledClaims(t, now, {address}))
    ensures Settled(t, now, {address}) ==
      Tables(
        ClearedUsers(kept.users, clearedIds),
        kept.codes - (if keeper.Some? then {} else CodesAt(t.codes, address)), kept.claims)
  {
    if keeper.Some? {
      SettledByKeeping(t, now, address, Keeper(keeper.value.member.id, keeper.value.row.id));
    } else {
      SettledByClearing(t, now, address);
    }
  }

  // ---------- The whole backfill ----------

  lemma GroupSurvives(t: Tables, now: Time, done: set<string>, group: Group)
    requires group.address !in done && IsGroup(t.users, group)
    ensures IsGroup(Settled(t, now, done).users, group)
  {
    var s := Settled(t, now, done);
    OthersUntouched(t, now, done, group.address);
    assert forall id :: PendingAt(s.users, id, group.address) <==> id in GroupAt(s.users, group.address);
    assert forall id :: PendingAt(t.users, id, group.address) <==> id in GroupAt(t.users, group.address);
  }

  lemma CountsCompose(
    first: Counts, middle: Counts, last: Counts, t: Tables, s: Tables, u: Tables, now: Time,
    done: set<string>, address: string)
    requires address !in done && s == Settled(t, now, done)
    requires middle == CountsAfter(first, t, s, now, done) && last == CountsAfter(middle, s, u, now, {address})
    ensures last == CountsAfter(first, t, u, now, done + {address})
  {
    ClearedComposes(t, now, done, address, Taken);
    ClearedComposes(t, now, done, address, Ambiguous);
    ClearedComposes(t, now, done, address, Codeless);
  }

  const ZERO_COUNTS := Counts(0, 0, 0, 0, 0)

  /** The tables and counts once exactly the addresses in `done` have been visited. */
  ghost predicate Visited(t: Tables, s: Tables, counts: Counts, now: Time, done: set<string>) {
    && s == Settled(t, now, done)
    && counts == CountsAfter(ZERO_COUNTS, t, s, now, done)
    && forall address :: address in done ==> !Conflicts(t, now, address)
  }

  lemma NothingVisited(t: Tables, now: Time)
    ensures Visited(t, t, ZERO_COUNTS, now, {})
  {
    SettledNothing(t, now);
    assert forall reason :: ClearedFor(t, now, {}, reason) == {};
  }

  method VisitGroup(db: Database, group: Group, now: Time, counts: Counts, ghost t: Tables, ghost done: set<string>)
    returns (result: Result<Counts, Failure>)
    requires db.Valid() && Visited(t, db.Contents(), counts, now, done)
    requires IsGroup(t.users, group) && group.address in PendingAddresses(t.users) - done
    modifies db
    ensures db.Valid() && old(db.trace) <= db.trace
    ensures result.Ok? ==> Visited(t, db.Contents(), result.value, now, done + {group.address})
    ensures result.Err? ==> result.error == ClaimConflict(group.address) && Conflicts(t, now, group.address)
  {
    ghost var s := db.Contents();
    GroupSurvives(t, now, done, group);
    SameConflict(t, now, done, group.address);
    GroupHasMember(t.users, group);
    result := BackfillGroup(db, group, now, counts);
    if result.Ok? {
      SettledComposes(t, now, done, group.address);
      CountsCompose(ZERO_COUNTS, counts, result.value, t, s, db.Contents(), now, done, group.address);
    }
  }

  lemma GroupHasMember(users: map<Id, User>, group: Group)
    requires IsGroup(users, group) && group.address in PendingAddresses(users)
    ensures group.members != [] && Canonical(group.address)
  {
    var id :| PendingAt(users, id, group.address);
    assert Member(id, GenerationOf(users[id])) in group.members;
    NormaliseIdempotent(users[id].pendingEmail.value);
  }

  method VisitGroups(db: Database, groups: seq<Group>, now: Time) returns (result: Result<Counts, Failure>)
    requires db.Valid() && IsGrouping(db.users, groups)
    modifies db
    ensures db.Valid() && old(db.trace) <= db.trace
    ensures result.Ok? ==>
      Visited(old(db.Contents()), db.Contents(), result.value, now, PendingAddresses(old(db.users)))
    ensures result.Err? ==>
      && result.error.ClaimConflict?
      && result.error.address in PendingAddresses(old(db.users))
      && Conflicts(old(db.Contents()), now, result.error.address)
  {
    hide Settled, CountsAfter, Conflicts, IsGroup;
    ghost var t := db.Contents();
    var counts := ZERO_COUNTS;
    NothingVisited(t, now);
    ghost var done := {};
    for i := 0 to |groups|
      invariant db.Valid() && old(db.trace) <= db.trace
      invariant done <= PendingAddresses(t.users)
      invariant forall j :: 0 <= j < |groups| ==> (groups[j].address in done <==> j < i)
      invariant Visited(t, db.Contents(), counts, now, done)
    {
      var visited := VisitGroup(db, groups[i], now, counts, t, done);
      if visited.Err? {
        return Err(visited.error);
      }
      counts := visited.value;
      done := done + {groups[i].address};
    }
    assert done == PendingAddresses(t.users);
    result := Ok(counts);
  }

  /**
   Settles every pending address, in whatever order the groups come. The outcome is a
   function of the tables it starts from, so the order does not matter.
   */
  method Backfill(db: Database, now: Time) returns (result: Result<Counts, Failure>)
    requires db.Valid()
    modifies db
    ensures db.Valid() && old(db.trace) <= db.trace
    ensures result.Ok? <==> NoConflict(old(db.Contents()), now)
    ensures result.Ok? ==> db.Contents() == Backfilled(old(db.Contents()), now)
    ensures result.Ok? ==>
      result.value ==
        CountsAfter(ZERO_COUNTS, old(db.Contents()), db.Contents(), now, PendingAddresses(old(db.users)))
    ensures result.Err? ==>
      result.error.ClaimConflict? && Conflicts(old(db.Contents()), now, result.error.address)
  {
    var groups := GroupByPending(db);
    result := VisitGroups(db, groups, now);
  }

  // ---------- The migration ----------

  lemma PartlyNormalisedStayDistinct(users: map<Id, User>, done: set<Id>)
    requires UniqueEmails(users) && Colliding(users) == {}
    ensures UniqueEmails(NormalisedUsers(users, done))
  {
    var some := NormalisedUsers(users, done);
    forall i, j | i in some && j in some && i != j && some[i].email.Some?
      ensures some[i].email != some[j].email
    {
      if users[j].email.Some? {
        NormaliseIdempotent(users[i].email.value);
        NormaliseIdempotent(users[j].email.value);
        assert i !in Colliding(users);
      }
    }
  }

  /** The rows that `updateMany` rewrites, one at a time and in any order. */
  method NormaliseEmails(db: Database)
    requires db.Valid() && Colliding(db.users) == {}
    modifies db
    ensures db.Valid() && old(db.trace) <= db.trace
    ensures db.Contents() == old(db.Contents()).(users := NormalisedUsers(old(db.users), old(db.users).Keys))
  {
    hide UniqueEmails, UniqueCodes, WithNormalEmail;
    ghost var users := db.users;
    var remaining := set id | id in db.users && WithNormalEmail(db.users[id]) != db.users[id];
    ghost var done := users.Keys - remaining;
    assert NormalisedUsers(users, done) == users;
    while remaining != {}
      invariant db.Valid() && old(db.trace) <= db.trace
      invariant remaining <= users.Keys && done == users.Keys - remaining
      invariant db.Contents() == old(db.Contents()).(users := NormalisedUsers(users, done))
    {
      var id :| id in remaining;
      PartlyNormalisedStayDistinct(users, done + {id});
      assert db.users[id := WithNormalEmail(db.users[id])] == NormalisedUsers(users, done + {id});
      db.NormaliseEmail(id);
      remaining := remaining - {id};
      done := done + {id};
      assert done == users.Keys - remaining;
    }
    assert done == users.Keys;
  }

  /** The tables `up` hands to `backfill`. */
  function Normalised(t: Tables): Tables {
    t.(users := NormalisedUsers(t.users, t.users.Keys))
  }

  /** Another account's email is the same but for the case of its letters and blanks around it. */
  ghost predicate SharesEmail(users: map<Id, User>, id: Id) {
    && id in users && users[id].email.Some?
    && exists other :: other in users && other != id && users[other].email.Some?
         && SpelledAlike(users[other].email.value, users[id].email.value)
  }

  /** The collision check finds exactly the accounts whose emails only their spelling tells apart. */
  lemma CollidingShareAnEmail(users: map<Id, User>)
    ensures forall id :: id in Colliding(users) <==> SharesEmail(users, id)
  {
    hide Normalise, SpelledAlike;
    forall id ensures id in Colliding(users) <==> SharesEmail(users, id) {
      if id in users && users[id].email.Some? {
        forall other | other in users && users[other].email.Some?
          ensures Normalise(users[other].email.value) == Normalise(users[id].email.value) <==>
            SpelledAlike(users[other].email.value, users[id].email.value)
        {
          OneFormExactlyWhenAlike(users[other].email.value, users[id].email.value);
        }
      }
    }
  }

  /** The stored address in the spelling the migration gives it. */
  ghost predicate RespelledAs(before: string, after: string) {
    NoCapital(after) && Trimmed(after) && SpelledAlike(after, before)
  }

  /** Every email is the one there was, in lower case and without outer blanks; so is every pending one left. */
  ghost predicate Respelled(before: map<Id, User>, after: map<Id, User>) {
    && after.Keys == before.Keys
    && (forall id :: id in before ==> (after[id].email.Some? <==> before[id].email.Some?))
    && (forall id :: id in before && before[id].email.Some? ==>
          RespelledAs(before[id].email.value, after[id].email.value))
    && (forall id :: id in before && after[id].pendingEmail.Some? ==>
          before[id].pendingEmail.Some? && RespelledAs(before[id].pendingEmail.value, after[id].pendingEmail.value))
  }

  lemma MigratedEmails(t: Tables, now: Time)
    ensures var s := Backfilled(Normalised(t), now);
      && s.users.Keys == t.users.Keys
      && forall id :: id in t.users ==>
           s.users[id].email == if t.users[id].email.Some? then Some(Normalise(t.users[id].email.value)) else None
  {
    hide KeepsPending, Normalise;
  }

  lemma MigratedPending(t: Tables, now: Time)
    ensures var s := Backfilled(Normalised(t), now);
      && s.users.Keys == t.users.Keys
      && forall id :: id in t.users && s.users[id].pendingEmail.Some? ==>
           t.users[id].pendingEmail.Some?
           && s.users[id].pendingEmail == Some(Normalise(t.users[id].pendingEmail.value))
  {
    hide KeepsPending, Normalise;
  }

  lemma MigratedIsRespelled(t: Tables, now: Time)
    ensures Respelled(t.users, Backfilled(Normalised(t), now).users)
  {
    hide Backfilled, Normalised, Normalise, RespelledAs;
    MigratedEmails(t, now);
    MigratedPending(t, now);
    forall s: string ensures RespelledAs(s, Normalise(s)) {
      NormalFormRespells(s);
    }
  }

  lemma NormalFormRespells(s: string)
    ensures RespelledAs(s, Normalise(s))
  {
    NormalFormIs(s);
  }

  /**
   The migration. It refuses colliding addresses before it writes anything, and a claim
   conflict undoes everything it wrote. Both unique indexes hold after every write.
   */
  method Up(db: Database, now: Time) returns (result: Result<Counts, Failure>)
    requires db.Valid()
    modifies db
    ensures forall k :: |old(db.trace)| <= k < |db.trace| ==> IndexesHold(db.trace[k])
    ensures old(db.trace) <= db.trace && db.trace[|db.trace| - 1] == db.Contents()
    ensures var t := old(db.Contents());
      if Colliding(t.users) != {} then
        result == Err(Collision(Colliding(t.users))) && db.Contents() == t && db.trace == old(db.trace)
      else if !NoConflict(Normalised(t), now) then
        result.Err? && result.error.ClaimConflict? && db.Contents() == t
      else
        && db.Contents() == Backfilled(Normalised(t), now)
        && result == Ok(CountsAfter(
             ZERO_COUNTS, Normalised(t), db.Contents(), now, PendingAddresses(Normalised(t).users)))
    ensures result.Ok? ==> Respelled(old(db.users), db.users)
    ensures result.Err? && result.error.Collision? <==> exists id :: SharesEmail(old(db.users), id)
    ensures result.Err? && result.error.Collision? ==>
      forall id :: id in result.error.ids <==> SharesEmail(old(db.users), id)
  {
    hide Settled, CountsAfter, Conflicts, SharesEmail, Respelled;
    ghost var t := db.Contents();
    CollidingShareAnEmail(db.users);
    MigratedIsRespelled(t, now);
    var collisions := Colliding(db.users);
    if collisions != {} {
      IndexedThroughout(db.trace);
      return Err(Collision(collisions));
    }
    var users, codes, claims := db.users, db.codes, db.claims;
    NormaliseEmails(db);
    result := Backfill(db, now);
    if result.Err? {
      db.Abort(users, codes, claims);
    }
    IndexedThroughout(db.trace);
  }

  lemma NormalisedEmailsAreCanonical(t: Tables)
    ensures CanonicalEmails(Normalised(t).users)
  {
    forall id | id in t.users && t.users[id].email.Some? ensures Canonical(Normalise(t.users[id].email.value)) {
      NormaliseIdempotent(t.users[id].email.value);
    }
  }

  /** No two accounts share an address, pending or not, in any spelling. */
  ghost predicate PendingAddressIsFree(t: Tables, id: Id) {
    id in t.users && t.users[id].pendingEmail.Some? ==>
      && (forall other :: other in t.users && t.users[other].email.Some? ==>
            Normalise(t.users[other].email.value) != Normalise(t.users[id].pendingEmail.value))
      && (forall other :: other in t.users && other != id && t.users[other].pendingEmail.Some? ==>
            Normalise(t.users[other].pendingEmail.value) != Normalise(t.users[id].pendingEmail.value))
  }

  lemma BoundAddressIsFree(t: Tables, now: Time, id: Id, c: Id)
    requires Bound(t, now, id, c) && CanonicalEmails(t.users)
    ensures PendingAddressIsFree(t, id)
  {
    var address := t.users[id].pendingEmail.value;
    forall other | other in t.users && t.users[other].email.Some?
      ensures Normalise(t.users[other].email.value) != address
    {
      assert t.users[other].email != Some(address);
    }
    forall other | other in t.users && other != id && t.users[other].pendingEmail.Some?
      ensures Normalise(t.users[other].pendingEmail.value) != address
    {
      assert other !in GroupAt(t.users, address);
    }
  }

  /** What a finished migration promises about every account that still has a pending address. */
  lemma MigratedPendingAddressesAreBoundAndFree(t: Tables, now: Time)
    requires NoConflict(Normalised(t), now)
    ensures var s := Backfilled(Normalised(t), now);
      AllBound(s, now) && CanonicalEmails(s.users) && forall id :: PendingAddressIsFree(s, id)
  {
    var s := Backfilled(Normalised(t), now);
    NormalisedEmailsAreCanonical(t);
    assert CanonicalEmails(s.users);
    BackfillBindsEveryPendingAddress(Normalised(t), now);
    AllBoundAreFree(s, now);
  }

  lemma AllBoundAreFree(t: Tables, now: Time)
    requires AllBound(t, now) && CanonicalEmails(t.users)
    ensures forall id :: PendingAddressIsFree(t, id)
  {
    forall id ensures PendingAddressIsFree(t, id) {
      if id in Pending(t.users) {
        var c :| Bound(t, now, id, c);
        BoundAddressIsFree(t, now, id, c);
      }
    }
  }

  /** Running the finished migration again at the same moment changes nothing and counts nothing. */
  lemma MigrationIsIdempotent(t: Tables, now: Time)
    requires NoConflict(Normalised(t), now)
    ensures var s := Backfilled(Normalised(t), now);
      && Normalised(s) == s
      && NoConflict(s, now)
      && Backfilled(s, now) == s
      && Colliding(s.users) == Colliding(t.users)
      && CountsAfter(ZERO_COUNTS, s, s, now, PendingAddresses(s.users)) == ZERO_COUNTS
  {
    var s := Backfilled(Normalised(t), now);
    MigratedPendingAddressesAreBoundAndFree(t, now);
    BoundTablesAreFixed(s, now);
    assert NormalisedUsers(s.users, s.users.Keys) == s.users;
    SameCollisions(t, now);
  }

  /** Neither normalising nor the backfill changes which accounts collide: a migrated table is never refused. */
  lemma SameCollisions(t: Tables, now: Time)
    ensures Colliding(Backfilled(Normalised(t), now).users) == Colliding(t.users)
  {
    hide Backfilled, Normalised, Normalise;
    MigratedEmails(t, now);
    SameSpellings(t.users, Backfilled(Normalised(t), now).users);
  }

  lemma SameSpellings(before: map<Id, User>, after: map<Id, User>)
    requires after.Keys == before.Keys
    requires forall id :: id in before ==>
      after[id].email == if before[id].email.Some? then Some(Normalise(before[id].email.value)) else None
    ensures Colliding(after) == Colliding(before)
  {
    hide Normalise;
    forall id | id in before && before[id].email.Some?
      ensures after[id].email.Some? && Normalise(after[id].email.value) == Normalise(before[id].email.value)
    {
      NormaliseIdempotent(before[id].email.value);
    }
  }

  /** From a ledger without claims, every pending account is counted exactly once, and so is every code deleted. */
  lemma CountsConserveAccounts(t: Tables, now: Time)
    requires t.claims == map[]
    ensures var s := Backfilled(t, now);
      var counts := CountsAfter(ZERO_COUNTS, t, s, now, PendingAddresses(t.users));
      && counts.kept + counts.clearedTaken + counts.clearedAmbiguous + counts.clearedCodeless == |Pending(t.users)|
      && counts.codesKilled == |t.codes| - |s.codes|
  {
    PendingIsKeptOrCleared(t, now);
    ClaimsWrittenAreAccountsKept(t, now);
  }
}