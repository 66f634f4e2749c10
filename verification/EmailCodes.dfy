/**
 The store of mailed codes: one row per owner and purpose, whose wrong guesses belong to the
 owner and outlive any one code.
 */
module EmailCodes {
  import opened Options

  type Time = int

  datatype Purpose = SignIn | ReviewGuesses

  datatype Key = Key(ownerId: string, purpose: Purpose)

  datatype NewCode = NewCode(email: string, codeHash: string, expiresAt: Time, purgeAfter: Time, spent: bool)

  datatype Row = Row(
    email: string, codeHash: string, wrongGuesses: nat, expiresAt: Time, purgeAfter: Time, spentAt: Option<Time>)

  type Rows = map<Key, Row>

  // ---------- Each statement as a function of the rows ----------

  function PutRow(rows: Rows, key: Key, code: NewCode, now: Time): Rows {
    var guesses := if key in rows then rows[key].wrongGuesses else 0;
    rows[key :=
      Row(code.email, code.codeHash, guesses, code.expiresAt, code.purgeAfter, if code.spent then Some(now) else None)]
  }

  function CountGuess(rows: Rows, key: Key, limit: int, now: Time): Rows {
    if key !in rows then rows
    else
      var row := rows[key].(wrongGuesses := rows[key].wrongGuesses + 1);
      rows[key := if row.wrongGuesses >= limit && row.spentAt.None? then row.(spentAt := Some(now)) else row]
  }

  predicate MaySpend(rows: Rows, key: Key, codeHash: string, limit: int, now: Time) {
    && key in rows
    && rows[key].codeHash == codeHash
    && rows[key].spentAt.None?
    && rows[key].expiresAt > now
    && rows[key].wrongGuesses < limit
  }

  function SpendRow(rows: Rows, key: Key, codeHash: string, limit: int, now: Time): Rows {
    if MaySpend(rows, key, codeHash, limit, now) then rows[key := rows[key].(spentAt := Some(now))] else rows
  }

  function PurgeRows(rows: Rows, cutoff: Time): Rows {
    map key | key in rows && rows[key].purgeAfter > cutoff :: rows[key]
  }

  class EmailCodeStore {
    var rows: Rows

    constructor ()
      ensures rows == map[]
    {
      rows := map[];
    }

    /** A new code in place of the old, and the owner's count of wrong guesses as it was. */
    method Put(key: Key, code: NewCode, now: Time) returns (stored: Row)
      modifies this
      ensures rows == PutRow(old(rows), key, code, now)
      ensures rows.Keys == old(rows).Keys + {key}
      ensures forall other :: other in old(rows) && other != key ==> rows[other] == old(rows)[other]
      ensures stored == rows[key] && stored.email == code.email && stored.codeHash == code.codeHash
      ensures stored.expiresAt == code.expiresAt && stored.purgeAfter == code.purgeAfter
      ensures stored.wrongGuesses == (if key in old(rows) then old(rows)[key].wrongGuesses else 0)
      ensures stored.spentAt.Some? <==> code.spent
    {
      if key in rows {
        rows := rows[key := rows[key].(
          email := code.email, codeHash := code.codeHash, expiresAt := code.expiresAt, purgeAfter := code.purgeAfter,
          spentAt := if code.spent then Some(now) else None)];
      } else {
        rows := rows[key := Row(
          code.email, code.codeHash, 0, code.expiresAt, code.purgeAfter, if code.spent then Some(now) else None)];
      }
      stored := rows[key];
    }

    method Find(key: Key) returns (found: Option<Row>)
      ensures found == if key in rows then Some(rows[key]) else None
    {
      found := if key in rows then Some(rows[key]) else None;
    }

    /** Adds a wrong guess to the owner's count, and spends the code at `limit`. */
    method RecordWrongGuess(key: Key, limit: int, now: Time) returns (count: Option<nat>)
      modifies this
      ensures rows == CountGuess(old(rows), key, limit, now)
      ensures count == if key in rows then Some(rows[key].wrongGuesses) else None
    {
      if key !in rows {
        return None;
      }
      rows := rows[key := rows[key].(wrongGuesses := rows[key].wrongGuesses + 1)];
      if rows[key].wrongGuesses >= limit {
        rows := rows[key := rows[key].(
          spentAt := if rows[key].spentAt.Some? then rows[key].spentAt else Some(now))];
      }
      count := Some(rows[key].wrongGuesses);
    }

    /** Marks the stored code spent when it is the one presented and nothing rules it out. */
    method SpendIn(key: Key, codeHash: string, limit: int, now: Time) returns (spent: bool)
      modifies this
      ensures spent <==>
        && key in old(rows) && old(rows)[key].codeHash == codeHash && old(rows)[key].spentAt.None?
        && old(rows)[key].expiresAt > now && old(rows)[key].wrongGuesses < limit
      ensures rows == SpendRow(old(rows), key, codeHash, limit, now)
      ensures rows.Keys == old(rows).Keys
      ensures forall other :: other in rows && other != key ==> rows[other] == old(rows)[other]
      ensures spent ==> rows[key].spentAt == Some(now) && rows[key].wrongGuesses == old(rows)[key].wrongGuesses
      ensures spent ==> forall again: string, l: int, later: Time :: !MaySpend(rows, key, again, l, later)
      ensures !spent ==> rows == old(rows)
    {
      if key !in rows { return false; }
      var row := rows[key];
      if row.codeHash != codeHash || row.spentAt.Some? || row.expiresAt <= now || row.wrongGuesses >= limit {
        return false;
      }
      rows := rows[key := row.(spentAt := Some(now))];
      return true;
    }

    /** What cleanup does with rows whose owner has ended. */
    method Purge(cutoff: Time)
      modifies this
      ensures rows == PurgeRows(old(rows), cutoff)
    {
      rows := PurgeRows(rows, cutoff);
    }
  }

  // ---------- Runs ----------

  datatype Op =
    | Put(key: Key, code: NewCode)
    | Guess(key: Key, limit: int)
    | Spend(key: Key, codeHash: string, limit: int)
    | Purge

  datatype Event = Event(at: Time, op: Op)

  /** Cleanup at a moment removes what has lapsed by that moment. */
  function Apply(rows: Rows, event: Event): Rows {
    match event.op
    case Put(key, code) => PutRow(rows, key, code, event.at)
    case Guess(key, limit) => CountGuess(rows, key, limit, event.at)
    case Spend(key, codeHash, limit) => SpendRow(rows, key, codeHash, limit, event.at)
    case Purge => PurgeRows(rows, event.at)
  }

  function Run(rows: Rows, events: seq<Event>): Rows {
    if events == [] then rows else Apply(Run(rows, events[..|events| - 1]), events[|events| - 1])
  }

  predicate Spends(rows: Rows, event: Event, key: Key) {
    event.op.Spend? && event.op.key == key && MaySpend(rows, key, event.op.codeHash, event.op.limit, event.at)
  }

  /** How many calls of the run spent a code of the owner. */
  function SpendCount(rows: Rows, events: seq<Event>, key: Key): nat {
    if events == [] then 0
    else
      var n := |events| - 1;
      SpendCount(rows, events[..n], key) + (if Spends(Run(rows, events[..n]), events[n], key) then 1 else 0)
  }

  /** How many codes of the owner the run stored unspent. */
  function CodesStored(events: seq<Event>, key: Key): nat {
    if events == [] then 0
    else
      var last := events[|events| - 1].op;
      CodesStored(events[..|events| - 1], key) + (if last.Put? && last.key == key && !last.code.spent then 1 else 0)
  }

  function GuessCount(events: seq<Event>, key: Key): nat {
    if events == [] then 0
    else
      var last := events[|events| - 1].op;
      GuessCount(events[..|events| - 1], key) + (if last.Guess? && last.key == key then 1 else 0)
  }

  function Unspent(rows: Rows, key: Key): nat {
    if key in rows && rows[key].spentAt.None? then 1 else 0
  }

  /** Each stored code is spent at most once: a run never spends more codes than were there to spend. */
  lemma {:induction false} EachCodeIsSpentOnce(rows: Rows, events: seq<Event>, key: Key)
    ensures SpendCount(rows, events, key) + Unspent(Run(rows, events), key) <=
      CodesStored(events, key) + Unspent(rows, key)
  {
    if events != [] {
      EachCodeIsSpentOnce(rows, events[..|events| - 1], key);
    }
  }

  /** Every code of the owner is stored to be kept until `end`, and cleanup comes before that. */
  predicate OwnerLives(events: seq<Event>, key: Key, end: Time) {
    forall i | 0 <= i < |events| ::
      && (events[i].op.Purge? ==> events[i].at < end)
      && (events[i].op.Put? && events[i].op.key == key ==> events[i].op.code.purgeAfter >= end)
  }

  /** While the owner lives its count is exactly its wrong guesses, however often its code is replaced. */
  lemma {:induction false} GuessesBelongToTheOwner(rows: Rows, events: seq<Event>, key: Key, end: Time)
    requires key in rows && rows[key].purgeAfter >= end
    requires OwnerLives(events, key, end)
    ensures var after := Run(rows, events);
      && key in after && after[key].purgeAfter >= end
      && after[key].wrongGuesses == rows[key].wrongGuesses + GuessCount(events, key)
  {
    if events != [] {
      var n := |events| - 1;
      assert forall i | 0 <= i < n :: events[..n][i] == events[i];
      GuessesBelongToTheOwner(rows, events[..n], key, end);
    }
  }

  /** Once the owner's count has reached the limit, nothing spends a code of that owner while it lives. */
  lemma NoSpendAtTheLimit(rows: Rows, events: seq<Event>, key: Key, end: Time, codeHash: string, limit: int, now: Time)
    requires key in rows && rows[key].purgeAfter >= end && rows[key].wrongGuesses >= limit
    requires OwnerLives(events, key, end)
    ensures !MaySpend(Run(rows, events), key, codeHash, limit, now)
  {
    GuessesBelongToTheOwner(rows, events, key, end);
  }

  /** Cleanup keeps a row exactly until its owner's end, and changes none. */
  lemma PurgeTakesTheEnded(rows: Rows, key: Key, at: Time)
    ensures var after := Apply(rows, Event(at, Purge));
      && (key in after <==> key in rows && at < rows[key].purgeAfter)
      && (key in after ==> after[key] == rows[key])
  {}

  // ---------- A stored code is accepted ----------

  /** The wrong guesses counted against an owner that already has `before` of them. */
  function GuessesBy(before: nat, events: seq<Event>, key: Key): nat {
    before + GuessCount(events, key)
  }

  /** No guess of the run reached the limit it was counted against. */
  predicate NoneReachedItsLimit(before: nat, events: seq<Event>, key: Key) {
    forall i | 0 <= i < |events| ::
      events[i].op.Guess? && events[i].op.key == key ==> GuessesBy(before, events[..i + 1], key) < events[i].op.limit
  }

  /** The code is not replaced, and its owner has not ended when cleanup comes. */
  predicate CodeStays(events: seq<Event>, key: Key, code: NewCode) {
    forall i | 0 <= i < |events| ::
      && (events[i].op.Put? ==> events[i].op.key != key)
      && (events[i].op.Purge? ==> events[i].at < code.purgeAfter)
  }

  lemma LimitsByPrefix(before: nat, events: seq<Event>, key: Key)
    requires events != []
    ensures var n := |events| - 1;
      NoneReachedItsLimit(before, events, key) <==>
        && NoneReachedItsLimit(before, events[..n], key)
        && (events[n].op.Guess? && events[n].op.key == key ==> GuessesBy(before, events, key) < events[n].op.limit)
  {
    var n := |events| - 1;
    assert events[..n + 1] == events;
    forall i | 0 <= i < n ensures events[..n][..i + 1] == events[..i + 1] && events[..n][i] == events[i] {}
  }

  /** The row as the code was put, with its owner's guesses; `usable` says whether it can still be spent. */
  predicate Holds(rows: Rows, key: Key, code: NewCode, guesses: nat, usable: bool) {
    && key in rows && rows[key].codeHash == code.codeHash && rows[key].expiresAt == code.expiresAt
    && rows[key].purgeAfter == code.purgeAfter && rows[key].wrongGuesses == guesses
    && (rows[key].spentAt.None? <==> usable)
  }

  lemma StoredCodeSurvives(rows: Rows, event: Event, key: Key, code: NewCode, guesses: nat, usable: bool)
    requires Holds(rows, key, code, guesses, usable) && CodeStays([event], key, code)
    ensures var mine := event.op.Guess? && event.op.key == key;
      var more := guesses + if mine then 1 else 0;
      Holds(Apply(rows, event), key, code, more,
            usable && !Spends(rows, event, key) && (mine ==> more < event.op.limit))
  {
    assert [event][0] == event;
  }

  /** What the row of a stored code is after a run that does not replace it. */
  lemma {:induction false} StoredCodeStays(
    rows: Rows, put: Event, later: seq<Event>, key: Key, before: nat)
    requires put.op.Put? && put.op.key == key && CodeStays(later, key, put.op.code)
    requires before == if key in rows then rows[key].wrongGuesses else 0
    ensures var start := Apply(rows, put);
      Holds(Run(start, later), key, put.op.code, GuessesBy(before, later, key),
            !put.op.code.spent && SpendCount(start, later, key) == 0 && NoneReachedItsLimit(before, later, key))
  {
    if later != [] {
      hide Apply, Spends, NoneReachedItsLimit, Holds;
      var n := |later| - 1;
      assert forall i | 0 <= i < n :: later[..n][i] == later[i];
      StoredCodeStays(rows, put, later[..n], key, before);
      LimitsByPrefix(before, later, key);
      assert CodeStays([later[n]], key, put.op.code);
      StoredCodeSurvives(
        Run(Apply(rows, put), later[..n]), later[n], key, put.op.code, GuessesBy(before, later[..n], key),
        !put.op.code.spent && SpendCount(Apply(rows, put), later[..n], key) == 0
          && NoneReachedItsLimit(before, later[..n], key));
    }
  }

  /**
   A stored code is accepted exactly while it is the one presented, it was not stored spent, it has
   not expired, its owner has made fewer wrong guesses than the limit, before it or since, nothing has
   spent it, and no guess since reached its own limit.
   */
  lemma StoredCodeIsAcceptedExactly(
    rows: Rows, put: Event, later: seq<Event>, key: Key, codeHash: string, limit: int, now: Time)
    requires put.op.Put? && put.op.key == key && CodeStays(later, key, put.op.code)
    ensures var code := put.op.code;
      var before := if key in rows then rows[key].wrongGuesses else 0;
      var start := Apply(rows, put);
      Spends(Run(start, later), Event(now, Spend(key, codeHash, limit)), key) <==>
        && codeHash == code.codeHash && !code.spent && now < code.expiresAt
        && before + GuessCount(later, key) < limit
        && SpendCount(start, later, key) == 0 && NoneReachedItsLimit(before, later, key)
  {
    StoredCodeStays(rows, put, later, key, if key in rows then rows[key].wrongGuesses else 0);
  }

  lemma {:induction false} GuessesOnlyGrow(events: seq<Event>, key: Key, i: nat)
    requires i <= |events|
    ensures GuessCount(events[..i], key) <= GuessCount(events, key)
  {
    if i < |events| {
      assert events[..|events| - 1][..i] == events[..i];
      GuessesOnlyGrow(events[..|events| - 1], key, i);
    } else {
      assert events[..i] == events;
    }
  }

  /** With one limit for every guess, as the callers have, the guesses only have to stay below it. */
  lemma StoredCodeIsAcceptedUnderOneLimit(
    rows: Rows, put: Event, later: seq<Event>, key: Key, codeHash: string, limit: int, now: Time)
    requires put.op.Put? && put.op.key == key && CodeStays(later, key, put.op.code)
    requires forall i | 0 <= i < |later| :: later[i].op.Guess? && later[i].op.key == key ==> later[i].op.limit == limit
    ensures var code := put.op.code;
      var before := if key in rows then rows[key].wrongGuesses else 0;
      var start := Apply(rows, put);
      Spends(Run(start, later), Event(now, Spend(key, codeHash, limit)), key) <==>
        && codeHash == code.codeHash && !code.spent && now < code.expiresAt
        && before + GuessCount(later, key) < limit && SpendCount(start, later, key) == 0
  {
    StoredCodeIsAcceptedExactly(rows, put, later, key, codeHash, limit, now);
    forall k | 0 <= k <= |later| ensures GuessCount(later[..k], key) <= GuessCount(later, key) {
      GuessesOnlyGrow(later, key, k);
    }
  }

  // ---------- Cleanup decides nothing ----------

  function WithoutPurges(events: seq<Event>): seq<Event> {
    if events == [] then []
    else
      var last := events[|events| - 1];
      WithoutPurges(events[..|events| - 1]) + (if last.op.Purge? then [] else [last])
  }

  /**
   What the callers promise: time does not run backwards, an owner only stores codes while it
   lives, and a code's row is kept until its owner ends, which is not before the code expires.
   */
  ghost predicate Ordered(events: seq<Event>, end: Key -> Time) {
    && (forall i, j :: 0 <= i < j < |events| ==> events[i].at <= events[j].at)
    && (forall i :: 0 <= i < |events| && events[i].op.Put? ==>
          && events[i].at < end(events[i].op.key)
          && events[i].op.code.expiresAt <= events[i].op.code.purgeAfter == end(events[i].op.key))
  }

  /** Rows differ only where cleanup took one whose owner, and so whose code, is over. */
  ghost predicate SameButOver(cleaned: Rows, kept: Rows, now: Time, end: Key -> Time) {
    && cleaned.Keys <= kept.Keys
    && (forall key :: key in cleaned ==> cleaned[key] == kept[key])
    && (forall key :: key in kept ==> kept[key].expiresAt <= kept[key].purgeAfter == end(key))
    && (forall key :: key in kept && key !in cleaned ==> end(key) <= now)
  }

  lemma ApplyKeepsSame(cleaned: Rows, kept: Rows, event: Event, end: Key -> Time)
    requires SameButOver(cleaned, kept, event.at, end)
    requires event.op.Put? ==>
      && event.at < end(event.op.key)
      && event.op.code.expiresAt <= event.op.code.purgeAfter == end(event.op.key)
    ensures SameButOver(
      Apply(cleaned, event), if event.op.Purge? then kept else Apply(kept, event), event.at, end)
    ensures forall key :: Spends(cleaned, event, key) <==> Spends(kept, event, key)
  {
    hide PutRow, CountGuess, SpendRow, MaySpend;
    match event.op
    case Put(key, code) => PutKeepsSame(cleaned, kept, key, code, event.at, end);
    case Guess(key, limit) => GuessKeepsSame(cleaned, kept, key, limit, event.at, end);
    case Spend(key, codeHash, limit) => SpendKeepsSame(cleaned, kept, key, codeHash, limit, event.at, end);
    case Purge =>
  }

  lemma PutKeepsSame(cleaned: Rows, kept: Rows, key: Key, code: NewCode, now: Time, end: Key -> Time)
    requires SameButOver(cleaned, kept, now, end)
    requires now < end(key) && code.expiresAt <= code.purgeAfter == end(key)
    ensures SameButOver(PutRow(cleaned, key, code, now), PutRow(kept, key, code, now), now, end)
  {}

  lemma GuessKeepsSame(cleaned: Rows, kept: Rows, key: Key, limit: int, now: Time, end: Key -> Time)
    requires SameButOver(cleaned, kept, now, end)
    ensures SameButOver(CountGuess(cleaned, key, limit, now), CountGuess(kept, key, limit, now), now, end)
  {}

  lemma SpendKeepsSame(cleaned: Rows, kept: Rows, key: Key, codeHash: string, limit: int, now: Time, end: Key -> Time)
    requires SameButOver(cleaned, kept, now, end)
    ensures MaySpend(cleaned, key, codeHash, limit, now) <==> MaySpend(kept, key, codeHash, limit, now)
    ensures SameButOver(
      SpendRow(cleaned, key, codeHash, limit, now), SpendRow(kept, key, codeHash, limit, now), now, end)
  {}

  lemma {:induction false} CleanedRowsAreSame(events: seq<Event>, end: Key -> Time, now: Time)
    requires Ordered(events, end)
    requires events != [] ==> events[|events| - 1].at <= now
    ensures SameButOver(Run(map[], events), Run(map[], WithoutPurges(events)), now, end)
  {
    if events != [] {
      var n := |events| - 1;
      var before := events[..n];
      CleanedRowsAreSame(before, end, events[n].at);
      ApplyKeepsSame(Run(map[], before), Run(map[], WithoutPurges(before)), events[n], end);
      WithoutPurgesSnoc(events);
    }
  }

  lemma WithoutPurgesSnoc(events: seq<Event>)
    requires events != []
    ensures var n := |events| - 1;
      var kept := WithoutPurges(events);
      if events[n].op.Purge? then kept == WithoutPurges(events[..n])
      else kept != [] && kept[|kept| - 1] == events[n] && kept[..|kept| - 1] == WithoutPurges(events[..n])
  {}

  /** A run with cleanup at any moments spends exactly the codes the same run spends without it. */
  lemma {:induction false} CleanupSpendsNothing(events: seq<Event>, end: Key -> Time, key: Key)
    requires Ordered(events, end)
    ensures SpendCount(map[], events, key) == SpendCount(map[], WithoutPurges(events), key)
  {
    if events != [] {
      CleanupSpendsNothing(events[..|events| - 1], end, key);
      CleanupChangesNoSpend(events, end, key);
      WithoutPurgesSnoc(events);
    }
  }

  /** The next spend is answered alike with and without the cleanup before it. */
  lemma CleanupChangesNoSpend(events: seq<Event>, end: Key -> Time, key: Key)
    requires events != [] && Ordered(events, end)
    ensures var n := |events| - 1;
      Spends(Run(map[], events[..n]), events[n], key) <==>
      Spends(Run(map[], WithoutPurges(events[..n])), events[n], key)
  {
    var n := |events| - 1;
    CleanedRowsAreSame(events[..n], end, events[n].at);
    ApplyKeepsSame(Run(map[], events[..n]), Run(map[], WithoutPurges(events[..n])), events[n], end);
  }
}
