/**
 The per-address mail cap: a counter per address and purpose, its window, its retention, and
 the cleanup that removes counters whose retention is over. Wrong codes for the same address and
 purpose are counted on the same row.
 */
module MailCounters {
  import opened Options
  import CodeGuesses

  type Time = int

  const MINUTE := 60 * 1000
  const ACTIVATION_CODE_EXPIRES_IN_MAX := 60 * MINUTE
  const MAILED_CODE_WINDOW_MIN_MS := 15 * MINUTE
  const MAILED_CODE_WINDOW_FACTOR := 1
  const PENDING_STORE_PASSES := 2

  /** The start of the window of a row that a guess inserts: long over for any mail. */
  const NO_MAIL_WINDOW: Time := 0

  /** The ceiling the expiry migration gives to counters from before windows were stored. */
  const MAX_WINDOW_MS := 60 * MINUTE

  function MailedCodeWindowMs(codeExpiresIn: int): int {
    var derived := codeExpiresIn * MAILED_CODE_WINDOW_FACTOR;
    if derived > MAILED_CODE_WINDOW_MIN_MS then derived else MAILED_CODE_WINDOW_MIN_MS
  }

  datatype Key = Key(email: string, purpose: string)

  datatype Retention = Absent | Null | Until(end: Time)

  /** `guesses` is what the row says about wrong codes. */
  datatype Counter = Counter(
    mailed: int, startedAt: Option<Time>, expiresAt: Retention, guesses: Option<CodeGuesses.State>)

  type Counters = map<Key, Counter>

  datatype Rule = Rule(windowMs: int, limit: int, guesses: CodeGuesses.Rule)

  // ---------- Each statement as a function of the counters ----------

  function Max(a: int, b: int): int {
    if a > b then a else b
  }

  predicate RolledOver(counter: Counter, now: Time, windowMs: int) {
    counter.startedAt.Some? && now - counter.startedAt.value >= windowMs
  }

  predicate HasRoom(counters: Counters, key: Key, now: Time, rule: Rule) {
    key in counters && (RolledOver(counters[key], now, rule.windowMs) || counters[key].mailed < rule.limit)
  }

  /** Until when the row is needed for its wrong codes. */
  function GuessesUntil(guesses: Option<CodeGuesses.State>): Option<Time> {
    if guesses.Some? then guesses.value.expiresAt else None
  }

  /** The row is kept for its window and for its wrong codes, whichever lasts longer. */
  function RetentionOf(startedAt: Option<Time>, windowMs: int, guessesUntil: Option<Time>): Retention {
    match (startedAt, guessesUntil)
    case (Some(start), Some(guesses)) => Until(Max(start + windowMs, guesses))
    case (Some(start), None) => Until(start + windowMs)
    case (None, Some(guesses)) => Until(guesses)
    case (None, None) => Null
  }

  function Recorded(counter: Counter, now: Time, rule: Rule): Counter {
    var rolled := RolledOver(counter, now, rule.windowMs);
    var startedAt := if rolled then Some(now) else counter.startedAt;
    counter.(
      mailed := if rolled then 1 else counter.mailed + 1,
      startedAt := startedAt,
      expiresAt := RetentionOf(startedAt, rule.windowMs, GuessesUntil(counter.guesses)))
  }

  function AfterRecord(counters: Counters, key: Key, now: Time, rule: Rule): Counters {
    if HasRoom(counters, key, now, rule) then counters[key := Recorded(counters[key], now, rule)] else counters
  }

  function Opened(now: Time, windowMs: int): Counter {
    Counter(1, Some(now), Until(now + windowMs), None)
  }

  function AfterOpen(counters: Counters, key: Key, now: Time, windowMs: int): Counters {
    if key in counters then counters else counters[key := Opened(now, windowMs)]
  }

  function AfterCleanup(counters: Counters, cutoff: Time): Counters {
    map key | key in counters && !(counters[key].expiresAt.Until? && counters[key].expiresAt.end <= cutoff) ::
      counters[key]
  }

  function Longer(retention: Retention, until: Time): Retention {
    if retention.Until? then Until(Max(retention.end, until)) else Until(until)
  }

  /**
   A guess at a code: counted on the row unless it is locked there. Where no row is stored it
   inserts one that has mailed nothing; it never moves a window, and may keep a row longer.
   */
  function AfterGuess(counters: Counters, key: Key, now: Time, rule: Rule): Counters {
    var before := if key in counters then counters[key].guesses else None;
    var (after, counted) := CodeGuesses.ReserveGuess(before, now, rule.guesses);
    if !counted || GuessesUntil(after).None? then counters
    else
      var until := GuessesUntil(after).value;
      counters[key :=
        if key in counters then
          counters[key].(
            startedAt := if counters[key].startedAt.Some? then counters[key].startedAt else Some(NO_MAIL_WINDOW),
            expiresAt := Longer(counters[key].expiresAt, until), guesses := after)
        else Counter(0, Some(NO_MAIL_WINDOW), Until(until), after)]
  }

  /** A right code: the wrong ones are forgotten, and the row is kept as long as it was. */
  function AfterForget(counters: Counters, key: Key): Counters {
    if key in counters then counters[key := counters[key].(guesses := CodeGuesses.ClearGuesses(counters[key].guesses))]
    else counters
  }

  /** The row holds no mail: a guess inserted it, and its window is over for every mail. */
  predicate Blank(counter: Counter) {
    counter.mailed == 0 && counter.startedAt == Some(NO_MAIL_WINDOW)
  }

  /** What a guess does to a row's mails: nothing, or a row without any. */
  lemma GuessMovesNoWindow(counters: Counters, key: Key, now: Time, rule: Rule)
    ensures var after := AfterGuess(counters, key, now, rule);
      && (key in counters ==>
            && key in after && after[key].mailed == counters[key].mailed
            && (counters[key].startedAt.Some? ==> after[key].startedAt == counters[key].startedAt)
            && (Timed(counters[key], rule.windowMs) ==> Timed(after[key], rule.windowMs)))
      && (key !in counters ==> key in after && Blank(after[key]))
      && (forall other :: other != key ==> (other in after <==> other in counters))
      && (forall other :: other in counters && other != key ==> after[other] == counters[other])
  {}

  /** The sign-in link's cap: one upsert that counts and then judges. */
  function AfterSlot(counters: Counters, key: Key, now: Time, windowMs: int): Counters {
    if key !in counters then counters[key := Opened(now, windowMs)]
    else
      var counter := counters[key];
      var rolled := counter.startedAt.None? || counter.startedAt.value <= now - windowMs;
      counters[key := counter.(
        mailed := if rolled then 1 else counter.mailed + 1,
        startedAt := if rolled then Some(now) else counter.startedAt,
        expiresAt := if rolled then Until(now + windowMs) else counter.expiresAt)]
  }

  /** One whole call to the mail counter, with nothing in between. */
  function AfterTry(counters: Counters, key: Key, now: Time, rule: Rule): (Counters, bool) {
    if HasRoom(counters, key, now, rule) then (AfterRecord(counters, key, now, rule), true)
    else if key in counters then (counters, false)
    else (AfterOpen(counters, key, now, rule.windowMs), true)
  }

  // ---------- The store and its caller ----------

  /** The counter is kept at least until its window is over. */
  predicate Kept(counter: Counter, windowMs: int) {
    && counter.startedAt.Some?
    && (counter.expiresAt.Until? ==> counter.expiresAt.end >= counter.startedAt.value + windowMs)
  }

  /** Kept so, and for a time: as every row that a statement of the store has written. */
  predicate Timed(counter: Counter, windowMs: int) {
    Kept(counter, windowMs) && counter.expiresAt.Until?
  }

  ghost predicate AllKept(counters: Counters, windowMs: int) {
    forall key :: key in counters ==> Kept(counters[key], windowMs)
  }

  class MailCounterStore {
    var counters: Counters
    /** How many statements for each key have granted a mail. */
    ghost var grants: map<Key, nat>

    ghost function Grants(key: Key): nat
      reads this
    {
      if key in grants then grants[key] else 0
    }

    constructor ()
      ensures counters == map[] && grants == map[]
    {
      counters, grants := map[], map[];
    }

    /** Counts one mail when the window is over or has room, and starts the window again when it is over. */
    method RecordWithinCap(key: Key, now: Time, rule: Rule) returns (recorded: bool)
      modifies this
      ensures counters == AfterRecord(old(counters), key, now, rule)
      ensures recorded <==>
        && key in old(counters)
        && (old(counters)[key].mailed < rule.limit
            || (old(counters)[key].startedAt.Some? && old(counters)[key].startedAt.value + rule.windowMs <= now))
      ensures !recorded ==> counters == old(counters)
      ensures recorded ==>
        && counters.Keys == old(counters).Keys
        && (forall other :: other in counters && other != key ==> counters[other] == old(counters)[other])
        && counters[key].mailed <= Max(rule.limit, 1)
        && (counters[key].startedAt == Some(now) || counters[key].startedAt == old(counters)[key].startedAt)
        && (counters[key].startedAt.Some? ==> Kept(counters[key], rule.windowMs))
      ensures grants == if recorded then old(grants)[key := old(Grants(key)) + 1] else old(grants)
    {
      if key !in counters { return false; }
      var counter := counters[key];
      var rolledOver := counter.startedAt.Some? && now - counter.startedAt.value >= rule.windowMs;
      if !rolledOver && counter.mailed >= rule.limit { return false; }
      var mailed := if rolledOver then 1 else counter.mailed + 1;
      var startedAt := if rolledOver then Some(now) else counter.startedAt;
      var expiresAt := if counter.guesses.Some? then counter.guesses.value.expiresAt else None;
      if startedAt.Some? {
        var windowEnd := startedAt.value + rule.windowMs;
        if expiresAt.None? || expiresAt.value < windowEnd { expiresAt := Some(windowEnd); }
      }
      var retention := if expiresAt.Some? then Until(expiresAt.value) else Null;
      counters := counters[key := Counter(mailed, startedAt, retention, counter.guesses)];
      grants := grants[key := Grants(key) + 1];
      return true;
    }

    method HasCounter(key: Key) returns (stored: bool)
      ensures stored <==> key in counters
    {
      stored := key in counters;
    }

    /** False stands for the unique conflict. */
    method OpenCounter(key: Key, now: Time, windowMs: int) returns (created: bool)
      modifies this
      ensures created <==> key !in old(counters)
      ensures counters == AfterOpen(old(counters), key, now, windowMs)
      ensures grants == if created then old(grants)[key := old(Grants(key)) + 1] else old(grants)
    {
      created := key !in counters;
      if created {
        counters := counters[key := Opened(now, windowMs)];
        grants := grants[key := Grants(key) + 1];
      }
    }

    /** False while a lock runs at the address; such a guess changes nothing. */
    method ReserveGuess(key: Key, now: Time, rule: Rule) returns (counted: bool)
      modifies this
      ensures counters == AfterGuess(old(counters), key, now, rule)
      ensures key in counters ==> key in old(counters) || Blank(counters[key])
      ensures grants == old(grants)
    {
      GuessMovesNoWindow(counters, key, now, rule);
      var before := if key in counters then counters[key].guesses else None;
      var (after, reserved) := CodeGuesses.ReserveGuess(before, now, rule.guesses);
      if !reserved || after.None? || after.value.expiresAt.None? { return false; }
      var until := after.value.expiresAt.value;
      if key in counters {
        var counter := counters[key];
        counters := counters[key := Counter(
          counter.mailed, if counter.startedAt.Some? then counter.startedAt else Some(NO_MAIL_WINDOW),
          Longer(counter.expiresAt, until), after)];
      } else {
        counters := counters[key := Counter(0, Some(NO_MAIL_WINDOW), Until(until), after)];
      }
      return true;
    }

    method ClearGuesses(key: Key)
      modifies this
      ensures counters == AfterForget(old(counters), key)
      ensures counters.Keys == old(counters).Keys && grants == old(grants)
    {
      if key in counters {
        counters := counters[key := counters[key].(guesses := CodeGuesses.ClearGuesses(counters[key].guesses))];
      }
    }

    method DeleteExpiredBefore(cutoff: Time) returns (deleted: nat)
      modifies this
      ensures counters == AfterCleanup(old(counters), cutoff)
      ensures deleted == |old(counters)| - |counters|
      ensures grants == old(grants)
    {
      var left := AfterCleanup(counters, cutoff);
      assert counters.Keys == left.Keys + (counters.Keys - left.Keys);
      deleted := |counters| - |left|;
      counters := left;
    }

    method TakeRequestSlot(key: Key, now: Time, rule: Rule) returns (underCap: bool)
      modifies this
      ensures counters == AfterSlot(old(counters), key, now, rule.windowMs)
      ensures underCap <==> counters[key].mailed <= rule.limit
      ensures grants == old(grants)
    {
      counters := AfterSlot(counters, key, now, rule.windowMs);
      underCap := counters[key].mailed <= rule.limit;
    }

    /** The expiry migration: every counter without a retention gets one. */
    method BackfillExpiry(now: Time) returns (modified: nat)
      modifies this
      ensures counters == WithExpiry(old(counters), now)
      ensures modified == |set key | key in old(counters) && old(counters)[key].expiresAt.Absent?|
      ensures grants == old(grants)
    {
      var missing := set key | key in counters && counters[key].expiresAt.Absent?;
      modified := |missing|;
      ghost var before, all := counters, missing;
      while missing != {}
        invariant missing <= all && counters.Keys == before.Keys && grants == old(grants)
        invariant forall key :: key in before ==>
          counters[key] == if key in missing then before[key] else WithExpiry(before, now)[key]
      {
        var key :| key in missing;
        var start := if counters[key].startedAt.Some? then counters[key].startedAt.value else now;
        counters := counters[key := counters[key].(expiresAt := Until(start + MAX_WINDOW_MS))];
        missing := missing - {key};
      }
    }
  }

  function WithExpiry(counters: Counters, now: Time): Counters {
    map key | key in counters ::
      if counters[key].expiresAt.Absent? then
        counters[key].(expiresAt :=
          Until((if counters[key].startedAt.Some? then counters[key].startedAt.value else now) + MAX_WINDOW_MS))
      else
        counters[key]
  }

  /**
   Other requests, guesses and cleanup between two statements; with `busy` false there are none.
   `others` is how many mails other requests were granted for the key, and `guessed` is true when a
   guess has inserted its row.
   */
  method Meanwhile(store: MailCounterStore, key: Key, busy: bool, rule: Rule)
    returns (ghost others: nat, ghost guessed: bool)
    modifies store
    ensures store.Grants(key) == old(store.Grants(key)) + others
    ensures key in store.counters ==> key in old(store.counters) || others > 0 || guessed
    ensures !busy ==> store.counters == old(store.counters) && store.grants == old(store.grants) && !guessed
  {
    others, guessed := 0, false;
    var n: int := *;
    if busy && n >= 0 {
      for i := 0 to n
        invariant store.Grants(key) == old(store.Grants(key)) + others
        invariant key in store.counters ==> key in old(store.counters) || others > 0 || guessed
      {
        var any: Key, at: Time := *, *;
        ghost var stored := key in store.counters;
        if * {
          var recorded := store.RecordWithinCap(any, at, rule);
        } else if * {
          var created := store.OpenCounter(any, at, rule.windowMs);
        } else if * {
          var counted := store.ReserveGuess(any, at, rule);
          guessed := guessed || (!stored && key in store.counters);
        } else if * {
          store.ClearGuesses(any);
        } else {
          var deleted := store.DeleteExpiredBefore(at);
        }
        others := store.Grants(key) - old(store.Grants(key));
      }
    }
  }

  /**
   Whether one mail may be sent. Of the mails granted for the key while the call runs, all but the
   others' are its own: one when it is answered yes, and none when it is answered no. It is
   answered no only when a counter was there, another request was granted a mail meanwhile, or a
   guess inserted the row meanwhile.
   */
  method TryRecord(store: MailCounterStore, key: Key, now: Time, rule: Rule, busy: bool)
    returns (allowed: bool, ghost others: nat, ghost guessed: bool)
    modifies store
    ensures store.Grants(key) == old(store.Grants(key)) + others + if allowed then 1 else 0
    ensures HasRoom(old(store.counters), key, now, rule) ==> allowed && others == 0
    ensures !allowed ==> key in old(store.counters) || others > 0 || guessed
    ensures !busy ==>
      others == 0 && !guessed && (store.counters, allowed) == AfterTry(old(store.counters), key, now, rule)
  {
    others, guessed := 0, false;
    for pass := 0 to PENDING_STORE_PASSES
      invariant store.Grants(key) == old(store.Grants(key)) + others
      invariant key in store.counters ==> key in old(store.counters) || others > 0 || guessed
      invariant pass == 0 ==> store.counters == old(store.counters) && others == 0 && !guessed
      invariant pass > 0 ==>
        !HasRoom(old(store.counters), key, now, rule) && (key in old(store.counters) || others > 0 || guessed)
      invariant !busy ==> pass == 0 && store.counters == old(store.counters) && others == 0
    {
      var recorded := store.RecordWithinCap(key, now, rule);
      if recorded { return true, others, guessed; }
      var between, byGuess := Meanwhile(store, key, busy, rule);
      others, guessed := others + between, guessed || byGuess;
      var stored := store.HasCounter(key);
      if stored { return false, others, guessed; }
      between, byGuess := Meanwhile(store, key, busy, rule);
      others, guessed := others + between, guessed || byGuess;
      var created := store.OpenCounter(key, now, rule.windowMs);
      if created { return true, others, guessed; }
      between, byGuess := Meanwhile(store, key, busy, rule);
      others, guessed := others + between, guessed || byGuess;
    }
    allowed := false;
  }

  // ---------- What the statements on one row do to each other ----------

  /** An insert counts only where no row is stored; the unique rule keeps the one there is. */
  lemma OpenNeverReplaces(counters: Counters, key: Key, now: Time, windowMs: int)
    ensures var after := AfterOpen(counters, key, now, windowMs);
      && key in after
      && (key in counters ==> after == counters)
      && (key !in counters ==>
            after[key].mailed == 1 && after[key].startedAt == Some(now) && after[key].expiresAt == Until(now + windowMs))
  {}

  /**
   A guess counts after the ones the row remembers, and a refused one changes nothing. One that counts
   keeps the row for its memory, and gives a row without a start the window that is long over.
   */
  lemma GuessCountsOnTheRow(counters: Counters, key: Key, now: Time, rule: Rule)
    ensures var before := if key in counters then counters[key].guesses else None;
      var (state, counted) := CodeGuesses.ReserveGuess(before, now, rule.guesses);
      var after := AfterGuess(counters, key, now, rule);
      && (!counted ==> after == counters)
      && (counted ==>
            && key in after && after[key].guesses == state && state.Some? && state.value.expiresAt.Some?
            && after[key].startedAt.Some? && after[key].expiresAt.Until?
            && after[key].expiresAt.end >= state.value.expiresAt.value
            && (key in counters && counters[key].startedAt.None? ==> after[key].startedAt == Some(NO_MAIL_WINDOW))
            && (key in counters && counters[key].expiresAt.Until? ==> after[key].expiresAt.end >= counters[key].expiresAt.end)
            && (after[key].expiresAt.end == state.value.expiresAt.value
                || (key in counters && after[key].expiresAt == counters[key].expiresAt)))
  {}

  /** After a right code the next guess counts as the first, and the mails are as they were. */
  lemma ForgetStartsAnew(counters: Counters, key: Key, now: Time, rule: Rule)
    ensures var forgotten := AfterForget(counters, key);
      && forgotten.Keys == counters.Keys
      && (key in counters ==>
            && forgotten[key].mailed == counters[key].mailed && forgotten[key].startedAt == counters[key].startedAt
            && forgotten[key].expiresAt == counters[key].expiresAt
            && AfterGuess(forgotten, key, now, rule)[key].guesses ==
                 CodeGuesses.ReserveGuess(None, now, rule.guesses).0)
  {
    if key in counters { CodeGuesses.ClearedCountsAsNew(counters[key].guesses, now, rule.guesses); }
  }

  function SlotTimes(counters: Counters, key: Key, now: Time, n: nat, windowMs: int): Counters {
    if n == 0 then counters else AfterSlot(SlotTimes(counters, key, now, n - 1, windowMs), key, now, windowMs)
  }

  /** Of the sign-in requests of one moment the n-th is the n-th of its window, which started with the first. */
  lemma {:induction false} SlotsCountUp(counters: Counters, key: Key, now: Time, n: nat, windowMs: int)
    requires windowMs > 0 && n >= 1
    requires key !in counters || counters[key].startedAt.None? || counters[key].startedAt.value + windowMs <= now
    ensures var after := SlotTimes(counters, key, now, n, windowMs);
      && key in after && after[key].mailed == n && after[key].startedAt == Some(now)
      && after[key].expiresAt == Until(now + windowMs)
      && after.Keys == counters.Keys + {key}
  {
    if n > 1 {
      SlotsCountUp(counters, key, now, n - 1, windowMs);
    } else {
      assert SlotTimes(counters, key, now, 0, windowMs) == counters;
    }
  }

  /** Inside a window a request counts one more and moves nothing; from its end on it is the first of the next. */
  lemma SlotCountsInItsWindow(counters: Counters, key: Key, now: Time, windowMs: int)
    requires key in counters && counters[key].startedAt.Some?
    ensures var (before, after) := (counters[key], AfterSlot(counters, key, now, windowMs)[key]);
      if now < before.startedAt.value + windowMs then
        after.mailed == before.mailed + 1 && after.startedAt == before.startedAt && after.expiresAt == before.expiresAt
      else after.mailed == 1 && after.startedAt == Some(now) && after.expiresAt == Until(now + windowMs)
  {}

  /** The expiry migration gives a retention to the counters without one, an hour from their start or from now. */
  lemma ExpiriesAre(counters: Counters, now: Time, key: Key)
    requires key in counters
    ensures var after := WithExpiry(counters, now);
      && key in after && after[key].mailed == counters[key].mailed && after[key].startedAt == counters[key].startedAt
      && (!counters[key].expiresAt.Absent? ==> after[key] == counters[key])
      && var start := if counters[key].startedAt.Some? then counters[key].startedAt.value else now;
         (counters[key].expiresAt.Absent? ==> after[key].expiresAt == Until(start + 60 * 60 * 1000))
  {}

  // ---------- Which counters the guarantee covers ----------

  /** The window is the code's lifetime, or fifteen minutes when that is longer. */
  lemma WindowIsTheLonger(codeExpiresIn: int)
    ensures MailedCodeWindowMs(codeExpiresIn) >= codeExpiresIn && MailedCodeWindowMs(codeExpiresIn) >= 15 * 60 * 1000
    ensures MailedCodeWindowMs(codeExpiresIn) in {codeExpiresIn, 15 * 60 * 1000}
  {}

  /** The derived window never exceeds the ceiling the migration adds. */
  lemma WindowIsUnderTheCeiling(codeExpiresIn: int)
    requires codeExpiresIn <= ACTIVATION_CODE_EXPIRES_IN_MAX
    ensures MAILED_CODE_WINDOW_MIN_MS <= MailedCodeWindowMs(codeExpiresIn) <= MAX_WINDOW_MS
  {}

  /** After the migration a legacy counter is covered exactly when its window's start was stored. */
  lemma MigratedCounterIsKept(counters: Counters, key: Key, now: Time, codeExpiresIn: int)
    requires codeExpiresIn <= ACTIVATION_CODE_EXPIRES_IN_MAX
    requires key in counters && counters[key].expiresAt.Absent?
    ensures Kept(WithExpiry(counters, now)[key], MailedCodeWindowMs(codeExpiresIn)) <==>
      counters[key].startedAt.Some?
  {
    WindowIsUnderTheCeiling(codeExpiresIn);
  }
}
