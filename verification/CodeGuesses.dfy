/**
 Wrong codes at one address and purpose: how they are counted, when they lock, and when
 they are forgotten. Times are milliseconds.
 */
module CodeGuesses {
  import opened Options

  type Time = int

  datatype Rule = Rule(limit: int, lockBaseMs: nat, lockMaxMs: nat, maxLockLevel: nat, memoryMs: nat)

  const HOUR: nat := 60 * 60 * 1000

  const CODE_GUESS_RULE := Rule(5, 15 * 60 * 1000, 24 * HOUR, 7, 24 * HOUR)

  datatype State = State(failed: nat, level: nat, lockedUntil: Option<Time>, expiresAt: Option<Time>)

  function Min(a: int, b: int): int {
    if a < b then a else b
  }

  function Pow2(n: nat): (p: nat)
    ensures p >= 1
  {
    if n == 0 then 1 else 2 * Pow2(n - 1)
  }

  // ---------- The stored state ----------

  predicate IsGuessLocked(state: Option<State>, now: Time) {
    && state.Some? && state.value.expiresAt.Some? && state.value.lockedUntil.Some?
    && state.value.expiresAt.value > now && state.value.lockedUntil.value > now
  }

  function FirstGuessState(now: Time, rule: Rule): State {
    var locks := rule.limit <= 1;
    var lockedUntil := if locks then Some(now + Min(rule.lockBaseMs, rule.lockMaxMs)) else None;
    State(
      if locks then 0 else 1,
      if locks then Min(1, rule.maxLockLevel) else 0,
      lockedUntil,
      Some((if locks then lockedUntil.value else now) + rule.memoryMs))
  }

  /** How long the lock that follows `level` earlier ones lasts. */
  function LockMs(rule: Rule, level: nat): nat {
    Min(rule.lockBaseMs * Pow2(level), rule.lockMaxMs)
  }

  predicate Remembered(state: Option<State>, now: Time) {
    state.Some? && state.value.expiresAt.Some? && state.value.expiresAt.value > now
  }

  function FailedBefore(state: Option<State>, now: Time): nat {
    if Remembered(state, now) then state.value.failed else 0
  }

  function LevelBefore(state: Option<State>, now: Time): nat {
    if Remembered(state, now) then state.value.level else 0
  }

  predicate Locks(state: Option<State>, now: Time, rule: Rule) {
    FailedBefore(state, now) + 1 >= rule.limit
  }

  /** One guess: refused and unchanged while locked, counted otherwise. */
  function ReserveGuess(state: Option<State>, now: Time, rule: Rule): (Option<State>, bool) {
    if IsGuessLocked(state, now) then
      (state, false)
    else
      var level := LevelBefore(state, now);
      var lockEnd := now + LockMs(rule, level);
      if Locks(state, now, rule) then
        (Some(State(0, Min(level + 1, rule.maxLockLevel), Some(lockEnd), Some(lockEnd + rule.memoryMs))), true)
      else
        (Some(State(FailedBefore(state, now) + 1, level, None, Some(now + rule.memoryMs))), true)
  }

  /** A correct code forgets the wrong ones and the locks. */
  function ClearGuesses(state: Option<State>): Option<State> {
    if state.Some? then Some(State(0, 0, None, None)) else None
  }

  // ---------- One guess ----------

  /** What the row starts as is what counting a guess on no row leaves. */
  lemma FirstGuessIsGuessOnNothing(now: Time, rule: Rule)
    ensures ReserveGuess(None, now, rule) == (Some(FirstGuessState(now, rule)), true)
  {
    assert Pow2(0) == 1;
  }

  /** A state past its expiry counts like no state, so a cleanup that was due when the guess read the clock decides nothing. */
  lemma ExpiredStateReadsAsNone(state: Option<State>, now: Time, rule: Rule)
    requires !Remembered(state, now)
    ensures ReserveGuess(state, now, rule) == ReserveGuess(None, now, rule)
  {}

  /** The state outlives its lock, so a lock never ends early by being forgotten. */
  predicate LockIsRemembered(state: Option<State>, rule: Rule) {
    state.Some? && state.value.lockedUntil.Some? ==>
      state.value.expiresAt.Some? && state.value.expiresAt.value >= state.value.lockedUntil.value + rule.memoryMs
  }

  /** While a lock runs, every guess is refused, whatever the memory. */
  lemma RunningLockRefuses(state: Option<State>, now: Time, rule: Rule)
    requires LockIsRemembered(state, rule)
    ensures state.Some? && state.value.lockedUntil.Some? && now < state.value.lockedUntil.value ==>
      IsGuessLocked(state, now) && ReserveGuess(state, now, rule) == (state, false)
  {}

  /** For every rule: a fresh state is not expired while its lock runs. */
  lemma FirstStateOutlivesItsLock(now: Time, later: Time, rule: Rule)
    requires FirstGuessState(now, rule).lockedUntil.Some?
    requires later < FirstGuessState(now, rule).lockedUntil.value
    ensures IsGuessLocked(Some(FirstGuessState(now, rule)), later)
    ensures rule.memoryMs > 0 ==>
      FirstGuessState(now, rule).expiresAt.value > FirstGuessState(now, rule).lockedUntil.value
  {}

  /** After a right code, every guess counts as on an address that was never guessed at. */
  lemma ClearedCountsAsNew(state: Option<State>, now: Time, rule: Rule)
    ensures ReserveGuess(ClearGuesses(state), now, rule) == ReserveGuess(None, now, rule)
    ensures !IsGuessLocked(ClearGuesses(state), now)
    ensures ClearGuesses(state).Some? <==> state.Some?
  {}

  /** A lock refuses every guess before its end and none from its end on. */
  lemma LockEndsOnTime(state: Option<State>, now: Time, later: Time, rule: Rule)
    requires rule.memoryMs > 0 && !IsGuessLocked(state, now) && Locks(state, now, rule)
    ensures var locked := ReserveGuess(state, now, rule).0;
      locked.Some? && locked.value.lockedUntil.Some? &&
        (ReserveGuess(locked, later, rule).1 <==> later >= locked.value.lockedUntil.value)
  {}

  /** What a guess leaves is remembered for the memory after it, or after the lock it started, and no longer. */
  lemma MemoryEndsOnTime(state: Option<State>, now: Time, later: Time, rule: Rule)
    requires !IsGuessLocked(state, now)
    ensures var after := ReserveGuess(state, now, rule).0;
      after.Some? && (Remembered(after, later) <==>
        later < rule.memoryMs + if after.value.lockedUntil.Some? then after.value.lockedUntil.value else now)
  {}

  // ---------- The doubling lock ----------

  lemma {:induction false} Pow2Grows(a: nat, b: nat)
    requires a <= b
    ensures Pow2(a) <= Pow2(b)
  {
    if a < b {
      Pow2Grows(a, b - 1);
    }
  }

  /** Each lock lasts at least as long as the one before and never longer than the longest. */
  lemma LocksNeverShorten(rule: Rule, a: nat, b: nat)
    requires a <= b
    ensures LockMs(rule, a) <= LockMs(rule, b) <= rule.lockMaxMs
  {
    Pow2Grows(a, b);
    assert rule.lockBaseMs * Pow2(a) <= rule.lockBaseMs * Pow2(b);
  }

  /** Under the deployed rule the longest lock, a day, is reached at level 7 and at no level before. */
  lemma DeployedLockReachesADay(level: nat)
    ensures LockMs(CODE_GUESS_RULE, level) == 24 * HOUR <==> level >= CODE_GUESS_RULE.maxLockLevel
  {
    assert Pow2(6) == 64 by {
      assert Pow2(2) == 4;
      assert Pow2(4) == 16;
    }
    assert Pow2(7) == 128;
    if level >= 7 {
      Pow2Grows(7, level);
    } else {
      Pow2Grows(level, 6);
    }
  }

  // ---------- Runs ----------

  datatype Event = Guess(at: Time) | Clear

  function Step(state: Option<State>, event: Event, rule: Rule): Option<State> {
    match event
    case Guess(at) => ReserveGuess(state, at, rule).0
    case Clear => ClearGuesses(state)
  }

  function After(state: Option<State>, events: seq<Event>, rule: Rule): Option<State> {
    if events == [] then state
    else Step(After(state, events[..|events| - 1], rule), events[|events| - 1], rule)
  }

  /** What every run keeps, starting from no state. */
  predicate Sound(state: Option<State>, rule: Rule) {
    && LockIsRemembered(state, rule)
    && (state.Some? ==> state.value.failed == 0 || state.value.failed < rule.limit)
    && (state.Some? ==> state.value.level <= rule.maxLockLevel)
  }

  lemma {:induction false} RunsStaySound(state: Option<State>, events: seq<Event>, rule: Rule)
    requires Sound(state, rule)
    ensures Sound(After(state, events, rule), rule)
  {
    if events != [] {
      RunsStaySound(state, events[..|events| - 1], rule);
    }
  }

  /** The guesses at these times, one after the other. */
  function AfterGuesses(state: Option<State>, times: seq<Time>, rule: Rule): Option<State> {
    if times == [] then state
    else ReserveGuess(AfterGuesses(state, times[..|times| - 1], rule), times[|times| - 1], rule).0
  }

  /** The guess at `times[i]` is not refused and does not lock. */
  predicate CountedFreely(state: Option<State>, times: seq<Time>, i: nat, rule: Rule)
    requires i < |times|
  {
    var before := AfterGuesses(state, times[..i], rule);
    !IsGuessLocked(before, times[i]) && !Locks(before, times[i], rule)
  }

  /** No guess of the run was refused and none of them locked. */
  predicate NoneLocked(state: Option<State>, times: seq<Time>, rule: Rule) {
    forall i | 0 <= i < |times| :: CountedFreely(state, times, i, rule)
  }

  /** How many guesses in a row end here, each before the one before it was forgotten. */
  function Streak(times: seq<Time>, rule: Rule): nat {
    var n := |times|;
    if n == 0 then 0
    else if n > 1 && times[n - 1] < times[n - 2] + rule.memoryMs then Streak(times[..n - 1], rule) + 1
    else 1
  }

  /** Nothing is counted and nothing is locked at the first guess: no row, or a lock, a clear or a lapse before. */
  predicate CleanStart(state: Option<State>, times: seq<Time>) {
    times != [] ==> FailedBefore(state, times[0]) == 0 && !IsGuessLocked(state, times[0])
  }

  lemma PrefixOfPrefix(times: seq<Time>, n: nat)
    requires n <= |times|
    ensures forall i | 0 <= i <= n :: times[..n][..i] == times[..i]
  {}

  lemma NoneLockedByPrefix(state: Option<State>, times: seq<Time>, rule: Rule)
    requires times != []
    ensures var n := |times| - 1;
      NoneLocked(state, times, rule) <==> NoneLocked(state, times[..n], rule) && CountedFreely(state, times, n, rule)
  {
    hide IsGuessLocked, Locks, AfterGuesses;
    var n := |times| - 1;
    PrefixOfPrefix(times, n);
    forall i | 0 <= i < n
      ensures CountedFreely(state, times[..n], i, rule) <==> CountedFreely(state, times, i, rule)
    {
      assert times[..n][..i] == times[..i];
    }
  }

  /** What one counted guess that does not lock leaves. */
  predicate CountedTo(state: Option<State>, failed: nat, at: Time, rule: Rule) {
    && state.Some? && state.value.failed == failed && failed < rule.limit
    && state.value.lockedUntil.None? && state.value.expiresAt == Some(at + rule.memoryMs)
  }

  lemma CountOne(state: Option<State>, now: Time, rule: Rule)
    requires !IsGuessLocked(state, now) && !Locks(state, now, rule)
    ensures CountedTo(ReserveGuess(state, now, rule).0, FailedBefore(state, now) + 1, now, rule)
  {}

  lemma CountedIsRemembered(state: Option<State>, failed: nat, at: Time, now: Time, rule: Rule)
    requires CountedTo(state, failed, at, rule)
    ensures !IsGuessLocked(state, now)
    ensures FailedBefore(state, now) == if now < at + rule.memoryMs then failed else 0
  {}

  /** While nothing locks, the stored count is the streak. */
  lemma {:induction false} StoredCountIsStreak(state: Option<State>, times: seq<Time>, rule: Rule)
    requires CleanStart(state, times) && times != []
    requires NoneLocked(state, times, rule)
    ensures CountedTo(AfterGuesses(state, times, rule), Streak(times, rule), times[|times| - 1], rule)
  {
    hide ReserveGuess, IsGuessLocked, Locks, FailedBefore, CountedTo;
    var n := |times| - 1;
    PrefixOfPrefix(times, n);
    NoneLockedByPrefix(state, times, rule);
    assert CountedFreely(state, times, n, rule);
    assert AfterGuesses(state, times[..0], rule) == state;
    CountOne(AfterGuesses(state, times[..n], rule), times[n], rule);
    if n > 0 {
      assert times[..n][n - 1] == times[n - 1];
      StoredCountIsStreak(state, times[..n], rule);
      CountedIsRemembered(
        AfterGuesses(state, times[..n], rule), Streak(times[..n], rule), times[n - 1], times[n], rule);
    }
  }

  /** The guess after `times` locks exactly when the streak reaches the limit with it. */
  lemma NextLocksAtLimit(state: Option<State>, times: seq<Time>, n: nat, rule: Rule)
    requires CleanStart(state, times) && n < |times|
    requires NoneLocked(state, times[..n], rule)
    ensures var before := AfterGuesses(state, times[..n], rule);
      && !IsGuessLocked(before, times[n])
      && (Locks(before, times[n], rule) <==> Streak(times[..n + 1], rule) >= rule.limit)
  {
    var upTo := times[..n + 1];
    assert upTo[..n] == times[..n];
    if n > 0 {
      StoredCountIsStreak(state, times[..n], rule);
      CountedIsRemembered(
        AfterGuesses(state, times[..n], rule), Streak(times[..n], rule), times[n - 1], times[n], rule);
    } else {
      assert AfterGuesses(state, times[..0], rule) == state;
    }
  }

  predicate ShortStreaks(times: seq<Time>, rule: Rule) {
    forall i | 0 < i <= |times| :: Streak(times[..i], rule) < rule.limit
  }

  /**
   From a clean count, a run is counted without a lock exactly when no streak in it reaches
   the limit. So at most `limit` guesses of one streak are counted up to and with the lock,
   but guesses far enough apart are never locked at all.
   */
  lemma {:induction false} LocksExactlyByStreak(state: Option<State>, times: seq<Time>, rule: Rule)
    requires CleanStart(state, times)
    ensures NoneLocked(state, times, rule) <==> ShortStreaks(times, rule)
  {
    if times != [] {
      var n := |times| - 1;
      var before := times[..n];
      assert CleanStart(state, before);
      LocksExactlyByStreak(state, before, rule);
      NoneLockedByPrefix(state, times, rule);
      ShortStreaksByPrefix(times, rule);
      if NoneLocked(state, before, rule) {
        NextLocksAtLimit(state, times, n, rule);
        assert times[..n + 1] == times;
      }
    }
  }

  lemma ShortStreaksByPrefix(times: seq<Time>, rule: Rule)
    requires times != []
    ensures ShortStreaks(times, rule) <==>
      ShortStreaks(times[..|times| - 1], rule) && Streak(times, rule) < rule.limit
  {
    var n := |times| - 1;
    PrefixOfPrefix(times, n);
    assert times[..|times|] == times;
    if ShortStreaks(times[..n], rule) && Streak(times, rule) < rule.limit {
      forall i | 0 < i <= |times| ensures Streak(times[..i], rule) < rule.limit {
        assert i <= n ==> times[..n][..i] == times[..i];
      }
    }
  }

  /** Every guess comes only once the one before it is forgotten. */
  predicate AllLapse(times: seq<Time>, rule: Rule) {
    forall i | 0 < i < |times| :: times[i] >= times[i - 1] + rule.memoryMs
  }

  /** With lapses there is no bound: a run of any length is counted in full and never locks. */
  lemma LapsesAllowAnyNumber(times: seq<Time>, rule: Rule)
    requires rule.limit >= 2 && AllLapse(times, rule)
    ensures NoneLocked(None, times, rule)
  {
    LocksExactlyByStreak(None, times, rule);
  }

  /** Without lapses, fewer than `limit` guesses are counted between one lock and the next. */
  lemma FewerThanLimitBetweenLocks(state: Option<State>, times: seq<Time>, rule: Rule)
    requires rule.limit >= 1 && CleanStart(state, times)
    requires NoneLocked(state, times, rule)
    requires forall i | 0 < i < |times| :: times[i] < times[i - 1] + rule.memoryMs
    ensures |times| < rule.limit
  {
    LocksExactlyByStreak(state, times, rule);
    StreakOfAll(times, rule);
    assert times[..|times|] == times;
  }

  lemma {:induction false} StreakOfAll(times: seq<Time>, rule: Rule)
    requires forall i | 0 < i < |times| :: times[i] < times[i - 1] + rule.memoryMs
    ensures Streak(times, rule) == |times|
  {
    if |times| > 1 {
      StreakOfAll(times[..|times| - 1], rule);
    }
  }

  // ---------- The doubling, over runs ----------

  /** The guess at `times[i]` is counted and locks the address. */
  predicate LocksAt(state: Option<State>, times: seq<Time>, i: nat, rule: Rule)
    requires i < |times|
  {
    var before := AfterGuesses(state, times[..i], rule);
    !IsGuessLocked(before, times[i]) && Locks(before, times[i], rule)
  }

  /** How many of the guesses locked. */
  function LockCount(state: Option<State>, times: seq<Time>, rule: Rule): nat {
    if times == [] then 0
    else LockCount(state, times[..|times| - 1], rule) + (if LocksAt(state, times, |times| - 1, rule) then 1 else 0)
  }

  /** Every guess but the first comes while what the ones before it left is remembered. */
  predicate NoLapse(state: Option<State>, times: seq<Time>, rule: Rule) {
    forall i | 0 < i < |times| :: Remembered(AfterGuesses(state, times[..i], rule), times[i])
  }

  /** No earlier lock is remembered at the first guess: no row, or a right code or a lapse before. */
  predicate NoLockBefore(state: Option<State>, times: seq<Time>) {
    times != [] ==> LevelBefore(state, times[0]) == 0 && !IsGuessLocked(state, times[0])
  }

  lemma GuessLevels(state: Option<State>, now: Time, rule: Rule)
    ensures var (after, counted) := ReserveGuess(state, now, rule);
      && (counted <==> !IsGuessLocked(state, now))
      && (!counted ==> after == state)
      && (counted ==> after.Some?)
      && (counted && Locks(state, now, rule) ==>
            after.value.level == Min(LevelBefore(state, now) + 1, rule.maxLockLevel))
      && (counted && !Locks(state, now, rule) ==> after.value.level == LevelBefore(state, now))
      && (counted && Locks(state, now, rule) ==> after.value.lockedUntil == Some(now + LockMs(rule, LevelBefore(state, now))))
  {}

  /** The stored level is the number of remembered locks, up to the highest. */
  lemma {:induction false} LevelIsLockCount(state: Option<State>, times: seq<Time>, rule: Rule)
    requires times != [] && NoLockBefore(state, times) && NoLapse(state, times, rule)
    ensures var after := AfterGuesses(state, times, rule);
      after.Some? && after.value.level == Min(LockCount(state, times, rule), rule.maxLockLevel)
  {
    hide ReserveGuess, IsGuessLocked, Locks;
    var n := |times| - 1;
    var before := AfterGuesses(state, times[..n], rule);
    GuessLevels(before, times[n], rule);
    assert AfterGuesses(state, times[..0], rule) == state;
    if n > 0 {
      forall i | 0 < i < n ensures times[..n][..i] == times[..i] {}
      LevelIsLockCount(state, times[..n], rule);
      assert Remembered(before, times[n]);
    } else {
      assert times[..0] == [] && LockCount(state, [], rule) == 0;
    }
  }

  function Twice(base: nat, times: nat): nat {
    if times == 0 then base else Twice(base, times - 1) * 2
  }

  lemma {:induction false} LockDoubles(rule: Rule, level: nat)
    ensures LockMs(rule, level) == if Twice(rule.lockBaseMs, level) <= rule.lockMaxMs then Twice(rule.lockBaseMs, level) else rule.lockMaxMs
  {
    TwiceIsPower(rule.lockBaseMs, level);
  }

  lemma {:induction false} TwiceIsPower(base: nat, n: nat)
    ensures Twice(base, n) == base * Pow2(n)
  {
    if n > 0 {
      TwiceIsPower(base, n - 1);
      assert base * (2 * Pow2(n - 1)) == base * Pow2(n - 1) * 2;
    }
  }

  /**
   Of the locks of a run that were all remembered, each lasts twice as long as the one before, up to the
   highest level and the longest lock: the lock after `n` others lasts the base doubled `n` times.
   */
  lemma EachLockDoubles(state: Option<State>, times: seq<Time>, i: nat, rule: Rule)
    requires i < |times| && NoLockBefore(state, times) && NoLapse(state, times, rule) && LocksAt(state, times, i, rule)
    ensures var n := LockCount(state, times[..i], rule);
      var lasts := Twice(rule.lockBaseMs, if n <= rule.maxLockLevel then n else rule.maxLockLevel);
      var after := AfterGuesses(state, times[..i + 1], rule);
      && after.Some? && after.value.lockedUntil == Some(times[i] + if lasts <= rule.lockMaxMs then lasts else rule.lockMaxMs)
      && LockCount(state, times[..i + 1], rule) == n + 1
  {
    hide ReserveGuess, IsGuessLocked, Locks, LockMs, Twice, LockCount, NoLapse, NoLockBefore;
    var before := AfterGuesses(state, times[..i], rule);
    assert times[..i + 1][..i] == times[..i];
    GuessLevels(before, times[i], rule);
    LockDoubles(rule, LevelBefore(before, times[i]));
    LevelAtTheGuess(state, times, i, rule);
    OneMoreLock(state, times, i, rule);
  }

  lemma OneMoreLock(state: Option<State>, times: seq<Time>, i: nat, rule: Rule)
    requires i < |times| && LocksAt(state, times, i, rule)
    ensures LockCount(state, times[..i + 1], rule) == LockCount(state, times[..i], rule) + 1
  {
    hide ReserveGuess, IsGuessLocked, Locks;
    assert times[..i + 1][..i] == times[..i];
  }

  /** The level a guess of such a run reads is the number of locks before it, up to the highest. */
  lemma LevelAtTheGuess(state: Option<State>, times: seq<Time>, i: nat, rule: Rule)
    requires i < |times| && NoLockBefore(state, times) && NoLapse(state, times, rule)
    ensures LevelBefore(AfterGuesses(state, times[..i], rule), times[i]) == Min(LockCount(state, times[..i], rule), rule.maxLockLevel)
  {
    hide ReserveGuess, IsGuessLocked, Locks;
    if i > 0 {
      forall j | 0 < j < i ensures times[..i][..j] == times[..j] {}
      LevelIsLockCount(state, times[..i], rule);
      assert Remembered(AfterGuesses(state, times[..i], rule), times[i]);
    } else {
      assert times[..0] == [];
    }
  }

  lemma DeployedDoublings(n: nat)
    ensures var lasts := Twice(15 * 60 * 1000, if n <= 7 then n else 7);
      lasts >= 24 * 60 * 60 * 1000 <==> n >= 7
  {
    assert Twice(15 * 60 * 1000, 4) == 240 * 60 * 1000 by {
      assert Twice(15 * 60 * 1000, 2) == 60 * 60 * 1000;
    }
    assert Twice(15 * 60 * 1000, 6) == 960 * 60 * 1000;
    assert Twice(15 * 60 * 1000, 7) == 1920 * 60 * 1000;
    if n < 7 { TwiceGrows(15 * 60 * 1000, n, 6); }
  }

  lemma {:induction false} TwiceGrows(base: nat, a: nat, b: nat)
    requires a <= b
    ensures Twice(base, a) <= Twice(base, b)
  {
    if a < b { TwiceGrows(base, a, b - 1); }
  }

  /** Under the deployed rule a remembered lock lasts a day exactly from the eighth on. */
  lemma DeployedLockIsADayFromTheEighth(state: Option<State>, times: seq<Time>, i: nat)
    requires i < |times| && NoLockBefore(state, times) && NoLapse(state, times, CODE_GUESS_RULE)
    requires LocksAt(state, times, i, CODE_GUESS_RULE)
    ensures var after := AfterGuesses(state, times[..i + 1], CODE_GUESS_RULE);
      && after.Some? && after.value.lockedUntil.Some?
      && (after.value.lockedUntil.value - times[i] == 24 * 60 * 60 * 1000 <==>
            LockCount(state, times[..i + 1], CODE_GUESS_RULE) >= 8)
  {
    hide AfterGuesses, LockCount, LocksAt, NoLapse;
    EachLockDoubles(state, times, i, CODE_GUESS_RULE);
    DeployedDoublings(LockCount(state, times[..i], CODE_GUESS_RULE));
  }
}
