/**
 When cleanup decides nothing: for one call that it falls into, for calls that overlap, and for
 calls of an address that come one at a time.
 */
module MailCleanup {
  import opened Options
  import opened MailCounters
  import opened MailCalls

  // ---------- One call ----------

  /** Cleanup at `cutoff` takes the counter of the key. */
  predicate Removes(counters: Counters, cutoff: Time, key: Key) {
    key in counters && key !in AfterCleanup(counters, cutoff)
  }

  /** The call could still count a mail on the stored counter. */
  predicate StillCounts(counters: Counters, call: Call, rule: Rule) {
    && HasRoom(counters, call.key, call.now, rule)
    && (call.Recording? || (call.Opening? && call.pass + 1 < PENDING_STORE_PASSES))
  }

  lemma LookingFinishes(counters: Counters, call: Call, rule: Rule)
    requires call.Looking?
    ensures Finish(counters, call, rule).1 == (call.key !in counters)
  {
    var next := Statement(counters, call, rule).1;
    if next.Opening? {
      var (after, last) := Statement(counters, next, rule);
      assert Finish(counters, next, rule) == Finish(after, last, rule);
    }
  }

  lemma RecordingFinishes(counters: Counters, call: Call, rule: Rule)
    requires call.Recording?
    ensures Finish(counters, call, rule).1 ==
      (HasRoom(counters, call.key, call.now, rule) || call.key !in counters)
  {
    if !HasRoom(counters, call.key, call.now, rule) {
      LookingFinishes(counters, Looking(call.key, call.now, call.pass), rule);
    }
  }

  lemma OpeningFinishes(counters: Counters, call: Call, rule: Rule)
    requires call.Opening?
    ensures Finish(counters, call, rule).1 ==
      (call.key !in counters
       || (call.pass + 1 < PENDING_STORE_PASSES && HasRoom(counters, call.key, call.now, rule)))
  {
    if call.key in counters && call.pass + 1 < PENDING_STORE_PASSES {
      RecordingFinishes(counters, Recording(call.key, call.now, call.pass + 1), rule);
    }
  }

  /**
   A cleanup that falls between the statements of a call leaves its answer alone exactly when it
   does not take the call's counter, or the call could still count on it.
   */
  lemma CleanupUnderACallExactly(counters: Counters, call: Call, cutoff: Time, rule: Rule)
    requires !call.Answered?
    ensures Finish(AfterCleanup(counters, cutoff), call, rule).1 == Finish(counters, call, rule).1 <==>
      (!Removes(counters, cutoff, call.key) || StillCounts(counters, call, rule))
  {
    var cleaned := AfterCleanup(counters, cutoff);
    match call
    case Recording(_, _, _) =>
      RecordingFinishes(counters, call, rule);
      RecordingFinishes(cleaned, call, rule);
    case Looking(_, _, _) =>
      LookingFinishes(counters, call, rule);
      LookingFinishes(cleaned, call, rule);
    case Opening(_, _, _) =>
      OpeningFinishes(counters, call, rule);
      OpeningFinishes(cleaned, call, rule);
  }

  /**
   A call that finds a full counter in the window's last moments, and a cleanup at the window's end
   before it looks again: with the cleanup it is allowed, without it refused.
   */
  lemma FullCounterCleanedUnderACall(w: World, key: Key, wait: nat, rule: Rule)
    requires rule.limit >= 1 && key in w.counters && w.counters[key].startedAt.Some?
    requires w.counters[key].mailed >= rule.limit && !RolledOver(w.counters[key], w.clock, rule.windowMs)
    requires w.counters[key].expiresAt == Until(w.counters[key].startedAt.value + rule.windowMs)
    requires w.clock + wait == w.counters[key].startedAt.value + rule.windowMs
    ensures var p := |w.calls|;
      var before := [Begin(key), Advance(p), Tick(wait)];
      var after := [Advance(p), Advance(p)];
      && AnswerOf(Run(w, before + [Clean(0)] + after, rule).calls, p) == Some(true)
      && AnswerOf(Run(w, before + after, rule).calls, p) == Some(false)
  {
    hide Run;
    var p := |w.calls|;
    var before, after := [Begin(key), Advance(p), Tick(wait)], [Advance(p), Advance(p)];
    RunThree(w, Begin(key), Advance(p), Tick(wait), rule);
    var looking := Run(w, before, rule);
    assert looking.calls == w.calls + [Looking(key, w.clock, 0)];
    RunsJoin(w, before, [Clean(0)], rule);
    RunOne(looking, Clean(0), rule);
    var cleaned := Run(w, before + [Clean(0)], rule);
    RunsJoin(w, before + [Clean(0)], after, rule);
    RunTwo(cleaned, Advance(p), Advance(p), rule);
    assert Step(cleaned, Advance(p), rule).calls == w.calls + [Opening(key, w.clock, 0)];
    RunsJoin(w, before, after, rule);
    RunTwo(looking, Advance(p), Advance(p), rule);
  }

  // ---------- A guess beside a call ----------

  /** The call has read that no row is stored, and has no statement left that could count on one. */
  predicate NeedsNoRow(call: Call) {
    call.Looking? || (call.Opening? && call.pass + 1 >= PENDING_STORE_PASSES)
  }

  /**
   A guess that falls between the statements of a call leaves its answer alone exactly when it
   inserts no row, or the call can still count on the row it inserts.
   */
  lemma GuessUnderACallExactly(counters: Counters, call: Call, at: Time, rule: Rule)
    requires !call.Answered? && call.now >= NO_MAIL_WINDOW + rule.windowMs
    requires call.key in counters ==> counters[call.key].startedAt.Some?
    ensures Finish(AfterGuess(counters, call.key, at, rule), call, rule).1 == Finish(counters, call, rule).1 <==>
      (call.key in counters || !NeedsNoRow(call))
  {
    hide AfterGuess;
    var guessed := AfterGuess(counters, call.key, at, rule);
    GuessMovesNoWindow(counters, call.key, at, rule);
    match call
    case Recording(_, _, _) =>
      RecordingFinishes(counters, call, rule);
      RecordingFinishes(guessed, call, rule);
    case Looking(_, _, _) =>
      LookingFinishes(counters, call, rule);
      LookingFinishes(guessed, call, rule);
    case Opening(_, _, _) =>
      OpeningFinishes(counters, call, rule);
      OpeningFinishes(guessed, call, rule);
  }

  /**
   An address's only call, after its counter's window was over and cleanup took it: the call records
   on nothing, a guess inserts the row, the call finds a row and is refused. Without the cleanup it
   is allowed.
   */
  lemma GuessAfterCleanupRefusesACall(w: World, key: Key, rule: Rule)
    requires Removes(w.counters, w.clock, key) && RolledOver(w.counters[key], w.clock, rule.windowMs)
    ensures var p := |w.calls|;
      var call := [Begin(key), Advance(p), Guess(key, 0)] + [Advance(p)];
      && AnswerOf(Run(w, [Clean(0)] + call, rule).calls, p) == Some(false)
      && AnswerOf(Run(w, call, rule).calls, p) == Some(true)
  {
    hide Run, AfterGuess;
    var p := |w.calls|;
    var first := [Begin(key), Advance(p), Guess(key, 0)];
    var cleaned := Step(w, Clean(0), rule);
    RunOne(w, Clean(0), rule);
    RunsJoin(w, [Clean(0)], first + [Advance(p)], rule);
    RunsJoin(cleaned, first, [Advance(p)], rule);
    GuessedWhileLooking(cleaned, key, rule);
    RunOne(Run(cleaned, first, rule), Advance(p), rule);
    RunsJoin(w, first, [Advance(p)], rule);
    GuessedAfterAnswer(w, key, rule);
    RunOne(Run(w, first, rule), Advance(p), rule);
  }

  lemma GuessedWhileLooking(w: World, key: Key, rule: Rule)
    requires key !in w.counters
    ensures var after := Run(w, [Begin(key), Advance(|w.calls|), Guess(key, 0)], rule);
      after.calls == w.calls + [Looking(key, w.clock, 0)] && key in after.counters
  {
    hide Run, AfterGuess;
    RunThree(w, Begin(key), Advance(|w.calls|), Guess(key, 0), rule);
    GuessMovesNoWindow(w.counters, key, w.clock, rule);
  }

  lemma GuessedAfterAnswer(w: World, key: Key, rule: Rule)
    requires HasRoom(w.counters, key, w.clock, rule)
    ensures Run(w, [Begin(key), Advance(|w.calls|), Guess(key, 0)], rule).calls == w.calls + [Answered(key, w.clock, true)]
  {
    hide Run, AfterGuess;
    RunThree(w, Begin(key), Advance(|w.calls|), Guess(key, 0), rule);
  }

  // ---------- Calls that overlap ----------

  /** Two calls beside the ones there were. */
  function Pair(w: World, base: seq<Call>, counters: Counters, one: Call, two: Call): World {
    w.(calls := base + [one, two], counters := counters)
  }

  lemma FirstOfPair(w: World, base: seq<Call>, counters: Counters, one: Call, two: Call, rule: Rule)
    ensures var (after, next) := Statement(counters, one, rule);
      Step(Pair(w, base, counters, one, two), Advance(|base|), rule) == Pair(w, base, after, next, two)
  {
    var next := Statement(counters, one, rule).1;
    assert (base + [one, two])[|base| := next] == base + [next, two];
  }

  lemma SecondOfPair(w: World, base: seq<Call>, counters: Counters, one: Call, two: Call, rule: Rule)
    ensures var (after, next) := Statement(counters, two, rule);
      Step(Pair(w, base, counters, one, two), Advance(|base| + 1), rule) == Pair(w, base, after, one, next)
  {
    var next := Statement(counters, two, rule).1;
    assert (base + [one, two])[|base| + 1 := next] == base + [one, next];
  }

  /** Five statements: the first call's first, three of the second, and the first call's next. */
  function Weave(p: nat): seq<Event> {
    [Advance(p), Advance(p + 1)] + [Advance(p + 1), Advance(p + 1), Advance(p)]
  }

  lemma RunWeave(w: World, p: nat, rule: Rule)
    ensures var two := Step(Step(w, Advance(p), rule), Advance(p + 1), rule);
      Run(w, Weave(p), rule) ==
        Step(Step(Step(two, Advance(p + 1), rule), Advance(p + 1), rule), Advance(p), rule)
  {
    hide Step;
    RunTwo(w, Advance(p), Advance(p + 1), rule);
    var two := Run(w, [Advance(p), Advance(p + 1)], rule);
    RunThree(two, Advance(p + 1), Advance(p + 1), Advance(p), rule);
    RunsJoin(w, [Advance(p), Advance(p + 1)], [Advance(p + 1), Advance(p + 1), Advance(p)], rule);
  }

  /** Without the counter, the call that was first finds the other's and is refused. */
  lemma WeaveOnNothing(w: World, base: seq<Call>, counters: Counters, key: Key, now: Time, rule: Rule)
    requires key !in counters
    ensures var after := Run(Pair(w, base, counters, Recording(key, now, 0), Recording(key, now, 0)), Weave(|base|), rule);
      AnswerOf(after.calls, |base|) == Some(false) && AnswerOf(after.calls, |base| + 1) == Some(true)
  {
    hide Run, Step;
    var record, look, open_, no, yes :=
      Recording(key, now, 0), Looking(key, now, 0), Opening(key, now, 0), Answered(key, now, false), Answered(key, now, true);
    var filled := AfterOpen(counters, key, now, rule.windowMs);
    RunWeave(Pair(w, base, counters, record, record), |base|, rule);
    FirstOfPair(w, base, counters, record, record, rule);
    SecondOfPair(w, base, counters, look, record, rule);
    SecondOfPair(w, base, counters, look, look, rule);
    SecondOfPair(w, base, counters, look, open_, rule);
    FirstOfPair(w, base, filled, look, yes, rule);
  }

  /** With a counter whose window is over, the first call counts, and the second while there is room. */
  lemma WeaveOnOver(w: World, base: seq<Call>, counters: Counters, key: Key, now: Time, rule: Rule)
    requires rule.windowMs > 0
    requires key in counters && RolledOver(counters[key], now, rule.windowMs)
    ensures var after := Run(Pair(w, base, counters, Recording(key, now, 0), Recording(key, now, 0)), Weave(|base|), rule);
      AnswerOf(after.calls, |base|) == Some(true) && AnswerOf(after.calls, |base| + 1) == Some(rule.limit >= 2)
  {
    hide Run, Step;
    var record, look, no, yes :=
      Recording(key, now, 0), Looking(key, now, 0), Answered(key, now, false), Answered(key, now, true);
    var counted := AfterRecord(counters, key, now, rule);
    RunWeave(Pair(w, base, counters, record, record), |base|, rule);
    FirstOfPair(w, base, counters, record, record, rule);
    SecondOfPair(w, base, counted, yes, record, rule);
    if rule.limit >= 2 {
      var twice := AfterRecord(counted, key, now, rule);
      SecondOfPair(w, base, twice, yes, yes, rule);
      FirstOfPair(w, base, twice, yes, yes, rule);
    } else {
      SecondOfPair(w, base, counted, yes, look, rule);
      SecondOfPair(w, base, counted, yes, no, rule);
      FirstOfPair(w, base, counted, yes, no, rule);
    }
  }

  function Without(w: World, key: Key): World {
    w.(counters := w.counters - {key})
  }

  function Overlap(key: Key, elapsed: nat, p: nat): seq<Event> {
    [Tick(elapsed), Begin(key), Begin(key)] + Weave(p)
  }

  /**
   However long a window has been over, two calls that overlap tell whether its counter is still
   stored: with it the first is allowed, and the second too under a limit of two; without it only
   the second is. So neither the answers nor their number survive a cleanup in general.
   */
  lemma OverlappingCallsShowARemoval(w: World, key: Key, elapsed: nat, rule: Rule)
    requires rule.windowMs > 0
    requires key in w.counters && RolledOver(w.counters[key], w.clock + elapsed, rule.windowMs)
    ensures var p := |w.calls|;
      var kept := Run(w, Overlap(key, elapsed, p), rule);
      var removed := Run(Without(w, key), Overlap(key, elapsed, p), rule);
      && AnswerOf(kept.calls, p) == Some(true) && AnswerOf(kept.calls, p + 1) == Some(rule.limit >= 2)
      && AnswerOf(removed.calls, p) == Some(false) && AnswerOf(removed.calls, p + 1) == Some(true)
  {
    hide Run, RolledOver;
    BeginsTwo(w, key, elapsed, rule);
    BeginsTwo(Without(w, key), key, elapsed, rule);
    var later := w.(clock := w.clock + elapsed);
    WeaveOnOver(later, w.calls, w.counters, key, later.clock, rule);
    WeaveOnNothing(Without(later, key), w.calls, Without(w, key).counters, key, later.clock, rule);
    RunsJoin(w, [Tick(elapsed), Begin(key), Begin(key)], Weave(|w.calls|), rule);
    RunsJoin(Without(w, key), [Tick(elapsed), Begin(key), Begin(key)], Weave(|w.calls|), rule);
  }

  lemma BeginsTwo(w: World, key: Key, elapsed: nat, rule: Rule)
    ensures var begun := Recording(key, w.clock + elapsed, 0);
      Run(w, [Tick(elapsed), Begin(key), Begin(key)], rule) ==
        Pair(w.(clock := w.clock + elapsed), w.calls, w.counters, begun, begun)
  {
    hide Run;
    RunThree(w, Tick(elapsed), Begin(key), Begin(key), rule);
    var begun := Recording(key, w.clock + elapsed, 0);
    assert w.calls + [begun] + [begun] == w.calls + [begun, begun];
  }

  /** Some run from here on answers some call differently than it would with the counter removed. */
  ghost predicate CanShow(w: World, key: Key, rule: Rule) {
    exists events, p :: AnswerOf(Run(w, events, rule).calls, p) != AnswerOf(Run(Without(w, key), events, rule).calls, p)
  }

  /**
   Over all calls, overlapping ones too, taking a counter can be told by some answer exactly when
   there was a counter to take.
   */
  lemma RemovalShowsExactly(w: World, key: Key, rule: Rule)
    requires rule.windowMs > 0
    requires key in w.counters ==> w.counters[key].startedAt.Some?
    ensures CanShow(w, key, rule) <==> key in w.counters
  {
    hide Run;
    if key in w.counters {
      var over := w.counters[key].startedAt.value + rule.windowMs;
      var elapsed := if over > w.clock then over - w.clock else 0;
      OverlappingCallsShowARemoval(w, key, elapsed, rule);
    } else {
      assert Without(w, key) == w;
    }
  }
}
