/** Runs that send more than the cap allows: one window stamped a moment too early is enough. */
module MailOverrun {
  import opened Options
  import opened MailCounters
  import opened MailCalls
  import opened Windows

  /** One address after `calls` calls, `yes` of them answered yes, with this counter. */
  predicate At(w: World, key: Key, calls: nat, yes: nat, mailed: nat, start: Time, clock: Time, rule: Rule) {
    && |w.calls| == calls && YesCount(w.calls, key) == yes && w.clock == clock
    && key in w.counters
    && w.counters[key].mailed == mailed && w.counters[key].startedAt == Some(start)
  }

  /** Nobody has guessed: the row is kept for its window and no longer. */
  predicate Plain(w: World, key: Key, rule: Rule) {
    && key in w.counters && w.counters[key].guesses.None? && w.counters[key].startedAt.Some?
    && w.counters[key].expiresAt == Until(w.counters[key].startedAt.value + rule.windowMs)
  }

  function CallOnce(key: Key, p: nat): seq<Event> {
    [Begin(key), Advance(p)]
  }

  /** A call that counts at once, in the window that is open or in a new one. */
  lemma OneMoreCall(
    w: World, key: Key, calls: nat, yes: nat, mailed: nat, start: Time, clock: Time, rule: Rule)
    requires At(w, key, calls, yes, mailed, start, clock, rule)
    requires mailed < rule.limit || clock - start >= rule.windowMs
    ensures var over := clock - start >= rule.windowMs;
      At(Run(w, CallOnce(key, calls), rule), key, calls + 1, yes + 1,
         if over then 1 else mailed + 1, if over then clock else start, clock, rule)
    ensures Plain(w, key, rule) ==> Plain(Run(w, CallOnce(key, calls), rule), key, rule)
  {
    var begun := Step(w, Begin(key), rule);
    RunTwo(w, Begin(key), Advance(calls), rule);
    YesOnBegin(w.calls, Recording(key, clock, 0), key);
    assert begun.calls[calls] == Recording(key, clock, 0);
    YesAfter(begun.calls, calls, Answered(key, clock, true), key);
  }

  function Burst(key: Key, from: nat, n: nat): seq<Event> {
    if n == 0 then [] else Burst(key, from, n - 1) + CallOnce(key, from + n - 1)
  }

  lemma NoEvents(w: World, rule: Rule)
    ensures Run(w, [], rule) == w
  {}

  lemma {:induction false} BurstFills(
    w: World, key: Key, calls: nat, yes: nat, mailed: nat, start: Time, clock: Time, n: nat, rule: Rule)
    requires At(w, key, calls, yes, mailed, start, clock, rule)
    requires mailed + n <= rule.limit && clock - start < rule.windowMs
    ensures At(Run(w, Burst(key, calls, n), rule), key, calls + n, yes + n, mailed + n, start, clock, rule)
    ensures Plain(w, key, rule) ==> Plain(Run(w, Burst(key, calls, n), rule), key, rule)
  {
    hide Run, YesCount, At, Plain, CallOnce;
    if n == 0 {
      NoEvents(w, rule);
    } else {
      BurstFills(w, key, calls, yes, mailed, start, clock, n - 1, rule);
      var before := Run(w, Burst(key, calls, n - 1), rule);
      OneMoreCall(before, key, calls + n - 1, yes + n - 1, mailed + n - 1, start, clock, rule);
      RunsJoin(w, Burst(key, calls, n - 1), CallOnce(key, calls + n - 1), rule);
    }
  }

  /** The first call of an address: it records on nothing, looks, and opens. */
  lemma FirstCall(key: Key, from: Time, rule: Rule)
    ensures At(Run(Start(from), FirstEvents(key), rule), key, 1, 1, 1, from, from, rule)
    ensures Plain(Run(Start(from), FirstEvents(key), rule), key, rule)
  {
    var w := Step(Start(from), Begin(key), rule);
    RunsJoin(Start(from), [Begin(key)], [Advance(0), Advance(0), Advance(0)], rule);
    RunOne(Start(from), Begin(key), rule);
    RunThree(w, Advance(0), Advance(0), Advance(0), rule);
    assert [Begin(key)] + [Advance(0), Advance(0), Advance(0)] == FirstEvents(key);
    assert w.calls == [Recording(key, from, 0)];
    var done := Run(Start(from), FirstEvents(key), rule);
    assert done.calls == [Answered(key, from, true)];
    assert done.calls[..0] == [];
  }

  function FirstEvents(key: Key): seq<Event> {
    [Begin(key), Advance(0), Advance(0), Advance(0)]
  }

  /** A call that finds the counter full, and whose insert comes after the cleanup of it. */
  function Straddle(key: Key, p: nat, wait: nat): seq<Event> {
    [Tick(wait), Begin(key), Advance(p)] + [Tick(1), Clean(0)] + [Advance(p), Advance(p)]
  }

  lemma StraddleLooks(w: World, key: Key, calls: nat, yes: nat, start: Time, rule: Rule)
    requires rule.limit >= 1 && rule.windowMs >= 2
    requires At(w, key, calls, yes, rule.limit, start, start, rule)
    ensures var after := Run(w, [Tick(rule.windowMs - 1), Begin(key), Advance(calls)], rule);
      && after.calls == w.calls + [Looking(key, start + rule.windowMs - 1, 0)]
      && after.clock == start + rule.windowMs - 1 && after.counters == w.counters
  {
    hide Run, YesCount;
    RunThree(w, Tick(rule.windowMs - 1), Begin(key), Advance(calls), rule);
  }

  lemma StraddleCleans(w: World, key: Key, rule: Rule)
    requires key in w.counters && w.counters[key].expiresAt == Until(w.clock + 1)
    ensures var after := Run(w, [Tick(1), Clean(0)], rule);
      after.calls == w.calls && after.clock == w.clock + 1 && key !in after.counters
  {
    hide Run;
    RunTwo(w, Tick(1), Clean(0), rule);
  }

  lemma LookingOpens(w: World, calls: seq<Call>, key: Key, now: Time, rule: Rule)
    requires w.calls == calls + [Looking(key, now, 0)] && key !in w.counters
    ensures var after := Run(w, [Advance(|calls|), Advance(|calls|)], rule);
      && after.calls == calls + [Answered(key, now, true)] && after.clock == w.clock
      && key in after.counters && after.counters[key] == Opened(now, rule.windowMs)
  {
    hide Run;
    RunTwo(w, Advance(|calls|), Advance(|calls|), rule);
    var opening := Step(w, Advance(|calls|), rule);
    assert opening.calls == calls + [Opening(key, now, 0)];
    assert opening.calls[|calls| := Answered(key, now, true)] == calls + [Answered(key, now, true)];
  }

  lemma StraddleOpens(w: World, key: Key, calls: nat, yes: nat, start: Time, rule: Rule)
    requires rule.limit >= 1 && rule.windowMs >= 2
    requires At(w, key, calls, yes, rule.limit, start, start, rule) && Plain(w, key, rule)
    ensures At(Run(w, Straddle(key, calls, rule.windowMs - 1), rule), key, calls + 1, yes + 1, 1,
               start + rule.windowMs - 1, start + rule.windowMs, rule)
  {
    hide Run, YesCount;
    var wait := rule.windowMs - 1;
    var now := start + wait;
    var one, two, three := [Tick(wait), Begin(key), Advance(calls)], [Tick(1), Clean(0)], [Advance(calls), Advance(calls)];
    StraddleLooks(w, key, calls, yes, start, rule);
    StraddleCleans(Run(w, one, rule), key, rule);
    LookingOpens(Run(Run(w, one, rule), two, rule), w.calls, key, now, rule);
    YesOnBegin(w.calls, Answered(key, now, true), key);
    RunsJoin(w, one, two, rule);
    RunsJoin(w, one + two, three, rule);
  }

  /** A call that begins inside the window and makes its first statement on a row that a guess inserted. */
  function GuessStraddle(key: Key, p: nat, wait: nat): seq<Event> {
    [Tick(wait), Begin(key)] + [Tick(1), Clean(0)] + [Guess(key, 0), Advance(p)]
  }

  lemma BeginsInside(w: World, key: Key, wait: nat, rule: Rule)
    ensures Run(w, [Tick(wait), Begin(key)], rule) ==
      w.(clock := w.clock + wait, calls := w.calls + [Recording(key, w.clock + wait, 0)])
  {
    RunTwo(w, Tick(wait), Begin(key), rule);
  }

  lemma GuessedRowRolls(w: World, calls: seq<Call>, key: Key, now: Time, rule: Rule)
    requires w.calls == calls + [Recording(key, now, 0)] && key !in w.counters
    requires now >= NO_MAIL_WINDOW + rule.windowMs
    ensures var after := Run(w, [Guess(key, 0), Advance(|calls|)], rule);
      && after.calls == calls + [Answered(key, now, true)] && after.clock == w.clock
      && key in after.counters && after.counters[key].mailed == 1 && after.counters[key].startedAt == Some(now)
  {
    hide Run, AfterGuess;
    RunTwo(w, Guess(key, 0), Advance(|calls|), rule);
    GuessMovesNoWindow(w.counters, key, w.clock, rule);
    var guessed := Step(w, Guess(key, 0), rule);
    assert guessed.calls[|calls| := Answered(key, now, true)] == calls + [Answered(key, now, true)];
  }

  lemma GuessStraddleOpens(w: World, key: Key, calls: nat, yes: nat, start: Time, rule: Rule)
    requires rule.limit >= 1 && rule.windowMs >= 2 && start >= NO_MAIL_WINDOW + rule.windowMs
    requires At(w, key, calls, yes, rule.limit, start, start, rule) && Plain(w, key, rule)
    ensures At(Run(w, GuessStraddle(key, calls, rule.windowMs - 1), rule), key, calls + 1, yes + 1, 1,
               start + rule.windowMs - 1, start + rule.windowMs, rule)
  {
    hide Run, YesCount;
    var wait := rule.windowMs - 1;
    var now := start + wait;
    var one, two, three := [Tick(wait), Begin(key)], [Tick(1), Clean(0)], [Guess(key, 0), Advance(calls)];
    BeginsInside(w, key, wait, rule);
    StraddleCleans(Run(w, one, rule), key, rule);
    GuessedRowRolls(Run(Run(w, one, rule), two, rule), w.calls, key, now, rule);
    YesOnBegin(w.calls, Answered(key, now, true), key);
    RunsJoin(w, one, two, rule);
    RunsJoin(w, one + two, three, rule);
  }

  /** The straddling call inserts the row itself, or counts on one that a guess inserted. */
  function StraddleBy(guess: bool, key: Key, p: nat, wait: nat): seq<Event> {
    if guess then GuessStraddle(key, p, wait) else Straddle(key, p, wait)
  }

  /** Three full limits, in two windows' time less a moment. */
  function Overrun(guess: bool, key: Key, rule: Rule): seq<Event>
    requires rule.limit >= 1 && rule.windowMs >= 2
  {
    var n := rule.limit;
    FirstEvents(key) + Burst(key, 1, n - 1)
    + (StraddleBy(guess, key, n, rule.windowMs - 1) + Burst(key, n + 1, n - 1))
    + ([Tick(rule.windowMs - 1)] + CallOnce(key, 2 * n) + Burst(key, 2 * n + 1, n - 1))
  }

  lemma FirstWindow(key: Key, from: Time, rule: Rule)
    requires rule.limit >= 1 && rule.windowMs >= 2
    ensures var n := rule.limit;
      At(Run(Start(from), FirstEvents(key) + Burst(key, 1, n - 1), rule), key, n, n, n, from, from, rule)
    ensures Plain(Run(Start(from), FirstEvents(key) + Burst(key, 1, rule.limit - 1), rule), key, rule)
  {
    hide Run, At, Burst, YesCount, Plain, FirstEvents;
    FirstCall(key, from, rule);
    var w := Run(Start(from), FirstEvents(key), rule);
    BurstFills(w, key, 1, 1, 1, from, from, rule.limit - 1, rule);
    RunsJoin(Start(from), FirstEvents(key), Burst(key, 1, rule.limit - 1), rule);
  }

  lemma StraddleByOpens(w: World, guess: bool, key: Key, calls: nat, yes: nat, start: Time, rule: Rule)
    requires rule.limit >= 1 && rule.windowMs >= 2 && (guess ==> start >= NO_MAIL_WINDOW + rule.windowMs)
    requires At(w, key, calls, yes, rule.limit, start, start, rule) && Plain(w, key, rule)
    ensures At(Run(w, StraddleBy(guess, key, calls, rule.windowMs - 1), rule), key, calls + 1, yes + 1, 1,
               start + rule.windowMs - 1, start + rule.windowMs, rule)
  {
    hide Run, At, Plain, Straddle, GuessStraddle;
    if guess {
      GuessStraddleOpens(w, key, calls, yes, start, rule);
    } else {
      StraddleOpens(w, key, calls, yes, start, rule);
    }
  }

  lemma SecondWindow(w: World, guess: bool, key: Key, from: Time, rule: Rule)
    requires rule.limit >= 1 && rule.windowMs >= 2 && (guess ==> from >= NO_MAIL_WINDOW + rule.windowMs)
    requires At(w, key, rule.limit, rule.limit, rule.limit, from, from, rule) && Plain(w, key, rule)
    ensures var n, width := rule.limit, rule.windowMs;
      At(Run(w, StraddleBy(guess, key, n, width - 1) + Burst(key, n + 1, n - 1), rule), key, 2 * n, 2 * n, n,
         from + width - 1, from + width, rule)
  {
    hide Run, At, StraddleBy, Burst, YesCount, Plain;
    var n, width := rule.limit, rule.windowMs;
    StraddleByOpens(w, guess, key, n, n, from, rule);
    var opening := Run(w, StraddleBy(guess, key, n, width - 1), rule);
    BurstFills(opening, key, n + 1, n + 1, 1, from + width - 1, from + width, n - 1, rule);
    RunsJoin(w, StraddleBy(guess, key, n, width - 1), Burst(key, n + 1, n - 1), rule);
  }

  lemma ThirdWindow(w: World, key: Key, from: Time, rule: Rule)
    requires rule.limit >= 1 && rule.windowMs >= 2
    requires At(w, key, 2 * rule.limit, 2 * rule.limit, rule.limit, from + rule.windowMs - 1, from + rule.windowMs, rule)
    ensures var n, width := rule.limit, rule.windowMs;
      At(Run(w, [Tick(width - 1)] + CallOnce(key, 2 * n) + Burst(key, 2 * n + 1, n - 1), rule), key, 3 * n, 3 * n, n,
         from + 2 * width - 1, from + 2 * width - 1, rule)
  {
    hide Run, Burst, YesCount, CallOnce;
    var n, width := rule.limit, rule.windowMs;
    var clock := from + 2 * width - 1;
    RunOne(w, Tick(width - 1), rule);
    var later := Run(w, [Tick(width - 1)], rule);
    OneMoreCall(later, key, 2 * n, 2 * n, n, from + width - 1, clock, rule);
    RunsJoin(w, [Tick(width - 1)], CallOnce(key, 2 * n), rule);
    var rolled := Run(w, [Tick(width - 1)] + CallOnce(key, 2 * n), rule);
    BurstFills(rolled, key, 2 * n + 1, 2 * n + 1, 1, clock, clock, n - 1, rule);
    RunsJoin(w, [Tick(width - 1)] + CallOnce(key, 2 * n), Burst(key, 2 * n + 1, n - 1), rule);
  }

  /**
   Under every rule there is a run that sends three limits where the cap allows two: an address is
   filled, one more call reads the clock in the window's last moment, cleanup removes the counter in
   the next, and that call starts a window still stamped with the moment before. It inserts the row
   itself, or a guess at a code has inserted it.
   */
  lemma StraddledWindowBreaksTheCap(guess: bool, key: Key, from: Time, rule: Rule)
    requires rule.limit >= 1 && rule.windowMs >= 2 && (guess ==> from >= NO_MAIL_WINDOW + rule.windowMs)
    ensures var w := Run(Start(from), Overrun(guess, key, rule), rule);
      && YesCount(w.calls, key) == 3 * rule.limit
      && w.clock - from == 2 * rule.windowMs - 1
      && YesCount(w.calls, key) > rule.limit * (1 + (w.clock - from) / rule.windowMs)
  {
    hide Run, Burst, YesCount, CallOnce, FirstEvents, StraddleBy, Plain;
    var n, width := rule.limit, rule.windowMs;
    var first, second := FirstEvents(key) + Burst(key, 1, n - 1), StraddleBy(guess, key, n, width - 1) + Burst(key, n + 1, n - 1);
    var third := [Tick(width - 1)] + CallOnce(key, 2 * n) + Burst(key, 2 * n + 1, n - 1);
    FirstWindow(key, from, rule);
    SecondWindow(Run(Start(from), first, rule), guess, key, from, rule);
    RunsJoin(Start(from), first, second, rule);
    ThirdWindow(Run(Start(from), first + second, rule), key, from, rule);
    RunsJoin(Start(from), first + second, third, rule);
    OneWhole(width);
    Doubles(n, (2 * width - 1) / width);
  }
}
