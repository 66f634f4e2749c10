/**
 The cap itself, over every interleaving of calls, cleanup and time. A mail is sent for every call
 answered yes, so the mails of an address are its yes answers.
 */
module MailCap {
  import opened Options
  import opened MailCounters
  import opened MailCalls
  import opened Windows

  /** A window's start: the moment its call had captured, and the clock when its statement ran. */
  datatype Begun = Begun(stamp: Time, clock: Time)

  /** The next statement of the call starts a window for the key. */
  predicate BeginsWindow(w: World, event: Event, key: Key, rule: Rule) {
    && event.Advance? && event.p < |w.calls|
    && var call := w.calls[event.p];
       call.key == key &&
       if key in w.counters then call.Recording? && RolledOver(w.counters[key], call.now, rule.windowMs)
       else call.Opening?
  }

  /** The windows a run has started for the key, in order. */
  function Begins(w: World, events: seq<Event>, key: Key, rule: Rule): seq<Begun> {
    if events == [] then []
    else
      var before, last := Run(w, events[..|events| - 1], rule), events[|events| - 1];
      Begins(w, events[..|events| - 1], key, rule) +
      if BeginsWindow(before, last, key, rule) then [Begun(before.calls[last.p].now, before.clock)] else []
  }

  function Stamps(begins: seq<Begun>): seq<Time> {
    seq(|begins|, i requires 0 <= i < |begins| => begins[i].stamp)
  }

  function Clocks(begins: seq<Begun>): seq<Time> {
    seq(|begins|, i requires 0 <= i < |begins| => begins[i].clock)
  }

  /** No row of the key has a window of its own: there is none, or a guess inserted it. */
  predicate NoWindow(w: World, key: Key) {
    key in w.counters ==> Blank(w.counters[key])
  }

  /** What is known of one key once `begins` are its windows. */
  ghost predicate Within(w: World, key: Key, begins: seq<Begun>, from: Time, rule: Rule) {
    var n := |begins|;
    && NO_MAIL_WINDOW + rule.windowMs <= from <= w.clock
    && YesCount(w.calls, key) <= rule.limit * n
    && (forall i :: 0 <= i < n ==> from <= begins[i].stamp <= begins[i].clock <= w.clock)
    && (forall i :: 0 < i < n ==> begins[i - 1].stamp + rule.windowMs <= begins[i].clock)
    && (forall p :: 0 <= p < |w.calls| ==> from <= w.calls[p].now <= w.clock)
    && (if NoWindow(w, key) then
          n > 0 ==> begins[n - 1].stamp + rule.windowMs <= w.clock
        else
          var counter := w.counters[key];
          && n > 0 && Timed(counter, rule.windowMs) && counter.startedAt == Some(begins[n - 1].stamp)
          && 1 <= counter.mailed <= rule.limit
          && YesCount(w.calls, key) <= rule.limit * (n - 1) + counter.mailed)
  }

  lemma NextWindow(factor: int, n: int)
    ensures factor * (n + 1) == factor * n + factor
  {}

  ghost function NewBegins(w: World, event: Event, key: Key, rule: Rule): seq<Begun> {
    if BeginsWindow(w, event, key, rule) then [Begun(w.calls[event.p].now, w.clock)] else []
  }

  /** The statement starts a window: a whole limit more is allowed, and one mail of it is spent. */
  lemma WindowStaysWithin(w: World, p: nat, key: Key, begins: seq<Begun>, from: Time, rule: Rule)
    requires rule.limit >= 1 && rule.windowMs > 0 && p < |w.calls|
    requires Within(w, key, begins, from, rule) && BeginsWindow(w, Advance(p), key, rule)
    ensures Within(
      Step(w, Advance(p), rule), key, begins + [Begun(w.calls[p].now, w.clock)], from, rule)
  {
    YesAfter(w.calls, p, Answered(key, w.calls[p].now, true), key);
    NextWindow(rule.limit, |begins| - 1);
    NextWindow(rule.limit, |begins|);
  }

  /** Any other statement leaves the windows, and counts a mail only inside the last one. */
  lemma OtherStaysWithin(w: World, p: nat, key: Key, begins: seq<Begun>, from: Time, rule: Rule)
    requires rule.limit >= 1 && rule.windowMs > 0 && p < |w.calls|
    requires Within(w, key, begins, from, rule) && !BeginsWindow(w, Advance(p), key, rule)
    ensures Within(Step(w, Advance(p), rule), key, begins, from, rule)
  {
    hide Kept, Statement;
    var next := Statement(w.counters, w.calls[p], rule).1;
    if SaidYes(w.calls[p], key) {
      StillAnswered(w.counters, w.calls[p], rule);
      assert w.calls[p := next] == w.calls;
    } else {
      YesAfter(w.calls, p, next, key);
    }
    NextWindow(rule.limit, |begins| - 1);
    OtherCounter(w, p, key, rule);
  }

  lemma StillAnswered(counters: Counters, call: Call, rule: Rule)
    requires call.Answered?
    ensures Statement(counters, call, rule) == (counters, call)
  {}

  lemma OtherCounter(w: World, p: nat, key: Key, rule: Rule)
    requires p < |w.calls| && !BeginsWindow(w, Advance(p), key, rule)
    requires w.calls[p].now >= NO_MAIL_WINDOW + rule.windowMs
    ensures var (after, next) := Statement(w.counters, w.calls[p], rule);
      var yes := !SaidYes(w.calls[p], key) && SaidYes(next, key);
      && next.now == w.calls[p].now
      && if key in w.counters then
           && key in after && after[key].startedAt == w.counters[key].startedAt
           && after[key].mailed == w.counters[key].mailed + (if yes then 1 else 0)
           && (yes ==> w.counters[key].mailed < rule.limit && !Blank(w.counters[key]))
           && (Timed(w.counters[key], rule.windowMs) ==> Timed(after[key], rule.windowMs))
         else key !in after && !yes
  {}

  /** What falls between the calls leaves the windows, and the mails of a stored one. */
  lemma BetweenStaysWithin(w: World, after: World, key: Key, begins: seq<Begun>, from: Time, rule: Rule)
    requires Within(w, key, begins, from, rule) && after.calls == w.calls && after.clock >= w.clock
    requires key in w.counters && !Blank(w.counters[key]) && key in after.counters ==>
      && after.counters[key].mailed == w.counters[key].mailed
      && after.counters[key].startedAt == w.counters[key].startedAt && Timed(after.counters[key], rule.windowMs)
    requires NoWindow(w, key) ==> NoWindow(after, key)
    requires key in w.counters && key !in after.counters ==>
      w.counters[key].startedAt.value + rule.windowMs <= after.clock || Blank(w.counters[key])
    ensures Within(after, key, begins, from, rule)
  {}

  lemma GuessStaysWithin(w: World, other: Key, delay: nat, key: Key, begins: seq<Begun>, from: Time, rule: Rule)
    requires Within(w, key, begins, from, rule)
    ensures Within(Step(w, Guess(other, delay), rule), key, begins, from, rule)
  {
    hide AfterGuess, YesCount;
    GuessMovesNoWindow(w.counters, other, w.clock - delay, rule);
    BetweenStaysWithin(w, Step(w, Guess(other, delay), rule), key, begins, from, rule);
  }

  lemma CleanStaysWithin(w: World, age: nat, key: Key, begins: seq<Begun>, from: Time, rule: Rule)
    requires Within(w, key, begins, from, rule)
    ensures Within(Step(w, Clean(age), rule), key, begins, from, rule)
  {
    hide YesCount;
    BetweenStaysWithin(w, Step(w, Clean(age), rule), key, begins, from, rule);
  }

  lemma ForgetStaysWithin(w: World, other: Key, key: Key, begins: seq<Begun>, from: Time, rule: Rule)
    requires Within(w, key, begins, from, rule)
    ensures Within(Step(w, Forget(other), rule), key, begins, from, rule)
  {
    hide YesCount;
    BetweenStaysWithin(w, Step(w, Forget(other), rule), key, begins, from, rule);
  }

  lemma BeginStaysWithin(w: World, other: Key, key: Key, begins: seq<Begun>, from: Time, rule: Rule)
    requires Within(w, key, begins, from, rule)
    ensures Within(Step(w, Begin(other), rule), key, begins, from, rule)
  {
    YesOnBegin(w.calls, Recording(other, w.clock, 0), key);
  }

  lemma TickStaysWithin(w: World, elapsed: nat, key: Key, begins: seq<Begun>, from: Time, rule: Rule)
    requires Within(w, key, begins, from, rule)
    ensures Within(Step(w, Tick(elapsed), rule), key, begins, from, rule)
  {}

  lemma StepStaysWithin(w: World, event: Event, key: Key, begins: seq<Begun>, from: Time, rule: Rule)
    requires rule.limit >= 1 && rule.windowMs > 0
    requires Within(w, key, begins, from, rule)
    ensures Within(Step(w, event, rule), key, begins + NewBegins(w, event, key, rule), from, rule)
  {
    hide Within, Statement, AfterGuess, AfterForget, AfterCleanup, YesCount;
    if !BeginsWindow(w, event, key, rule) { assert begins + NewBegins(w, event, key, rule) == begins; }
    match event
    case Advance(p) =>
      if BeginsWindow(w, event, key, rule) {
        WindowStaysWithin(w, p, key, begins, from, rule);
      } else if p < |w.calls| {
        OtherStaysWithin(w, p, key, begins, from, rule);
      }
    case Begin(other) => BeginStaysWithin(w, other, key, begins, from, rule);
    case Clean(age) => CleanStaysWithin(w, age, key, begins, from, rule);
    case Guess(other, delay) => GuessStaysWithin(w, other, delay, key, begins, from, rule);
    case Forget(other) => ForgetStaysWithin(w, other, key, begins, from, rule);
    case Tick(elapsed) => TickStaysWithin(w, elapsed, key, begins, from, rule);
  }

  lemma {:induction false} RunStaysWithin(from: Time, events: seq<Event>, key: Key, rule: Rule)
    requires rule.limit >= 1 && 0 < rule.windowMs <= from - NO_MAIL_WINDOW
    ensures Within(Run(Start(from), events, rule), key, Begins(Start(from), events, key, rule), from, rule)
  {
    hide Step, BeginsWindow;
    if events != [] {
      var n := |events| - 1;
      RunStaysWithin(from, events[..n], key, rule);
      StepStaysWithin(
        Run(Start(from), events[..n], rule), events[n], key, Begins(Start(from), events[..n], key, rule), from, rule);
    }
  }

  // ---------- When windows overlap ----------

  /**
   A window started where no row has one, by an insert or on a row that a guess inserted, and
   stamped before the end of the window that was there before it.
   */
  predicate Backdates(w: World, event: Event, key: Key, begins: seq<Begun>, rule: Rule) {
    && BeginsWindow(w, event, key, rule) && NoWindow(w, key) && begins != []
    && w.calls[event.p].now < begins[|begins| - 1].stamp + rule.windowMs
  }

  ghost predicate NoneBackdated(from: Time, events: seq<Event>, key: Key, rule: Rule) {
    forall i :: 0 <= i < |events| ==>
      !Backdates(Run(Start(from), events[..i], rule), events[i], key, Begins(Start(from), events[..i], key, rule), rule)
  }

  lemma StampsOf(begins: seq<Begun>, begun: Begun)
    ensures Stamps(begins + [begun]) == Stamps(begins) + [begun.stamp]
    ensures Clocks(begins + [begun]) == Clocks(begins) + [begun.clock]
  {}

  lemma NoneBackdatedBefore(from: Time, events: seq<Event>, key: Key, rule: Rule)
    requires events != []
    ensures var n := |events| - 1;
      NoneBackdated(from, events, key, rule) <==>
        && NoneBackdated(from, events[..n], key, rule)
        && !Backdates(Run(Start(from), events[..n], rule), events[n], key, Begins(Start(from), events[..n], key, rule), rule)
  {
    hide Backdates, Run, Begins;
    var n := |events| - 1;
    forall i | 0 <= i < n ensures events[..n][..i] == events[..i] && events[..n][i] == events[i] {}
  }

  /**
   Two windows of an address overlap exactly when one was started where no row had a window, and
   stamped before the end of the window before it: a row with a window of its own never starts the
   next one early.
   */
  lemma {:induction false} WindowsOverlapExactlyWhenBackdated(from: Time, events: seq<Event>, key: Key, rule: Rule)
    requires rule.limit >= 1 && 0 < rule.windowMs <= from - NO_MAIL_WINDOW
    ensures Spaced(Stamps(Begins(Start(from), events, key, rule)), rule.windowMs) <==>
      NoneBackdated(from, events, key, rule)
  {
    hide Step, Within, Run, Spaced, NoneBackdated;
    if events == [] {
      NothingBackdated(from, key, rule);
    } else {
      var n := |events| - 1;
      var before := Run(Start(from), events[..n], rule);
      var begins := Begins(Start(from), events[..n], key, rule);
      WindowsOverlapExactlyWhenBackdated(from, events[..n], key, rule);
      NoneBackdatedBefore(from, events, key, rule);
      RunStaysWithin(from, events[..n], key, rule);
      if BeginsWindow(before, events[n], key, rule) {
        var begun := Begun(before.calls[events[n].p].now, before.clock);
        StampsOf(begins, begun);
        SpacedOneMore(Stamps(begins), begun.stamp, rule.windowMs);
        BackdatingIsOverlap(before, events[n], key, begins, from, rule);
        assert Begins(Start(from), events, key, rule) == begins + [begun];
      } else {
        assert Begins(Start(from), events, key, rule) == begins;
        NoWindowNoBackdating(before, events[n], key, begins, rule);
      }
    }
  }

  lemma NothingBackdated(from: Time, key: Key, rule: Rule)
    ensures NoneBackdated(from, [], key, rule)
    ensures Spaced(Stamps(Begins(Start(from), [], key, rule)), rule.windowMs)
  {}

  lemma NoWindowNoBackdating(w: World, event: Event, key: Key, begins: seq<Begun>, rule: Rule)
    requires !BeginsWindow(w, event, key, rule)
    ensures !Backdates(w, event, key, begins, rule)
  {}

  lemma BackdatingIsOverlap(w: World, event: Event, key: Key, begins: seq<Begun>, from: Time, rule: Rule)
    requires BeginsWindow(w, event, key, rule) && Within(w, key, begins, from, rule)
    ensures Backdates(w, event, key, begins, rule) <==>
      begins != [] && w.calls[event.p].now < begins[|begins| - 1].stamp + rule.windowMs
  {}

  // ---------- The cap ----------

  /** For any calls whatever: as many windows as fit, and one for every width they overlap. */
  lemma CapWithOverlap(from: Time, events: seq<Event>, key: Key, rule: Rule)
    requires rule.limit >= 1 && 0 < rule.windowMs <= from - NO_MAIL_WINDOW
    ensures var w := Run(Start(from), events, rule);
      var overlap := Overlap(Stamps(Begins(Start(from), events, key, rule)), rule.windowMs);
      YesCount(w.calls, key) <= rule.limit * (1 + (w.clock - from + overlap) / rule.windowMs)
  {
    hide Run, Begins;
    var w := Run(Start(from), events, rule);
    var stamps := Stamps(Begins(Start(from), events, key, rule));
    RunStaysWithin(from, events, key, rule);
    CountFits(stamps, rule.windowMs, from, w.clock);
    Scale(rule.limit, |stamps|, 1 + (w.clock - from + Overlap(stamps, rule.windowMs)) / rule.windowMs);
  }

  /** The cap as documented holds over every run in which no window is backdated. */
  lemma CapHoldsUnlessBackdated(from: Time, events: seq<Event>, key: Key, rule: Rule)
    requires rule.limit >= 1 && 0 < rule.windowMs <= from - NO_MAIL_WINDOW && NoneBackdated(from, events, key, rule)
    ensures var w := Run(Start(from), events, rule);
      YesCount(w.calls, key) <= rule.limit * (1 + (w.clock - from) / rule.windowMs)
  {
    hide Run, Begins, NoneBackdated;
    WindowsOverlapExactlyWhenBackdated(from, events, key, rule);
    NoOverlapIsSpaced(Stamps(Begins(Start(from), events, key, rule)), rule.windowMs);
    CapWithOverlap(from, events, key, rule);
  }

  // ---------- A condition on cleanup alone ----------

  /** A call of the key is under way whose moment lies before `until`. */
  predicate IsBehind(call: Call, key: Key, until: Time) {
    !call.Answered? && call.key == key && call.now < until
  }

  /** Cleanup takes the counter of the key while a call stamped inside its window is under way. */
  predicate RemovesEarly(w: World, event: Event, key: Key, rule: Rule) {
    && event.Clean? && key in w.counters && !Blank(w.counters[key]) && key !in AfterCleanup(w.counters, w.clock - event.age)
    && w.counters[key].startedAt.Some?
    && exists p :: 0 <= p < |w.calls| && IsBehind(w.calls[p], key, w.counters[key].startedAt.value + rule.windowMs)
  }

  ghost predicate NoneRemovedEarly(from: Time, events: seq<Event>, key: Key, rule: Rule) {
    forall i :: 0 <= i < |events| ==> !RemovesEarly(Run(Start(from), events[..i], rule), events[i], key, rule)
  }

  /** Once the window is gone, no call under way is still inside it. */
  ghost predicate Apart(w: World, key: Key, begins: seq<Begun>, rule: Rule) {
    NoWindow(w, key) && begins != [] ==>
      forall p :: 0 <= p < |w.calls| ==> !IsBehind(w.calls[p], key, begins[|begins| - 1].stamp + rule.windowMs)
  }

  lemma AdvanceStaysApart(w: World, p: nat, key: Key, begins: seq<Begun>, from: Time, rule: Rule)
    requires rule.limit >= 1 && rule.windowMs > 0 && p < |w.calls|
    requires Within(w, key, begins, from, rule) && Apart(w, key, begins, rule)
    ensures Apart(Step(w, Advance(p), rule), key, begins + NewBegins(w, Advance(p), key, rule), rule)
  {
    hide Statement, YesCount, Timed;
    StatementKeeps(w.counters, w.calls[p], key, rule);
    if BeginsWindow(w, Advance(p), key, rule) {
      BegunIsNoBlank(w, p, key, rule);
    } else {
      assert begins + NewBegins(w, Advance(p), key, rule) == begins;
    }
  }

  lemma StatementKeeps(counters: Counters, call: Call, key: Key, rule: Rule)
    ensures var (after, next) := Statement(counters, call, rule);
      && next.key == call.key && next.now == call.now && (call.Answered? ==> next == call)
      && (key in counters && !Blank(counters[key]) && counters[key].mailed >= 0 ==>
            key in after && !Blank(after[key]))
  {}

  lemma BegunIsNoBlank(w: World, p: nat, key: Key, rule: Rule)
    requires BeginsWindow(w, Advance(p), key, rule)
    ensures !NoWindow(Step(w, Advance(p), rule), key)
  {}

  lemma StepStaysApart(w: World, event: Event, key: Key, begins: seq<Begun>, from: Time, rule: Rule)
    requires rule.limit >= 1 && rule.windowMs > 0
    requires Within(w, key, begins, from, rule) && Apart(w, key, begins, rule) && !RemovesEarly(w, event, key, rule)
    ensures Apart(Step(w, event, rule), key, begins + NewBegins(w, event, key, rule), rule)
  {
    hide YesCount, AfterGuess, Statement;
    if event.Advance? && event.p < |w.calls| {
      AdvanceStaysApart(w, event.p, key, begins, from, rule);
    } else {
      assert begins + NewBegins(w, event, key, rule) == begins;
      if event.Guess? { GuessMovesNoWindow(w.counters, event.key, w.clock - event.delay, rule); }
    }
  }

  lemma {:induction false} RunStaysApart(from: Time, events: seq<Event>, key: Key, rule: Rule)
    requires rule.limit >= 1 && 0 < rule.windowMs <= from - NO_MAIL_WINDOW && NoneRemovedEarly(from, events, key, rule)
    ensures Apart(Run(Start(from), events, rule), key, Begins(Start(from), events, key, rule), rule)
    ensures NoneBackdated(from, events, key, rule)
  {
    hide Step, BeginsWindow, RemovesEarly, Apart, Within, Backdates;
    if events == [] {
      NothingApart(from, key, rule);
    } else {
      var n := |events| - 1;
      forall i | 0 <= i < n ensures events[..n][..i] == events[..i] && events[..n][i] == events[i] {}
      var before, begins := Run(Start(from), events[..n], rule), Begins(Start(from), events[..n], key, rule);
      RunStaysApart(from, events[..n], key, rule);
      RunStaysWithin(from, events[..n], key, rule);
      StepStaysApart(before, events[n], key, begins, from, rule);
      ApartIsNotBackdated(before, events[n], key, begins, rule);
      NoneBackdatedBefore(from, events, key, rule);
    }
  }

  lemma NothingApart(from: Time, key: Key, rule: Rule)
    ensures Apart(Run(Start(from), [], rule), key, Begins(Start(from), [], key, rule), rule)
  {}

  lemma ApartIsNotBackdated(w: World, event: Event, key: Key, begins: seq<Begun>, rule: Rule)
    requires Apart(w, key, begins, rule)
    ensures !Backdates(w, event, key, begins, rule)
  {
    if BeginsWindow(w, event, key, rule) && NoWindow(w, key) && begins != [] {
      assert !IsBehind(w.calls[event.p], key, begins[|begins| - 1].stamp + rule.windowMs);
    }
  }

  /** What a cleanup job can see to: a counter stays while a call stamped inside its window is under way. */
  lemma CapHoldsWhenNoneRemovedEarly(from: Time, events: seq<Event>, key: Key, rule: Rule)
    requires rule.limit >= 1 && 0 < rule.windowMs <= from - NO_MAIL_WINDOW && NoneRemovedEarly(from, events, key, rule)
    ensures NoneBackdated(from, events, key, rule)
    ensures var w := Run(Start(from), events, rule);
      YesCount(w.calls, key) <= rule.limit * (1 + (w.clock - from) / rule.windowMs)
  {
    hide Run, Begins, NoneBackdated, NoneRemovedEarly;
    RunStaysApart(from, events, key, rule);
    CapHoldsUnlessBackdated(from, events, key, rule);
  }

  // ---------- A condition on calls alone ----------

  /** No call makes the statement that starts a window more than `late` after it read the clock. */
  ghost predicate Prompt(begins: seq<Begun>, late: nat) {
    forall i :: 0 <= i < |begins| ==> begins[i].clock <= begins[i].stamp + late
  }

  /** With calls no later than `late` the cap holds for windows shorter by that much. */
  lemma CapHoldsForPromptCalls(from: Time, events: seq<Event>, key: Key, rule: Rule, late: nat)
    requires rule.limit >= 1 && late < rule.windowMs <= from - NO_MAIL_WINDOW
    requires Prompt(Begins(Start(from), events, key, rule), late)
    ensures var w := Run(Start(from), events, rule);
      YesCount(w.calls, key) <= rule.limit * (1 + (w.clock - from) / (rule.windowMs - late))
  {
    hide Run, Begins;
    var w := Run(Start(from), events, rule);
    var begins := Begins(Start(from), events, key, rule);
    var clocks, width := Clocks(begins), rule.windowMs - late;
    RunStaysWithin(from, events, key, rule);
    NextClocksSpaced(begins, width);
    NoOverlapIsSpaced(clocks, width);
    CountFits(clocks, width, from, w.clock);
    Scale(rule.limit, |clocks|, 1 + (w.clock - from) / width);
  }

  lemma {:induction false} NextClocksSpaced(begins: seq<Begun>, width: nat)
    requires width > 0
    requires forall i :: 0 < i < |begins| ==> begins[i - 1].clock + width <= begins[i].clock
    ensures Spaced(Clocks(begins), width)
  {
    if begins != [] {
      var n := |begins| - 1;
      NextClocksSpaced(begins[..n], width);
      assert begins[..n] + [begins[n]] == begins;
      StampsOf(begins[..n], begins[n]);
      SpacedOneMore(Clocks(begins[..n]), begins[n].clock, width);
    }
  }
}
