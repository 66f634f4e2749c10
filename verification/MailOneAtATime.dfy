/**
 Calls of an address that come one at a time: other addresses' calls, guesses, time and cleanup
 still fall anywhere between their statements. Then cleanup changes no answer.
 */
module MailOneAtATime {
  import opened Options
  import opened MailCounters
  import opened MailCalls
  import opened MailCleanup

  predicate InFlight(w: World, p: nat, key: Key) {
    p < |w.calls| && w.calls[p].key == key && !w.calls[p].Answered?
  }

  ghost predicate OneAtATime(w: World, key: Key) {
    forall p: nat, q: nat :: InFlight(w, p, key) && InFlight(w, q, key) ==> p == q
  }

  ghost predicate NoneInFlight(w: World, key: Key) {
    forall p: nat :: !InFlight(w, p, key)
  }

  /** A call in flight would start a window at its next statement. */
  ghost predicate AllWouldRoll(w: World, counter: Counter, key: Key, rule: Rule) {
    forall p: nat :: InFlight(w, p, key) ==> w.calls[p].Recording? && RolledOver(counter, w.calls[p].now, rule.windowMs)
  }

  /**
   A call begins when none of its address is in flight, cleanup leaves a counter a call still needs,
   and a guess inserts no row under a call that could not count on it.
   */
  ghost predicate Orderly(w: World, event: Event, key: Key, rule: Rule) {
    && (event == Begin(key) ==> NoneInFlight(w, key))
    && (event.Clean? && Removes(w.counters, w.clock - event.age, key) ==>
          AllWouldRoll(w, w.counters[key], key, rule))
    && (event.Guess? && event.key == key && key !in w.counters ==>
          forall p: nat :: InFlight(w, p, key) ==> !NeedsNoRow(w.calls[p]))
  }

  ghost predicate OrderlyRun(w: World, events: seq<Event>, key: Key, rule: Rule) {
    forall i :: 0 <= i < |events| ==> Orderly(Run(w, events[..i], rule), events[i], key, rule)
  }

  // ---------- The run with cleanup beside the run without ----------

  predicate SameCount(one: Counter, other: Counter) {
    one.mailed == other.mailed && one.startedAt == other.startedAt
  }

  ghost predicate SameCalls(c: World, m: World, key: Key) {
    && |c.calls| == |m.calls|
    && forall p :: 0 <= p < |c.calls| && c.calls[p].key == key ==> m.calls[p] == c.calls[p]
  }

  /** The window is kept for its time, or there is none. */
  predicate Sound(counter: Counter, rule: Rule) {
    Timed(counter, rule.windowMs) || Blank(counter)
  }

  /** Nothing to tell them apart. */
  ghost predicate Alike(c: World, m: World, key: Key, rule: Rule) {
    && SameCalls(c, m, key)
    && (key in c.counters <==> key in m.counters)
    && (key in c.counters ==> SameCount(c.counters[key], m.counters[key]) && Sound(c.counters[key], rule))
  }

  /** With cleanup there is no row with a window: it was taken, and a guess may have inserted one since. */
  predicate Windowless(c: World, m: World, key: Key) {
    (key in c.counters ==> Blank(c.counters[key])) && key in m.counters
  }

  /** Cleanup took a counter whose window is over for every call that may still come to it. */
  ghost predicate Gone(c: World, m: World, key: Key, rule: Rule) {
    && SameCalls(c, m, key) && Windowless(c, m, key)
    && RolledOver(m.counters[key], m.clock, rule.windowMs)
    && AllWouldRoll(c, m.counters[key], key, rule)
  }

  /**
   A call that has already started a window without cleanup is about to start it with cleanup: by an
   insert, or on the row a guess inserted.
   */
  ghost predicate HalfWay(c: World, m: World, key: Key, p: nat, rule: Rule) {
    && |c.calls| == |m.calls|
    && InFlight(c, p, key) && Windowless(c, m, key)
    && (key in c.counters ==> !NeedsNoRow(c.calls[p]))
    && m.calls[p] == Answered(key, c.calls[p].now, true)
    && (forall q :: 0 <= q < |c.calls| && q != p && c.calls[q].key == key ==> m.calls[q] == c.calls[q])
    && m.counters[key].mailed == 1 && m.counters[key].startedAt == Some(c.calls[p].now)
  }

  /** Every call reads a clock on which the window of a guessed row is long over. */
  ghost predicate Modern(w: World, key: Key, rule: Rule) {
    && NO_MAIL_WINDOW + rule.windowMs <= w.clock
    && forall p :: 0 <= p < |w.calls| && w.calls[p].key == key ==> NO_MAIL_WINDOW + rule.windowMs <= w.calls[p].now
  }

  ghost predicate Mirrors(c: World, m: World, key: Key, rule: Rule) {
    && c.clock == m.clock && |c.calls| == |m.calls| && Modern(c, key, rule)
    && (forall p :: 0 <= p < |c.calls| ==> c.calls[p].key == m.calls[p].key)
    && OneAtATime(c, key)
    && (Alike(c, m, key, rule) || Gone(c, m, key, rule) || exists p: nat :: HalfWay(c, m, key, p, rule))
  }

  /** A statement of another key touches neither the counter nor the calls of this one. */
  lemma OtherKeys(counters: Counters, call: Call, key: Key, rule: Rule)
    ensures var (after, next) := Statement(counters, call, rule);
      && next.key == call.key && next.now == call.now
      && (call.Answered? ==> after == counters && next == call)
      && (call.key != key ==> (key in after <==> key in counters) && (key in counters ==> after[key] == counters[key]))
  {}

  lemma AnswersStay(c: World, p: nat, key: Key, rule: Rule)
    requires OneAtATime(c, key) && Modern(c, key, rule)
    ensures OneAtATime(Step(c, Advance(p), rule), key) && Modern(Step(c, Advance(p), rule), key, rule)
  {
    hide Statement;
    if p < |c.calls| {
      OtherKeys(c.counters, c.calls[p], key, rule);
      forall q: nat | InFlight(Step(c, Advance(p), rule), q, key) ensures InFlight(c, q, key) {}
    }
  }

  lemma OtherAdvances(c: World, m: World, key: Key, p: nat, rule: Rule)
    requires Mirrors(c, m, key, rule) && p < |c.calls|
    requires c.calls[p].key != key || c.calls[p].Answered?
    ensures Mirrors(Step(c, Advance(p), rule), Step(m, Advance(p), rule), key, rule)
  {
    hide Statement, Kept, Timed, RolledOver;
    AnswersStay(c, p, key, rule);
    OtherKeys(c.counters, c.calls[p], key, rule);
    OtherKeys(m.counters, m.calls[p], key, rule);
    var (c1, m1) := (Step(c, Advance(p), rule), Step(m, Advance(p), rule));
    assert forall q: nat :: InFlight(c1, q, key) <==> InFlight(c, q, key);
    if q: nat :| HalfWay(c, m, key, q, rule) {
      assert q != p;
      assert HalfWay(c1, m1, key, q, rule);
    }
  }

  lemma AlikeAdvances(c: World, m: World, key: Key, p: nat, rule: Rule)
    requires Mirrors(c, m, key, rule) && Alike(c, m, key, rule) && InFlight(c, p, key)
    ensures Mirrors(Step(c, Advance(p), rule), Step(m, Advance(p), rule), key, rule)
  {
    AnswersStay(c, p, key, rule);
    var (c1, m1) := (Step(c, Advance(p), rule), Step(m, Advance(p), rule));
    assert Alike(c1, m1, key, rule);
  }

  /** With a guessed row the call starts the window at once; without any it first has to look. */
  lemma GoneAdvances(c: World, m: World, key: Key, p: nat, rule: Rule)
    requires Mirrors(c, m, key, rule) && Gone(c, m, key, rule) && InFlight(c, p, key)
    ensures Mirrors(Step(c, Advance(p), rule), Step(m, Advance(p), rule), key, rule)
  {
    AnswersStay(c, p, key, rule);
    var (c1, m1) := (Step(c, Advance(p), rule), Step(m, Advance(p), rule));
    if key in c.counters {
      assert Alike(c1, m1, key, rule);
    } else {
      assert HalfWay(c1, m1, key, p, rule);
    }
  }

  lemma HalfWayAdvances(c: World, m: World, key: Key, p: nat, rule: Rule)
    requires Mirrors(c, m, key, rule) && HalfWay(c, m, key, p, rule)
    ensures Mirrors(Step(c, Advance(p), rule), Step(m, Advance(p), rule), key, rule)
  {
    AnswersStay(c, p, key, rule);
    var (c1, m1) := (Step(c, Advance(p), rule), Step(m, Advance(p), rule));
    if c1.calls[p].Answered? {
      assert Alike(c1, m1, key, rule);
    } else {
      assert HalfWay(c1, m1, key, p, rule);
    }
  }

  lemma AdvanceMirrors(c: World, m: World, key: Key, p: nat, rule: Rule)
    requires Mirrors(c, m, key, rule)
    ensures Mirrors(Step(c, Advance(p), rule), Step(m, Advance(p), rule), key, rule)
  {
    hide Step, Alike, Gone;
    if !InFlight(c, p, key) {
      if p < |c.calls| { OtherAdvances(c, m, key, p, rule); } else { PastTheEnd(c, m, p, rule); }
    } else if Alike(c, m, key, rule) {
      AlikeAdvances(c, m, key, p, rule);
    } else if Gone(c, m, key, rule) {
      GoneAdvances(c, m, key, p, rule);
    } else {
      var q: nat :| HalfWay(c, m, key, q, rule);
      HalfWayAdvances(c, m, key, q, rule);
    }
  }

  lemma PastTheEnd(c: World, m: World, p: nat, rule: Rule)
    requires |c.calls| == |m.calls| <= p
    ensures Step(c, Advance(p), rule) == c && Step(m, Advance(p), rule) == m
  {}

  lemma BeginMirrors(c: World, m: World, key: Key, begun: Key, rule: Rule)
    requires Mirrors(c, m, key, rule) && Orderly(c, Begin(begun), key, rule)
    ensures Mirrors(Step(c, Begin(begun), rule), Step(m, Begin(begun), rule), key, rule)
  {
    hide Kept;
    var (c1, m1) := (Step(c, Begin(begun), rule), Step(m, Begin(begun), rule));
    forall q: nat | InFlight(c1, q, key) ensures InFlight(c, q, key) || (q == |c.calls| && begun == key) {}
    if q: nat :| HalfWay(c, m, key, q, rule) {
      assert HalfWay(c1, m1, key, q, rule);
    } else if Gone(c, m, key, rule) {
      assert Gone(c1, m1, key, rule);
    } else {
      assert Alike(c1, m1, key, rule);
    }
  }

  lemma TickMirrors(c: World, m: World, key: Key, elapsed: nat, rule: Rule)
    requires Mirrors(c, m, key, rule)
    ensures Mirrors(Step(c, Tick(elapsed), rule), Step(m, Tick(elapsed), rule), key, rule)
  {
    hide Kept;
    var (c1, m1) := (Step(c, Tick(elapsed), rule), Step(m, Tick(elapsed), rule));
    assert forall q: nat :: InFlight(c1, q, key) <==> InFlight(c, q, key);
    if q: nat :| HalfWay(c, m, key, q, rule) {
      assert HalfWay(c1, m1, key, q, rule);
    } else if Gone(c, m, key, rule) {
      assert Gone(c1, m1, key, rule);
    } else {
      assert Alike(c1, m1, key, rule);
    }
  }

  lemma CleanMirrors(c: World, m: World, key: Key, age: nat, rule: Rule)
    requires Mirrors(c, m, key, rule) && Orderly(c, Clean(age), key, rule)
    ensures Mirrors(Step(c, Clean(age), rule), m, key, rule)
  {
    var c1 := Step(c, Clean(age), rule);
    assert forall q: nat :: InFlight(c1, q, key) <==> InFlight(c, q, key);
    if q: nat :| HalfWay(c, m, key, q, rule) {
      assert HalfWay(c1, m, key, q, rule);
    } else if Gone(c, m, key, rule) {
      assert Gone(c1, m, key, rule);
    } else if Removes(c.counters, c.clock - age, key) {
      assert Gone(c1, m, key, rule);
    } else {
      assert Alike(c1, m, key, rule);
    }
  }

  lemma GuessMirrors(c: World, m: World, key: Key, other: Key, delay: nat, rule: Rule)
    requires Mirrors(c, m, key, rule) && Orderly(c, Guess(other, delay), key, rule)
    ensures Mirrors(Step(c, Guess(other, delay), rule), Step(m, Guess(other, delay), rule), key, rule)
  {
    hide AfterGuess, Timed;
    var (c1, m1) := (Step(c, Guess(other, delay), rule), Step(m, Guess(other, delay), rule));
    GuessMovesNoWindow(c.counters, other, c.clock - delay, rule);
    GuessMovesNoWindow(m.counters, other, m.clock - delay, rule);
    StartsAreThere(c, m, key, rule);
    assert forall q: nat :: InFlight(c1, q, key) <==> InFlight(c, q, key);
    if q: nat :| HalfWay(c, m, key, q, rule) {
      assert HalfWay(c1, m1, key, q, rule);
    } else if Gone(c, m, key, rule) {
      assert Gone(c1, m1, key, rule);
    } else {
      assert Alike(c1, m1, key, rule);
    }
  }

  lemma StartsAreThere(c: World, m: World, key: Key, rule: Rule)
    requires Mirrors(c, m, key, rule)
    ensures key in m.counters ==> m.counters[key].startedAt.Some?
    ensures key in c.counters ==> c.counters[key].startedAt.Some?
  {}

  lemma ForgetMirrors(c: World, m: World, key: Key, other: Key, rule: Rule)
    requires Mirrors(c, m, key, rule)
    ensures Mirrors(Step(c, Forget(other), rule), Step(m, Forget(other), rule), key, rule)
  {
    var (c1, m1) := (Step(c, Forget(other), rule), Step(m, Forget(other), rule));
    assert forall q: nat :: InFlight(c1, q, key) <==> InFlight(c, q, key);
    if q: nat :| HalfWay(c, m, key, q, rule) {
      assert HalfWay(c1, m1, key, q, rule);
    } else if Gone(c, m, key, rule) {
      assert Gone(c1, m1, key, rule);
    } else {
      assert Alike(c1, m1, key, rule);
    }
  }

  lemma {:induction false} RunsMirror(w: World, events: seq<Event>, key: Key, rule: Rule)
    requires OneAtATime(w, key) && Modern(w, key, rule) && (key in w.counters ==> Sound(w.counters[key], rule))
    requires OrderlyRun(w, events, key, rule)
    ensures Mirrors(Run(w, events, rule), RunUncleaned(w, events, rule), key, rule)
  {
    hide Step, Orderly, Alike, Gone, OneAtATime, Modern, Sound;
    if events == [] {
      SameMirrors(w, key, rule);
    } else {
      var n := |events| - 1;
      forall i | 0 <= i < n ensures events[..n][..i] == events[..i] && events[..n][i] == events[i] {}
      RunsMirror(w, events[..n], key, rule);
      var (c, m) := (Run(w, events[..n], rule), RunUncleaned(w, events[..n], rule));
      assert Orderly(c, events[n], key, rule);
      match events[n]
      case Begin(begun) => BeginMirrors(c, m, key, begun, rule);
      case Advance(p) => AdvanceMirrors(c, m, key, p, rule);
      case Clean(age) => CleanMirrors(c, m, key, age, rule);
      case Tick(elapsed) => TickMirrors(c, m, key, elapsed, rule);
      case Guess(other, delay) => GuessMirrors(c, m, key, other, delay, rule);
      case Forget(other) => ForgetMirrors(c, m, key, other, rule);
    }
  }

  lemma SameMirrors(w: World, key: Key, rule: Rule)
    requires OneAtATime(w, key) && Modern(w, key, rule) && (key in w.counters ==> Sound(w.counters[key], rule))
    ensures Mirrors(w, w, key, rule)
  {
    assert Alike(w, w, key, rule);
  }

  /**
   Every call of an address that is answered gets the same answer with cleanup at any moments and
   without it, when the address's calls come one at a time, cleanup never takes the counter of a
   call that is between its statements, and no guess inserts the row while a call is looking for it.
   */
  lemma CleanupChangesNoAnswerOneAtATime(w: World, events: seq<Event>, key: Key, p: nat, rule: Rule)
    requires OneAtATime(w, key) && Modern(w, key, rule) && (key in w.counters ==> Sound(w.counters[key], rule))
    requires OrderlyRun(w, events, key, rule)
    ensures var (cleaned, kept) := (Run(w, events, rule), RunUncleaned(w, events, rule));
      p < |cleaned.calls| && cleaned.calls[p].key == key && cleaned.calls[p].Answered? ==>
        AnswerOf(kept.calls, p) == AnswerOf(cleaned.calls, p)
  {
    hide Run, RunUncleaned, OrderlyRun, OneAtATime, Modern, Sound, AllWouldRoll;
    RunsMirror(w, events, key, rule);
  }
}
