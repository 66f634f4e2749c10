/**
 Calls to the mail counter as processes. A call reads the clock once and keeps that moment; each of
 its statements commits by itself, and other calls, guesses at the codes, cleanup and time fall
 anywhere between them.
 */
module MailCalls {
  import opened Options
  import opened MailCounters

  datatype Call =
    | Recording(key: Key, now: Time, pass: nat)
    | Looking(key: Key, now: Time, pass: nat)
    | Opening(key: Key, now: Time, pass: nat)
    | Answered(key: Key, now: Time, allowed: bool)

  /** Every call ever made is kept; one that is answered stays so. */
  datatype World = World(counters: Counters, calls: seq<Call>, clock: Time)

  datatype Event =
    | Begin(key: Key)
    | Advance(p: nat)
    /** Removes what had lapsed `age` ago: a cutoff is never ahead of the clock. */
    | Clean(age: nat)
    | Tick(elapsed: nat)
    /** A guess counts at the moment it had read, `delay` ago. */
    | Guess(key: Key, delay: nat)
    | Forget(key: Key)

  /** One statement of a call and what the call makes of it. */
  function Statement(counters: Counters, call: Call, rule: Rule): (Counters, Call) {
    match call
    case Recording(key, now, pass) =>
      if HasRoom(counters, key, now, rule) then (AfterRecord(counters, key, now, rule), Answered(key, now, true))
      else (counters, Looking(key, now, pass))
    case Looking(key, now, pass) =>
      (counters, if key in counters then Answered(key, now, false) else Opening(key, now, pass))
    case Opening(key, now, pass) =>
      if key !in counters then (AfterOpen(counters, key, now, rule.windowMs), Answered(key, now, true))
      else (counters, if pass + 1 < PENDING_STORE_PASSES then Recording(key, now, pass + 1) else Answered(key, now, false))
    case Answered(_, _, _) => (counters, call)
  }

  function Step(w: World, event: Event, rule: Rule): World {
    match event
    case Begin(key) => w.(calls := w.calls + [Recording(key, w.clock, 0)])
    case Advance(p) =>
      if p < |w.calls| then
        var (counters, call) := Statement(w.counters, w.calls[p], rule);
        w.(counters := counters, calls := w.calls[p := call])
      else w
    case Clean(age) => w.(counters := AfterCleanup(w.counters, w.clock - age))
    case Tick(elapsed) => w.(clock := w.clock + elapsed)
    case Guess(key, delay) => w.(counters := AfterGuess(w.counters, key, w.clock - delay, rule))
    case Forget(key) => w.(counters := AfterForget(w.counters, key))
  }

  function Run(w: World, events: seq<Event>, rule: Rule): World {
    if events == [] then w else Step(Run(w, events[..|events| - 1], rule), events[|events| - 1], rule)
  }

  /** The same calls and moments in which nothing is ever cleaned up. */
  function RunUncleaned(w: World, events: seq<Event>, rule: Rule): World {
    if events == [] then w
    else
      var before := RunUncleaned(w, events[..|events| - 1], rule);
      var last := events[|events| - 1];
      if last.Clean? then before else Step(before, last, rule)
  }

  function Start(clock: Time): World {
    World(map[], [], clock)
  }

  lemma {:induction false} RunsJoin(w: World, first: seq<Event>, second: seq<Event>, rule: Rule)
    ensures Run(Run(w, first, rule), second, rule) == Run(w, first + second, rule)
  {
    hide Step;
    if second == [] {
      assert first + second == first;
    } else {
      var shorter := second[..|second| - 1];
      RunsJoin(w, first, shorter, rule);
      assert (first + second)[..|first + second| - 1] == first + shorter;
    }
  }

  lemma RunOne(w: World, event: Event, rule: Rule)
    ensures Run(w, [event], rule) == Step(w, event, rule)
  {
    assert [event][..0] == [];
  }

  lemma RunTwo(w: World, one: Event, two: Event, rule: Rule)
    ensures Run(w, [one, two], rule) == Step(Step(w, one, rule), two, rule)
  {
    hide Step;
    RunsJoin(w, [one], [two], rule);
    RunOne(w, one, rule);
    RunOne(Step(w, one, rule), two, rule);
    assert [one] + [two] == [one, two];
  }

  lemma RunThree(w: World, one: Event, two: Event, three: Event, rule: Rule)
    ensures Run(w, [one, two, three], rule) == Step(Step(Step(w, one, rule), two, rule), three, rule)
  {
    hide Step;
    RunsJoin(w, [one, two], [three], rule);
    RunTwo(w, one, two, rule);
    RunOne(Step(Step(w, one, rule), two, rule), three, rule);
    assert [one, two] + [three] == [one, two, three];
  }

  // ---------- Who was answered yes ----------

  function AnswerOf(calls: seq<Call>, p: nat): Option<bool> {
    if p < |calls| && calls[p].Answered? then Some(calls[p].allowed) else None
  }


  predicate SaidYes(call: Call, key: Key) {
    call.Answered? && call.key == key && call.allowed
  }

  function YesCount(calls: seq<Call>, key: Key): nat {
    if calls == [] then 0
    else YesCount(calls[..|calls| - 1], key) + (if SaidYes(calls[|calls| - 1], key) then 1 else 0)
  }

  lemma {:induction false} YesAfter(calls: seq<Call>, p: nat, call: Call, key: Key)
    requires p < |calls| && !SaidYes(calls[p], key)
    ensures YesCount(calls[p := call], key) == YesCount(calls, key) + if SaidYes(call, key) then 1 else 0
  {
    var n := |calls| - 1;
    if p == n {
      assert calls[p := call][..n] == calls[..n];
    } else {
      YesAfter(calls[..n], p, call, key);
      assert calls[p := call][..n] == calls[..n][p := call];
    }
  }

  lemma YesOnBegin(calls: seq<Call>, call: Call, key: Key)
    ensures YesCount(calls + [call], key) == YesCount(calls, key) + if SaidYes(call, key) then 1 else 0
  {
    assert (calls + [call])[..|calls|] == calls;
  }

  // ---------- A call with nothing beside it ----------

  function StatementsLeft(call: Call): nat {
    match call
    case Recording(_, _, pass) => if pass < PENDING_STORE_PASSES then 3 * (PENDING_STORE_PASSES - pass) else 3
    case Looking(_, _, pass) => if pass < PENDING_STORE_PASSES then 3 * (PENDING_STORE_PASSES - pass) - 1 else 2
    case Opening(_, _, pass) => if pass < PENDING_STORE_PASSES then 3 * (PENDING_STORE_PASSES - pass) - 2 else 1
    case Answered(_, _, _) => 0
  }

  /** The counters and the answer once the call has made all its statements in a row. */
  function Finish(counters: Counters, call: Call, rule: Rule): (Counters, bool)
    decreases StatementsLeft(call)
  {
    if call.Answered? then (counters, call.allowed)
    else
      var (after, next) := Statement(counters, call, rule);
      Finish(after, next, rule)
  }

  /** A call that nothing comes between is the whole call at one moment. */
  lemma FinishIsTry(counters: Counters, key: Key, now: Time, rule: Rule)
    ensures Finish(counters, Recording(key, now, 0), rule) == AfterTry(counters, key, now, rule)
  {
    if !HasRoom(counters, key, now, rule) {
      var (_, looking) := Statement(counters, Recording(key, now, 0), rule);
      var (_, next) := Statement(counters, looking, rule);
      assert Finish(counters, looking, rule) == Finish(counters, next, rule);
      if key !in counters {
        var (opened_, answered) := Statement(counters, next, rule);
        assert Finish(counters, next, rule) == Finish(opened_, answered, rule);
      }
    }
  }
}
