/**
 Calls to the mail counter that run one after another, each at one moment, and cleanup between
 them. What happens to calls that overlap is in `MailCleanup`.
 */
module MailTries {
  import opened Options
  import opened MailCounters

  datatype Op = Try(key: Key) | Slot(key: Key) | Cleanup

  /** Cleanup at a moment removes what has lapsed by that moment. */
  datatype Event = Event(at: Time, op: Op)

  function Apply(counters: Counters, event: Event, rule: Rule): Counters {
    match event.op
    case Try(key) => AfterTry(counters, key, event.at, rule).0
    case Slot(key) => AfterSlot(counters, key, event.at, rule.windowMs)
    case Cleanup => AfterCleanup(counters, event.at)
  }

  /** Whether the mail of this event may be sent; cleanup sends none. */
  function Allowed(counters: Counters, event: Event, rule: Rule): bool {
    match event.op
    case Try(key) => AfterTry(counters, key, event.at, rule).1
    case Slot(key) => AfterSlot(counters, key, event.at, rule.windowMs)[key].mailed <= rule.limit
    case Cleanup => false
  }

  function Run(counters: Counters, events: seq<Event>, rule: Rule): Counters {
    if events == [] then counters
    else Apply(Run(counters, events[..|events| - 1], rule), events[|events| - 1], rule)
  }

  /** The same run in which nothing is ever cleaned up. */
  function RunUncleaned(counters: Counters, events: seq<Event>, rule: Rule): Counters {
    if events == [] then counters
    else
      var before := RunUncleaned(counters, events[..|events| - 1], rule);
      var last := events[|events| - 1];
      if last.op.Cleanup? then before else Apply(before, last, rule)
  }

  ghost predicate Ordered(events: seq<Event>) {
    forall i, j :: 0 <= i < j < |events| ==> events[i].at <= events[j].at
  }

  /** Same counts and windows, except that cleanup may have taken a counter whose window is over. */
  ghost predicate SameButOver(cleaned: Counters, kept: Counters, now: Time, rule: Rule) {
    && AllKept(cleaned, rule.windowMs) && AllKept(kept, rule.windowMs)
    && cleaned.Keys <= kept.Keys
    && (forall key :: key in cleaned ==>
          cleaned[key].mailed == kept[key].mailed && cleaned[key].startedAt == kept[key].startedAt)
    && (forall key :: key in kept && key !in cleaned ==> RolledOver(kept[key], now, rule.windowMs))
  }

  lemma ApplyKeepsSame(cleaned: Counters, kept: Counters, event: Event, rule: Rule)
    requires SameButOver(cleaned, kept, event.at, rule) && rule.limit >= 1
    ensures Allowed(cleaned, event, rule) == Allowed(kept, event, rule)
    ensures SameButOver(
      Apply(cleaned, event, rule), if event.op.Cleanup? then kept else Apply(kept, event, rule), event.at, rule)
  {}

  lemma {:induction false} RunsStaySame(counters: Counters, events: seq<Event>, rule: Rule, now: Time)
    requires AllKept(counters, rule.windowMs) && rule.limit >= 1 && Ordered(events)
    requires events != [] ==> events[|events| - 1].at <= now
    ensures SameButOver(Run(counters, events, rule), RunUncleaned(counters, events, rule), now, rule)
  {
    if events != [] {
      var n := |events| - 1;
      RunsStaySame(counters, events[..n], rule, events[n].at);
      ApplyKeepsSame(
        Run(counters, events[..n], rule), RunUncleaned(counters, events[..n], rule), events[n], rule);
    }
  }

  /** Cleanup at any moments changes no answer, however long the run. */
  lemma CleanupChangesNoAnswer(counters: Counters, events: seq<Event>, rule: Rule)
    requires AllKept(counters, rule.windowMs) && rule.limit >= 1 && Ordered(events)
    ensures forall i | 0 <= i < |events| ::
      Allowed(Run(counters, events[..i], rule), events[i], rule) ==
      Allowed(RunUncleaned(counters, events[..i], rule), events[i], rule)
  {
    forall i | 0 <= i < |events|
      ensures Allowed(Run(counters, events[..i], rule), events[i], rule) ==
        Allowed(RunUncleaned(counters, events[..i], rule), events[i], rule)
    {
      RunsStaySame(counters, events[..i], rule, events[i].at);
      ApplyKeepsSame(Run(counters, events[..i], rule), RunUncleaned(counters, events[..i], rule), events[i], rule);
    }
  }

  function Tries(key: Key, at: Time, n: nat): seq<Event> {
    seq(n, _ => Event(at, Try(key)))
  }

  lemma {:induction false} TriesFillUp(counters: Counters, key: Key, at: Time, n: nat, rule: Rule)
    requires rule.windowMs > 0
    requires key in counters && !RolledOver(counters[key], at, rule.windowMs)
    ensures var after := Run(counters, Tries(key, at, n), rule);
      && key in after && after[key].startedAt == counters[key].startedAt
      && after[key].mailed == if counters[key].mailed + n <= rule.limit then counters[key].mailed + n
                              else Max(rule.limit, counters[key].mailed)
  {
    if n > 0 {
      assert Tries(key, at, n)[..n - 1] == Tries(key, at, n - 1);
      TriesFillUp(counters, key, at, n - 1, rule);
    }
  }

  /** The cleanup at `at` and then `n` mails, against the same mails without the cleanup. */
  predicate CleanupShows(counters: Counters, key: Key, at: Time, n: nat, rule: Rule) {
    var event := Event(at, Try(key));
    Allowed(Run(AfterCleanup(counters, at), Tries(key, at, n), rule), event, rule) !=
    Allowed(Run(counters, Tries(key, at, n), rule), event, rule)
  }

  /**
   The condition is exact. A started counter that has counted a mail is kept until its window
   is over if and only if no cleanup followed by mails at that moment can ever show.
   */
  lemma CleanupShowsUnlessKept(counters: Counters, key: Key, rule: Rule)
    requires rule.windowMs > 0 && rule.limit >= 1
    requires AllKept(counters - {key}, rule.windowMs)
    requires key in counters && counters[key].startedAt.Some? && 1 <= counters[key].mailed <= rule.limit
    ensures Kept(counters[key], rule.windowMs) <==> forall at: Time, n: nat :: !CleanupShows(counters, key, at, n, rule)
  {
    if Kept(counters[key], rule.windowMs) {
      forall at: Time, n: nat ensures !CleanupShows(counters, key, at, n, rule) {
        assert AllKept(counters, rule.windowMs) by {
          forall other | other in counters && other != key ensures Kept(counters[other], rule.windowMs) {
            assert other in counters - {key};
          }
        }
        var events := [Event(at, Cleanup)] + Tries(key, at, n) + [Event(at, Try(key))];
        CleanupThenTries(counters, key, at, n, rule);
        CleanupChangesNoAnswer(counters, events, rule);
        assert events[..n + 1] == [Event(at, Cleanup)] + Tries(key, at, n);
        assert events[n + 1] == Event(at, Try(key));
      }
    } else {
      var at := counters[key].expiresAt.end;
      var n := rule.limit - counters[key].mailed;
      var cleaned := AfterCleanup(counters, at);
      TriesFillUp(counters, key, at, n, rule);
      if n > 0 {
        var created := Apply(cleaned, Event(at, Try(key)), rule);
        TriesFillUp(created, key, at, n - 1, rule);
        TriesFromFront(cleaned, key, at, n, rule);
      }
      assert CleanupShows(counters, key, at, n, rule);
    }
  }

  lemma {:induction false} TriesFromFront(counters: Counters, key: Key, at: Time, n: nat, rule: Rule)
    requires n > 0
    ensures Run(counters, Tries(key, at, n), rule) ==
      Run(Apply(counters, Event(at, Try(key)), rule), Tries(key, at, n - 1), rule)
  {
    assert Tries(key, at, n)[..n - 1] == Tries(key, at, n - 1);
    if n > 1 {
      TriesFromFront(counters, key, at, n - 1, rule);
      assert Tries(key, at, n - 1)[..n - 2] == Tries(key, at, n - 2);
    } else {
      assert Run(counters, Tries(key, at, 0), rule) == counters;
    }
  }

  lemma {:induction false} CleanupThenTries(counters: Counters, key: Key, at: Time, n: nat, rule: Rule)
    ensures var events := [Event(at, Cleanup)] + Tries(key, at, n);
      && Run(counters, events, rule) == Run(AfterCleanup(counters, at), Tries(key, at, n), rule)
      && RunUncleaned(counters, events, rule) == Run(counters, Tries(key, at, n), rule)
  {
    var events := [Event(at, Cleanup)] + Tries(key, at, n);
    if n > 0 {
      CleanupThenTries(counters, key, at, n - 1, rule);
      assert Tries(key, at, n)[..n - 1] == Tries(key, at, n - 1);
      assert events[..n] == [Event(at, Cleanup)] + Tries(key, at, n - 1);
    } else {
      assert events[..0] == [];
    }
  }

  /** A counter without a start never rolls over: its mails are full until cleanup takes it. */
  lemma StartlessCounterWaitsForCleanup(counters: Counters, key: Key, now: Time, later: Time, rule: Rule)
    requires rule.limit >= 1 && later >= now + MAX_WINDOW_MS
    requires key in counters && counters[key].startedAt.None? && counters[key].mailed >= rule.limit
    requires counters[key].expiresAt.Absent?
    ensures var migrated := WithExpiry(counters, now);
      && !Allowed(migrated, Event(later, Try(key)), rule)
      && Allowed(AfterCleanup(migrated, later), Event(later, Try(key)), rule)
  {}
}
