/**
 The hourly cap of sign-in mails, over every interleaving. A request counts with the moment it read
 the clock at, and cleanup may remove the counter once its hour is over. Requests of the native app
 count in the same hours.
 */
module SignInCap {
  import opened Options
  import opened SignInSpec
  import opened Windows

  /** The request was under the cap; on the web, the link it stores is then not spent already. */
  predicate Mails(proc: Proc, email: string) {
    || (proc.NativeCounted? && proc.email == email && proc.underCap)
    || (proc.StoringLink? && proc.email == email && proc.mailed)
    || (proc.LinkStored? && proc.email == email && proc.mailed)
  }

  function MailCount(procs: seq<Proc>, email: string): nat {
    if procs == [] then 0
    else MailCount(procs[..|procs| - 1], email) + (if Mails(procs[|procs| - 1], email) then 1 else 0)
  }

  lemma {:induction false} MailsAfter(procs: seq<Proc>, p: nat, proc: Proc, email: string)
    requires p < |procs| && (Mails(procs[p], email) ==> Mails(proc, email))
    ensures MailCount(procs[p := proc], email) ==
      MailCount(procs, email) + if Mails(proc, email) && !Mails(procs[p], email) then 1 else 0
  {
    var n := |procs| - 1;
    if p == n {
      assert procs[p := proc][..n] == procs[..n];
    } else {
      MailsAfter(procs[..n], p, proc, email);
      assert procs[p := proc][..n] == procs[..n][p := proc];
    }
  }

  lemma MailsOnBegin(procs: seq<Proc>, proc: Proc, email: string)
    requires !Mails(proc, email)
    ensures MailCount(procs + [proc], email) == MailCount(procs, email)
  {
    assert (procs + [proc])[..|procs|] == procs;
  }

  /** The next step of the call counts it in the address's hour. */
  predicate TakesSlot(proc: Proc, email: string) {
    (proc.AskingSlot? || proc.AskingNativeSlot?) && proc.email == email
  }

  /** The next step counts a request of the address as the first of a new hour. */
  predicate BeginsHour(s: State, event: Event, email: string) {
    && event.Advance? && event.p < |s.procs| && TakesSlot(s.procs[event.p], email)
    && (email !in s.db.slots || s.db.slots[email].startedAt <= s.procs[event.p].now - s.db.settings.windowMs)
  }

  /** The hours a run has started for the address, as the moments their requests had captured. */
  function Hours(s: State, events: seq<Event>, email: string): seq<int> {
    if events == [] then []
    else
      var before, last := Run(s, events[..|events| - 1]), events[|events| - 1];
      Hours(s, events[..|events| - 1], email) +
      if BeginsHour(before, last, email) then [before.procs[last.p].now] else []
  }

  /** A request that has not been counted yet. */
  predicate IsAsking(proc: Proc) {
    proc.AskingRecipient? || proc.AskingSlot? || proc.AskingNativeSlot?
  }

  predicate Captured(proc: Proc, from: int, now: int) {
    IsAsking(proc) ==> from <= proc.now <= now
  }

  ghost predicate Within(s: State, email: string, hours: seq<int>, from: int, settings: Settings) {
    var n := |hours|;
    && s.db.settings == settings && from <= s.db.now
    && (forall i :: 0 <= i < n ==> from <= hours[i] <= s.db.now)
    && (forall p :: 0 <= p < |s.procs| ==> Captured(s.procs[p], from, s.db.now))
    && MailCount(s.procs, email) <= settings.maxPerHour * n
    && (email in s.db.slots ==>
          && n > 0 && s.db.slots[email].startedAt == hours[n - 1]
          && MailCount(s.procs, email) <= settings.maxPerHour * (n - 1) + s.db.slots[email].taken)
  }

  lemma NextHour(factor: nat, n: int)
    ensures factor * (n + 1) == factor * n + factor
  {}

  /** A step that is no request's leaves every counter, and mails nothing. */
  lemma OthersCountNothing(db: Db, proc: Proc, outside: Outside, me: nat)
    requires !Requesting(proc)
    ensures var (after, next) := ProcStep(db, proc, outside, me);
      && after.slots == db.slots && after.settings == db.settings && after.now == db.now
      && !IsAsking(next)
      && (next.StoringLink? || next.LinkStored? || next.NativeCounted? ==> next == proc)
  {
    hide CreateStep, SpendStep;
    if Creating(proc) { CreatingCountsNothing(db, proc, outside, me); }
    if Spending(proc) { SpendingCountsNothing(db, proc); }
  }

  lemma CreatingCountsNothing(db: Db, proc: Proc, outside: Outside, me: nat)
    requires Creating(proc)
    ensures var (after, next) := CreateStep(db, proc, outside, me);
      && after.slots == db.slots && after.settings == db.settings && after.now == db.now
      && !Requesting(next) && !next.LinkStored? && !next.NativeCounted?
  {
    hide AccountAt, ClaimIsLive, IdentityIsPending, FindByEmail, IsPending;
  }

  lemma SpendingCountsNothing(db: Db, proc: Proc)
    requires Spending(proc)
    ensures var (after, next) := SpendStep(db, proc);
      && after.slots == db.slots && after.settings == db.settings && after.now == db.now
      && !Requesting(next) && !next.LinkStored? && !next.NativeCounted?
  {}

  /** What one step of a call does to the counter of the address and to its mails. */
  lemma StepCounts(db: Db, proc: Proc, outside: Outside, me: nat, email: string)
    ensures var (after, next) := ProcStep(db, proc, outside, me);
      && after.settings == db.settings && after.now == db.now
      && (Mails(proc, email) ==> Mails(next, email))
      && (IsAsking(next) ==> IsAsking(proc) && next.now == proc.now && next.email == proc.email)
      && (if TakesSlot(proc, email) then
            && after.slots == db.slots[email := SlotAfter(db, email, proc.now)]
            && (Mails(next, email) ==> SlotAfter(db, email, proc.now).taken <= db.settings.maxPerHour)
          else
            && (email in after.slots <==> email in db.slots)
            && (email in db.slots ==> after.slots[email] == db.slots[email])
            && (Mails(next, email) <==> Mails(proc, email)))
  {
    hide CheckStep, SpendStep, ProviderStep, CreateStep, SlotAfter;
    if !Requesting(proc) { OthersCountNothing(db, proc, outside, me); }
  }

  lemma CountStaysWithin(s: State, p: nat, outside: Outside, email: string, hours: seq<int>, from: int, settings: Settings)
    requires Within(s, email, hours, from, settings) && p < |s.procs|
    requires TakesSlot(s.procs[p], email)
    ensures Within(
      Step(s, Advance(p, outside)), email,
      hours + (if BeginsHour(s, Advance(p, outside), email) then [s.procs[p].now] else []), from, settings)
  {
    hide ProcStep;
    var proc := s.procs[p];
    StepCounts(s.db, proc, outside, p, email);
    MailsAfter(s.procs, p, ProcStep(s.db, proc, outside, p).1, email);
    NextHour(settings.maxPerHour, |hours| - 1);
    NextHour(settings.maxPerHour, |hours|);
  }

  lemma OtherStaysWithin(s: State, p: nat, outside: Outside, email: string, hours: seq<int>, from: int, settings: Settings)
    requires Within(s, email, hours, from, settings) && p < |s.procs|
    requires !TakesSlot(s.procs[p], email)
    ensures Within(Step(s, Advance(p, outside)), email, hours, from, settings)
  {
    hide ProcStep;
    var proc := s.procs[p];
    StepCounts(s.db, proc, outside, p, email);
    MailsAfter(s.procs, p, ProcStep(s.db, proc, outside, p).1, email);
  }

  function NewHour(s: State, event: Event, email: string): seq<int> {
    if BeginsHour(s, event, email) then [s.procs[event.p].now] else []
  }

  lemma StartStaysWithin(s: State, proc: Proc, email: string, hours: seq<int>, from: int, settings: Settings)
    requires Within(s, email, hours, from, settings)
    requires !Mails(proc, email) && Captured(proc, from, s.db.now)
    ensures Within(s.(procs := s.procs + [proc]), email, hours, from, settings)
  {
    MailsOnBegin(s.procs, proc, email);
  }

  lemma OutsideStaysWithin(s: State, db: Db, email: string, hours: seq<int>, from: int, settings: Settings)
    requires Within(s, email, hours, from, settings)
    requires db.settings == s.db.settings && db.now >= s.db.now
    requires email in db.slots ==> email in s.db.slots && db.slots[email] == s.db.slots[email]
    ensures Within(s.(db := db), email, hours, from, settings)
  {}

  lemma StepStaysWithin(s: State, event: Event, email: string, hours: seq<int>, from: int, settings: Settings)
    requires Within(s, email, hours, from, settings)
    ensures Within(Step(s, event), email, hours + NewHour(s, event, email), from, settings)
  {
    hide ProcStep, Within, MailCount;
    assert hours + [] == hours;
    assert from <= s.db.now by { WithinTells(s, email, hours, from, settings); }
    match event
    case Advance(p, outside) =>
      if p < |s.procs| {
        if TakesSlot(s.procs[p], email) {
          CountStaysWithin(s, p, outside, email, hours, from, settings);
        } else {
          OtherStaysWithin(s, p, outside, email, hours, from, settings);
        }
      }
    case Request(other, nonceHash) =>
      StartStaysWithin(s, AskingRecipient(other, nonceHash, s.db.now), email, hours, from, settings);
    case NativeRequest(other) => StartStaysWithin(s, AskingNativeSlot(other, s.db.now), email, hours, from, settings);
    case Verify(hash, confirm, presented) =>
      StartStaysWithin(s, Verification(s.db, hash, confirm, presented), email, hours, from, settings);
    case SignInWith(provider, profile) =>
      StartStaysWithin(s, ProviderCall(provider, profile), email, hours, from, settings);
    case _ => OutsideStaysWithin(s, Step(s, event).db, email, hours, from, settings);
  }

  lemma WithinTells(s: State, email: string, hours: seq<int>, from: int, settings: Settings)
    requires Within(s, email, hours, from, settings)
    ensures from <= s.db.now
  {}

  lemma {:induction false} RunStaysWithin(db: Db, events: seq<Event>, email: string)
    requires email !in db.slots
    ensures Within(Run(State(db, []), events), email, Hours(State(db, []), events, email), db.now, db.settings)
  {
    hide Step, BeginsHour;
    if events != [] {
      var n := |events| - 1;
      RunStaysWithin(db, events[..n], email);
      StepStaysWithin(
        Run(State(db, []), events[..n]), events[n], email, Hours(State(db, []), events[..n], email), db.now, db.settings);
    }
  }

  /**
   Over every interleaving an address is mailed at most `maxPerHour` links for each hour that fits
   since the run began, and for each hour by which hours that cleanup made possible overlap.
   */
  lemma LinksStayUnderTheCap(db: Db, events: seq<Event>, email: string)
    requires email !in db.slots && db.settings.windowMs > 0
    ensures var s := Run(State(db, []), events);
      var overlap := Overlap(Hours(State(db, []), events, email), db.settings.windowMs);
      MailCount(s.procs, email) <= db.settings.maxPerHour * (1 + (s.db.now - db.now + overlap) / db.settings.windowMs)
  {
    hide Run, Hours;
    var s, hours := Run(State(db, []), events), Hours(State(db, []), events, email);
    RunStaysWithin(db, events, email);
    CountFits(hours, db.settings.windowMs, db.now, s.db.now);
    Scale(db.settings.maxPerHour, |hours|, 1 + (s.db.now - db.now + Overlap(hours, db.settings.windowMs)) / db.settings.windowMs);
  }

  // ---------- When hours overlap ----------

  /** An hour started where no counter is stored, and stamped before the end of the hour before it. */
  predicate Backdates(s: State, event: Event, email: string, hours: seq<int>) {
    && BeginsHour(s, event, email) && email !in s.db.slots && hours != []
    && s.procs[event.p].now < hours[|hours| - 1] + s.db.settings.windowMs
  }

  ghost predicate NoneBackdated(db: Db, events: seq<Event>, email: string) {
    forall i :: 0 <= i < |events| ==>
      !Backdates(Run(State(db, []), events[..i]), events[i], email, Hours(State(db, []), events[..i], email))
  }

  lemma NoneBackdatedBefore(db: Db, events: seq<Event>, email: string)
    requires events != []
    ensures var n := |events| - 1;
      NoneBackdated(db, events, email) <==>
        && NoneBackdated(db, events[..n], email)
        && !Backdates(Run(State(db, []), events[..n]), events[n], email, Hours(State(db, []), events[..n], email))
  {
    hide Backdates, Run, Hours;
    forall i | 0 <= i < |events| - 1
      ensures events[..|events| - 1][..i] == events[..i] && events[..|events| - 1][i] == events[i]
    {}
  }

  /** A stored counter never starts its next hour early. */
  lemma BackdatingIsOverlap(s: State, event: Event, email: string, hours: seq<int>, from: int, settings: Settings)
    requires BeginsHour(s, event, email) && Within(s, email, hours, from, settings)
    ensures Backdates(s, event, email, hours) <==>
      hours != [] && s.procs[event.p].now < hours[|hours| - 1] + settings.windowMs
  {}

  /**
   Two hours of an address overlap exactly when some request started one where no counter was
   stored, stamped before the end of the hour before it.
   */
  lemma {:induction false} HoursOverlapExactlyWhenBackdated(db: Db, events: seq<Event>, email: string)
    requires email !in db.slots && db.settings.windowMs > 0
    ensures Spaced(Hours(State(db, []), events, email), db.settings.windowMs) <==> NoneBackdated(db, events, email)
  {
    hide Step, BeginsHour, Within, Spaced, NoneBackdated, Run;
    if events == [] {
      NothingBackdated(db, email);
    } else {
      var n := |events| - 1;
      var before, hours := Run(State(db, []), events[..n]), Hours(State(db, []), events[..n], email);
      HoursOverlapExactlyWhenBackdated(db, events[..n], email);
      NoneBackdatedBefore(db, events, email);
      RunStaysWithin(db, events[..n], email);
      if BeginsHour(before, events[n], email) {
        BackdatingIsOverlap(before, events[n], email, hours, db.now, db.settings);
        HourBegins(before, events[n], email);
        SpacedOneMore(hours, before.procs[events[n].p].now, db.settings.windowMs);
      } else {
        assert Hours(State(db, []), events, email) == hours;
      }
    }
  }

  lemma HourBegins(s: State, event: Event, email: string)
    requires BeginsHour(s, event, email)
    ensures event.Advance? && event.p < |s.procs| && IsAsking(s.procs[event.p])
  {}

  lemma NothingBackdated(db: Db, email: string)
    ensures NoneBackdated(db, [], email) && Spaced(Hours(State(db, []), [], email), db.settings.windowMs)
  {}

  /** The cap as documented holds over every run in which no hour is backdated. */
  lemma LinkCapHoldsUnlessBackdated(db: Db, events: seq<Event>, email: string)
    requires email !in db.slots && db.settings.windowMs > 0 && NoneBackdated(db, events, email)
    ensures var s := Run(State(db, []), events);
      MailCount(s.procs, email) <= db.settings.maxPerHour * (1 + (s.db.now - db.now) / db.settings.windowMs)
  {
    hide Run, Hours, NoneBackdated;
    HoursOverlapExactlyWhenBackdated(db, events, email);
    NoOverlapIsSpaced(Hours(State(db, []), events, email), db.settings.windowMs);
    LinksStayUnderTheCap(db, events, email);
  }

  // ---------- A condition on cleanup alone ----------

  /** The counter of the address is removed by cleanup while a request with an earlier moment is under way. */
  predicate DropsEarly(s: State, event: Event, email: string) {
    && event == DropSlot(email) && email in s.db.slots
    && exists p :: 0 <= p < |s.procs| && Behind(s.procs[p], email, s.db.slots[email].startedAt + s.db.settings.windowMs)
  }

  predicate Behind(proc: Proc, email: string, until: int) {
    IsAsking(proc) && proc.email == email && proc.now < until
  }

  ghost predicate NoneDropsEarly(db: Db, events: seq<Event>, email: string) {
    forall i :: 0 <= i < |events| ==> !DropsEarly(Run(State(db, []), events[..i]), events[i], email)
  }

  /** Hours are whole, and a counter that is gone left no request that is still behind it. */
  ghost predicate Apart(s: State, email: string, hours: seq<int>, width: int) {
    && Spaced(hours, width)
    && (hours != [] && email !in s.db.slots ==>
          && hours[|hours| - 1] + width <= s.db.now
          && forall p :: 0 <= p < |s.procs| ==> !Behind(s.procs[p], email, hours[|hours| - 1] + width))
  }

  lemma StepStaysApart(s: State, event: Event, email: string, hours: seq<int>, from: int, settings: Settings)
    requires Within(s, email, hours, from, settings) && settings.windowMs > 0
    requires Apart(s, email, hours, settings.windowMs) && !DropsEarly(s, event, email)
    ensures Apart(Step(s, event), email, hours + NewHour(s, event, email), settings.windowMs)
  {
    hide ProcStep, Spaced, MailCount;
    var after := Step(s, event);
    if BeginsHour(s, event, email) {
      StepCounts(s.db, s.procs[event.p], event.outside, event.p, email);
      SpacedOneMore(hours, s.procs[event.p].now, settings.windowMs);
    } else {
      assert hours + NewHour(s, event, email) == hours;
      if event.Advance? && event.p < |s.procs| {
        StepCounts(s.db, s.procs[event.p], event.outside, event.p, email);
      }
    }
  }

  lemma {:induction false} RunStaysApart(db: Db, events: seq<Event>, email: string)
    requires email !in db.slots && db.settings.windowMs > 0 && NoneDropsEarly(db, events, email)
    ensures Apart(Run(State(db, []), events), email, Hours(State(db, []), events, email), db.settings.windowMs)
  {
    hide Step, BeginsHour, DropsEarly, Apart, Within, Spaced;
    if events == [] {
      NothingApart(db, email);
    } else {
      var n := |events| - 1;
      forall i | 0 <= i < n ensures events[..n][..i] == events[..i] && events[..n][i] == events[i] {}
      RunStaysApart(db, events[..n], email);
      RunStaysWithin(db, events[..n], email);
      StepStaysApart(
        Run(State(db, []), events[..n]), events[n], email, Hours(State(db, []), events[..n], email), db.now, db.settings);
    }
  }

  lemma NothingApart(db: Db, email: string)
    ensures Apart(Run(State(db, []), []), email, Hours(State(db, []), [], email), db.settings.windowMs)
  {}

  /** Where cleanup never removes a counter that a request under way is still behind, the cap is as documented. */
  lemma LinkCapHoldsUnlessDroppedEarly(db: Db, events: seq<Event>, email: string)
    requires email !in db.slots && db.settings.windowMs > 0 && NoneDropsEarly(db, events, email)
    ensures var s := Run(State(db, []), events);
      MailCount(s.procs, email) <= db.settings.maxPerHour * (1 + (s.db.now - db.now) / db.settings.windowMs)
  {
    hide Run, Hours, NoneDropsEarly;
    RunStaysApart(db, events, email);
    NoOverlapIsSpaced(Hours(State(db, []), events, email), db.settings.windowMs);
    LinksStayUnderTheCap(db, events, email);
  }
}
