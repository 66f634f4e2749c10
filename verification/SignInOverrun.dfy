/**
 A run that mails more sign-in links than the hourly cap allows: one request that reads the clock in
 an hour's last moment, and is counted after cleanup took the counter in the next.
 */
module SignInOverrun {
  import opened Options
  import opened Windows
  import opened SignInSpec
  import opened SignInCap

  const QUIET := Outside(None, true, true)

  /** The address has no deleted account, so a request under the cap mails a link. */
  predicate IsMailable(db: Db, email: string) {
    AccountAt(db, email).Some? && AccountAt(db, email).value in db.accounts ==>
      !db.accounts[AccountAt(db, email).value].deleted
  }

  /** The database at a later moment, with this counter for the address. */
  function Later(db: Db, email: string, slot: Slot, now: int): Db {
    db.(slots := db.slots[email := slot], now := now)
  }

  /** The address after `calls` requests, `mails` of them under the cap. */
  predicate At(s: State, db: Db, email: string, calls: nat, mails: nat, taken: nat, start: int, now: int) {
    && s.db == Later(db, email, Slot(start, taken), now)
    && |s.procs| == calls && MailCount(s.procs, email) == mails
  }

  function RequestOnce(email: string, nonce: Hash, p: nat): seq<Event> {
    [Request(email, nonce), Advance(p, QUIET), Advance(p, QUIET)]
  }

  lemma {:induction false} RunsJoin(s: State, first: seq<Event>, second: seq<Event>)
    ensures Run(Run(s, first), second) == Run(s, first + second)
  {
    hide Step;
    if second == [] {
      assert first + second == first;
    } else {
      var shorter := second[..|second| - 1];
      RunsJoin(s, first, shorter);
      assert (first + second)[..|first + second| - 1] == first + shorter;
    }
  }

  lemma RunOne(s: State, event: Event)
    ensures Run(s, [event]) == Step(s, event)
  {
    assert [event][..0] == [];
  }

  lemma RunThree(s: State, one: Event, two: Event, three: Event)
    ensures Run(s, [one, two, three]) == Step(Step(Step(s, one), two), three)
  {
    hide Step;
    RunOne(s, one);
    RunOne(Step(s, one), two);
    RunOne(Step(Step(s, one), two), three);
    RunsJoin(s, [one], [two]);
    RunsJoin(s, [one] + [two], [three]);
    assert [one] + [two] + [three] == [one, two, three];
  }

  /** A request's first two steps: it reads the account, and it is counted. */
  lemma ReadsThenCounts(db: Db, email: string, nonce: Hash, now: int, me: nat)
    requires IsMailable(db, email)
    ensures AccountAt(db, email).Some? ==> AccountAt(db, email).value in db.accounts
    ensures ProcStep(db, AskingRecipient(email, nonce, now), QUIET, me) == (db, AskingSlot(email, nonce, now, false))
    ensures var slot := SlotAfter(db, email, now);
      ProcStep(db, AskingSlot(email, nonce, now, false), QUIET, me) ==
        (SetSlot(db, email, slot), StoringLink(email, nonce, now, slot.taken <= db.settings.maxPerHour))
  {}

  /** A request that is under the cap adds one mail. */
  lemma OneMoreMail(procs: seq<Proc>, email: string, nonce: Hash, now: int)
    ensures MailCount(procs + [StoringLink(email, nonce, now, true)], email) == MailCount(procs, email) + 1
  {
    assert (procs + [StoringLink(email, nonce, now, true)])[..|procs|] == procs;
  }

  lemma OneRequest(s: State, email: string, nonce: Hash)
    requires IsMailable(s.db, email) && SlotAfter(s.db, email, s.db.now).taken <= s.db.settings.maxPerHour
    ensures var after := Run(s, RequestOnce(email, nonce, |s.procs|));
      && after.db == SetSlot(s.db, email, SlotAfter(s.db, email, s.db.now))
      && after.procs == s.procs + [StoringLink(email, nonce, s.db.now, true)]
  {
    hide Run, ProcStep, SlotAfter;
    var p := |s.procs|;
    RunThree(s, Request(email, nonce), Advance(p, QUIET), Advance(p, QUIET));
    ReadsThenCounts(s.db, email, nonce, s.db.now, p);
    var one := Step(s, Request(email, nonce));
    var two := Step(one, Advance(p, QUIET));
    assert two.procs == s.procs + [AskingSlot(email, nonce, s.db.now, false)];
    assert Step(two, Advance(p, QUIET)).procs == s.procs + [StoringLink(email, nonce, s.db.now, true)];
  }

  lemma SameAccounts(db: Db, after: Db, email: string)
    requires IsMailable(db, email) && after.accounts == db.accounts && after.nextId == db.nextId
    ensures IsMailable(after, email)
  {}

  lemma StillMailable(db: Db, email: string, slot: Slot, now: int)
    requires IsMailable(db, email)
    ensures IsMailable(Later(db, email, slot, now), email)
  {}

  lemma OneMoreRequest(
    s: State, db: Db, email: string, calls: nat, mails: nat, taken: nat, start: int, now: int, nonce: Hash)
    requires At(s, db, email, calls, mails, taken, start, now) && IsMailable(db, email)
    requires db.settings.maxPerHour >= 1
    requires taken < db.settings.maxPerHour || now - start >= db.settings.windowMs
    ensures var over := now - start >= db.settings.windowMs;
      At(Run(s, RequestOnce(email, nonce, calls)), db, email, calls + 1, mails + 1,
         if over then 1 else taken + 1, if over then now else start, now)
  {
    hide Run, MailCount, IsMailable;
    StillMailable(db, email, Slot(start, taken), now);
    OneRequest(s, email, nonce);
    OneMoreMail(s.procs, email, nonce, now);
  }

  function Burst(email: string, nonce: Hash, from: nat, n: nat): seq<Event> {
    if n == 0 then [] else Burst(email, nonce, from, n - 1) + RequestOnce(email, nonce, from + n - 1)
  }

  lemma NoEvents(s: State)
    ensures Run(s, []) == s
  {}

  lemma {:induction false} BurstFills(
    s: State, db: Db, email: string, calls: nat, mails: nat, taken: nat, start: int, now: int, n: nat, nonce: Hash)
    requires At(s, db, email, calls, mails, taken, start, now) && IsMailable(db, email)
    requires taken + n <= db.settings.maxPerHour && now - start < db.settings.windowMs
    ensures At(Run(s, Burst(email, nonce, calls, n)), db, email, calls + n, mails + n, taken + n, start, now)
  {
    hide Run, MailCount, At, IsMailable, RequestOnce;
    if n == 0 {
      NoEvents(s);
    } else {
      BurstFills(s, db, email, calls, mails, taken, start, now, n - 1, nonce);
      var before := Run(s, Burst(email, nonce, calls, n - 1));
      OneMoreRequest(before, db, email, calls + n - 1, mails + n - 1, taken + n - 1, start, now, nonce);
      RunsJoin(s, Burst(email, nonce, calls, n - 1), RequestOnce(email, nonce, calls + n - 1));
    }
  }

  lemma FirstRequest(db: Db, email: string, nonce: Hash)
    requires email !in db.slots && IsMailable(db, email) && db.settings.maxPerHour >= 1
    ensures At(Run(State(db, []), RequestOnce(email, nonce, 0)), db, email, 1, 1, 1, db.now, db.now)
  {
    hide Run, IsMailable;
    OneRequest(State(db, []), email, nonce);
    OneMoreMail([], email, nonce, db.now);
    assert [] + [StoringLink(email, nonce, db.now, true)] == [StoringLink(email, nonce, db.now, true)];
  }

  /** A request that begins in the hour's last moment and is counted once the counter is gone. */
  function Straddle(email: string, nonce: Hash, p: nat, wait: nat): seq<Event> {
    [Tick(wait), Request(email, nonce), Advance(p, QUIET)] + [Tick(1), DropSlot(email), Advance(p, QUIET)]
  }

  lemma StraddleReads(s: State, email: string, nonce: Hash, wait: nat)
    requires IsMailable(s.db, email)
    ensures Run(s, [Tick(wait), Request(email, nonce), Advance(|s.procs|, QUIET)]) ==
      State(s.db.(now := s.db.now + wait), s.procs + [AskingSlot(email, nonce, s.db.now + wait, false)])
  {
    hide Run, ProcStep, IsMailable, AccountAt;
    var db := s.db.(now := s.db.now + wait);
    SameAccounts(s.db, db, email);
    RunThree(s, Tick(wait), Request(email, nonce), Advance(|s.procs|, QUIET));
    ReadsThenCounts(db, email, nonce, db.now, |s.procs|);
    var procs := s.procs + [AskingRecipient(email, nonce, db.now)];
    assert procs[|s.procs| := AskingSlot(email, nonce, db.now, false)] == s.procs + [AskingSlot(email, nonce, db.now, false)];
  }

  lemma StraddleCounts(s: State, calls: seq<Proc>, email: string, nonce: Hash, now: int)
    requires s.procs == calls + [AskingSlot(email, nonce, now, false)] && s.db.settings.maxPerHour >= 1
    requires IsMailable(s.db, email)
    requires email in s.db.slots && s.db.slots[email].startedAt + s.db.settings.windowMs <= s.db.now + 1
    ensures var after := Run(s, [Tick(1), DropSlot(email), Advance(|calls|, QUIET)]);
      && after.procs == calls + [StoringLink(email, nonce, now, true)]
      && after.db == Later(s.db, email, Slot(now, 1), s.db.now + 1)
  {
    hide Run, ProcStep, IsMailable, AccountAt;
    RunThree(s, Tick(1), DropSlot(email), Advance(|calls|, QUIET));
    var dropped := Step(Step(s, Tick(1)), DropSlot(email)).db;
    SameAccounts(s.db, dropped, email);
    assert dropped == s.db.(now := s.db.now + 1, slots := s.db.slots - {email});
    ReadsThenCounts(dropped, email, nonce, now, |calls|);
    assert (calls + [AskingSlot(email, nonce, now, false)])[|calls| := StoringLink(email, nonce, now, true)]
        == calls + [StoringLink(email, nonce, now, true)];
    assert (s.db.slots - {email})[email := Slot(now, 1)] == s.db.slots[email := Slot(now, 1)];
  }

  lemma StraddleOpens(s: State, db: Db, email: string, calls: nat, mails: nat, taken: nat, start: int, nonce: Hash)
    requires At(s, db, email, calls, mails, taken, start, start) && IsMailable(db, email)
    requires db.settings.maxPerHour >= 1 && db.settings.windowMs >= 2
    ensures var width := db.settings.windowMs;
      At(Run(s, Straddle(email, nonce, calls, width - 1)), db, email, calls + 1, mails + 1, 1, start + width - 1, start + width)
  {
    hide Run, MailCount, IsMailable;
    var wait := db.settings.windowMs - 1;
    var one := [Tick(wait), Request(email, nonce), Advance(calls, QUIET)];
    StillMailable(db, email, Slot(start, taken), start);
    StraddleReads(s, email, nonce, wait);
    StillMailable(db, email, Slot(start, taken), start + wait);
    StraddleCounts(Run(s, one), s.procs, email, nonce, start + wait);
    OneMoreMail(s.procs, email, nonce, start + wait);
    RunsJoin(s, one, [Tick(1), DropSlot(email), Advance(calls, QUIET)]);
  }

  /** Three full caps, in two hours less a moment. */
  function Overrun(settings: Settings, email: string, nonce: Hash): seq<Event>
    requires settings.maxPerHour >= 1 && settings.windowMs >= 2
  {
    var n := settings.maxPerHour;
    RequestOnce(email, nonce, 0) + Burst(email, nonce, 1, n - 1)
    + (Straddle(email, nonce, n, settings.windowMs - 1) + Burst(email, nonce, n + 1, n - 1))
    + ([Tick(settings.windowMs - 1)] + RequestOnce(email, nonce, 2 * n) + Burst(email, nonce, 2 * n + 1, n - 1))
  }

  lemma FirstHour(db: Db, email: string, nonce: Hash)
    requires email !in db.slots && IsMailable(db, email) && db.settings.maxPerHour >= 1 && db.settings.windowMs >= 2
    ensures var n := db.settings.maxPerHour;
      At(Run(State(db, []), RequestOnce(email, nonce, 0) + Burst(email, nonce, 1, n - 1)), db, email, n, n, n, db.now, db.now)
  {
    hide Run, At, RequestOnce, Burst, IsMailable;
    var n := db.settings.maxPerHour;
    FirstRequest(db, email, nonce);
    BurstFills(Run(State(db, []), RequestOnce(email, nonce, 0)), db, email, 1, 1, 1, db.now, db.now, n - 1, nonce);
    RunsJoin(State(db, []), RequestOnce(email, nonce, 0), Burst(email, nonce, 1, n - 1));
  }

  lemma SecondHour(s: State, db: Db, email: string, nonce: Hash)
    requires IsMailable(db, email) && db.settings.maxPerHour >= 1 && db.settings.windowMs >= 2
    requires At(s, db, email, db.settings.maxPerHour, db.settings.maxPerHour, db.settings.maxPerHour, db.now, db.now)
    ensures var n, width := db.settings.maxPerHour, db.settings.windowMs;
      At(Run(s, Straddle(email, nonce, n, width - 1) + Burst(email, nonce, n + 1, n - 1)), db, email, 2 * n, 2 * n, n,
         db.now + width - 1, db.now + width)
  {
    hide Run, At, Straddle, Burst, IsMailable;
    var n, width := db.settings.maxPerHour, db.settings.windowMs;
    StraddleOpens(s, db, email, n, n, n, db.now, nonce);
    var opening := Run(s, Straddle(email, nonce, n, width - 1));
    BurstFills(opening, db, email, n + 1, n + 1, 1, db.now + width - 1, db.now + width, n - 1, nonce);
    RunsJoin(s, Straddle(email, nonce, n, width - 1), Burst(email, nonce, n + 1, n - 1));
  }

  lemma Waits(s: State, db: Db, email: string, calls: nat, mails: nat, taken: nat, start: int, now: int, wait: nat)
    requires At(s, db, email, calls, mails, taken, start, now)
    ensures At(Run(s, [Tick(wait)]), db, email, calls, mails, taken, start, now + wait)
  {
    hide Run, MailCount;
    RunOne(s, Tick(wait));
  }

  lemma ThirdHour(s: State, db: Db, email: string, nonce: Hash)
    requires IsMailable(db, email) && db.settings.maxPerHour >= 1 && db.settings.windowMs >= 2
    requires var n, width := db.settings.maxPerHour, db.settings.windowMs;
      At(s, db, email, 2 * n, 2 * n, n, db.now + width - 1, db.now + width)
    ensures var n, width := db.settings.maxPerHour, db.settings.windowMs;
      At(Run(s, [Tick(width - 1)] + RequestOnce(email, nonce, 2 * n) + Burst(email, nonce, 2 * n + 1, n - 1)), db, email,
         3 * n, 3 * n, n, db.now + 2 * width - 1, db.now + 2 * width - 1)
  {
    hide Run, At, RequestOnce, Burst, IsMailable;
    var n, width := db.settings.maxPerHour, db.settings.windowMs;
    var now := db.now + 2 * width - 1;
    Waits(s, db, email, 2 * n, 2 * n, n, db.now + width - 1, db.now + width, width - 1);
    var later := Run(s, [Tick(width - 1)]);
    OneMoreRequest(later, db, email, 2 * n, 2 * n, n, db.now + width - 1, now, nonce);
    RunsJoin(s, [Tick(width - 1)], RequestOnce(email, nonce, 2 * n));
    var rolled := Run(s, [Tick(width - 1)] + RequestOnce(email, nonce, 2 * n));
    BurstFills(rolled, db, email, 2 * n + 1, 2 * n + 1, 1, now, now, n - 1, nonce);
    RunsJoin(s, [Tick(width - 1)] + RequestOnce(email, nonce, 2 * n), Burst(email, nonce, 2 * n + 1, n - 1));
  }

  /** Under every setting there is a run that mails three caps where the cap allows two. */
  lemma StraddledHourBreaksTheCap(db: Db, email: string, nonce: Hash)
    requires email !in db.slots && IsMailable(db, email) && db.settings.maxPerHour >= 1 && db.settings.windowMs >= 2
    ensures var s := Run(State(db, []), Overrun(db.settings, email, nonce));
      && MailCount(s.procs, email) == 3 * db.settings.maxPerHour
      && s.db.now - db.now == 2 * db.settings.windowMs - 1
      && MailCount(s.procs, email) > db.settings.maxPerHour * (1 + (s.db.now - db.now) / db.settings.windowMs)
  {
    hide Run, Burst, MailCount, RequestOnce, Straddle, IsMailable;
    var n, width := db.settings.maxPerHour, db.settings.windowMs;
    var first := RequestOnce(email, nonce, 0) + Burst(email, nonce, 1, n - 1);
    var second := Straddle(email, nonce, n, width - 1) + Burst(email, nonce, n + 1, n - 1);
    var third := [Tick(width - 1)] + RequestOnce(email, nonce, 2 * n) + Burst(email, nonce, 2 * n + 1, n - 1);
    FirstHour(db, email, nonce);
    SecondHour(Run(State(db, []), first), db, email, nonce);
    RunsJoin(State(db, []), first, second);
    ThirdHour(Run(State(db, []), first + second), db, email, nonce);
    RunsJoin(State(db, []), first + second, third);
    OneWhole(width);
    Doubles(n, (2 * width - 1) / width);
  }
}
