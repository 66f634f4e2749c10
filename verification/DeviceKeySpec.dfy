/**
 The device key as a state machine: the native key and marker, the cached flag of one app
 start, the calls the package makes, and what the system may do between them.

 A native call is answered from a script. It may reject, with or without having had its
 effect, or resolve with an answer the platform cannot have meant.
 */
module DeviceKeySpec {
  import opened Options

  datatype Level = SecureEnclave | StrongBox | TrustedEnvironment | Software

  /** A key made by the native module; `jwk` names its public half. */
  datatype StoredKey = StoredKey(jwk: nat, level: Level, refused: bool)

  datatype Condition = Unavailable | NoSecureHardware | NotFound | Invalidated

  datatype Fault = Works | Rejects(condition: Condition, applied: bool) | Garbles

  /**
   `made` counts the keys ever generated, so a new key is never an old one; `nextLevel` is how
   the platform protects the next one, or `None` when it has no secure hardware.
   */
  datatype World = World(
    key: Option<StoredKey>, marker: bool, cached: bool, made: nat, nextLevel: Option<Level>, script: seq<Fault>)

  datatype Reply<+T> = Resolved(value: T) | Rejected(condition: Condition)

  /** A record as it reads in TypeScript: `Unreadable` is one no platform could have meant. */
  datatype Record = Readable(jwk: nat, level: Level) | Unreadable

  // ---------- The native module ----------

  function Fault0(w: World): Fault {
    if w.script == [] then Works else w.script[0]
  }

  function Called(w: World): World {
    w.(script := if w.script == [] then [] else w.script[1..])
  }

  function GetKey(w: World): (World, Reply<Option<Record>>) {
    match Fault0(w)
    case Rejects(condition, _) => (Called(w), Rejected(condition))
    case Garbles => (Called(w), Resolved(Some(Unreadable)))
    case Works =>
      (Called(w), Resolved(if w.key.None? then None else Some(Readable(w.key.value.jwk, w.key.value.level))))
  }

  function NewLevel(w: World, allowSoftware: bool): Option<Level> {
    if w.nextLevel.Some? then w.nextLevel else if allowSoftware then Some(Software) else None
  }

  function WithNewKey(w: World, level: Level): World {
    w.(key := Some(StoredKey(w.made, level, false)), made := w.made + 1)
  }

  function GenerateKey(w: World, allowSoftware: bool): (World, Reply<Record>) {
    var level := NewLevel(w, allowSoftware);
    match Fault0(w)
    case Rejects(condition, applied) =>
      (if applied && level.Some? then WithNewKey(Called(w), level.value) else Called(w), Rejected(condition))
    case Garbles =>
      (if level.Some? then WithNewKey(Called(w), level.value) else Called(w), Resolved(Unreadable))
    case Works =>
      if level.None? then (Called(w), Rejected(NoSecureHardware))
      else (WithNewKey(Called(w), level.value), Resolved(Readable(w.made, level.value)))
  }

  /** True for a DER signature, false for bytes that are none. */
  function SignData(w: World): (World, Reply<bool>) {
    match Fault0(w)
    case Rejects(condition, _) => (Called(w), Rejected(condition))
    case Garbles => (Called(w), Resolved(false))
    case Works =>
      if w.key.None? then (Called(w), Rejected(NotFound))
      else if w.key.value.refused then (Called(w), Rejected(Invalidated))
      else (Called(w), Resolved(true))
  }

  function DeleteKey(w: World): (World, Reply<()>) {
    match Fault0(w)
    case Rejects(condition, applied) => (if applied then Called(w).(key := None) else Called(w), Rejected(condition))
    case _ => (Called(w).(key := None), Resolved(()))
  }

  function GetMarker(w: World): (World, Reply<bool>) {
    match Fault0(w)
    case Rejects(condition, _) => (Called(w), Rejected(condition))
    case _ => (Called(w), Resolved(w.marker))
  }

  function SetMarker(w: World, present: bool): (World, Reply<()>) {
    match Fault0(w)
    case Rejects(condition, applied) =>
      (if applied then Called(w).(marker := present) else Called(w), Rejected(condition))
    case _ => (Called(w).(marker := present), Resolved(()))
  }

  // ---------- The package ----------

  datatype Ensured = Ready(jwk: nat, level: Level) | NoHardware | NotNow | KeyInvalidated

  function WriteMarker(w: World): World {
    if w.cached then w
    else
      var (after, reply) := SetMarker(w, true);
      if reply.Resolved? then after.(cached := true) else after
  }

  function ClearMarker(w: World): World {
    SetMarker(w.(cached := false), false).0
  }

  function Discard(w: World): World {
    ClearMarker(DeleteKey(w).0)
  }

  function Failure(w: World, condition: Condition): (World, Ensured) {
    match condition
    case Invalidated => (Discard(w), KeyInvalidated)
    case NotFound => (Discard(w), KeyInvalidated)
    case NoSecureHardware => (w, NoHardware)
    case Unavailable => (w, NotNow)
  }

  function Accept(w: World, record: Record, allowSoftware: bool): (World, Ensured) {
    match record
    case Unreadable => (w, NotNow)
    case Readable(jwk, level) =>
      if level == Software && !allowSoftware then (ClearMarker(DeleteKey(w).0), NoHardware)
      else (WriteMarker(w), Ready(jwk, level))
  }

  function Ensure(w: World, allowSoftware: bool): (World, Ensured) {
    var (w1, read) := GetKey(w);
    if read.Rejected? then Failure(w1, read.condition)
    else if read.value.Some? then Accept(w1, read.value.value, allowSoftware)
    else
      var (w2, marker) := GetMarker(w1);
      if marker.Rejected? then Failure(w2, marker.condition)
      else if marker.value then (ClearMarker(w2), KeyInvalidated)
      else
        var (w3, made) := GenerateKey(w2, allowSoftware);
        if made.Rejected? then Failure(w3, made.condition) else Accept(w3, made.value, allowSoftware)
  }

  datatype Answer =
    | Success(jwk: nat)
    | Prepared(level: Level)
    | Signature
    | Lost
    | NoSecure
    | Refused
    | Deleted

  function PublicKey(w: World, allowSoftware: bool): (World, Answer) {
    var (after, ensured) := Ensure(w, allowSoftware);
    match ensured
    case Ready(jwk, _) => (after, Success(jwk))
    case KeyInvalidated => (after, Lost)
    case _ => (after, Refused)
  }

  function Prepare(w: World, allowSoftware: bool): (World, Answer) {
    var (after, ensured) := Ensure(w, allowSoftware);
    match ensured
    case Ready(_, level) => (after, Prepared(level))
    case KeyInvalidated => (after, Lost)
    case NoHardware => (after, NoSecure)
    case NotNow => (after, Refused)
  }

  function Sign(w: World): (World, Answer) {
    var (w1, signed) := SignData(w);
    if signed.Rejected? then
      var (after, failed) := Failure(w1, signed.condition);
      (after, if failed.KeyInvalidated? then Lost else Refused)
    else
      (w1, if signed.value then Signature else Refused)
  }

  function Remove(w: World): (World, Answer) {
    // In this order a failed deletion leaves a key that the next read adopts.
    var (w1, cleared) := SetMarker(w.(cached := false), false);
    if cleared.Rejected? then (w1, Refused)
    else
      var (w2, deleted) := DeleteKey(w1);
      (w2, if deleted.Rejected? then Refused else Deleted)
  }

  // ---------- Runs ----------

  datatype Event =
    | CallPublicKey(faults: seq<Fault>)
    | CallPrepare(faults: seq<Fault>)
    | CallSign(faults: seq<Fault>)
    | CallDelete(faults: seq<Fault>)
    /** The system drops the key and leaves the app's files, as a restore to another device does. */
    | LoseKey
    | RefuseKey
    | Restart
    /** The marker goes with the app's data; the key may stay behind. */
    | Reinstall(keyStays: bool)

  function Step(w: World, event: Event, allowSoftware: bool): (World, Option<Answer>) {
    match event
    case CallPublicKey(faults) =>
      var (after, answer) := PublicKey(w.(script := faults), allowSoftware); (after, Some(answer))
    case CallPrepare(faults) =>
      var (after, answer) := Prepare(w.(script := faults), allowSoftware); (after, Some(answer))
    case CallSign(faults) => var (after, answer) := Sign(w.(script := faults)); (after, Some(answer))
    case CallDelete(faults) => var (after, answer) := Remove(w.(script := faults)); (after, Some(answer))
    case LoseKey => (w.(key := None), None)
    case RefuseKey => (if w.key.Some? then w.(key := Some(w.key.value.(refused := true))) else w, None)
    case Restart => (w.(cached := false), None)
    case Reinstall(keyStays) => (w.(marker := false, cached := false, key := if keyStays then w.key else None), None)
  }

  function Run(w: World, events: seq<Event>, allowSoftware: bool): World {
    if events == [] then w
    else Step(Run(w, events[..|events| - 1], allowSoftware), events[|events| - 1], allowSoftware).0
  }

  function AnswerAt(w: World, events: seq<Event>, i: nat, allowSoftware: bool): Option<Answer>
    requires i < |events|
  {
    Step(Run(w, events[..i], allowSoftware), events[i], allowSoftware).1
  }

  /** What every reachable state keeps: the cached flag never outruns the marker. */
  predicate Sound(w: World) {
    && (w.cached ==> w.marker)
    && (w.key.Some? ==> w.key.value.jwk < w.made)
  }

  /** A later world: still sound, on the same platform, with no key forgotten from the count. */
  predicate Onward(w: World, after: World) {
    Sound(after) && w.made <= after.made && w.nextLevel == after.nextLevel
  }

  lemma CallsStaySound(w: World, allowSoftware: bool, present: bool)
    requires Sound(w)
    ensures Onward(w, GetKey(w).0) && Onward(w, GenerateKey(w, allowSoftware).0) && Onward(w, SignData(w).0)
    ensures Onward(w, DeleteKey(w).0) && DeleteKey(w).0.cached == w.cached && Onward(w, GetMarker(w).0)
    ensures SetMarker(w, present).0.cached == w.cached
    ensures !w.cached || present ==> Onward(w, SetMarker(w, present).0)
  {
    hide GenerateKey;
    MakingStaysSound(w, allowSoftware);
  }

  lemma MakingStaysSound(w: World, allowSoftware: bool)
    requires Sound(w)
    ensures Onward(w, GenerateKey(w, allowSoftware).0)
  {}

  lemma RepairsStaySound(w: World, condition: Condition)
    requires Sound(w)
    ensures Onward(w, WriteMarker(w)) && WriteMarker(w).key == w.key
    ensures Onward(w, ClearMarker(w)) && Onward(w, Discard(w)) && Onward(w, Failure(w, condition).0)
  {
    CallsStaySound(w, false, true);
    CallsStaySound(w.(cached := false), false, false);
    CallsStaySound(DeleteKey(w).0.(cached := false), false, false);
  }

  function Acceptable(level: Level, allowSoftware: bool): bool {
    level != Software || allowSoftware
  }

  /** The stored key is `jwk`, of a level the settings accept. */
  predicate Stores(w: World, jwk: nat, level: Level, allowSoftware: bool) {
    && w.key.Some? && w.key.value.jwk == jwk && w.key.value.level == level
    && Acceptable(level, allowSoftware)
  }

  lemma AcceptStaysSound(w: World, record: Record, allowSoftware: bool)
    requires Sound(w)
    requires record.Readable? ==> w.key.Some? && w.key.value.jwk == record.jwk && w.key.value.level == record.level
    ensures var (after, ensured) := Accept(w, record, allowSoftware);
      && Onward(w, after)
      && (ensured.Ready? ==> Stores(after, ensured.jwk, ensured.level, allowSoftware))
  {
    hide WriteMarker, ClearMarker, DeleteKey;
    RepairsStaySound(w, Unavailable);
    CallsStaySound(w, false, false);
    RepairsStaySound(DeleteKey(w).0, Unavailable);
  }

  lemma ReadsTell(w: World, allowSoftware: bool)
    ensures var (after, read) := GetKey(w);
      && after.(script := w.script) == w
      && (read.Resolved? && read.value.None? ==> w.key.None?)
      && (read.Resolved? && read.value.Some? && read.value.value.Readable? ==>
        && w.key.Some? && w.key.value.jwk == read.value.value.jwk && w.key.value.level == read.value.value.level)
    ensures var (after, marker) := GetMarker(w);
      && after.(script := w.script) == w
      && (marker.Resolved? ==> marker.value == w.marker)
    ensures var (after, made) := GenerateKey(w, allowSoftware);
      made.Resolved? && made.value.Readable? ==>
        && after.key == Some(StoredKey(made.value.jwk, made.value.level, false)) && made.value.jwk == w.made
  {}

  lemma EnsureStaysSound(w: World, allowSoftware: bool)
    requires Sound(w)
    ensures var (after, ensured) := Ensure(w, allowSoftware);
      && Onward(w, after)
      && (ensured.Ready? ==> Stores(after, ensured.jwk, ensured.level, allowSoftware))
  {
    hide GetKey, GetMarker, GenerateKey, ClearMarker, Accept, Failure, Sound, Stores;
    CallsStaySound(w, allowSoftware, false);
    ReadsTell(w, allowSoftware);
    var (w1, read) := GetKey(w);
    if read.Rejected? {
      RepairsStaySound(w1, read.condition);
      FailureIsNotReady(w1, read.condition);
    } else if read.value.Some? {
      AcceptStaysSound(w1, read.value.value, allowSoftware);
    } else {
      CallsStaySound(w1, allowSoftware, false);
      ReadsTell(w1, allowSoftware);
      var (w2, marker) := GetMarker(w1);
      RepairsStaySound(w2, if marker.Rejected? then marker.condition else Unavailable);
      FailureIsNotReady(w2, if marker.Rejected? then marker.condition else Unavailable);
      CallsStaySound(w2, allowSoftware, false);
      ReadsTell(w2, allowSoftware);
      var (w3, made) := GenerateKey(w2, allowSoftware);
      RepairsStaySound(w3, if made.Rejected? then made.condition else Unavailable);
      FailureIsNotReady(w3, if made.Rejected? then made.condition else Unavailable);
      if made.Resolved? { AcceptStaysSound(w3, made.value, allowSoftware); }
    }
  }

  lemma FailureIsNotReady(w: World, condition: Condition)
    ensures !Failure(w, condition).1.Ready?
  {}

  /** A public key is only answered for a key that is stored and protected as the settings ask. */
  predicate AnswersWhatIsStored(after: World, answer: Option<Answer>, allowSoftware: bool) {
    match answer
    case Some(Success(jwk)) => after.key.Some? && Stores(after, jwk, after.key.value.level, allowSoftware)
    case Some(Prepared(level)) => after.key.Some? && Stores(after, after.key.value.jwk, level, allowSoftware)
    case _ => true
  }

  lemma SignStaysSound(w: World)
    requires Sound(w)
    ensures Onward(w, Sign(w).0) && !Sign(w).1.Success? && !Sign(w).1.Prepared?
  {
    hide SignData, Failure;
    CallsStaySound(w, false, false);
    var (w1, signed) := SignData(w);
    RepairsStaySound(w1, if signed.Rejected? then signed.condition else Unavailable);
  }

  lemma RemoveStaysSound(w: World)
    requires Sound(w)
    ensures Onward(w, Remove(w).0) && !Remove(w).1.Success? && !Remove(w).1.Prepared?
  {
    hide SetMarker, DeleteKey;
    var w0 := w.(cached := false);
    CallsStaySound(w0, false, false);
    CallsStaySound(SetMarker(w0, false).0, false, false);
  }

  lemma StepStaysSound(w: World, event: Event, allowSoftware: bool)
    requires Sound(w)
    ensures var (after, answer) := Step(w, event, allowSoftware);
      && Onward(w, after)
      && AnswersWhatIsStored(after, answer, allowSoftware)
  {
    hide Ensure, Sign, Remove, Stores;
    match event
    case CallPublicKey(faults) => ReadyTellsTheKey(w.(script := faults), allowSoftware);
    case CallPrepare(faults) => ReadyTellsTheKey(w.(script := faults), allowSoftware);
    case CallSign(faults) => SignStaysSound(w.(script := faults));
    case CallDelete(faults) => RemoveStaysSound(w.(script := faults));
    case _ =>
  }

  lemma ReadyTellsTheKey(w: World, allowSoftware: bool)
    requires Sound(w)
    ensures var (after, ensured) := Ensure(w, allowSoftware);
      && Onward(w, after)
      && (ensured.Ready? ==>
        && after.key.Some? && after.key.value.jwk == ensured.jwk && after.key.value.level == ensured.level
        && Stores(after, ensured.jwk, ensured.level, allowSoftware))
  {
    hide Ensure;
    EnsureStaysSound(w, allowSoftware);
  }

  /** The cached flag never outruns the marker, whatever fails and whenever, from a first start on. */
  lemma {:induction false} RunStaysSound(w: World, events: seq<Event>, allowSoftware: bool)
    requires Sound(w)
    ensures Onward(w, Run(w, events, allowSoftware))
    ensures forall i :: 0 <= i < |events| ==> Onward(w, Run(w, events[..i], allowSoftware))
  {
    if events != [] {
      var before := events[..|events| - 1];
      RunStaysSound(w, before, allowSoftware);
      StepStaysSound(Run(w, before, allowSoftware), events[|events| - 1], allowSoftware);
      forall i | 0 <= i < |events| ensures Onward(w, Run(w, events[..i], allowSoftware)) {
        if i < |before| { assert events[..i] == before[..i]; } else { assert events[..i] == before; }
      }
    }
  }

  // ---------- A key that was answered ----------

  /** The platform gives this app keys that its settings accept. */
  predicate CanMake(w: World, allowSoftware: bool) {
    var level := NewLevel(w, allowSoftware);
    level.Some? && Acceptable(level.value, allowSoftware)
  }

  /** Any key the app could now be given is `jwk`. */
  predicate Holds(w: World, jwk: nat, allowSoftware: bool) {
    && (w.key.Some? && Acceptable(w.key.value.level, allowSoftware) ==> w.key.value.jwk == jwk)
    && (CanMake(w, allowSoftware) ==>
      w.marker && (w.key.Some? ==> Acceptable(w.key.value.level, allowSoftware)))
  }

  predicate Breaks(event: Event, answer: Option<Answer>) {
    event.CallDelete? || event.Reinstall? || answer == Some(Lost)
  }

  lemma AcceptHolds(w: World, record: Record, jwk: nat, allowSoftware: bool)
    requires Holds(w, jwk, allowSoftware)
    requires record.Readable? ==> w.key.Some? && w.key.value.jwk == record.jwk && w.key.value.level == record.level
    ensures Holds(Accept(w, record, allowSoftware).0, jwk, allowSoftware)
    ensures Accept(w, record, allowSoftware).1.Ready? ==> Accept(w, record, allowSoftware).1.jwk == jwk
  {
    hide CanMake, WriteMarker, ClearMarker, DeleteKey;
    WritingHolds(w, jwk, allowSoftware);
    if record.Readable? && !Acceptable(record.level, allowSoftware) { RemovingHolds(w, jwk, allowSoftware); }
  }

  lemma WritingHolds(w: World, jwk: nat, allowSoftware: bool)
    requires Holds(w, jwk, allowSoftware)
    ensures Holds(WriteMarker(w), jwk, allowSoftware)
  {}

  lemma RemovingHolds(w: World, jwk: nat, allowSoftware: bool)
    requires Holds(w, jwk, allowSoftware) && !CanMake(w, allowSoftware)
    ensures Holds(ClearMarker(DeleteKey(w).0), jwk, allowSoftware)
  {
    hide ClearMarker, DeleteKey;
    DeletingHolds(w, jwk, allowSoftware);
    ClearingHolds(DeleteKey(w).0, jwk, allowSoftware);
  }

  lemma DeletingHolds(w: World, jwk: nat, allowSoftware: bool)
    requires Holds(w, jwk, allowSoftware) && !CanMake(w, allowSoftware)
    ensures Holds(DeleteKey(w).0, jwk, allowSoftware) && !CanMake(DeleteKey(w).0, allowSoftware)
  {}

  lemma ClearingHolds(w: World, jwk: nat, allowSoftware: bool)
    requires Holds(w, jwk, allowSoftware) && !CanMake(w, allowSoftware)
    ensures Holds(ClearMarker(w), jwk, allowSoftware)
  {}

  lemma FailureHolds(w: World, condition: Condition, jwk: nat, allowSoftware: bool)
    requires Holds(w, jwk, allowSoftware)
    ensures !Failure(w, condition).1.KeyInvalidated? ==> Holds(Failure(w, condition).0, jwk, allowSoftware)
    ensures !Failure(w, condition).1.Ready?
  {}

  lemma NoMakingHolds(w: World, jwk: nat, allowSoftware: bool)
    requires Holds(w, jwk, allowSoftware) && !CanMake(w, allowSoftware)
    ensures Holds(GenerateKey(w, allowSoftware).0, jwk, allowSoftware)
  {}

  lemma EnsureHolds(w: World, jwk: nat, allowSoftware: bool)
    requires Holds(w, jwk, allowSoftware)
    ensures var (after, ensured) := Ensure(w, allowSoftware);
      !ensured.KeyInvalidated? ==>
        Holds(after, jwk, allowSoftware) && (ensured.Ready? ==> ensured.jwk == jwk)
  {
    hide GetKey, GetMarker, GenerateKey, ClearMarker, Accept, Failure, NewLevel;
    ReadsTell(w, allowSoftware);
    var (w1, read) := GetKey(w);
    SameButScript(w, w1, jwk, allowSoftware);
    if read.Rejected? {
      FailureHolds(w1, read.condition, jwk, allowSoftware);
    } else if read.value.Some? {
      AcceptHolds(w1, read.value.value, jwk, allowSoftware);
    } else {
      ReadsTell(w1, allowSoftware);
      var (w2, marker) := GetMarker(w1);
      SameButScript(w1, w2, jwk, allowSoftware);
      if marker.Rejected? {
        FailureHolds(w2, marker.condition, jwk, allowSoftware);
      } else if !marker.value {
        NoMakingHolds(w2, jwk, allowSoftware);
        ReadsTell(w2, allowSoftware);
        var (w3, made) := GenerateKey(w2, allowSoftware);
        if made.Rejected? {
          FailureHolds(w3, made.condition, jwk, allowSoftware);
        } else {
          AcceptHolds(w3, made.value, jwk, allowSoftware);
        }
      }
    }
  }

  lemma SameButScript(w: World, after: World, jwk: nat, allowSoftware: bool)
    requires Holds(w, jwk, allowSoftware) && after.(script := w.script) == w
    ensures Holds(after, jwk, allowSoftware)
    ensures CanMake(after, allowSoftware) == CanMake(w, allowSoftware)
  {}

  lemma StepHolds(w: World, event: Event, jwk: nat, allowSoftware: bool)
    requires Holds(w, jwk, allowSoftware)
    ensures var (after, answer) := Step(w, event, allowSoftware);
      !Breaks(event, answer) ==>
        Holds(after, jwk, allowSoftware) && (answer.Some? && answer.value.Success? ==> answer.value.jwk == jwk)
  {
    hide Ensure, Failure, SetMarker, DeleteKey, Remove;
    match event
    case CallPublicKey(faults) => EnsureHolds(w.(script := faults), jwk, allowSoftware);
    case CallPrepare(faults) => EnsureHolds(w.(script := faults), jwk, allowSoftware);
    case CallSign(faults) =>
      var w0 := w.(script := faults);
      var (w1, signed) := SignData(w0);
      assert w1.(script := w0.script) == w0;
      SameButScript(w, w1, jwk, allowSoftware);
      if signed.Rejected? { FailureHolds(w1, signed.condition, jwk, allowSoftware); }
    case _ =>
  }

  /** Nothing in these events asked for the key to go, and no answer said that it went. */
  predicate Unbroken(w: World, events: seq<Event>, allowSoftware: bool) {
    forall i :: 0 <= i < |events| ==> !Breaks(events[i], AnswerAt(w, events, i, allowSoftware))
  }

  /** From here on, every key answered before a loss is announced or asked for is `jwk`. */
  ghost predicate SameKeyFromNowOn(w: World, jwk: nat, allowSoftware: bool) {
    forall events: seq<Event> | |events| > 0 && Unbroken(w, events, allowSoftware) ::
      var answer := AnswerAt(w, events, |events| - 1, allowSoftware);
      answer.Some? && answer.value.Success? ==> answer.value.jwk == jwk
  }

  lemma {:induction false} UnbrokenHolds(w: World, events: seq<Event>, jwk: nat, allowSoftware: bool)
    requires Holds(w, jwk, allowSoftware) && Unbroken(w, events, allowSoftware)
    ensures Holds(Run(w, events, allowSoftware), jwk, allowSoftware)
    ensures |events| > 0 ==>
      var answer := AnswerAt(w, events, |events| - 1, allowSoftware);
      answer.Some? && answer.value.Success? ==> answer.value.jwk == jwk
  {
    hide Step, Holds, Breaks;
    if events != [] {
      var before := events[..|events| - 1];
      forall i | 0 <= i < |before| ensures !Breaks(before[i], AnswerAt(w, before, i, allowSoftware)) {
        assert before[..i] == events[..i];
        assert !Breaks(events[i], AnswerAt(w, events, i, allowSoftware));
      }
      UnbrokenHolds(w, before, jwk, allowSoftware);
      assert !Breaks(events[|before|], AnswerAt(w, events, |before|, allowSoftware));
      StepHolds(Run(w, before, allowSoftware), events[|before|], jwk, allowSoftware);
    }
  }

  /** Without a marker, a key the system drops is replaced without a word. */
  lemma UnmarkedLossIsSilent(w: World, allowSoftware: bool)
    requires !w.marker && !w.cached && CanMake(w, allowSoftware)
    ensures var events := [LoseKey, CallPublicKey([])];
      && Unbroken(w, events, allowSoftware)
      && AnswerAt(w, events, 1, allowSoftware) == Some(Success(w.made))
  {
    var events := [LoseKey, CallPublicKey([])];
    var lost := Step(w, LoseKey, allowSoftware).0;
    assert events[..0] == [] && events[..1] == [LoseKey];
    assert [LoseKey][..0] == [];
    assert Run(w, events[..1], allowSoftware) == lost;
    FreshKeyWithoutFaults(lost, allowSoftware);
    assert AnswerAt(w, events, 0, allowSoftware) == None;
  }

  lemma FreshKeyWithoutFaults(w: World, allowSoftware: bool)
    requires w.key.None? && !w.marker && !w.cached && CanMake(w, allowSoftware)
    ensures var (after, answer) := Step(w, CallPublicKey([]), allowSoftware);
      answer == Some(Success(w.made)) && after.marker && after.cached
  {}

  /**
   After a public key was answered, every later answer is the same key until a loss is announced
   or asked for, exactly when the marker is on the device (or the platform makes no key this
   app would take).
   */
  lemma AnsweredKeyIsKeptExactly(w: World, event: Event, allowSoftware: bool)
    requires Sound(w) && event.CallPublicKey?
    requires var answer := Step(w, event, allowSoftware).1; answer.Some? && answer.value.Success?
    ensures var (after, answer) := Step(w, event, allowSoftware);
      SameKeyFromNowOn(after, answer.value.jwk, allowSoftware) <==> (after.marker || !CanMake(after, allowSoftware))
  {
    hide Step, CanMake, Unbroken, AnswerAt;
    StepStaysSound(w, event, allowSoftware);
    var (after, answer) := Step(w, event, allowSoftware);
    var jwk := answer.value.jwk;
    if after.marker || !CanMake(after, allowSoftware) {
      assert Holds(after, jwk, allowSoftware);
      forall events: seq<Event> | |events| > 0 && Unbroken(after, events, allowSoftware)
        ensures var later := AnswerAt(after, events, |events| - 1, allowSoftware);
          later.Some? && later.value.Success? ==> later.value.jwk == jwk
      {
        UnbrokenHolds(after, events, jwk, allowSoftware);
      }
    } else {
      UnmarkedLossIsSilent(after, allowSoftware);
      var events := [LoseKey, CallPublicKey([])];
      var later := AnswerAt(after, events, |events| - 1, allowSoftware);
      assert later.value.jwk != jwk;
    }
  }

  predicate NoRejection(script: seq<Fault>) {
    forall i :: 0 <= i < |script| ==> !script[i].Rejects?
  }

  /** The marker is missing after an answered key only when the call that writes it was refused. */
  lemma MarkerFollowsTheKey(w: World, faults: seq<Fault>, allowSoftware: bool)
    requires Sound(w) && NoRejection(faults)
    ensures var (after, answer) := Step(w, CallPublicKey(faults), allowSoftware);
      answer.Some? && answer.value.Success? ==> after.marker && after.cached
  {
    hide GetKey, GetMarker, GenerateKey, ClearMarker, DeleteKey;
    var w0 := w.(script := faults);
    Quiet(w0, allowSoftware);
    var w1 := GetKey(w0).0;
    Quiet(w1, allowSoftware);
    var w2 := GetMarker(w1).0;
    Quiet(w2, allowSoftware);
    ReadsTell(w0, allowSoftware);
    ReadsTell(w1, allowSoftware);
  }

  lemma Quiet(w: World, allowSoftware: bool)
    requires NoRejection(w.script)
    ensures GetKey(w).1.Resolved? && GetMarker(w).1.Resolved?
    ensures NoRejection(GetKey(w).0.script) && NoRejection(GetMarker(w).0.script)
    ensures NoRejection(GenerateKey(w, allowSoftware).0.script)
    ensures GenerateKey(w, allowSoftware).1.Rejected? ==> GenerateKey(w, allowSoftware).1.condition == NoSecureHardware
    ensures GenerateKey(w, allowSoftware).0.marker == w.marker && GenerateKey(w, allowSoftware).0.cached == w.cached
  {}

  lemma {:induction false} RunsJoin(w: World, first: seq<Event>, then_: seq<Event>, allowSoftware: bool)
    ensures Run(Run(w, first, allowSoftware), then_, allowSoftware) == Run(w, first + then_, allowSoftware)
  {
    hide Step;
    if then_ == [] {
      assert first + then_ == first;
    } else {
      var before := then_[..|then_| - 1];
      RunsJoin(w, first, before, allowSoftware);
      assert (first + then_)[..|first + then_| - 1] == first + before;
      assert (first + then_)[|first + then_| - 1] == then_[|then_| - 1];
    }
  }

  /** The answers of a stretch of a run are the answers of a run of that stretch. */
  lemma StretchAnswers(w: World, events: seq<Event>, from: nat, to: nat, m: nat, allowSoftware: bool)
    requires from + m < to <= |events|
    ensures AnswerAt(Run(w, events[..from], allowSoftware), events[from..to], m, allowSoftware)
      == AnswerAt(w, events, from + m, allowSoftware)
  {
    hide Step, Run;
    RunsJoin(w, events[..from], events[from..to][..m], allowSoftware);
    assert events[..from] + events[from..to][..m] == events[..from + m];
  }

  lemma AnotherKeyBreaks(w: World, event: Event, later: seq<Event>, one: nat, other: nat, allowSoftware: bool)
    requires Sound(w) && event.CallPublicKey? && later != [] && one != other
    requires Step(w, event, allowSoftware).1 == Some(Success(one)) && Step(w, event, allowSoftware).0.marker
    requires AnswerAt(Step(w, event, allowSoftware).0, later, |later| - 1, allowSoftware) == Some(Success(other))
    ensures !Unbroken(Step(w, event, allowSoftware).0, later, allowSoftware)
  {
    hide Step, Sound, CanMake, AnswerAt, Unbroken;
    AnsweredKeyIsKeptExactly(w, event, allowSoftware);
  }

  /**
   Two different public keys in one run have an announced loss, a requested deletion or a fresh
   install between them, when the marker was on the device right after the first.
   */
  lemma DifferentAnswersHaveALossBetween(
    w: World, events: seq<Event>, i: nat, j: nat, one: nat, other: nat, allowSoftware: bool)
    requires Sound(w) && i < j < |events| && one != other
    requires events[i].CallPublicKey? && events[j].CallPublicKey?
    requires Run(w, events[..i + 1], allowSoftware).marker
    requires AnswerAt(w, events, i, allowSoftware) == Some(Success(one))
    requires AnswerAt(w, events, j, allowSoftware) == Some(Success(other))
    ensures exists m :: i < m < j && Breaks(events[m], AnswerAt(w, events, m, allowSoftware))
  {
    hide Step, Sound, AnswerAt, Run;
    var before := Run(w, events[..i], allowSoftware);
    assert Sound(before) by { RunStaysSound(w, events, allowSoftware); }
    var after := Run(w, events[..i + 1], allowSoftware);
    OneMore(w, events, i, allowSoftware);
    var tail := events[i + 1..j + 1];
    StretchAnswers(w, events, i + 1, j + 1, j - i - 1, allowSoftware);
    AnotherKeyBreaks(before, events[i], tail, one, other, allowSoftware);
    var m :| 0 <= m < |tail| && Breaks(tail[m], AnswerAt(after, tail, m, allowSoftware));
    StretchAnswers(w, events, i + 1, j + 1, m, allowSoftware);
    assert Breaks(events[i + 1 + m], AnswerAt(w, events, i + 1 + m, allowSoftware));
  }

  lemma OneMore(w: World, events: seq<Event>, i: nat, allowSoftware: bool)
    requires i < |events|
    ensures Run(w, events[..i + 1], allowSoftware)
      == Step(Run(w, events[..i], allowSoftware), events[i], allowSoftware).0
    ensures AnswerAt(w, events, i, allowSoftware)
      == Step(Run(w, events[..i], allowSoftware), events[i], allowSoftware).1
  {
    hide Step;
    assert events[..i + 1][..i] == events[..i];
  }

  // ---------- What each answer leaves ----------

  /** Signing makes no key, and a signature or a plain refusal leaves key and marker as they were. */
  lemma SigningOnlyRemoves(w: World, faults: seq<Fault>)
    ensures var (after, answer) := Sign(w.(script := faults));
      && after.made == w.made
      && (answer != Lost ==> after.key == w.key && after.marker == w.marker && after.cached == w.cached)
      && (answer == Signature ==> w.key.Some? && !w.key.value.refused)
      && (answer == Lost ==> !after.cached && (after.key.None? || after.key == w.key))
  {
    hide Discard;
    DiscardOnlyRemoves(SignData(w.(script := faults)).0);
  }

  lemma DiscardOnlyRemoves(w: World)
    ensures var after := Discard(w);
      after.made == w.made && !after.cached && (after.key.None? || after.key == w.key)
  {}

  /** An announced loss leaves nothing behind unless a clean-up call was refused. */
  lemma LossIsCleanUnlessRefused(w: World, condition: Condition)
    requires condition.Invalidated? || condition.NotFound?
    requires NoRejection(w.script)
    ensures var (after, ensured) := Failure(w, condition);
      ensured.KeyInvalidated? && after.key.None? && !after.marker && !after.cached
  {}

  /** How the first native call of a script goes. */
  function FirstFault(script: seq<Fault>): Fault {
    if script == [] then Works else script[0]
  }

  predicate SaysGone(fault: Fault) {
    fault.Rejects? && (fault.condition.Invalidated? || fault.condition.NotFound?)
  }

  /**
   Exactly when each answer to `sign` comes: a signature for a stored key the system accepts, a loss
   for one it refuses or has dropped or when the module says so, a refusal for anything else.
   */
  lemma SigningAnswersExactly(w: World, faults: seq<Fault>, allowSoftware: bool)
    ensures var answer := Step(w, CallSign(faults), allowSoftware).1;
      var usable := w.key.Some? && !w.key.value.refused;
      && (answer == Some(Signature) <==> FirstFault(faults).Works? && usable)
      && (answer == Some(Lost) <==> SaysGone(FirstFault(faults)) || (FirstFault(faults).Works? && !usable))
      && (answer == Some(Refused) <==>
            FirstFault(faults).Garbles? || (FirstFault(faults).Rejects? && !SaysGone(FirstFault(faults))))
  {
    hide Discard;
  }

  /** A first call that is not answered well settles `publicKey` and `prepare`, with the key and marker left or discarded. */
  lemma FailedReadAnswersExactly(w: World, faults: seq<Fault>, allowSoftware: bool)
    requires !FirstFault(faults).Works?
    ensures var (after, read) := Step(w, CallPublicKey(faults), allowSoftware);
      var (same, prepared) := Step(w, CallPrepare(faults), allowSoftware);
      && same == after && after.made == w.made
      && (if SaysGone(FirstFault(faults)) then read == Some(Lost) && prepared == Some(Lost)
          else
            && read == Some(Refused)
            && prepared == Some(if FirstFault(faults).Rejects? && FirstFault(faults).condition.NoSecureHardware? then NoSecure else Refused)
            && after.key == w.key && after.marker == w.marker && after.cached == w.cached)
  {
    hide Discard, WriteMarker, GenerateKey, GetMarker, ClearMarker, DeleteKey;
    DiscardOnlyRemoves(GetKey(w.(script := faults)).0);
  }

  /** What `publicKey` answers when every native call goes well, by key, marker and what the platform offers. */
  lemma PublicKeyAnswersExactly(w: World, allowSoftware: bool)
    requires Sound(w)
    ensures var (after, answer) := Step(w, CallPublicKey([]), allowSoftware);
      if w.key.Some? && Acceptable(w.key.value.level, allowSoftware) then
        answer == Some(Success(w.key.value.jwk)) && after.key == w.key && after.marker && after.cached
      else if w.key.Some? then answer == Some(Refused) && after.key.None? && !after.marker && after.made == w.made
      else if w.marker then answer == Some(Lost) && after.key.None? && !after.marker && after.made == w.made
      else if CanMake(w, allowSoftware) then
        && answer == Some(Success(w.made)) && after.made == w.made + 1 && after.marker && after.cached
        && after.key == Some(StoredKey(w.made, NewLevel(w, allowSoftware).value, false))
      else answer == Some(Refused) && after.key.None? && !after.marker
  {}

  /** The level of a new key is the platform's; without secure hardware it is software, where that is allowed. */
  lemma NewKeysAreOfTheBestLevel(w: World, allowSoftware: bool)
    ensures NewLevel(w, allowSoftware).None? <==> w.nextLevel.None? && !allowSoftware
    ensures w.nextLevel.Some? ==> NewLevel(w, allowSoftware) == w.nextLevel
    ensures w.nextLevel.None? && allowSoftware ==> NewLevel(w, allowSoftware) == Some(Software)
    ensures Acceptable(Software, allowSoftware) <==> allowSoftware
    ensures forall level: Level :: level != Software ==> Acceptable(level, allowSoftware)
  {}

  /** Exactly when `delete` answers: it says so when both native calls went well, and nothing else is done when the first did not. */
  lemma DeletionAnswersExactly(w: World, faults: seq<Fault>, allowSoftware: bool)
    ensures var (after, answer) := Step(w, CallDelete(faults), allowSoftware);
      var second := FirstFault(if faults == [] then [] else faults[1..]);
      && (answer == Some(Deleted) <==> !FirstFault(faults).Rejects? && !second.Rejects?)
      && (answer != Some(Deleted) ==> answer == Some(Refused))
      && !after.cached && after.made == w.made
      && (FirstFault(faults).Rejects? ==> after.key == w.key)
  {}

  /** Preparing is reading the public key with another answer: same effects, same successes and losses. */
  lemma PreparingIsReading(w: World, faults: seq<Fault>, allowSoftware: bool)
    requires Sound(w)
    ensures var (prepared, first) := Step(w, CallPrepare(faults), allowSoftware);
      var (read, second) := Step(w, CallPublicKey(faults), allowSoftware);
      && prepared == read && first.Some? && second.Some?
      && (first.value.Prepared? <==> second.value.Success?)
      && (first.value.Prepared? ==> Stores(read, second.value.jwk, first.value.level, allowSoftware))
      && (first.value == Lost <==> second.value == Lost)
      && (second.value == Refused <==> first.value == Refused || first.value == NoSecure)
  {
    hide Ensure, Stores;
    EnsureStaysSound(w.(script := faults), allowSoftware);
  }

  /** A software key the settings do not accept is not answered, and goes with its marker. */
  lemma SoftwareKeyIsTurnedAway(w: World, faults: seq<Fault>)
    requires NoRejection(faults) && (faults == [] || faults[0].Works?)
    requires w.key.Some? && w.key.value.level == Software
    ensures var (after, answer) := Step(w, CallPrepare(faults), false);
      answer == Some(NoSecure) && after.key.None? && !after.marker && !after.cached && after.made == w.made
  {}

  /** With the marker cached, reading a stored key makes one native call: nothing is written again. */
  lemma CachedMarkerIsNotWrittenAgain(w: World, fault: Fault, rest: seq<Fault>, allowSoftware: bool)
    requires w.cached && w.key.Some? && Acceptable(w.key.value.level, allowSoftware) && fault.Works?
    ensures var after := Ensure(w.(script := [fault] + rest), allowSoftware).0;
      after.script == rest && after.(script := w.script) == w
  {}

  /** A native call that is rejected may have had its effect all the same; one that resolves has had it. */
  lemma CallsDoWhatTheySay(w: World, present: bool)
    ensures DeleteKey(w).0.key == if Fault0(w).Rejects? && !Fault0(w).applied then w.key else None
    ensures SetMarker(w, present).0.marker == if Fault0(w).Rejects? && !Fault0(w).applied then w.marker else present
    ensures DeleteKey(w).1.Rejected? <==> Fault0(w).Rejects?
    ensures SetMarker(w, present).1.Rejected? <==> Fault0(w).Rejects?
    ensures NewLevel(w, true).Some? ==>
      (GenerateKey(w, true).0.made == w.made + 1 <==> !Fault0(w).Rejects? || Fault0(w).applied)
  {}

  /** What the system does between calls: it drops or refuses a key, restarts the app, or installs it afresh. */
  lemma SystemEventsShow(w: World, allowSoftware: bool, keyStays: bool)
    requires Sound(w)
    ensures w.marker ==>
      Step(Step(w, LoseKey, allowSoftware).0, CallPublicKey([]), allowSoftware).1 == Some(Lost)
    ensures w.key.Some? ==> Step(Step(w, RefuseKey, allowSoftware).0, CallSign([]), allowSoftware).1 == Some(Lost)
    ensures Step(w, Restart, allowSoftware).0 == w.(cached := false)
    ensures var after := Step(w, Reinstall(keyStays), allowSoftware).0;
      !after.marker && !after.cached && after.key == if keyStays then w.key else None
    ensures w.key.None? ==> Step(w, RefuseKey, allowSoftware).0 == w
  {}

  /** A refused key is announced once: the next public key is a new one. */
  lemma RefusedKeyIsReplaced(w: World, allowSoftware: bool)
    requires Sound(w) && w.key.Some? && w.key.value.refused && CanMake(w, allowSoftware)
    ensures var (signed, first) := Step(w, CallSign([]), allowSoftware);
      var (after, second) := Step(signed, CallPublicKey([]), allowSoftware);
      && first == Some(Lost) && second == Some(Success(w.made))
      && w.made != w.key.value.jwk
  {
    var signed := Step(w, CallSign([]), allowSoftware).0;
    FreshKeyWithoutFaults(signed, allowSoftware);
  }

  /**
   A deletion whose second native call failed leaves a key without a marker; that key is answered
   again rather than reported lost.
   */
  lemma HalfDeletedKeyIsPickedUpAgain(w: World, faults: seq<Fault>, allowSoftware: bool)
    requires w.key.Some? && Acceptable(w.key.value.level, allowSoftware)
    ensures var (removed, answer) := Step(w, CallDelete(faults), allowSoftware);
      && !removed.cached
      && (answer == Some(Deleted) ==> removed.key.None? && !removed.marker)
      && (removed.key.Some? ==> Step(removed, CallPublicKey([]), allowSoftware).1 == Some(Success(w.key.value.jwk)))
  {
    hide Remove;
    RemoveOutcome(w.(script := faults));
  }

  lemma RemoveOutcome(w: World)
    ensures var (after, answer) := Remove(w);
      && !after.cached && (after.key.None? || after.key == w.key)
      && (answer == Deleted ==> after.key.None? && !after.marker)
  {}
}
