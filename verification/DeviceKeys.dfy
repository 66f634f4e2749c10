/**
 The package over the native module: the closures of one device key, each proved to do what the
 state machine in `DeviceKeySpec` does. The package queues its calls, so each is one transition.
 */
module DeviceKeys {
  import opened Options
  import opened DeviceKeySpec

  /** The platform's side: the key, the marker, and how the coming calls will go. */
  class NativeModule {
    var key: Option<StoredKey>
    var marker: bool
    var made: nat
    var nextLevel: Option<Level>
    var script: seq<Fault>

    constructor (nextLevel: Option<Level>)
      ensures key == None && !marker && made == 0 && script == [] && this.nextLevel == nextLevel
    {
      key, marker, made, this.nextLevel, script := None, false, 0, nextLevel, [];
    }

    /** The world as an app start with this cached flag sees it. */
    function Seen(cached: bool): World
      reads this
    {
      World(key, marker, cached, made, nextLevel, script)
    }

    method Become(ghost cached: bool, next: World)
      modifies this
      ensures Seen(cached) == next.(cached := cached)
    {
      key, marker, made, nextLevel, script := next.key, next.marker, next.made, next.nextLevel, next.script;
    }

    method GetKeyAsync() returns (reply: Reply<Option<Record>>)
      modifies this
      ensures forall cached :: (Seen(cached), reply) == GetKey(old(Seen(cached)))
    {
      var (next, answer) := GetKey(Seen(false));
      Become(false, next);
      reply := answer;
    }

    method GenerateKeyAsync(allowSoftware: bool) returns (reply: Reply<Record>)
      modifies this
      ensures forall cached :: (Seen(cached), reply) == GenerateKey(old(Seen(cached)), allowSoftware)
    {
      var (next, answer) := GenerateKey(Seen(false), allowSoftware);
      Become(false, next);
      reply := answer;
    }

    method SignAsync() returns (reply: Reply<bool>)
      modifies this
      ensures forall cached :: (Seen(cached), reply) == SignData(old(Seen(cached)))
    {
      var (next, answer) := SignData(Seen(false));
      Become(false, next);
      reply := answer;
    }

    method DeleteKeyAsync() returns (reply: Reply<()>)
      modifies this
      ensures forall cached :: (Seen(cached), reply) == DeleteKey(old(Seen(cached)))
    {
      var (next, answer) := DeleteKey(Seen(false));
      Become(false, next);
      reply := answer;
    }

    method GetMarkerAsync() returns (reply: Reply<bool>)
      modifies this
      ensures forall cached :: (Seen(cached), reply) == GetMarker(old(Seen(cached)))
    {
      var (next, answer) := GetMarker(Seen(false));
      Become(false, next);
      reply := answer;
    }

    method SetMarkerAsync(present: bool) returns (reply: Reply<()>)
      modifies this
      ensures forall cached :: (Seen(cached), reply) == SetMarker(old(Seen(cached)), present)
    {
      var (next, answer) := SetMarker(Seen(false), present);
      Become(false, next);
      reply := answer;
    }
  }

  class DeviceKey {
    const native: NativeModule
    const allowSoftware: bool
    var markerWritten: bool

    constructor (native: NativeModule, allowSoftware: bool)
      ensures this.native == native && this.allowSoftware == allowSoftware && !markerWritten
    {
      this.native, this.allowSoftware, markerWritten := native, allowSoftware, false;
    }

    function Now(): World
      reads this, native
    {
      native.Seen(markerWritten)
    }

    /** A refused write is left for a later read to repeat. */
    method EnsureMarker()
      modifies this, native
      ensures Now() == WriteMarker(old(Now()))
    {
      if markerWritten { return; }
      var reply := native.SetMarkerAsync(true);
      if reply.Resolved? { markerWritten := true; }
    }

    method DropMarker()
      modifies this, native
      ensures Now() == ClearMarker(old(Now()))
    {
      markerWritten := false;
      var _ := native.SetMarkerAsync(false);
    }

    /** Drops a key that is of no more use, and all that is known of it. */
    method DiscardKey() returns (ensured: Ensured)
      modifies this, native
      ensures Now() == Discard(old(Now())) && ensured == KeyInvalidated
    {
      var _ := native.DeleteKeyAsync();
      DropMarker();
      return KeyInvalidated;
    }

    method Fail(condition: Condition) returns (ensured: Ensured)
      modifies this, native
      ensures (Now(), ensured) == Failure(old(Now()), condition)
    {
      match condition
      case Invalidated => ensured := DiscardKey();
      case NotFound => ensured := DiscardKey();
      case NoSecureHardware => ensured := NoHardware;
      case Unavailable => ensured := NotNow;
    }

    method EnsureKey() returns (ensured: Ensured)
      modifies this, native
      ensures (Now(), ensured) == Ensure(old(Now()), allowSoftware)
    {
      var read := native.GetKeyAsync();
      if read.Rejected? { ensured := Fail(read.condition); return; }
      var record: Record;
      if read.value.Some? {
        record := read.value.value;
      } else {
        // There was a key: its marker outlived it.
        var marker := native.GetMarkerAsync();
        if marker.Rejected? { ensured := Fail(marker.condition); return; }
        if marker.value {
          DropMarker();
          return KeyInvalidated;
        }
        var made := native.GenerateKeyAsync(allowSoftware);
        if made.Rejected? { ensured := Fail(made.condition); return; }
        record := made.value;
      }
      ensured := AcceptRecord(record);
    }

    method AcceptRecord(record: Record) returns (ensured: Ensured)
      modifies this, native
      ensures (Now(), ensured) == Accept(old(Now()), record, allowSoftware)
    {
      if record.Unreadable? { return NotNow; }
      if record.level == Software && !allowSoftware {
        var _ := native.DeleteKeyAsync();
        DropMarker();
        return NoHardware;
      }
      EnsureMarker();
      return Ready(record.jwk, record.level);
    }

    method GivePublicKey() returns (answer: Answer)
      modifies this, native
      ensures (Now(), answer) == PublicKey(old(Now()), allowSoftware)
      ensures Sound(old(Now())) ==> Sound(Now())
      ensures Sound(old(Now())) && answer.Success? ==>
        native.key.Some? && Stores(Now(), answer.jwk, native.key.value.level, allowSoftware)
    {
      ghost var before := Now();
      var ensured := EnsureKey();
      if Sound(before) { EnsureStaysSound(before, allowSoftware); }
      if ensured.Ready? { return Success(ensured.jwk); }
      return if ensured.KeyInvalidated? then Lost else Refused;
    }

    method SignBytes() returns (answer: Answer)
      modifies this, native
      ensures (Now(), answer) == Sign(old(Now()))
    {
      var signed := native.SignAsync();
      if signed.Resolved? { return if signed.value then Signature else Refused; }
      var failed := Fail(signed.condition);
      return if failed.KeyInvalidated? then Lost else Refused;
    }

    method PrepareKey() returns (answer: Answer)
      modifies this, native
      ensures (Now(), answer) == Prepare(old(Now()), allowSoftware)
    {
      var ensured := EnsureKey();
      match ensured
      case Ready(_, level) => return Prepared(level);
      case KeyInvalidated => return Lost;
      case NoHardware => return NoSecure;
      case NotNow => return Refused;
    }

    method Delete() returns (answer: Answer)
      modifies this, native
      ensures (Now(), answer) == Remove(old(Now()))
    {
      markerWritten := false;
      var cleared := native.SetMarkerAsync(false);
      if cleared.Rejected? { return Refused; }
      var deleted := native.DeleteKeyAsync();
      return if deleted.Rejected? then Refused else Deleted;
    }
  }
}
