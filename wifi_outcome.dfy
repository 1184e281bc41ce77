/** The decision `start_station` takes once the wait on the event group
    returns: which outcome the flag word reports, and which indicator LED
    is switched on for it. */
module WifiOutcome {
  import opened WifiTypes
  import opened WifiHandlers

  datatype Outcome = Connected | Failed | Unexpected

  /** `LED_GREEN2` and `LED_RED0`: GPIO 19 and GPIO 20. */
  const LedGreen2: nat := 19
  const LedRed0: nat := 20

  /** A `gpio_set_level(pin, level)` call. */
  datatype GpioWrite = GpioWrite(pin: nat, level: nat)

  /** The connected flag takes precedence over the fail flag; a word with
      neither flag is the unexpected case. */
  function SelectOutcome(bits: EventBits): (o: Outcome)
    ensures o == Connected <==> ConnectedFlag(bits)
    ensures o == Failed <==> !ConnectedFlag(bits) && FailFlag(bits)
    ensures o == Unexpected <==> bits & OutcomeMask == 0
  {
    if bits & ConnectedBit != 0 then Connected
    else if bits & FailBit != 0 then Failed
    else Unexpected
  }

  /** Green for connected, red for failed, no LED for the unexpected case. */
  function Indicator(o: Outcome): (w: Option<GpioWrite>)
    ensures w.Some? <==> o != Unexpected
    ensures w.Some? ==> w.value.level == 1
    ensures w.Some? ==> (w.value.pin == LedGreen2 <==> o == Connected)
    ensures w.Some? ==> (w.value.pin == LedRed0 <==> o == Failed)
  {
    match o
    case Connected => Some(GpioWrite(LedGreen2, 1))
    case Failed => Some(GpioWrite(LedRed0, 1))
    case Unexpected => None
  }

  /** No event of `ds` but the last raised a flag. The wait in
      `start_station` is taken to be entered before any flag is raised; it
      then returns as soon as one is, so the events handled up to its return
      are those up to and including the first that raises one. */
  predicate NoFlagBefore(ds: seq<Delivery>) {
    forall j :: 0 <= j < |ds| ==>
      !RunFrom(Initial, ds[..j]).final.connected && !RunFrom(Initial, ds[..j]).final.failed
  }

  /** The word the wait returns holds exactly one of the two flags. */
  lemma WaitSeesOneFlag(ds: seq<Delivery>)
    requires NoFlagBefore(ds) && !RunFrom(Initial, ds).aborted
    requires RunFrom(Initial, ds).final.connected || RunFrom(Initial, ds).final.failed
    ensures RunFrom(Initial, ds).final.connected != RunFrom(Initial, ds).final.failed
  {
    var n := |ds|;
    assert n > 0;
    var p, d := ds[..n - 1], ds[n - 1];
    assert ds == p + [d];
    RunSplit(Initial, p, [d]);
    var t := RunFrom(Initial, p);
    assert !t.final.connected && !t.final.failed;
    OneEventRaisesOneFlag(t.final, d);
    assert [d][1..] == [];
  }

  /** `start_station` from the first event on: a fresh station (counter zero,
      a new event group) handles the deliveries `ds` that arrive before the
      wait returns, then the outcome is read off the flag word and the LED
      for it is written. The wait has no timeout and returns at the first
      flag raised, so `ds` ends with the first event that raises one, unless
      a handler aborted first; after an abort nothing is reported. */
  method StartStation(ds: seq<Delivery>) returns (aborted: bool, o: Outcome, led: Option<GpioWrite>)
    requires NoFlagBefore(ds)
    requires RunFrom(Initial, ds).aborted || RunFrom(Initial, ds).final.connected
             || RunFrom(Initial, ds).final.failed
    ensures aborted == RunFrom(Initial, ds).aborted
    ensures aborted ==> led == None
    ensures !aborted ==> o == SelectOutcome(FlagWord(RunFrom(Initial, ds).final)) && led == Indicator(o)
    ensures !aborted ==> o != Unexpected && led.Some?
    ensures !aborted ==> RunFrom(Initial, ds).final.connected != RunFrom(Initial, ds).final.failed
    ensures !aborted ==> (o == Failed <==> RunFrom(Initial, ds).final.failed)
  {
    var station := new WifiStation();
    aborted := station.RunEvents(ds);
    o, led := Unexpected, None;
    if aborted {
      return;
    }
    WaitSeesOneFlag(ds);
    var bits := FlagWord(station.State());
    if bits & ConnectedBit != 0 {
      o, led := Connected, Some(GpioWrite(LedGreen2, 1));
    } else if bits & FailBit != 0 {
      o, led := Failed, Some(GpioWrite(LedRed0, 1));
    }
  }
}
