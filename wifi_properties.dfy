/** What the WiFi station state machine guarantees: the effect of each
    event, the retry bound, when the fail flag can first appear, that the
    flags are never cleared, and which outcome a run of events leads to. */
module WifiProperties {
  import opened WifiTypes
  import opened WifiHandlers
  import opened WifiOutcome

  const Start := Delivery(WifiHandler, Event(WifiEvent, StaStart))
  const Disconnect := Delivery(WifiHandler, Event(WifiEvent, StaDisconnected))
  const GotIp := Delivery(IpHandler, Event(IpEvent, StaGotIp))

  /** `n` consecutive station-disconnected events. */
  function Disconnects(n: nat): seq<Delivery> {
    seq(n, _ => Disconnect)
  }

  /** WiFi-base events to the WiFi handler, IP-base events to the IP
      handler. This admits more than the registrations in `start_station`
      route (they give the IP handler only got-IP). */
  predicate WellRouted(d: Delivery) {
    match d.handler
    case WifiHandler => d.event.base == WifiEvent
    case IpHandler => d.event.base == IpEvent
  }

  predicate AllWellRouted(ds: seq<Delivery>) {
    forall i :: 0 <= i < |ds| ==> WellRouted(ds[i])
  }

  predicate IsGotIp(d: Delivery) {
    d == GotIp
  }

  predicate NoGotIp(ds: seq<Delivery>) {
    forall i :: 0 <= i < |ds| ==> !IsGotIp(ds[i])
  }

  function CountDisconnects(ds: seq<Delivery>): nat {
    if ds == [] then 0
    else (if ds[0] == Disconnect then 1 else 0) + CountDisconnects(ds[1..])
  }

  function CountStarts(ds: seq<Delivery>): nat {
    if ds == [] then 0
    else (if ds[0] == Start then 1 else 0) + CountStarts(ds[1..])
  }

  // ---------------------------------------------------------------------
  // One event at a time

  /** Station start: one connect attempt, counter and flags untouched. */
  lemma StartIssuesOneConnect(s: Station)
    ensures DeliverStep(s, Start) == Handled(Station(s.retryNum, s.connected, s.failed, s.attempts + 1))
  {
  }

  /** A disconnect under the bound: one connect attempt, the counter up by
      one, the flags untouched. */
  lemma DisconnectBelowBoundRetries(s: Station)
    requires s.retryNum < MaxRetry
    ensures DeliverStep(s, Disconnect)
         == Handled(Station(s.retryNum + 1, s.connected, s.failed, s.attempts + 1))
  {
  }

  /** A disconnect at the bound: the fail flag is set, no connect attempt,
      the counter unchanged. */
  lemma DisconnectAtBoundFails(s: Station)
    requires s.retryNum >= MaxRetry
    ensures DeliverStep(s, Disconnect) == Handled(Station(s.retryNum, s.connected, true, s.attempts))
  {
  }

  /** Got-IP: the counter goes back to zero and the connected flag is set,
      whatever the counter was. */
  lemma GotIpResets(s: Station)
    ensures DeliverStep(s, GotIp) == Handled(Station(0, true, s.failed, s.attempts))
  {
  }

  /** Every other WiFi or IP event id, delivered to its own handler, changes nothing. */
  lemma OtherEventsInert(s: Station, d: Delivery)
    requires WellRouted(d) && d != Start && d != Disconnect && d != GotIp
    ensures DeliverStep(s, d) == Handled(s)
  {
  }

  /** A handler aborts exactly when it is given an event of a foreign base. */
  lemma ForeignBaseAborts(s: Station, d: Delivery)
    ensures DeliverStep(s, d).Aborted? <==> !WellRouted(d)
  {
  }

  /** The fail flag appears only on a disconnect at the bound, and a
      disconnect at the bound always raises it. */
  lemma FailFlagOnlyAtBound(s: Station, d: Delivery)
    requires !s.failed && DeliverStep(s, d).Handled?
    ensures DeliverStep(s, d).next.failed <==> d == Disconnect && s.retryNum >= MaxRetry
  {
  }

  // ---------------------------------------------------------------------
  // Runs of events

  /** From a consistent state every run stays consistent. */
  lemma {:induction false} RunPreservesConsistent(s: Station, ds: seq<Delivery>)
    requires Consistent(s)
    ensures Consistent(RunFrom(s, ds).final)
    decreases |ds|
  {
    if ds != [] && DeliverStep(s, ds[0]).Handled? {
      StepPreservesConsistent(s, ds[0]);
      RunPreservesConsistent(DeliverStep(s, ds[0]).next, ds[1..]);
    }
  }

  /** Starting from boot, whatever the events, 0 <= retry_num <= WIFI_CONNECT_MAX_RETRY. */
  lemma RetryBoundFromBoot(ds: seq<Delivery>)
    ensures 0 <= RunFrom(Initial, ds).final.retryNum <= MaxRetry
  {
    RunPreservesConsistent(Initial, ds);
  }

  /** Handlers only ever set flags: neither outcome flag, once raised, is
      lowered again. */
  lemma {:induction false} FlagsNeverCleared(s: Station, ds: seq<Delivery>)
    ensures s.connected ==> RunFrom(s, ds).final.connected
    ensures s.failed ==> RunFrom(s, ds).final.failed
    decreases |ds|
  {
    if ds != [] && DeliverStep(s, ds[0]).Handled? {
      FlagsNeverCleared(DeliverStep(s, ds[0]).next, ds[1..]);
    }
  }

  /** Deliveries that follow the registrations never trip the abort guard. */
  lemma {:induction false} WellRoutedNeverAborts(s: Station, ds: seq<Delivery>)
    requires AllWellRouted(ds)
    ensures !RunFrom(s, ds).aborted
    decreases |ds|
  {
    if ds != [] {
      assert WellRouted(ds[0]);
      WellRoutedNeverAborts(DeliverStep(s, ds[0]).next, ds[1..]);
    }
  }

  /** Between two got-IP events: the counter rises by one per disconnect up
      to the bound; the fail flag is raised exactly when the disconnects
      outnumber the retries left; and every connect attempt is either a
      station start or one of the counted retries. */
  lemma {:induction false} DisconnectRun(s: Station, ds: seq<Delivery>)
    requires Consistent(s) && AllWellRouted(ds) && NoGotIp(ds)
    ensures !RunFrom(s, ds).aborted
    ensures RunFrom(s, ds).final.retryNum == Min(s.retryNum + CountDisconnects(ds), MaxRetry)
    ensures RunFrom(s, ds).final.connected == s.connected
    ensures RunFrom(s, ds).final.failed == (s.failed || CountDisconnects(ds) > MaxRetry - s.retryNum)
    ensures RunFrom(s, ds).final.attempts
         == s.attempts + CountStarts(ds) + (RunFrom(s, ds).final.retryNum - s.retryNum)
    decreases |ds|
  {
    if ds != [] {
      assert WellRouted(ds[0]) && !IsGotIp(ds[0]);
      var t := DeliverStep(s, ds[0]).next;
      StepPreservesConsistent(s, ds[0]);
      assert AllWellRouted(ds[1..]) by {
        forall i | 0 <= i < |ds[1..]| ensures WellRouted(ds[1..][i]) {
          assert ds[1..][i] == ds[i + 1];
        }
      }
      assert NoGotIp(ds[1..]) by {
        forall i | 0 <= i < |ds[1..]| ensures !IsGotIp(ds[1..][i]) {
          assert ds[1..][i] == ds[i + 1];
        }
      }
      DisconnectRun(t, ds[1..]);
    }
  }

  lemma {:induction false} DisconnectsCounted(n: nat)
    ensures CountDisconnects(Disconnects(n)) == n && CountStarts(Disconnects(n)) == 0
    ensures AllWellRouted(Disconnects(n)) && NoGotIp(Disconnects(n))
  {
    if n > 0 {
      assert Disconnects(n)[0] == Disconnect;
      assert Disconnects(n)[1..] == Disconnects(n - 1);
      DisconnectsCounted(n - 1);
    }
  }

  /** From boot, n disconnects in a row: the first five retry and raise no
      flag; from the sixth on the fail flag is set and no further connect
      attempt is issued. */
  lemma DisconnectsFromBoot(n: nat)
    ensures RunFrom(Initial, Disconnects(n))
         == if n <= MaxRetry then Run(Station(n, false, false, n), false)
            else Run(Station(MaxRetry, false, true, MaxRetry), false)
  {
    DisconnectsCounted(n);
    DisconnectRun(Initial, Disconnects(n));
  }

  /** Once a got-IP event has been handled, the run ends with the connected flag set. */
  lemma {:induction false} GotIpIsFinal(s: Station, ds: seq<Delivery>, k: nat)
    requires AllWellRouted(ds) && k < |ds| && IsGotIp(ds[k])
    ensures RunFrom(s, ds).final.connected
    decreases |ds|
  {
    assert WellRouted(ds[0]);
    var t := DeliverStep(s, ds[0]).next;
    assert AllWellRouted(ds[1..]) by {
      forall i | 0 <= i < |ds[1..]| ensures WellRouted(ds[1..][i]) {
        assert ds[1..][i] == ds[i + 1];
      }
    }
    if k == 0 {
      GotIpResets(s);
      FlagsNeverCleared(t, ds[1..]);
    } else {
      assert ds[1..][k - 1] == ds[k];
      GotIpIsFinal(t, ds[1..], k - 1);
    }
  }

  /** The outcome selection applied to the flag word after all of `ds` from
      boot, as when the wait is entered only once they are handled: connected
      if any got-IP event came, otherwise failed exactly when more than five
      disconnects came, otherwise neither flag yet. A wait entered before any
      flag is raised returns at the first flag instead (`StartStation`). */
  lemma OutcomeFromBoot(ds: seq<Delivery>)
    requires AllWellRouted(ds)
    ensures !RunFrom(Initial, ds).aborted
    ensures SelectOutcome(FlagWord(RunFrom(Initial, ds).final))
         == if !NoGotIp(ds) then Connected
            else if CountDisconnects(ds) > MaxRetry then Failed
            else Unexpected
  {
    WellRoutedNeverAborts(Initial, ds);
    if NoGotIp(ds) {
      DisconnectRun(Initial, ds);
    } else {
      var k :| 0 <= k < |ds| && IsGotIp(ds[k]);
      GotIpIsFinal(Initial, ds, k);
    }
  }

  // ---------------------------------------------------------------------
  // Scenarios

  /** Start and five disconnects: five retries, six connect attempts in
      all, and no flag set yet, so the wait in `start_station` is still
      blocked. */
  lemma StartThenFiveDisconnects()
    ensures RunFrom(Initial, [Start] + Disconnects(5)) == Run(Station(5, false, false, 6), false)
    ensures SelectOutcome(FlagWord(RunFrom(Initial, [Start] + Disconnects(5)).final)) == Unexpected
  {
    var ds := [Start] + Disconnects(5);
    assert ds[0] == Start && ds[1..] == Disconnects(5);
    var s1 := Station(0, false, false, 1);
    DisconnectsCounted(5);
    DisconnectRun(s1, Disconnects(5));
  }

  /** Start and six disconnects: the sixth raises the fail flag; red LED. */
  lemma StartThenSixDisconnects()
    ensures RunFrom(Initial, [Start] + Disconnects(6)) == Run(Station(5, false, true, 6), false)
    ensures SelectOutcome(FlagWord(RunFrom(Initial, [Start] + Disconnects(6)).final)) == Failed
    ensures Indicator(Failed) == Some(GpioWrite(LedRed0, 1))
  {
    var ds := [Start] + Disconnects(6);
    assert ds[0] == Start && ds[1..] == Disconnects(6);
    var s1 := Station(0, false, false, 1);
    DisconnectsCounted(6);
    DisconnectRun(s1, Disconnects(6));
  }

  /** Start and six disconnects is a whole run of `start_station`: no
      earlier event raises a flag, so the wait returns at the sixth
      disconnect and reports Failed with the red LED. */
  lemma {:induction false} WaitEndsAtSixthDisconnect()
    ensures NoFlagBefore([Start] + Disconnects(6))
  {
    var ds := [Start] + Disconnects(6);
    var s1 := Station(0, false, false, 1);
    forall j | 0 <= j < |ds|
      ensures !RunFrom(Initial, ds[..j]).final.connected && !RunFrom(Initial, ds[..j]).final.failed
    {
      if j > 0 {
        assert ds[..j][0] == Start && ds[..j][1..] == Disconnects(j - 1);
        DisconnectsCounted(j - 1);
        DisconnectRun(s1, Disconnects(j - 1));
      }
    }
  }

  /** Start, one disconnect, got-IP: counter back to zero, connected; green LED. */
  lemma StartDisconnectGotIp()
    ensures RunFrom(Initial, [Start, Disconnect, GotIp]) == Run(Station(0, true, false, 2), false)
    ensures SelectOutcome(FlagWord(RunFrom(Initial, [Start, Disconnect, GotIp]).final)) == Connected
    ensures Indicator(Connected) == Some(GpioWrite(LedGreen2, 1))
  {
    var ds := [Start, Disconnect, GotIp];
    var s1, s2 := Station(0, false, false, 1), Station(1, false, false, 2);
    assert ds[1..] == [Disconnect, GotIp] && ds[1..][1..] == [GotIp] && [GotIp][1..] == [];
    assert DeliverStep(Initial, Start) == Handled(s1);
    assert DeliverStep(s1, Disconnect) == Handled(s2);
    assert DeliverStep(s2, GotIp) == Handled(Station(0, true, false, 2));
    calc {
      RunFrom(Initial, ds);
      RunFrom(s1, [Disconnect, GotIp]);
      RunFrom(s2, [GotIp]);
      RunFrom(Station(0, true, false, 2), []);
    }
  }

  /** Start, one disconnect, got-IP is a whole run of `start_station`: no
      event before the got-IP raises a flag, so the wait returns there and
      reports Connected with the green LED. */
  lemma WaitEndsAtGotIp()
    ensures NoFlagBefore([Start, Disconnect, GotIp])
  {
    var ds := [Start, Disconnect, GotIp];
    var s1 := Station(0, false, false, 1);
    var s2 := Station(1, false, false, 2);
    assert DeliverStep(Initial, Start) == Handled(s1);
    assert DeliverStep(s1, Disconnect) == Handled(s2);
    forall j | 0 <= j < |ds|
      ensures !RunFrom(Initial, ds[..j]).final.connected && !RunFrom(Initial, ds[..j]).final.failed
    {
      if j == 1 {
        assert ds[..1] == [Start] && [Start][1..] == [];
        assert RunFrom(Initial, [Start]) == RunFrom(s1, []);
      } else if j == 2 {
        assert ds[..2] == [Start, Disconnect] && [Start, Disconnect][1..] == [Disconnect];
        assert [Disconnect][1..] == [];
        assert RunFrom(Initial, [Start, Disconnect]) == RunFrom(s1, [Disconnect]) == RunFrom(s2, []);
      }
    }
  }

  /** Six disconnects then got-IP: both flags end up set in the group, and
      the connected flag wins the selection. This holds when no wait has
      consumed the fail flag. A wait entered before any flag is raised has
      already returned at the sixth disconnect, with the fail flag alone. */
  lemma FailThenGotIpSetsBothFlags()
    ensures RunFrom(Initial, Disconnects(6) + [GotIp]).final.connected
    ensures RunFrom(Initial, Disconnects(6) + [GotIp]).final.failed
    ensures FlagWord(RunFrom(Initial, Disconnects(6) + [GotIp]).final) == OutcomeMask
    ensures SelectOutcome(FlagWord(RunFrom(Initial, Disconnects(6) + [GotIp]).final)) == Connected
    ensures FlagWord(RunFrom(Initial, Disconnects(6)).final) == FailBit
    ensures !NoFlagBefore(Disconnects(6) + [GotIp])
  {
    var ds := Disconnects(6) + [GotIp];
    RunSplit(Initial, Disconnects(6), [GotIp]);
    DisconnectsFromBoot(6);
    assert [GotIp][1..] == [];
    assert ds[..6] == Disconnects(6);
  }
}
