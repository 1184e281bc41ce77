/** The two event handlers of the WiFi station and the state they update.

    The handlers are specified once, as functions on a `Station` value
    (`WifiStep`, `IpStep`); the class `WifiStation` holds the same state in
    mutable fields, and each of its methods is proved to change that state
    exactly as the function says. */
module WifiHandlers {
  import opened WifiTypes

  /** What a handler invocation does: it updates the state, or it aborts
      the program (and the state is then never touched again). */
  datatype Handled = Handled(next: Station) | Aborted

  /** `event_handler_wifi`: abort on a foreign base; on station-start issue
      a connect; on disconnect retry while under the bound, else raise the
      fail flag; ignore every other WiFi event. It never touches the
      connected flag, every connect it issues that is not for a station
      start is counted in the retry counter, and it keeps the counter
      within the bound. */
  function WifiStep(s: Station, e: Event): (r: Handled)
    ensures r.Aborted? <==> e.base != WifiEvent
    ensures r.Handled? ==> r.next.connected == s.connected
    ensures r.Handled? ==> r.next.attempts - s.attempts
                           == (if e.id == StaStart then 1 else 0) + (r.next.retryNum - s.retryNum)
    ensures r.Handled? && Consistent(s) ==> Consistent(r.next)
  {
    if e.base != WifiEvent then Aborted
    else if e.id == StaStart then Handled(s.(attempts := s.attempts + 1))
    else if e.id == StaDisconnected then
      if s.retryNum < MaxRetry then
        Handled(s.(attempts := s.attempts + 1, retryNum := s.retryNum + 1))
      else
        Handled(s.(failed := true))
    else Handled(s)
  }

  /** `event_handler_ip`: abort on a foreign base; on got-IP reset the
      counter and raise the connected flag; ignore every other IP event.
      It never issues a connect and never touches the fail flag. */
  function IpStep(s: Station, e: Event): (r: Handled)
    ensures r.Aborted? <==> e.base != IpEvent
    ensures r.Handled? ==> r.next.attempts == s.attempts && r.next.failed == s.failed
    ensures r.Handled? ==> r.next == s || (r.next.retryNum == 0 && r.next.connected)
    ensures r.Handled? && Consistent(s) ==> Consistent(r.next)
  {
    if e.base != IpEvent then Aborted
    else if e.id == StaGotIp then Handled(s.(retryNum := 0, connected := true))
    else Handled(s)
  }

  datatype HandlerKind = WifiHandler | IpHandler

  /** One invocation of one of the two handlers with one event. */
  datatype Delivery = Delivery(handler: HandlerKind, event: Event)

  /** One delivery issues at most one connect and lowers no flag. */
  function DeliverStep(s: Station, d: Delivery): (r: Handled)
    ensures r.Handled? ==> s.attempts <= r.next.attempts <= s.attempts + 1
    ensures r.Handled? && s.connected ==> r.next.connected
    ensures r.Handled? && s.failed ==> r.next.failed
  {
    match d.handler
    case WifiHandler => WifiStep(s, d.event)
    case IpHandler => IpStep(s, d.event)
  }

  /** The state after a sequence of deliveries and whether one of them aborted. */
  datatype Run = Run(final: Station, aborted: bool)

  /** Deliveries are handled one at a time, in order; an abort ends the
      program. A run issues at most one connect per delivery. */
  function RunFrom(s: Station, ds: seq<Delivery>): (r: Run)
    ensures s.attempts <= r.final.attempts <= s.attempts + |ds|
    decreases |ds|
  {
    if ds == [] then Run(s, false)
    else match DeliverStep(s, ds[0])
      case Aborted => Run(s, true)
      case Handled(t) => RunFrom(t, ds[1..])
  }

  /** The file-scope state of the WiFi helper: `retry_num`, the two flags
      of the event group, and a count of the connect attempts issued. */
  class WifiStation {
    var retryNum: int
    var connectedBit: bool
    var failBit: bool
    var connectAttempts: nat

    function State(): Station
      reads this
    {
      Station(retryNum, connectedBit, failBit, connectAttempts)
    }

    ghost predicate Valid()
      reads this
    {
      Consistent(State())
    }

    /** The state at boot: counter zero, empty event group, nothing issued. */
    constructor ()
      ensures State() == Initial && Valid()
    {
      retryNum := 0;
      connectedBit := false;
      failBit := false;
      connectAttempts := 0;
    }

    /** `esp_wifi_connect()`, seen only through the number of calls. */
    method IssueConnect()
      modifies this`connectAttempts
      ensures connectAttempts == old(connectAttempts) + 1
    {
      connectAttempts := connectAttempts + 1;
    }

    /** `xEventGroupSetBits`: raise every flag whose bit is in `b`. */
    method SetBits(b: EventBits)
      modifies this`connectedBit, this`failBit
      ensures connectedBit == (old(connectedBit) || ConnectedFlag(b))
      ensures failBit == (old(failBit) || FailFlag(b))
    {
      if b & ConnectedBit != 0 {
        connectedBit := true;
      }
      if b & FailBit != 0 {
        failBit := true;
      }
    }

    method HandleWifiEvent(e: Event) returns (aborted: bool)
      modifies this
      ensures aborted <==> WifiStep(old(State()), e).Aborted?
      ensures aborted ==> State() == old(State())
      ensures !aborted ==> State() == WifiStep(old(State()), e).next
      ensures old(Valid()) ==> Valid()
    {
      if e.base != WifiEvent {
        return true;
      }
      if e.id == StaStart {
        IssueConnect();
      } else if e.id == StaDisconnected {
        if retryNum < MaxRetry {
          IssueConnect();
          retryNum := retryNum + 1;
        } else {
          SetBits(FailBit);
        }
      }
      return false;
    }

    method HandleIpEvent(e: Event) returns (aborted: bool)
      modifies this
      ensures aborted <==> IpStep(old(State()), e).Aborted?
      ensures aborted ==> State() == old(State())
      ensures !aborted ==> State() == IpStep(old(State()), e).next
      ensures old(Valid()) ==> Valid()
    {
      if e.base != IpEvent {
        return true;
      }
      if e.id == StaGotIp {
        retryNum := 0;
        SetBits(ConnectedBit);
      }
      return false;
    }

    method Deliver(d: Delivery) returns (aborted: bool)
      modifies this
      ensures aborted <==> DeliverStep(old(State()), d).Aborted?
      ensures aborted ==> State() == old(State())
      ensures !aborted ==> State() == DeliverStep(old(State()), d).next
      ensures old(Valid()) ==> Valid()
    {
      match d.handler {
        case WifiHandler => aborted := HandleWifiEvent(d.event);
        case IpHandler => aborted := HandleIpEvent(d.event);
      }
    }

    /** Feeds the deliveries to the handlers in order, stopping at an abort.
        The new state is the one `RunFrom` predicts, and a valid state stays
        valid whatever the deliveries. */
    method RunEvents(ds: seq<Delivery>) returns (aborted: bool)
      modifies this
      ensures State() == RunFrom(old(State()), ds).final
      ensures aborted == RunFrom(old(State()), ds).aborted
      ensures old(Valid()) ==> Valid()
    {
      ghost var start := State();
      var i := 0;
      aborted := false;
      while i < |ds| && !aborted
        invariant 0 <= i <= |ds|
        invariant !aborted ==> RunFrom(start, ds) == RunFrom(State(), ds[i..])
        invariant aborted ==> RunFrom(start, ds) == Run(State(), true)
        invariant Consistent(start) ==> Valid()
      {
        aborted := Deliver(ds[i]);
        assert ds[i..][0] == ds[i] && ds[i..][1..] == ds[i + 1..];
        i := i + 1;
      }
    }
  }

  /** Running two sequences one after the other is running their
      concatenation; a run that aborts in the first never reaches the second. */
  lemma {:induction false} RunSplit(s: Station, xs: seq<Delivery>, ys: seq<Delivery>)
    ensures RunFrom(s, xs + ys)
         == if RunFrom(s, xs).aborted then RunFrom(s, xs) else RunFrom(RunFrom(s, xs).final, ys)
    decreases |xs|
  {
    if xs == [] {
      assert xs + ys == ys;
    } else {
      assert (xs + ys)[0] == xs[0] && (xs + ys)[1..] == xs[1..] + ys;
      if DeliverStep(s, xs[0]).Handled? {
        RunSplit(DeliverStep(s, xs[0]).next, xs[1..], ys);
      }
    }
  }

  /** From a word with neither flag, one handled event raises at most one of them. */
  lemma OneEventRaisesOneFlag(s: Station, d: Delivery)
    requires !s.connected && !s.failed && DeliverStep(s, d).Handled?
    ensures !(DeliverStep(s, d).next.connected && DeliverStep(s, d).next.failed)
  {
  }

  /** Each handled event keeps the counter within the bound. */
  lemma StepPreservesConsistent(s: Station, d: Delivery)
    requires Consistent(s) && DeliverStep(s, d).Handled?
    ensures Consistent(DeliverStep(s, d).next)
  {
  }
}
