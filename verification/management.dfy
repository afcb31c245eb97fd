/**
 * The IEEE 802.15.4 management commands and events: the request commands
 * `NET_REQUEST_IEEE802154_CMD_*` and the event commands
 * `NET_EVENT_IEEE802154_CMD_*`.
 *
 * Each is a C enumerator. The first carries an explicit `= 1`; every later
 * one takes the value of the one before it plus 1, which is how C numbers an
 * enumerator written without an initializer (section 6.7.2.2 of ISO C11).
 */
module Management {

  import opened Options

  /** The request commands, one constructor per enumerator. */
  datatype Request =
    | SetAck
    | UnsetAck
    | PassiveScan
    | ActiveScan
    | CancelScan
    | Associate
    | Disassociate

  /** The request commands in the order they are declared. */
  const Requests: seq<Request> :=
    [SetAck, UnsetAck, PassiveScan, ActiveScan, CancelScan, Associate, Disassociate]

  /** The value of the first request enumerator, given explicitly. */
  const FirstRequestCode: int := 1

  /**
   * The command number of `r`. The number is its place in the declaration
   * order, counted from the explicit first value 1.
   */
  function RequestCode(r: Request): (n: int)
    ensures FirstRequestCode <= n < FirstRequestCode + |Requests|
    ensures Requests[n - FirstRequestCode] == r
  {
    match r
    case SetAck => 1
    case UnsetAck => 2
    case PassiveScan => 3
    case ActiveScan => 4
    case CancelScan => 5
    case Associate => 6
    case Disassociate => 7
  }

  /**
   * The request command a number stands for, or `None` when no enumerator
   * has that value.
   */
  function RequestFromCode(n: int): (r: Option<Request>)
    ensures r.Some? <==> FirstRequestCode <= n < FirstRequestCode + |Requests|
    ensures r.Some? ==> RequestCode(r.value) == n
  {
    if FirstRequestCode <= n < FirstRequestCode + |Requests| then
      Some(Requests[n - FirstRequestCode])
    else
      None
  }

  /** Each enumerator is one more than the one declared before it. */
  lemma RequestCodesAreConsecutive()
    ensures forall i :: 0 <= i < |Requests| ==> RequestCode(Requests[i]) == FirstRequestCode + i
  {
  }

  /** No request command is listed twice. */
  lemma RequestIndexIsUnique(i: int, j: int)
    requires 0 <= i < |Requests| && 0 <= j < |Requests|
    requires Requests[i] == Requests[j]
    ensures i == j
  {
  }

  /** Different request commands have different numbers. */
  lemma RequestCodeIsInjective(r: Request, q: Request)
    ensures RequestCode(r) == RequestCode(q) <==> r == q
  {
  }

  /** Decoding the number of a command gives back the command. */
  lemma RequestCodeRoundTrip(r: Request)
    ensures RequestFromCode(RequestCode(r)) == Some(r)
  {
  }

  /** The event commands; the header declares one. */
  datatype Event = ScanResult

  /** The value of the first event enumerator, given explicitly. */
  const FirstEventCode: int := 1

  /** The event commands in the order they are declared. */
  const Events: seq<Event> := [ScanResult]

  /** The command number of event `e`: its place in the declaration order. */
  function EventCode(e: Event): (n: int)
    ensures FirstEventCode <= n < FirstEventCode + |Events|
    ensures Events[n - FirstEventCode] == e
  {
    match e
    case ScanResult => 1
  }

  /** The event a number stands for, or `None` when no enumerator has that value. */
  function EventFromCode(n: int): (e: Option<Event>)
    ensures e.Some? <==> FirstEventCode <= n < FirstEventCode + |Events|
    ensures e.Some? ==> EventCode(e.value) == n
  {
    if FirstEventCode <= n < FirstEventCode + |Events| then
      Some(Events[n - FirstEventCode])
    else
      None
  }

  /** Decoding the number of an event gives back the event. */
  lemma EventCodeRoundTrip(e: Event)
    ensures EventFromCode(EventCode(e)) == Some(e)
  {
  }
}
