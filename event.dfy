/** internal/event/event.go: audit events and the per-MAC event log. */
module Event {
  import Text
  import opened Wrappers
  import opened Utils
  import Server

  /** Event types (Go `Type int`). */
  type EventType = int

  /** A host polled for a script. */
  const HostPoll: EventType := 0
  /** A user selected a script for a host. */
  const UserSelection: EventType := 1
  /** A host finally booted. */
  const HostBoot: EventType := 2
  /** A host timed out. */
  const HostTimeout: EventType := 3

  /** Boot types recorded with HostBoot events. */
  const PtrMatchBoot := "DNS Match"
  const SubnetMatchBoot := "Subnet Match"
  const ManualBoot := "Manual"

  /** One interaction of a host with the server; `date` is a clock reading. */
  datatype Event = Event(
    eventType: EventType,
    date: int,
    server: Server.Server,
    bootType: string,
    script: string,
    message: string,
    params: Params)

  /**
   * setMessage: the human-readable message of an event. `json` stands for json.Marshal of
   * the parameters, which only the HostBoot message uses. Unknown types keep the message.
   */
  function SetMessage(e: Event, json: Params -> string): (r: Event)
    ensures r == e.(message := r.message)
    ensures e.eventType == HostPoll ==>
      r.message == "Host " + e.server.hostname + " polled for a script."
    ensures e.eventType == UserSelection ==>
      r.message == "A user selected " + e.script + " for the host " + e.server.hostname + "."
    ensures e.eventType == HostBoot ==>
      r.message == "Host " + e.server.hostname + " booted using " + e.bootType
                   + " method with the following parameters: " + json(e.params)
    ensures e.eventType == HostTimeout ==>
      r.message == "Host " + e.server.hostname + " timed out."
    ensures !(0 <= e.eventType <= 3) ==> r.message == e.message
  {
    match e.eventType
    case 0 => e.(message := "Host " + e.server.hostname + " polled for a script.")
    case 1 => e.(message := "A user selected " + e.script + " for the host " + e.server.hostname + ".")
    case 2 => e.(message := "Host " + e.server.hostname + " booted using " + e.bootType
                            + " method with the following parameters: " + json(e.params))
    case 3 => e.(message := "Host " + e.server.hostname + " timed out.")
    case _ => e
  }

  /**
   * New: an event holding the given type, server, boot type, script and parameters
   * verbatim, dated with the clock reading `now`, and its message.
   */
  function New(eventType: EventType, srv: Server.Server, bootType: string, script: string,
               params: Params, now: int, json: Params -> string): (e: Event)
    ensures e.eventType == eventType && e.server == srv && e.bootType == bootType
    ensures e.script == script && e.params == params && e.date == now
    ensures !(0 <= eventType <= 3) ==> e.message == ""
  {
    SetMessage(Event(eventType, now, srv, bootType, script, "", params), json)
  }

  /** The hostname is part of the message of every known event type. */
  lemma MessageNamesHost(e: Event, json: Params -> string)
    requires 0 <= e.eventType <= 3
    ensures Text.Contains(SetMessage(e, json).message, e.server.hostname)
  {
    var m := SetMessage(e, json).message;
    var h := e.server.hostname;
    var k := if e.eventType == UserSelection then |"A user selected " + e.script + " for the host "| else 5;
    assert m[k..k + |h|] == h;
    Text.ContainsAt(m, h, k);
  }

  /** The messages of the poll, selection and timeout events tell the three types apart. */
  lemma MessageDeterminesType(e1: Event, e2: Event, json: Params -> string)
    requires e1.eventType in {HostPoll, UserSelection, HostTimeout}
    requires e2.eventType in {HostPoll, UserSelection, HostTimeout}
    requires SetMessage(e1, json).message == SetMessage(e2, json).message
    ensures e1.eventType == e2.eventType
  {
    var m1, m2 := SetMessage(e1, json).message, SetMessage(e2, json).message;
    assert m1[0] == 'A' <==> e1.eventType == UserSelection;
    assert m2[0] == 'A' <==> e2.eventType == UserSelection;
    assert e1.eventType == HostPoll ==> m1[|m1| - 3] == 'p';
    assert e1.eventType == HostTimeout ==> m1[|m1| - 3] == 'u';
    assert e2.eventType == HostPoll ==> m2[|m2| - 3] == 'p';
    assert e2.eventType == HostTimeout ==> m2[|m2| - 3] == 'u';
  }

  /** The log's map after recording e, when there is one, at the end of mac's sequence. */
  function Record(events: map<string, seq<Event>>, mac: string, e: Option<Event>): map<string, seq<Event>>
  {
    if e.None? then events else events[mac := (if mac in events then events[mac] else []) + [e.value]]
  }

  /**
   * Recording touches only mac's sequence: nothing changes without an event, and an event
   * goes after mac's earlier ones.
   */
  lemma RecordSpec(events: map<string, seq<Event>>, mac: string, e: Option<Event>)
    ensures forall k :: k != mac ==> (k in Record(events, mac, e) <==> k in events)
    ensures forall k :: k != mac && k in events ==> Record(events, mac, e)[k] == events[k]
    ensures e.None? ==> Record(events, mac, e) == events
    ensures e.Some? ==>
      && mac in Record(events, mac, e)
      && Record(events, mac, e)[mac] == (if mac in events then events[mac] else []) + [e.value]
  {
  }

  /** The event log (`Log`); `created` tells whether Go's `Events` map is non-nil. */
  class Log {
    var events: map<string, seq<Event>>
    var created: bool

    ghost predicate Valid()
      reads this
    {
      !created ==> events == map[]
    }

    /** `&event.Log{}`: a log whose map is still nil. */
    constructor ()
      ensures Valid() && !created && events == map[]
    {
      events := map[];
      created := false;
    }

    /** The events recorded for mac, oldest first (nil when there are none). */
    function EventsFor(mac: string): seq<Event>
      reads this
    {
      if mac in events then events[mac] else []
    }

    /**
     * AddEvent: creates the map when it is nil, then appends one new event to the
     * sequence of srv.mac; every other MAC keeps its sequence.
     */
    method AddEvent(eventType: EventType, srv: Server.Server, bootType: string, script: string,
                    params: Params, now: int, json: Params -> string)
      requires Valid()
      modifies this
      ensures Valid() && created
      ensures events == old(events)[srv.mac := old(EventsFor(srv.mac))
                                     + [New(eventType, srv, bootType, script, params, now, json)]]
    {
      if !created {
        events := map[];
        created := true;
      }
      events := events[srv.mac := EventsFor(srv.mac) + [New(eventType, srv, bootType, script, params, now, json)]];
    }
  }
}
