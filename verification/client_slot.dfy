/**
 * The single shared search-client slot (`bot.memory['ddg_search_client']`).
 * A client is an opaque handle, identified here by its generation: the n-th
 * client ever created has generation n. The holder remembers how many clients
 * have been created, so that "a fresh client" has a meaning.
 */
module ClientSlot {
  import opened Wrappers

  datatype Holder = Holder(slot: Option<nat>, created: nat)

  /** The stored client, if any, is one of those created so far. */
  predicate Valid(h: Holder)
  {
    h.slot.Some? ==> 1 <= h.slot.value <= h.created
  }

  /** `refresh_ddgs_client`: store a newly created client, replacing any previous one. */
  function Refresh(h: Holder): (r: Holder)
    ensures Valid(r)
    ensures r.slot.Some? && r.slot.value > h.created
    ensures Valid(h) && h.slot.Some? ==> r.slot.value > h.slot.value
    ensures r.created > h.created
  {
    Holder(Some(h.created + 1), h.created + 1)
  }

  /** `setup`: define the settings section (not modelled), then refresh the client. */
  function Setup(h: Holder): (r: Holder)
    ensures Valid(r)
    ensures r.slot.Some? && r.slot.value > h.created
  {
    Refresh(h)
  }

  /**
   * `shutdown`: delete the stored client. Deleting a missing key raises
   * `KeyError` in the source, which is `None` here.
   */
  function Shutdown(h: Holder): (r: Option<Holder>)
    ensures r.Some? <==> h.slot.Some?
    ensures r.Some? ==> r.value.slot.None? && r.value.created == h.created
  {
    if h.slot.Some? then Some(Holder(None, h.created)) else None
  }

  /** What can happen to the slot: set-up, the hourly timer, a refresh after a failed search, shutdown. */
  datatype Event = SetupEvent | IntervalTick | FailureRefresh | ShutdownEvent

  function Step(h: Holder, e: Event): Option<Holder>
  {
    match e
    case SetupEvent => Some(Setup(h))
    case IntervalTick => Some(Refresh(h))
    case FailureRefresh => Some(Refresh(h))
    case ShutdownEvent => Shutdown(h)
  }

  /** Replays a sequence of events; `None` once a step fails. */
  function Run(h: Holder, events: seq<Event>): Option<Holder>
    decreases |events|
  {
    if events == [] then Some(h)
    else
      match Step(h, events[0])
      case None => None
      case Some(h') => Run(h', events[1..])
  }

  /** Any sequence of events keeps the slot valid and never forgets a created client. */
  lemma {:induction false} RunPreservesValid(h: Holder, events: seq<Event>)
    requires Valid(h)
    ensures Run(h, events).Some? ==> Valid(Run(h, events).value)
    ensures Run(h, events).Some? ==> Run(h, events).value.created >= h.created
    decreases |events|
  {
    if events != [] {
      match Step(h, events[0])
      case None =>
      case Some(h') =>
        RunPreservesValid(h', events[1..]);
    }
  }

  /** A client installed by a run differs from every client that existed when it began,
      unless the run installed nothing new. */
  lemma {:induction false} RunNeverReinstalls(h: Holder, events: seq<Event>)
    requires Valid(h)
    requires Run(h, events).Some? && Run(h, events).value.slot.Some?
    ensures Run(h, events).value.slot == h.slot
         || Run(h, events).value.slot.value > h.created
    decreases |events|
  {
    if events != [] {
      var h' := Step(h, events[0]).value;
      RunPreservesValid(h', events[1..]);
      RunNeverReinstalls(h', events[1..]);
    }
  }

  /**
   * A run that creates any client (anything but a shutdown) and ends holding one
   * ends holding a client newer than every client that existed when it began:
   * once replaced, the starting client never comes back.
   */
  lemma {:induction false} RefreshingRunEndsNewer(h: Holder, events: seq<Event>)
    requires Valid(h)
    requires exists i :: 0 <= i < |events| && events[i] != ShutdownEvent
    requires Run(h, events).Some? && Run(h, events).value.slot.Some?
    ensures Run(h, events).value.slot.value > h.created
    decreases |events|
  {
    var h' := Step(h, events[0]).value;
    if events[0] != ShutdownEvent {
      RunNeverReinstalls(h', events[1..]);
    } else {
      var i :| 0 <= i < |events| && events[i] != ShutdownEvent;
      assert events[1..][i - 1] != ShutdownEvent;
      RefreshingRunEndsNewer(h', events[1..]);
    }
  }

  /** Two refreshes in a row install two distinct clients, both newer than anything before. */
  lemma RefreshTwiceDistinct(h: Holder)
    requires Valid(h)
    ensures Refresh(h).slot != Refresh(Refresh(h)).slot
    ensures Refresh(Refresh(h)).slot.value > Refresh(h).slot.value > h.created
  {
  }

  /** Setting up and then shutting down leaves the slot empty, with one more client created. */
  lemma SetupThenShutdown(h: Holder)
    ensures Shutdown(Setup(h)) == Some(Holder(None, h.created + 1))
  {
  }

}
