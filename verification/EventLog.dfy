/** The append-only event store that every goal of a process shares. */
module EventLog {
  import opened Contract

  class EventStore {
    var log: seq<Event>

    constructor ()
      ensures log == []
    {
      log := [];
    }

    method Append(e: Event)
      modifies this
      ensures log == old(log) + [e]
    {
      log := log + [e];
    }
  }
}
