/**
 * One end of a pipe, channel or socket that the bridge writes to. Whether
 * a call succeeds is not decided by the monitor: the endpoint is given up
 * front the set of calls that fail, numbered from 0 in the order they are
 * made. Accepted items are appended to `log`.
 */
module Io {

  class Endpoint {
    var log: seq<string>
    var calls: nat
    const failures: set<nat>

    constructor (failures: set<nat>)
      ensures log == [] && calls == 0 && this.failures == failures
    {
      log := [];
      calls := 0;
      this.failures := failures;
    }

    /** `write_all` / `send`: on success the item is appended to the log. */
    method Send(item: string) returns (ok: bool)
      modifies this
      ensures ok == (old(calls) !in failures) && calls == old(calls) + 1
      ensures log == if ok then old(log) + [item] else old(log)
    {
      ok := calls !in failures;
      calls := calls + 1;
      if ok {
        log := log + [item];
      }
    }

    /** `flush`: may fail, never changes the log. */
    method Flush() returns (ok: bool)
      modifies this
      ensures ok == (old(calls) !in failures) && calls == old(calls) + 1
      ensures log == old(log)
    {
      ok := calls !in failures;
      calls := calls + 1;
    }
  }
}
