/** Readiness of a plugin: a handshake before its first use and again after it was found unreachable,
    but failures are not retried before a pause has passed. */
module PluginHealth {
  import opened Common

  const RETRY_AFTER := 10

  datatype Handshake = Handshake(start: int, end: int)

  class Plugin {
    /** What is wrong with the plugin's configuration, if anything. */
    const broken: Option<string>
    var ready: bool
    var version: string
    var lastErr: Option<string>
    var checkedAt: Option<int>
    /** All handshakes so far, and the latest clock reading. */
    ghost var handshakes: seq<Handshake>
    ghost var clock: int

    ghost predicate Valid()
      reads this
    {
      && (!ready ==> lastErr.Some? || checkedAt.None?)
      && (ready ==> lastErr.None?)
      && (broken.Some? ==> !ready && handshakes == [])
      && (checkedAt.None? ==> handshakes == [] && !ready && lastErr.None?)
      && (checkedAt.Some? ==> checkedAt.value <= clock)
      && (handshakes != [] ==> checkedAt.Some? && handshakes[|handshakes| - 1].end <= checkedAt.value)
      && (forall i :: 0 <= i < |handshakes| - 1 ==> handshakes[i].end + RETRY_AFTER <= handshakes[i + 1].start)
    }

    constructor (broken: Option<string>, now: int)
      ensures Valid() && this.broken == broken && handshakes == [] && clock == now && !ready
    {
      this.broken := broken;
      ready, version, lastErr, checkedAt := false, "", None, None;
      handshakes, clock := [], now;
    }

    /** `ensureReady`. The call finds the clock at `now`; a handshake started then ends at `end` with
        `outcome`, a version or an error. The result is the error to report. */
    method EnsureReady(now: int, end: int, outcome: Option<string>, failure: string) returns (err: Option<string>)
      requires Valid() && clock <= now <= end
      modifies this
      ensures Valid() && old(handshakes) <= handshakes && |handshakes| <= old(|handshakes|) + 1
      ensures handshakes != old(handshakes) <==>
              broken.None? && !old(ready) && (old(lastErr).None? || now - old(checkedAt).value >= RETRY_AFTER)
      ensures err == if broken.Some? then broken else lastErr
      ensures err.None? <==> ready
      ensures handshakes == old(handshakes) ==>
                ready == old(ready) && version == old(version) && lastErr == old(lastErr) && checkedAt == old(checkedAt)
      ensures handshakes != old(handshakes) ==>
                && handshakes[|handshakes| - 1] == Handshake(now, end) && checkedAt == Some(end) && clock == end
                && (ready <==> outcome.Some?) && version == (if outcome.Some? then outcome.value else "")
                && lastErr == if outcome.Some? then None else Some(failure)
    {
      clock := now;
      if broken.Some? { return broken; }
      if ready { return None; }
      if lastErr.Some? && now - checkedAt.value < RETRY_AFTER { return lastErr; }
      handshakes := handshakes + [Handshake(now, end)];
      clock := end;
      ready := outcome.Some?;
      version := if outcome.Some? then outcome.value else "";
      lastErr := if outcome.Some? then None else Some(failure);
      checkedAt := Some(end);
      return lastErr;
    }

    /** `Observe`: a call to the plugin failed; only being unreachable counts. */
    method Observe(unreachable: bool, error: string, now: int)
      requires Valid() && clock <= now
      modifies this
      ensures Valid() && handshakes == old(handshakes)
      ensures if unreachable then !ready && lastErr == Some(error) && checkedAt == Some(now)
              else ready == old(ready) && lastErr == old(lastErr) && checkedAt == old(checkedAt)
      ensures version == old(version)
    {
      clock := now;
      if !unreachable { return; }
      ready, lastErr, checkedAt := false, Some(error), Some(now);
    }
  }
}
