/** Fail-closed liveness: drop all peers once no verified state has been confirmed for too long. */
module Liveness {
  import opened Base

  const STALE_BOUND: Time := 30 * MINUTE
  const COLD_START_TIMEOUT: Time := 90 * SECOND

  datatype Live = Live(bootAt: Time, appliedOnce: bool, last: Time, failClosed: bool)

  function Boot(now: Time): Live {
    Live(now, false, 0, false)
  }

  function Mark(l: Live, now: Time, applied: bool): Live {
    l.(last := now, appliedOnce := l.appliedOnce || applied, failClosed := false)
  }

  /** checkLiveness: the new state and whether to drop every peer. */
  function Check(l: Live, lastAppliedAt: Time, now: Time): (Live, bool) {
    if l.failClosed then (l, false)
    else if !l.appliedOnce then
      if lastAppliedAt != 0 && now - lastAppliedAt <= STALE_BOUND then
        (l.(appliedOnce := true, last := if l.last == 0 then lastAppliedAt else l.last), false)
      else
        var trip := now - l.bootAt > COLD_START_TIMEOUT;
        (l.(failClosed := trip), trip)
    else
      var ref := if l.last == 0 then lastAppliedAt else l.last;
      var trip := ref != 0 && now - ref > STALE_BOUND;
      (l.(failClosed := trip), trip)
  }
}
