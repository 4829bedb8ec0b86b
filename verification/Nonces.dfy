/** The challenge/provision protocol: a nonce is issued for a verified challenge, consumed by the first
    provision that names it, good for five minutes, and reaped once too old. */
module Nonces {
  import opened Base

  const SHORT_LIVED_TTL: Time := 5 * MINUTE

  datatype Entry = Entry(nonce: string, memberId: string, clientKey: string, createdAt: Time)

  type Pending = map<string, Entry>

  /** LoadAndDelete, then the freshness and echo checks. */
  function Consume(p: Pending, key: string, nonce: string, now: Time): (Pending, Option<Entry>) {
    if key !in p then (p, None)
    else
      var e := p[key];
      (p - {key}, if now - e.createdAt > SHORT_LIVED_TTL || nonce != e.nonce then None else Some(e))
  }

  function Reap(p: Pending, now: Time): Pending {
    map k | k in p && !(p[k].createdAt < now - SHORT_LIVED_TTL) :: p[k]
  }

  // ---- runs ----

  datatype Event =
    | Challenge(corr: string, entry: Entry, verified: bool, now: Time)
    | Provision(key: string, nonce: string, auth: string -> bool, now: Time)   // auth: does it verify as this member's?
    | Reaped(now: Time)

  /** The new store, and for a provision that succeeds the challenge entry it used. */
  function Step(p: Pending, ev: Event): (Pending, Option<Entry>) {
    match ev
    case Challenge(corr, entry, verified, now) =>
      (if verified then p[corr := entry.(createdAt := now)] else p, None)
    case Provision(key, nonce, auth, now) =>
      var (p', e) := Consume(p, key, nonce, now);
      (p', if e.Some? && auth(e.value.memberId) then e else None)
    case Reaped(now) => (Reap(p, now), None)
  }

  function Run(evs: seq<Event>): Pending {
    if evs == [] then map[] else Step(Run(evs[..|evs| - 1]), evs[|evs| - 1]).0
  }

  function Outcome(evs: seq<Event>, j: nat): Option<Entry>
    requires j < |evs|
  {
    Step(Run(evs[..j]), evs[j]).1
  }

  /** The challenge a key still stands for: the last event on that key, if it was a verified challenge. */
  function Source(evs: seq<Event>, key: string): (r: Option<nat>)
    ensures r.Some? ==> r.value < |evs| && evs[r.value].Challenge? && evs[r.value].verified && evs[r.value].corr == key
  {
    if evs == [] then None
    else
      var n := |evs| - 1;
      match evs[n]
      case Challenge(corr, entry, verified, now) => if verified && corr == key then Some(n) else Source(evs[..n], key)
      case Provision(k, nonce, auth, now) => if k == key then None else Source(evs[..n], key)
      case Reaped(now) => Source(evs[..n], key)
  }

  lemma {:induction false} PendingHasSource(evs: seq<Event>, key: string)
    requires key in Run(evs)
    ensures var i := Source(evs, key);
            i.Some? && Run(evs)[key] == evs[i.value].entry.(createdAt := evs[i.value].now)
  {
    var n := |evs| - 1;
    if !(evs[n].Challenge? && evs[n].verified && evs[n].corr == key) {
      PendingHasSource(evs[..n], key);
    }
  }

  lemma {:induction false} SourceAfterUse(evs: seq<Event>, j: nat, key: string)
    requires j < |evs| && evs[j].Provision? && evs[j].key == key
    ensures Source(evs, key).Some? ==> j < Source(evs, key).value
  {
    var n := |evs| - 1;
    if j < n {
      SourceAfterUse(evs[..n], j, key);
    }
  }

  /** A successful provision answers a challenge that was verified for the same member at most five
      minutes earlier, and echoes its nonce. */
  lemma {:induction false} SuccessAnswersChallenge(evs: seq<Event>, j: nat)
    requires j < |evs| && Outcome(evs, j).Some?
    ensures var i := Source(evs[..j], evs[j].key);
            && i.Some? && i.value < j
            && evs[i.value].Challenge? && evs[i.value].verified && evs[i.value].corr == evs[j].key
            && evs[i.value].entry.nonce == evs[j].nonce
            && evs[i.value].entry.memberId == Outcome(evs, j).value.memberId
            && evs[j].auth(evs[i.value].entry.memberId)
            && evs[j].now - evs[i.value].now <= SHORT_LIVED_TTL
  {
    PendingHasSource(evs[..j], evs[j].key);
  }

  /** No challenge is answered twice. */
  lemma {:induction false} ChallengeUsedOnce(evs: seq<Event>, j1: nat, j2: nat)
    requires j1 < j2 < |evs| && Outcome(evs, j1).Some? && Outcome(evs, j2).Some?
    ensures Source(evs[..j1], evs[j1].key) != Source(evs[..j2], evs[j2].key)
  {
    SuccessAnswersChallenge(evs, j1);
    SuccessAnswersChallenge(evs, j2);
    if evs[j1].key == evs[j2].key {
      SourceAfterUse(evs[..j2], j1, evs[j1].key);
    }
  }

  /** `reaped` is `full` short of some entries already expired at `now`. */
  ghost predicate Shadow(full: Pending, reaped: Pending, now: Time) {
    && (forall k :: k in reaped ==> k in full && full[k] == reaped[k])
    && (forall k :: k in full && k !in reaped ==> now - full[k].createdAt > SHORT_LIVED_TTL)
  }
}
