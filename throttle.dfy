/** The in-memory attempt limiter of the admin resolvers: a dictionary from
    client origin to `{ count, timestamp }`, consulted and updated on every
    guarded call before anything else is checked. */
module Throttling {
  import opened Base

  /** One origin's entry: attempts counted since the window opened at `timestamp`. */
  datatype Attempt = Attempt(count: nat, timestamp: int)

  /** The limiter's verdict on one call: let through with the origin's new
      entry, or rejected (TOO_MANY_REQUESTS) with the dictionary untouched. */
  datatype Admission = Admitted(entry: Attempt) | Rejected

  /** One call at time `now` from an origin whose entry is `entry`. */
  function Step(entry: Option<Attempt>, now: int, maxAttempts: nat, blockDuration: int): (a: Admission)
    ensures a.Rejected? <==>
      entry.Some? && entry.value.count >= maxAttempts && now - entry.value.timestamp < blockDuration
    ensures a.Admitted? && (entry.None? || now - entry.value.timestamp >= blockDuration) ==>
      a.entry == Attempt(1, now)
    ensures a.Admitted? && entry.Some? && now - entry.value.timestamp < blockDuration ==>
      a.entry == Attempt(entry.value.count + 1, entry.value.timestamp)
    ensures a.Admitted? && 1 <= maxAttempts && (entry.None? || entry.value.count <= maxAttempts) ==>
      1 <= a.entry.count <= maxAttempts
  {
    match entry
    case None => Admitted(Attempt(1, now))
    case Some(e) =>
      var elapsed := now - e.timestamp;
      if e.count >= maxAttempts && elapsed < blockDuration then Rejected
      else if elapsed >= blockDuration then Admitted(Attempt(1, now))
      else Admitted(Attempt(e.count + 1, e.timestamp))
  }

  /** The dictionary after one call from `ip` at `now`: the new entry
      stored if the call is let through, nothing changed if it is rejected. */
  function Record(attempts: map<string, Attempt>, ip: string, now: int, maxAttempts: nat, blockDuration: int): (r: map<string, Attempt>)
    ensures Step(if ip in attempts then Some(attempts[ip]) else None, now, maxAttempts, blockDuration).Rejected? ==> r == attempts
    ensures r.Keys == attempts.Keys + {ip} || r == attempts
    ensures forall other :: other != ip && other in attempts ==> other in r && r[other] == attempts[other]
    ensures var a := Step(if ip in attempts then Some(attempts[ip]) else None, now, maxAttempts, blockDuration);
      a.Admitted? ==> ip in r && r[ip] == a.entry
  {
    match Step(if ip in attempts then Some(attempts[ip]) else None, now, maxAttempts, blockDuration)
    case Rejected => attempts
    case Admitted(e) => attempts[ip := e]
  }

  /** How many of the calls made at `times`, in that order, from one origin
      whose entry starts as `entry`, the limiter lets through. */
  function Admissions(entry: Option<Attempt>, times: seq<int>, maxAttempts: nat, blockDuration: int): (n: nat)
    ensures n <= |times|
    decreases |times|
  {
    if times == [] then 0
    else
      match Step(entry, times[0], maxAttempts, blockDuration)
      case Rejected => Admissions(entry, times[1..], maxAttempts, blockDuration)
      case Admitted(e) => 1 + Admissions(Some(e), times[1..], maxAttempts, blockDuration)
  }

  function Min(a: int, b: int): int { if a <= b then a else b }

  /** Inside the window an entry opened, calls are let through until the
      count reaches the maximum, and every later one is rejected: exactly
      `maxAttempts - count` of them pass. */
  lemma {:induction false} WithinWindow(e: Attempt, times: seq<int>, maxAttempts: nat, blockDuration: int)
    requires e.count <= maxAttempts
    requires forall i :: 0 <= i < |times| ==> times[i] - e.timestamp < blockDuration
    ensures Admissions(Some(e), times, maxAttempts, blockDuration) == Min(|times|, maxAttempts - e.count)
    decreases |times|
  {
    if times != [] {
      var next := Attempt(e.count + 1, e.timestamp);
      if e.count < maxAttempts {
        assert Step(Some(e), times[0], maxAttempts, blockDuration) == Admitted(next);
        WithinWindow(next, times[1..], maxAttempts, blockDuration);
      } else {
        WithinWindow(e, times[1..], maxAttempts, blockDuration);
      }
    }
  }

  /** From an origin with no entry, of calls all made within one block
      duration of the first, exactly the first `maxAttempts` pass. */
  lemma FreshOrigin(times: seq<int>, maxAttempts: nat, blockDuration: int)
    requires |times| > 0 && maxAttempts >= 1
    requires forall i :: 0 <= i < |times| ==> times[i] - times[0] < blockDuration
    ensures Admissions(None, times, maxAttempts, blockDuration) == Min(|times|, maxAttempts)
  {
    var first := Attempt(1, times[0]);
    assert Step(None, times[0], maxAttempts, blockDuration) == Admitted(first);
    WithinWindow(first, times[1..], maxAttempts, blockDuration);
  }

  /** The property names every plain JavaScript object inherits from
      `Object.prototype`. Read from the source's `{}` dictionary, such a name
      yields a function or the prototype itself: a truthy value without a
      numeric `count` or `timestamp`. */
  const INHERITED: set<string> := {
    "constructor", "__proto__", "toString", "toLocaleString", "valueOf",
    "hasOwnProperty", "isPrototypeOf", "propertyIsEnumerable",
    "__defineGetter__", "__defineSetter__", "__lookupGetter__", "__lookupSetter__"}

  /** Whether one call passes the limiter as the source writes it, on a plain
      object. For an inherited name with no entry of its own, count and
      elapsed time are NaN, so neither comparison holds and the call passes;
      any other origin is judged by `Step`. */
  function PassesAsWritten(attempts: map<string, Attempt>, ip: string, now: int,
                           maxAttempts: nat, blockDuration: int): (b: bool)
    ensures ip in INHERITED && ip !in attempts ==> b
    ensures ip !in INHERITED ==>
      (b <==> Step(if ip in attempts then Some(attempts[ip]) else None, now, maxAttempts, blockDuration).Admitted?)
  {
    if ip in INHERITED && ip !in attempts then true
    else Step(if ip in attempts then Some(attempts[ip]) else None, now, maxAttempts, blockDuration).Admitted?
  }

  /** The dictionary after one call as the source writes it. For an
      inherited name, `+= 1` stores NaN on the shared inherited object and
      adds no entry of the dictionary's own. */
  function RecordAsWritten(attempts: map<string, Attempt>, ip: string, now: int,
                           maxAttempts: nat, blockDuration: int): (r: map<string, Attempt>)
    ensures ip in INHERITED && ip !in attempts ==> r == attempts
    ensures ip !in INHERITED ==> r == Record(attempts, ip, now, maxAttempts, blockDuration)
  {
    if ip in INHERITED && ip !in attempts then attempts
    else Record(attempts, ip, now, maxAttempts, blockDuration)
  }

  /** How many of the calls made at `times` from origin `ip` the limiter, as
      written, lets through. */
  function AdmissionsAsWritten(attempts: map<string, Attempt>, ip: string, times: seq<int>,
                               maxAttempts: nat, blockDuration: int): (n: nat)
    ensures n <= |times|
    decreases |times|
  {
    if times == [] then 0
    else
      (if PassesAsWritten(attempts, ip, times[0], maxAttempts, blockDuration) then 1 else 0)
      + AdmissionsAsWritten(RecordAsWritten(attempts, ip, times[0], maxAttempts, blockDuration),
                            ip, times[1..], maxAttempts, blockDuration)
  }

  /** As written, an origin named like an inherited property is never
      refused: every call passes, however many and however close together. */
  lemma {:induction false} InheritedOriginUnlimited(attempts: map<string, Attempt>, ip: string, times: seq<int>,
                                                    maxAttempts: nat, blockDuration: int)
    requires ip in INHERITED && ip !in attempts
    ensures AdmissionsAsWritten(attempts, ip, times, maxAttempts, blockDuration) == |times|
    decreases |times|
  {
    if times != [] {
      InheritedOriginUnlimited(attempts, ip, times[1..], maxAttempts, blockDuration);
    }
  }

  /** For every other origin, the limiter as written is the model's limiter:
      successive calls, each recorded in the dictionary, pass exactly as
      `Admissions` counts them from the origin's entry. */
  lemma {:induction false} OwnOriginAsModelled(attempts: map<string, Attempt>, ip: string, times: seq<int>,
                                               maxAttempts: nat, blockDuration: int)
    requires ip !in INHERITED
    ensures AdmissionsAsWritten(attempts, ip, times, maxAttempts, blockDuration)
         == Admissions(if ip in attempts then Some(attempts[ip]) else None, times, maxAttempts, blockDuration)
    decreases |times|
  {
    if times != [] {
      var r := Record(attempts, ip, times[0], maxAttempts, blockDuration);
      OwnOriginAsModelled(r, ip, times[1..], maxAttempts, blockDuration);
    }
  }

  /** A mutable limiter: one dictionary, one maximum, one block duration. */
  class Throttle {
    const maxAttempts: nat
    const blockDuration: int
    var attempts: map<string, Attempt>

    /** Every recorded count lies between 1 and the maximum. */
    ghost predicate Valid()
      reads this
    {
      maxAttempts >= 1 && forall ip :: ip in attempts ==> 1 <= attempts[ip].count <= maxAttempts
    }

    function Entry(ip: string): Option<Attempt>
      reads this
    {
      if ip in attempts then Some(attempts[ip]) else None
    }

    constructor (maxAttempts: nat, blockDuration: int)
      requires maxAttempts >= 1
      ensures Valid()
      ensures this.maxAttempts == maxAttempts && this.blockDuration == blockDuration
      ensures attempts == map[]
    {
      this.maxAttempts := maxAttempts;
      this.blockDuration := blockDuration;
      attempts := map[];
    }

    /** Counts one call from `ip` at `now`. A rejected call leaves the
        dictionary exactly as it was; an admitted one stores the new entry. */
    method Check(ip: string, now: int) returns (admitted: bool)
      requires Valid()
      modifies this
      ensures Valid()
      ensures admitted <==> Step(old(Entry(ip)), now, maxAttempts, blockDuration).Admitted?
      ensures attempts == Record(old(attempts), ip, now, maxAttempts, blockDuration)
    {
      if ip in attempts {
        var e := attempts[ip];
        var elapsed := now - e.timestamp;
        if e.count >= maxAttempts && elapsed < blockDuration {
          return false;
        }
        if elapsed >= blockDuration {
          attempts := attempts[ip := Attempt(1, now)];
        } else {
          attempts := attempts[ip := e.(count := e.count + 1)];
        }
      } else {
        attempts := attempts[ip := Attempt(1, now)];
      }
      return true;
    }
  }
}
