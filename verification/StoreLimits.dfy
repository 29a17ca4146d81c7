/** How many codes and guesses the store lets through: the limits of its operations, over any sequence of requests. */
module StoreLimits {
  import opened VerificationRateLimits
  import opened EmailChallenges
  import W = RateLimitWaits

  /** A request for a code, first or again, or to check one, with the instants at which its two limits are charged. */
  datatype Request = SendRequest(email: Digest, ip: Digest, t0: int, t1: int) | CheckRequest(email: Digest, ip: Digest, t0: int, t1: int)

  function Charges(r: Request): (c: seq<Attempt>)
    ensures |c| == 2
  {
    match r
    case SendRequest(email, ip, t0, t1) => SendLimits(email, ip, t0, t1)
    case CheckRequest(email, ip, t0, t1) => VerifyLimits(email, ip, t0, t1)
  }

  /** Everything charged by the requests, in order. */
  function AllCharges(rs: seq<Request>): seq<Attempt> {
    if rs == [] then [] else AllCharges(rs[..|rs| - 1]) + Charges(rs[|rs| - 1])
  }

  /** The verdict on the `k`-th request, as the operations of the store compute it from the counters they find. */
  ghost predicate LetThrough(rs: seq<Request>, k: nat)
    requires k < |rs|
  {
    var counters := AfterAll(map[], AllCharges(rs[..k]));
    WithinAt(counters, Charges(rs[k]), 0) && WithinAt(counters, Charges(rs[k]), 1)
  }

  /** The requests of the closed hour from `start` that were let through: codes to an email, codes for an address, guesses at
      an email, guesses from an address. */
  datatype About = CodesTo(email: Digest) | CodesFor(ip: Digest) | GuessesAt(email: Digest) | GuessesFrom(ip: Digest)

  predicate Concerns(r: Request, a: About, start: int) {
    match a
    case CodesTo(email) => r.SendRequest? && r.email == email && start <= r.t0 <= start + 3600 * SECOND
    case CodesFor(ip) => r.SendRequest? && r.ip == ip && start <= r.t1 <= start + 3600 * SECOND
    case GuessesAt(email) => r.CheckRequest? && r.email == email && start <= r.t0 <= start + 3600 * SECOND
    case GuessesFrom(ip) => r.CheckRequest? && r.ip == ip && start <= r.t1 <= start + 3600 * SECOND
  }

  ghost function Through(rs: seq<Request>, a: About, start: int): nat {
    if rs == [] then 0 else
    var n := |rs| - 1;
    Through(rs[..n], a, start) + if Concerns(rs[n], a, start) && LetThrough(rs, n) then 1 else 0
  }

  function KeyOf(a: About): Key {
    match a
    case CodesTo(email) => Key(SendEmail, email)
    case CodesFor(ip) => Key(SendIp, ip)
    case GuessesAt(email) => Key(VerifyEmail, email)
    case GuessesFrom(ip) => Key(VerifyIp, ip)
  }

  /** Twice the limit: the counters have fixed windows. */
  function Bound(a: About): nat {
    match a
    case CodesTo(_) => 6
    case CodesFor(_) => 30
    case GuessesAt(_) => 30
    case GuessesFrom(_) => 60
  }

  lemma {:induction false} WithinLater(before: seq<Attempt>, charges: seq<Attempt>, i: nat)
    requires i < |charges|
    ensures WithinAt(AfterAll(map[], before), charges, i) <==> WithinAt(map[], before + charges, |before| + i)
  {
    var all := before + charges;
    assert all[..|before| + i] == before + charges[..i] && all[|before| + i] == charges[i];
    W.AfterBoth(map[], before, charges[..i]);
  }

  lemma {:induction false} HourGrows(before: seq<Attempt>, charges: seq<Attempt>, key: Key, start: int)
    requires |charges| == 2
    ensures AdmittedInHour(before + charges, key, start) == AdmittedInHour(before, key, start)
      + (if charges[0].key == key && start <= charges[0].now <= start + HOUR && WithinAt(AfterAll(map[], before), charges, 0) then 1 else 0)
      + (if charges[1].key == key && start <= charges[1].now <= start + HOUR && WithinAt(AfterAll(map[], before), charges, 1) then 1 else 0)
  {
    var all, n := before + charges, |before|;
    assert all[..n + 1][..n] == before && all[..|all| - 1] == all[..n + 1];
    assert all[..n + 1] == before + [charges[0]];
    WithinLater(before, charges, 0);
    WithinLater(before, charges, 1);
    WithinPrefix(all, n);
  }

  lemma {:induction false} WithinPrefix(all: seq<Attempt>, n: nat)
    requires n < |all|
    ensures WithinAt(map[], all[..n + 1], n) == WithinAt(map[], all, n)
  {
    assert all[..n + 1][..n] == all[..n];
  }

  lemma {:induction false} ThroughAdmitted(rs: seq<Request>, a: About, start: int)
    ensures Through(rs, a, start) <= AdmittedInHour(AllCharges(rs), KeyOf(a), start)
  {
    if rs != [] {
      var n := |rs| - 1;
      ThroughAdmitted(rs[..n], a, start);
      HourGrows(AllCharges(rs[..n]), Charges(rs[n]), KeyOf(a), start);
    }
  }

  /** Over any sequence of requests with ordered instants, in any closed hour: at most 6 codes to one email and 30 for one
      address, at most 30 guesses at one email and 60 from one address. */
  lemma {:induction false} HourlyBounds(rs: seq<Request>, a: About, start: int)
    requires Ordered(AllCharges(rs))
    ensures Through(rs, a, start) <= Bound(a)
  {
    ThroughAdmitted(rs, a, start);
    HourCounted(AllCharges(rs), KeyOf(a), start);
  }
}
