/**
 The per-instance rate limiter: a fixed 60-second window per client, started by the client's first
 request, with a cap on how many clients are tracked at once.
 */
module RateLimit {
  import opened Wrappers

  const WINDOW: nat := 60_000
  const MAX_CLIENTS: nat := 10_000
  const DEFAULT_LIMIT: nat := 60

  datatype Client = Client(count: nat, reset: nat)

  datatype Outcome = Admitted | CapacityExceeded | TooManyRequests

  type Clients = map<string, Client>

  /** The configured limit when it is a positive integer, and 60 otherwise. */
  function Limit(configured: Option<int>): (limit: nat)
    ensures limit > 0
  {
    if configured.Some? && configured.value > 0 then configured.value else DEFAULT_LIMIT
  }

  // ----- One request ---------------------------------------------------------------------

  function Purge(clients: Clients, now: nat): Clients {
    map k | k in clients && clients[k].reset > now :: clients[k]
  }

  /** The tracked clients and the outcome after one request. */
  function Activate(clients: Clients, ip: string, now: nat, limit: nat): (Clients, Outcome) {
    var live := Purge(clients, now);
    if ip !in live && |live| >= MAX_CLIENTS then (live, CapacityExceeded)
    else
      var client := if ip in live then live[ip] else Client(0, now + WINDOW);
      var counted := client.(count := client.count + 1);
      (live[ip := counted], if counted.count > limit then TooManyRequests else Admitted)
  }

  class RateLimitGuard {
    var clients: Clients

    constructor ()
      ensures clients == map[]
    {
      clients := map[];
    }

    /** The purge loop deletes exactly the expired entries. */
    method PurgeExpired(now: nat)
      modifies this
      ensures clients == Purge(old(clients), now)
    {
      var pending := clients.Keys;
      while pending != {}
        invariant pending <= clients.Keys
        invariant clients == map k | k in old(clients) && (k in pending || old(clients)[k].reset > now) :: old(clients)[k]
        decreases pending
      {
        var key :| key in pending;
        pending := pending - {key};
        if clients[key].reset <= now {
          clients := clients - {key};
        }
      }
    }

    method CanActivate(requestIp: Option<string>, remoteAddress: Option<string>, now: nat, configured: Option<int>)
      returns (outcome: Outcome)
      modifies this
      ensures
        var ip := if requestIp.Some? then requestIp.value else if remoteAddress.Some? then remoteAddress.value else "unknown";
        && (configured.Some? && configured.value > 0 ==> (clients, outcome) == Activate(old(clients), ip, now, configured.value))
        && (configured.None? || configured.value <= 0 ==> (clients, outcome) == Activate(old(clients), ip, now, 60))
    {
      var ip := if requestIp.Some? then requestIp.value else if remoteAddress.Some? then remoteAddress.value else "unknown";
      PurgeExpired(now);
      ghost var live := clients;
      var limit := Limit(configured);
      if ip !in clients {
        if |clients| >= MAX_CLIENTS {
          return CapacityExceeded;
        }
        clients := clients[ip := Client(0, now + WINDOW)];
      }
      var client := clients[ip];
      client := client.(count := client.count + 1);
      clients := clients[ip := client];
      assert clients == live[ip := client];
      if client.count > limit {
        return TooManyRequests;
      }
      return Admitted;
    }
  }

  /**
   The verdict on a request.  With the windows that are still open: a client without one is refused
   when 10000 are tracked, a client with one when it has used up the limit, and nobody else.
   */
  lemma Verdict(clients: Clients, ip: string, now: nat, limit: nat)
    requires limit > 0
    ensures
      var (next, outcome) := Activate(clients, ip, now, limit);
      var tracked := set k | k in clients && now < clients[k].reset;
      && (outcome == CapacityExceeded <==> ip !in tracked && |tracked| >= 10_000)
      && (outcome == TooManyRequests <==> ip in tracked && clients[ip].count >= limit)
      && (outcome == Admitted <==> if ip in tracked then clients[ip].count < limit else |tracked| < 10_000)
      && (outcome != CapacityExceeded ==>
            && next.Keys == tracked + {ip}
            && next[ip] == (if ip in tracked then Client(clients[ip].count + 1, clients[ip].reset) else Client(1, now + 60_000)))
      && (outcome == CapacityExceeded ==> next.Keys == tracked)
      && (forall k :: k in tracked && k != ip ==> next[k] == clients[k])
  {
    var tracked := set k | k in clients && now < clients[k].reset;
    assert Purge(clients, now).Keys == tracked;
  }

  // ----- Runs ----------------------------------------------------------------------------

  datatype Request = Request(ip: string, now: nat)

  ghost function Run(clients: Clients, requests: seq<Request>, limit: nat): Clients
    decreases |requests|
  {
    if requests == [] then clients
    else Run(Activate(clients, requests[0].ip, requests[0].now, limit).0, requests[1..], limit)
  }

  /** The clock does not run backwards and has reached `now`. */
  ghost predicate Ordered(requests: seq<Request>, now: nat) {
    && (forall i :: 0 <= i < |requests| ==> now <= requests[i].now)
    && (forall i, j :: 0 <= i < j < |requests| ==> requests[i].now <= requests[j].now)
  }

  /** How many requests of one client are admitted between two times, both included. */
  ghost function AdmittedBetween(clients: Clients, requests: seq<Request>, limit: nat, ip: string, lo: nat, hi: nat): nat
    decreases |requests|
  {
    if requests == [] then 0
    else
      var r := requests[0];
      var next := Activate(clients, r.ip, r.now, limit);
      (if r.ip == ip && lo <= r.now <= hi && next.1 == Admitted then 1 else 0)
      + AdmittedBetween(next.0, requests[1..], limit, ip, lo, hi)
  }

  lemma OrderedTail(requests: seq<Request>, now: nat)
    requires requests != [] && Ordered(requests, now)
    ensures now <= requests[0].now && Ordered(requests[1..], requests[0].now)
  {
    assert forall i :: 0 <= i < |requests[1..]| ==> requests[1..][i] == requests[i + 1];
  }

  // ----- Capacity ------------------------------------------------------------------------

  lemma SmallerKeys(a: Clients, b: Clients)
    requires a.Keys <= b.Keys
    ensures |a| <= |b|
  {
    assert b.Keys == a.Keys + (b.Keys - a.Keys);
    assert |b.Keys| == |a.Keys| + |b.Keys - a.Keys|;
  }

  lemma ActivateKeepsCapacity(clients: Clients, ip: string, now: nat, limit: nat)
    requires |clients| <= MAX_CLIENTS
    ensures |Activate(clients, ip, now, limit).0| <= MAX_CLIENTS
  {
    SmallerKeys(Purge(clients, now), clients);
  }

  /** No run ever tracks more than 10000 clients. */
  lemma {:induction false} CapacityBounded(clients: Clients, requests: seq<Request>, limit: nat)
    requires |clients| <= MAX_CLIENTS
    ensures |Run(clients, requests, limit)| <= 10_000
    decreases |requests|
  {
    if requests != [] {
      var r := requests[0];
      ActivateKeepsCapacity(clients, r.ip, r.now, limit);
      CapacityBounded(Activate(clients, r.ip, r.now, limit).0, requests[1..], limit);
    }
  }

  // ----- Admissions ----------------------------------------------------------------------

  function Left(client: Client, limit: nat): nat {
    if client.count < limit then limit - client.count else 0
  }

  /**
   The most that can still be admitted to a client in the minute from t, both ends included:
   what is left of the window it is in, plus a whole window if one can still be started in time.
   */
  function Allowance(clients: Clients, ip: string, now: nat, t: nat, limit: nat): nat {
    if now > t + WINDOW then 0
    else if ip !in clients then (if now > t then limit else 2 * limit)
    else if clients[ip].reset <= t then 2 * limit
    else if clients[ip].reset <= t + WINDOW then Left(clients[ip], limit) + limit
    else Left(clients[ip], limit)
  }

  /** One request spends at least what it is admitted. */
  lemma AllowanceSpent(clients: Clients, ip: string, now: nat, r: Request, t: nat, limit: nat)
    requires limit > 0 && now <= r.now
    ensures
      var next := Activate(clients, r.ip, r.now, limit);
      Allowance(next.0, ip, r.now, t, limit)
      + (if r.ip == ip && t <= r.now <= t + WINDOW && next.1 == Admitted then 1 else 0)
      <= Allowance(clients, ip, now, t, limit)
  {
  }

  lemma {:induction false} AdmittedWithinAllowance(clients: Clients, requests: seq<Request>, ip: string, now: nat, t: nat, limit: nat)
    requires limit > 0 && Ordered(requests, now)
    ensures AdmittedBetween(clients, requests, limit, ip, t, t + WINDOW) <= Allowance(clients, ip, now, t, limit)
    decreases |requests|
  {
    if requests != [] {
      var r := requests[0];
      OrderedTail(requests, now);
      AllowanceSpent(clients, ip, now, r, t, limit);
      hide Activate, Allowance;
      AdmittedWithinAllowance(Activate(clients, r.ip, r.now, limit).0, requests[1..], ip, r.now, t, limit);
    }
  }

  /** In any stretch of 60 seconds, wherever it starts, a client is admitted at most twice the limit. */
  lemma AtMostTwiceTheLimit(clients: Clients, requests: seq<Request>, ip: string, now: nat, t: nat, limit: nat)
    requires limit > 0 && Ordered(requests, now)
    ensures AdmittedBetween(clients, requests, limit, ip, t, t + 60_000) <= 2 * limit
  {
    AdmittedWithinAllowance(clients, requests, ip, now, t, limit);
  }

  /** Until its window ends, a client gets no more than what is left of the limit. */
  lemma {:induction false} WindowRemainder(clients: Clients, requests: seq<Request>, ip: string, now: nat, limit: nat, reset: nat)
    requires limit > 0 && Ordered(requests, now) && reset > 0
    requires now < reset ==> ip in clients && clients[ip].reset == reset
    ensures AdmittedBetween(clients, requests, limit, ip, 0, reset - 1) <= if now < reset then Left(clients[ip], limit) else 0
    decreases |requests|
  {
    if requests != [] {
      var r := requests[0];
      OrderedTail(requests, now);
      WindowRemainder(Activate(clients, r.ip, r.now, limit).0, requests[1..], ip, r.now, limit, reset);
    }
  }

  /** A window opened by a request admits at most the limit, that request included. */
  lemma WindowAdmitsLimit(clients: Clients, requests: seq<Request>, limit: nat)
    requires limit > 0 && requests != [] && Ordered(requests, requests[0].now)
    requires requests[0].ip !in Purge(clients, requests[0].now)
    ensures AdmittedBetween(clients, requests, limit, requests[0].ip, 0, requests[0].now + WINDOW - 1) <= limit
  {
    var r := requests[0];
    var next := Activate(clients, r.ip, r.now, limit);
    OrderedTail(requests, r.now);
    if next.1 == CapacityExceeded {
      LateWindow(next.0, requests[1..], r.ip, r.now, limit);
    } else {
      WindowRemainder(next.0, requests[1..], r.ip, r.now, limit, r.now + WINDOW);
    }
  }

  /** A client without a window cannot open two before a minute has passed. */
  lemma LateWindow(clients: Clients, requests: seq<Request>, ip: string, now: nat, limit: nat)
    requires limit > 0 && Ordered(requests, now) && ip !in clients
    ensures AdmittedBetween(clients, requests, limit, ip, 0, now + WINDOW - 1) <= limit
  {
    LateWindowFrom(clients, requests, ip, now, now + WINDOW - 1, limit);
  }

  lemma {:induction false} LateWindowFrom(clients: Clients, requests: seq<Request>, ip: string, now: nat, hi: nat, limit: nat)
    requires limit > 0 && Ordered(requests, now) && ip !in clients && hi < now + WINDOW
    ensures AdmittedBetween(clients, requests, limit, ip, 0, hi) <= limit
    decreases |requests|
  {
    if requests != [] {
      var r := requests[0];
      var next := Activate(clients, r.ip, r.now, limit);
      OrderedTail(requests, now);
      if ip !in next.0 {
        LateWindowFrom(next.0, requests[1..], ip, r.now, hi, limit);
      } else {
        WindowRemainder(next.0, requests[1..], ip, r.now, limit, r.now + WINDOW);
        NarrowerInterval(next.0, requests[1..], limit, ip, hi, r.now + WINDOW - 1);
      }
    }
  }

  lemma {:induction false} NarrowerInterval(clients: Clients, requests: seq<Request>, limit: nat, ip: string, hi: nat, higher: nat)
    requires hi <= higher
    ensures AdmittedBetween(clients, requests, limit, ip, 0, hi) <= AdmittedBetween(clients, requests, limit, ip, 0, higher)
    decreases |requests|
  {
    if requests != [] {
      var r := requests[0];
      NarrowerInterval(Activate(clients, r.ip, r.now, limit).0, requests[1..], limit, ip, hi, higher);
    }
  }

  // ----- The bound is reached ------------------------------------------------------------

  function Burst(ip: string, now: nat, n: nat): seq<Request> {
    seq(n, i => Request(ip, now))
  }

  function Counted(clients: Clients, ip: string, n: nat): Clients
    requires ip in clients
  {
    clients[ip := clients[ip].(count := clients[ip].count + n)]
  }

  lemma CountedTwice(clients: Clients, ip: string, n: nat)
    requires ip in clients && n > 0
    ensures Counted(Counted(clients, ip, 1), ip, n - 1) == Counted(clients, ip, n)
    ensures Counted(clients, ip, 0) == clients
  {
  }

  lemma LiveRequest(clients: Clients, ip: string, now: nat, limit: nat)
    requires ip in clients && Purge(clients, now) == clients && clients[ip].count < limit
    ensures Activate(clients, ip, now, limit) == (Counted(clients, ip, 1), Admitted)
    ensures Purge(Counted(clients, ip, 1), now) == Counted(clients, ip, 1)
  {
    assert clients[ip].reset > now by {
      assert ip in Purge(clients, now);
    }
    assert forall k :: k in clients ==> clients[k].reset > now by {
      assert forall k :: k in clients ==> k in Purge(clients, now);
    }
  }

  /** A burst that fits the window is admitted whole. */
  lemma {:induction false} BurstAdmitted(clients: Clients, ip: string, now: nat, n: nat, rest: seq<Request>, limit: nat, lo: nat, hi: nat)
    requires ip in clients && clients[ip].count + n <= limit
    requires Purge(clients, now) == clients && lo <= now <= hi
    ensures AdmittedBetween(clients, Burst(ip, now, n) + rest, limit, ip, lo, hi) ==
            n + AdmittedBetween(Counted(clients, ip, n), rest, limit, ip, lo, hi)
    decreases n
  {
    hide Activate, Purge;
    var requests := Burst(ip, now, n) + rest;
    if n == 0 {
      assert requests == rest;
      assert Counted(clients, ip, 0) == clients;
    } else {
      assert requests[0] == Request(ip, now);
      assert requests[1..] == Burst(ip, now, n - 1) + rest;
      LiveRequest(clients, ip, now, limit);
      BurstAdmitted(Counted(clients, ip, 1), ip, now, n - 1, rest, limit, lo, hi);
      CountedTwice(clients, ip, n);
    }
  }

  /** A window that a client without one opens with a burst of a whole limit is admitted whole. */
  lemma OpeningBurst(clients: Clients, ip: string, now: nat, limit: nat, rest: seq<Request>, lo: nat, hi: nat)
    requires limit > 0 && lo <= now <= hi && ip !in Purge(clients, now) && |Purge(clients, now)| < MAX_CLIENTS
    ensures AdmittedBetween(clients, Burst(ip, now, limit) + rest, limit, ip, lo, hi) ==
            limit + AdmittedBetween(Purge(clients, now)[ip := Client(limit, now + WINDOW)], rest, limit, ip, lo, hi)
  {
    hide Activate, Purge;
    var requests := Burst(ip, now, limit) + rest;
    assert requests[0] == Request(ip, now);
    assert requests[1..] == Burst(ip, now, limit - 1) + rest;
    var started := Purge(clients, now)[ip := Client(1, now + WINDOW)];
    OpensWindow(clients, ip, now, limit);
    BurstAdmitted(started, ip, now, limit - 1, rest, limit, lo, hi);
    assert Counted(started, ip, limit - 1) == Purge(clients, now)[ip := Client(limit, now + WINDOW)];
  }

  lemma OpensWindow(clients: Clients, ip: string, now: nat, limit: nat)
    requires limit > 0 && ip !in Purge(clients, now) && |Purge(clients, now)| < MAX_CLIENTS
    ensures
      var started := Purge(clients, now)[ip := Client(1, now + WINDOW)];
      Activate(clients, ip, now, limit) == (started, Admitted) && Purge(started, now) == started
  {
  }

  /** Two bursts one window apart: twice the limit is admitted within 60 seconds, at any limit. */
  lemma TwiceTheLimitReached(ip: string, t: nat, limit: nat)
    requires limit > 0
    ensures
      var requests := Burst(ip, t, limit) + Burst(ip, t + 60_000, limit);
      && Ordered(requests, t)
      && AdmittedBetween(map[], requests, limit, ip, t, t + 60_000) == 2 * limit
  {
    hide Activate, AdmittedBetween, Ordered;
    var second := Burst(ip, t + WINDOW, limit);
    var full := map[ip := Client(limit, t + WINDOW)];
    assert Purge(map[], t) == map[] && Purge(full, t + WINDOW) == map[];
    hide Purge;
    BurstsOrdered(ip, t, t + WINDOW, limit);
    OpeningBurst(map[], ip, t, limit, second, t, t + WINDOW);
    OpeningBurst(full, ip, t + WINDOW, limit, [], t, t + WINDOW);
    NoRequests(map[ip := Client(limit, t + WINDOW + WINDOW)], limit, ip, t, t + WINDOW);
    assert second + [] == second;
  }

  lemma BurstsOrdered(ip: string, now: nat, later: nat, n: nat)
    requires now <= later
    ensures Ordered(Burst(ip, now, n) + Burst(ip, later, n), now)
  {
  }

  lemma NoRequests(clients: Clients, limit: nat, ip: string, lo: nat, hi: nat)
    ensures AdmittedBetween(clients, [], limit, ip, lo, hi) == 0
  {
  }

  // ----- When a minute keeps to the limit ------------------------------------------------

  /** A client whose window, not yet used up, ends within the minute that starts now. */
  predicate WindowEndsWithin(clients: Clients, ip: string, t: nat, limit: nat) {
    ip in clients && t < clients[ip].reset < t + WINDOW && clients[ip].count < limit
  }

  /** The most that can still be admitted to a client before t + 60 seconds, from a time in that minute. */
  function MinuteAllowance(clients: Clients, ip: string, now: nat, t: nat, limit: nat): nat {
    if now >= t + WINDOW then 0
    else if ip !in clients || clients[ip].reset <= now then limit
    else if clients[ip].reset >= t + WINDOW then Left(clients[ip], limit)
    else Left(clients[ip], limit) + limit
  }

  lemma MinuteAllowanceSpent(clients: Clients, ip: string, now: nat, r: Request, t: nat, limit: nat)
    requires limit > 0 && t <= now <= r.now
    ensures
      var next := Activate(clients, r.ip, r.now, limit);
      MinuteAllowance(next.0, ip, r.now, t, limit)
      + (if r.ip == ip && t <= r.now <= t + WINDOW - 1 && next.1 == Admitted then 1 else 0)
      <= MinuteAllowance(clients, ip, now, t, limit)
  {
  }

  lemma {:induction false} AdmittedWithinMinute(clients: Clients, requests: seq<Request>, ip: string, now: nat, t: nat, limit: nat)
    requires limit > 0 && t <= now && Ordered(requests, now)
    ensures AdmittedBetween(clients, requests, limit, ip, t, t + WINDOW - 1) <= MinuteAllowance(clients, ip, now, t, limit)
    decreases |requests|
  {
    if requests != [] {
      var r := requests[0];
      OrderedTail(requests, now);
      MinuteAllowanceSpent(clients, ip, now, r, t, limit);
      hide Activate, MinuteAllowance;
      AdmittedWithinMinute(Activate(clients, r.ip, r.now, limit).0, requests[1..], ip, r.now, t, limit);
    }
  }

  /** Purging first changes nothing for requests made now. */
  lemma PurgeFirst(clients: Clients, requests: seq<Request>, limit: nat, ip: string, now: nat, lo: nat, hi: nat)
    requires requests != [] && requests[0].now == now
    ensures AdmittedBetween(clients, requests, limit, ip, lo, hi) ==
            AdmittedBetween(Purge(clients, now), requests, limit, ip, lo, hi)
  {
    assert Purge(Purge(clients, now), now) == Purge(clients, now);
  }

  /** What is left of a window at t, then a whole new window when it resets. */
  function LateBurst(clients: Clients, ip: string, t: nat, limit: nat): seq<Request>
    requires WindowEndsWithin(clients, ip, t, limit)
  {
    Burst(ip, t, limit - clients[ip].count) + Burst(ip, clients[ip].reset, limit)
  }

  /** A client's own reset frees its place. */
  lemma RoomAtReset(clients: Clients, ip: string)
    requires ip in clients
    ensures ip !in Purge(clients, clients[ip].reset) && |Purge(clients, clients[ip].reset)| < |clients|
  {
    var later := Purge(clients, clients[ip].reset);
    assert later.Keys <= clients.Keys - {ip};
    SmallerKeys(later, clients - {ip});
    assert (clients - {ip}).Keys == clients.Keys - {ip};
    assert |clients.Keys - {ip}| == |clients.Keys| - 1;
  }

  lemma SameSize(clients: Clients, ip: string, n: nat)
    requires ip in clients
    ensures |Counted(clients, ip, n)| == |clients| && Counted(clients, ip, n)[ip].reset == clients[ip].reset
  {
    assert Counted(clients, ip, n).Keys == clients.Keys;
  }

  /** Such a client can be admitted more than the limit before the minute is over. */
  lemma LateBurstAdmitted(clients: Clients, ip: string, t: nat, limit: nat)
    requires limit > 0 && |clients| <= MAX_CLIENTS && WindowEndsWithin(clients, ip, t, limit)
    ensures Ordered(LateBurst(clients, ip, t, limit), t)
    ensures AdmittedBetween(clients, LateBurst(clients, ip, t, limit), limit, ip, t, t + WINDOW - 1) ==
            limit - clients[ip].count + limit
  {
    var client := clients[ip];
    var n, hi := limit - client.count, t + WINDOW - 1;
    var second := Burst(ip, client.reset, limit);
    var live := Purge(clients, t);
    PurgeFirst(clients, LateBurst(clients, ip, t, limit), limit, ip, t, t, hi);
    assert Purge(live, t) == live;
    assert ip in live && live[ip] == client;
    SmallerKeys(live, clients);
    var full := Counted(live, ip, n);
    SameSize(live, ip, n);
    RoomAtReset(full, ip);
    hide Purge, Activate;
    BurstAdmitted(live, ip, t, n, second, limit, t, hi);
    OpeningBurst(full, ip, client.reset, limit, [], t, hi);
    assert second + [] == second;
  }

  /**
   When a minute keeps to the limit.  Whatever requests follow, the 60 seconds from t admit at most
   the limit of a client exactly when the guard, at t, does not hold an unused rest of a window of
   that client that ends before they do.
   */
  lemma MinuteKeepsToLimit(clients: Clients, ip: string, t: nat, limit: nat)
    requires limit > 0 && |clients| <= MAX_CLIENTS
    ensures (forall requests :: Ordered(requests, t) ==>
               AdmittedBetween(clients, requests, limit, ip, t, t + 59_999) <= limit) <==>
            !WindowEndsWithin(clients, ip, t, limit)
  {
    if WindowEndsWithin(clients, ip, t, limit) {
      LateBurstAdmitted(clients, ip, t, limit);
    } else {
      forall requests | Ordered(requests, t)
        ensures AdmittedBetween(clients, requests, limit, ip, t, t + WINDOW - 1) <= limit
      {
        AdmittedWithinMinute(clients, requests, ip, t, t, limit);
      }
    }
  }
}
