/** The per-token rate limiter of webhooks, and how many requests it lets through. */
module RateLimiter {

  const MINUTE: int := 60000000000

  datatype Window = Window(count: int, reset: int)

  type Windows = map<string, Window>

  /** Whether the request is admitted: always when no window is open. */
  predicate Admits(limit: int, ws: Windows, token: string, now: int) {
    token in ws && now <= ws[token].reset ==> ws[token].count < limit
  }

  function Counted(limit: int, ws: Windows, token: string, now: int): Windows {
    if token !in ws || now > ws[token].reset then ws[token := Window(1, now + MINUTE)]
    else if ws[token].count >= limit then ws
    else ws[token := ws[token].(count := ws[token].count + 1)]
  }

  class TokenRateLimiter {
    const limit: int
    var windows: Windows

    constructor (limit: int)
      ensures this.limit == limit && windows == map[]
    {
      this.limit, windows := limit, map[];
    }

    method Allow(token: string, now: int) returns (ok: bool)
      modifies this
      ensures ok == Admits(limit, old(windows), token, now)
      ensures windows == Counted(limit, old(windows), token, now)
    {
      if token !in windows || now > windows[token].reset {
        windows := windows[token := Window(1, now + MINUTE)];
        return true;
      }
      var w := windows[token];
      if w.count >= limit { return false; }
      w := w.(count := w.count + 1);
      windows := windows[token := w];
      ok := true;
    }
  }

  /** A request of a token at a time. */
  datatype Arrival = Arrival(token: string, at: int)

  predicate Monotone(arrivals: seq<Arrival>) {
    forall i, j | 0 <= i < j < |arrivals| :: arrivals[i].at <= arrivals[j].at
  }

  /** How many requests of the token are admitted from time a to one minute later, both
      included. */
  function Admitted(limit: int, ws: Windows, arrivals: seq<Arrival>, token: string, a: int): nat
    decreases |arrivals|
  {
    if arrivals == [] then 0
    else
      var x := arrivals[0];
      (if x.token == token && a <= x.at <= a + MINUTE && Admits(limit, ws, token, x.at) then 1 else 0)
      + Admitted(limit, Counted(limit, ws, x.token, x.at), arrivals[1..], token, a)
  }

  /** Even a limit of zero lets a request open a window. */
  function AtLeastOne(limit: int): nat { if limit < 1 then 1 else limit }

  predicate Opened(ws: Windows) { forall t | t in ws :: ws[t].count >= 1 }

  function Left(limit: int, w: Window): nat { if w.count < AtLeastOne(limit) then AtLeastOne(limit) - w.count else 0 }

  /** What can still be admitted from time a on: the rest of the open window, and one more
      window unless the open one reaches past the minute. */
  function Bound(limit: int, ws: Windows, token: string, a: int): nat {
    if token !in ws then AtLeastOne(limit)
    else if ws[token].reset >= a + MINUTE then Left(limit, ws[token])
    else Left(limit, ws[token]) + AtLeastOne(limit)
  }

  lemma {:induction false} NoneAfter(limit: int, ws: Windows, arrivals: seq<Arrival>, token: string, a: int)
    requires Monotone(arrivals) && (arrivals != [] ==> arrivals[0].at > a + MINUTE)
    ensures Admitted(limit, ws, arrivals, token, a) == 0
    decreases |arrivals|
  {
    if |arrivals| > 1 {
      NoneAfter(limit, Counted(limit, ws, arrivals[0].token, arrivals[0].at), arrivals[1..], token, a);
    }
  }

  lemma {:induction false} FromHere(limit: int, ws: Windows, arrivals: seq<Arrival>, token: string, a: int)
    requires Monotone(arrivals) && (arrivals != [] ==> arrivals[0].at >= a) && Opened(ws)
    ensures Admitted(limit, ws, arrivals, token, a) <= Bound(limit, ws, token, a)
    decreases |arrivals|
  {
    if arrivals != [] {
      var x := arrivals[0];
      if x.at > a + MINUTE { NoneAfter(limit, ws, arrivals, token, a); }
      else { FromHere(limit, Counted(limit, ws, x.token, x.at), arrivals[1..], token, a); }
    }
  }

  /** For every sequence of arrivals over any tokens, with a monotone clock: in no minute,
      wherever it begins, are more than twice the limit less one requests of a token
      admitted. */
  lemma {:induction false} MinuteBound(limit: int, ws: Windows, arrivals: seq<Arrival>, token: string, a: int)
    requires Monotone(arrivals) && Opened(ws)
    ensures Admitted(limit, ws, arrivals, token, a) <= 2 * AtLeastOne(limit) - 1
    decreases |arrivals|
  {
    if arrivals != [] && arrivals[0].at < a {
      MinuteBound(limit, Counted(limit, ws, arrivals[0].token, arrivals[0].at), arrivals[1..], token, a);
    } else { FromHere(limit, ws, arrivals, token, a); }
  }

  /** A window admits at most the limit: a request that opens one at time `at` and all that
      follow in that minute. */
  lemma WindowBound(limit: int, ws: Windows, arrivals: seq<Arrival>)
    requires Monotone(arrivals) && Opened(ws) && arrivals != []
    requires var x := arrivals[0]; x.token !in ws || x.at > ws[x.token].reset
    ensures Admitted(limit, ws, arrivals, arrivals[0].token, arrivals[0].at) <= AtLeastOne(limit)
  {
    var x := arrivals[0];
    FromHere(limit, Counted(limit, ws, x.token, x.at), arrivals[1..], x.token, x.at);
  }

  function Repeated(token: string, at: int, n: nat): seq<Arrival> { seq(n, _ => Arrival(token, at)) }

  /** Requests at one time are admitted until the window is full. */
  lemma {:induction false} FillsWindow(limit: int, ws: Windows, token: string, at: int, n: nat, rest: seq<Arrival>,
                                       a: int)
    requires token in ws && at <= ws[token].reset && ws[token].count + n <= limit && a <= at <= a + MINUTE
    ensures Admitted(limit, ws, Repeated(token, at, n) + rest, token, a)
      == n + Admitted(limit, ws[token := ws[token].(count := ws[token].count + n)], rest, token, a)
    decreases n
  {
    var all := Repeated(token, at, n) + rest;
    if n == 0 {
      assert all == rest && ws[token := ws[token]] == ws;
    } else {
      var ws' := ws[token := ws[token].(count := ws[token].count + 1)];
      assert all[1..] == Repeated(token, at, n - 1) + rest && all[0] == Arrival(token, at);
      FillsWindow(limit, ws', token, at, n - 1, rest, a);
      assert ws'[token := ws'[token].(count := ws'[token].count + (n - 1))]
        == ws[token := ws[token].(count := ws[token].count + n)];
    }
  }

  /** One request to open a window, then the rest of that window in its last instant and a
      whole window in the next. */
  function Burst(limit: nat): seq<Arrival>
    requires limit > 0
  {
    [Arrival("t", 0)]
      + (Repeated("t", MINUTE, limit - 1) + ([Arrival("t", MINUTE + 1)] + Repeated("t", MINUTE + 1, limit - 1)))
  }

  /** The bound is met. */
  lemma BoundIsMet(limit: nat)
    requires limit > 0
    ensures Monotone(Burst(limit)) && Admitted(limit, map[], Burst(limit), "t", 1) == 2 * limit - 1
  {
    BurstIsMonotone(limit);
    var second := Repeated("t", MINUTE + 1, limit - 1);
    var last := [Arrival("t", MINUTE + 1)] + second;
    var tail := Repeated("t", MINUTE, limit - 1) + last;
    var w0 := map["t" := Window(1, MINUTE)];
    assert Burst(limit)[1..] == tail;
    assert Counted(limit, map[], "t", 0) == w0;
    FillsWindow(limit, w0, "t", MINUTE, limit - 1, last, 1);
    var w1 := w0["t" := w0["t"].(count := 1 + (limit - 1))];
    var w2 := w1["t" := Window(1, MINUTE + 1 + MINUTE)];
    assert last[1..] == second && second + [] == second;
    assert Counted(limit, w1, "t", MINUTE + 1) == w2;
    FillsWindow(limit, w2, "t", MINUTE + 1, limit - 1, [], 1);
  }

  lemma BurstIsMonotone(limit: nat)
    requires limit > 0
    ensures Monotone(Burst(limit))
  {
    forall i | 0 <= i < |Burst(limit)|
      ensures Burst(limit)[i].at == if i == 0 then 0 else if i < limit then MINUTE else MINUTE + 1
    {
    }
  }
}
