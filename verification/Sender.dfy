/** Delivery from the collector's side: one batch with retries and backoff, and the loop that drains the queue. */
module Sender {
  import opened Readings
  import opened Ingest

  datatype Verdict = OK | TRANSIENT | PERMANENT

  // What a POST yields: a status, or a requests.RequestException.
  datatype Response = Status(code: int) | ConnectionError

  function Classify(r: Response): (v: Verdict)
    ensures v == OK <==> r.Status? && r.code < 300
    ensures v == PERMANENT <==> r.Status? && 400 <= r.code < 500 && r.code != 408 && r.code != 429
  {
    if r.ConnectionError? then TRANSIENT
    else if r.code < 300 then OK
    else if 400 <= r.code < 500 && r.code !in {408, 429} then PERMANENT
    else TRANSIENT
  }

  // A POST on its way through the server, with the statements of its batch that have committed so far.
  datatype Posted = Posted(batch: Batch, committed: nat)

  // How an attempt ends for the client: with the server's reply, or with what became of it on the way.
  datatype Ending = Answered | Astray(seen: Response)

  // The weather of one attempt: which requests, by their place in the order of sending, commit a statement while it
  // lasts, and how it ends. A request that went astray stays with the server and may go on during later attempts.
  datatype Weather = Weather(commits: seq<nat>, ending: Ending)

  // The table behind the network, the requests sent and the weather ahead; after it the sky is clear.
  datatype Net = Net(table: Table, requests: seq<Posted>, weather: seq<Weather>)

  /** What the server says to a request that reaches it and comes back. */
  function ServerSays(g: Gate, b: Batch): Response {
    Status(if Accepts(g, b) then STATUS_OK else Refusal(g, b))
  }

  /** What the client sees on its k-th attempt from now. */
  function Seen(g: Gate, net: Net, b: Batch, k: nat): Response {
    if k < |net.weather| && net.weather[k].ending.Astray? then net.weather[k].ending.seen else ServerSays(g, b)
  }

  /** Request i commits its next statement, if it has one. */
  function CommitNext(g: Gate, net: Net, i: nat): (after: Net)
    ensures |after.requests| == |net.requests| && after.weather == net.weather
    ensures forall k :: 0 <= k < |net.requests| ==> after.requests[k].batch == net.requests[k].batch
  {
    if i >= |net.requests| || !Accepts(g, net.requests[i].batch) then net
    else
      var r := net.requests[i];
      net.(table := Insert(net.table, Chunk(g, r.batch, r.committed)),
           requests := net.requests[i := r.(committed := r.committed + 1)])
  }

  function CommitAll(g: Gate, net: Net, commits: seq<nat>): (after: Net)
    ensures |after.requests| == |net.requests| && after.weather == net.weather
    ensures forall k :: 0 <= k < |net.requests| ==> after.requests[k].batch == net.requests[k].batch
  {
    if commits == [] then net
    else CommitNext(g, CommitAll(g, net, commits[..|commits| - 1]), commits[|commits| - 1])
  }

  /** Everything that request i has not committed yet does. */
  function Complete(g: Gate, net: Net, i: nat): Net
    requires i < |net.requests|
  {
    var r := net.requests[i];
    if !Accepts(g, r.batch) then net
    else
      net.(table := Insert(net.table, RowsOf(g, r.batch)[ChunkEnd(|r.batch|, r.committed)..]),
           requests := net.requests[i := r.(committed := ChunkCount(|r.batch|))])
  }

  /** A batch of which the first m rows were written, if the server takes it at all. */
  function Partial(g: Gate, t: Table, b: Batch, m: nat): Table
    requires m <= |b|
  {
    if Accepts(g, b) then Insert(t, RowsOf(g, b)[..m]) else t
  }

  function Attempt(g: Gate, net: Net, b: Batch): Net {
    var sent := net.(requests := net.requests + [Posted(b, 0)]);
    if net.weather == [] then Complete(g, sent, |net.requests|)
    else
      var after := CommitAll(g, sent.(weather := net.weather[1..]), net.weather[0].commits);
      if net.weather[0].ending.Answered? then Complete(g, after, |net.requests|) else after
  }

  datatype Settings = Settings(maxAttempts: int, backoffBase: real, backoffCap: real)

  datatype Outcome = Outcome(verdict: Verdict, net: Net, waits: seq<real>)

  function Doubled(delay: real, cap: real): real {
    if delay * 2.0 < cap then delay * 2.0 else cap
  }

  /** post_batch from a given attempt on; stops(k) says that shutdown interrupts the wait after attempt k. */
  function Post(g: Gate, s: Settings, net: Net, b: Batch, attempt: nat, delay: real, stops: nat -> bool): Outcome
    decreases s.maxAttempts - attempt
  {
    if attempt > s.maxAttempts then Outcome(TRANSIENT, net, [])
    else
      var verdict := Classify(Seen(g, net, b, 0));
      var after := Attempt(g, net, b);
      if verdict != TRANSIENT then Outcome(verdict, after, [])
      else if attempt == s.maxAttempts then Outcome(TRANSIENT, after, [])
      else if stops(attempt) then Outcome(TRANSIENT, after, [delay])
      else
        var rest := Post(g, s, after, b, attempt + 1, Doubled(delay, s.backoffCap), stops);
        rest.(waits := [delay] + rest.waits)
  }

  class Link {
    const gate: Gate
    var table: Table
    var requests: seq<Posted>
    var weather: seq<Weather>

    function Snapshot(): Net
      reads this
    {
      Net(table, requests, weather)
    }

    constructor (gate: Gate, net: Net)
      ensures this.gate == gate && Snapshot() == net
    {
      this.gate, table, requests, weather := gate, net.table, net.requests, net.weather;
    }

    method RunStatement(i: nat)
      modifies this`table, this`requests
      ensures Snapshot() == CommitNext(gate, old(Snapshot()), i)
    {
      if i < |requests| && Accepts(gate, requests[i].batch) {
        var r := requests[i];
        table := Insert(table, Chunk(gate, r.batch, r.committed));
        requests := requests[i := r.(committed := r.committed + 1)];
      }
    }

    /** One POST: the weather decides which statements commit meanwhile, its own or late ones, and what comes back. */
    method Send(b: Batch) returns (r: Response)
      modifies this
      ensures r == Seen(gate, old(Snapshot()), b, 0)
      ensures Snapshot() == Attempt(gate, old(Snapshot()), b)
    {
      var own := |requests|;
      requests := requests + [Posted(b, 0)];
      r := ServerSays(gate, b);
      if weather != [] {
        var now := weather[0];
        weather := weather[1..];
        ghost var sent := Snapshot();
        for i := 0 to |now.commits|
          invariant Snapshot() == CommitAll(gate, sent, now.commits[..i])
        {
          assert now.commits[..i + 1][..i] == now.commits[..i];
          RunStatement(now.commits[i]);
        }
        assert now.commits[..|now.commits|] == now.commits;
        if now.ending.Astray? {
          return now.ending.seen;
        }
      }
      var last := requests[own];
      if Accepts(gate, last.batch) {
        table := Insert(table, RowsOf(gate, last.batch)[ChunkEnd(|last.batch|, last.committed)..]);
        requests := requests[own := last.(committed := ChunkCount(|last.batch|))];
      }
    }
  }

  method PostBatch(link: Link, s: Settings, b: Batch, stops: nat -> bool) returns (verdict: Verdict, waits: seq<real>)
    modifies link
    ensures Outcome(verdict, link.Snapshot(), waits) ==
            Post(link.gate, s, old(link.Snapshot()), b, 1, s.backoffBase, stops)
  {
    ghost var whole := Post(link.gate, s, link.Snapshot(), b, 1, s.backoffBase, stops);
    var delay := s.backoffBase;
    var attempt: nat := 1;
    waits := [];
    while attempt <= s.maxAttempts
      invariant var rest := Post(link.gate, s, link.Snapshot(), b, attempt, delay, stops);
                whole == rest.(waits := waits + rest.waits)
    {
      var r := link.Send(b);
      if Classify(r) != TRANSIENT {
        return Classify(r), waits;
      }
      if attempt < s.maxAttempts {
        waits := waits + [delay];
        if stops(attempt) {
          return TRANSIENT, waits;
        }
        delay := Doubled(delay, s.backoffCap);
      }
      attempt := attempt + 1;
    }
    return TRANSIENT, waits;
  }

  // ---- what one post_batch does

  /** base * 2^k. */
  function Doublings(base: real, k: nat): real {
    if k == 0 then base else 2.0 * Doublings(base, k - 1)
  }

  /** The wait that k rounds of doubling under the cap make of one. */
  function Delay(first: real, cap: real, k: nat): real {
    if k == 0 then first else Doubled(Delay(first, cap, k - 1), cap)
  }

  lemma {:induction false} DelayShift(first: real, cap: real, k: nat)
    ensures Delay(Doubled(first, cap), cap, k) == Delay(first, cap, k + 1)
  {
    if k > 0 {
      DelayShift(first, cap, k - 1);
    }
  }

  lemma {:induction false} DelayClosed(first: real, cap: real, k: nat)
    requires first <= cap && cap >= 0.0
    ensures Delay(first, cap, k) == if Doublings(first, k) < cap then Doublings(first, k) else cap
  {
    if k > 0 {
      DelayClosed(first, cap, k - 1);
    }
  }

  lemma {:induction false} WaitCount(g: Gate, s: Settings, net: Net, b: Batch, attempt: nat, delay: real,
                                     stops: nat -> bool)
    requires attempt <= s.maxAttempts
    ensures |Post(g, s, net, b, attempt, delay, stops).waits| <= s.maxAttempts - attempt
    decreases s.maxAttempts - attempt
  {
    if attempt < s.maxAttempts {
      WaitCount(g, s, Attempt(g, net, b), b, attempt + 1, Doubled(delay, s.backoffCap), stops);
    }
  }

  lemma {:induction false} WaitAt(g: Gate, s: Settings, net: Net, b: Batch, attempt: nat, delay: real,
                                  stops: nat -> bool, k: nat)
    requires k < |Post(g, s, net, b, attempt, delay, stops).waits|
    ensures Post(g, s, net, b, attempt, delay, stops).waits[k] == Delay(delay, s.backoffCap, k)
    decreases k
  {
    if k > 0 {
      var next := Doubled(delay, s.backoffCap);
      var rest := Post(g, s, Attempt(g, net, b), b, attempt + 1, next, stops);
      assert Post(g, s, net, b, attempt, delay, stops).waits == [delay] + rest.waits;
      WaitAt(g, s, Attempt(g, net, b), b, attempt + 1, next, stops, k - 1);
      DelayShift(delay, s.backoffCap, k - 1);
    }
  }

  function Sum(xs: seq<real>): real {
    if xs == [] then 0.0 else Sum(xs[..|xs| - 1]) + xs[|xs| - 1]
  }

  lemma {:induction false} SumAtMost(xs: seq<real>, n: int, bound: real)
    requires bound >= 0.0 && |xs| <= n && forall k :: 0 <= k < |xs| ==> xs[k] <= bound
    ensures Sum(xs) <= n as real * bound
  {
    if xs != [] {
      SumAtMost(xs[..|xs| - 1], n - 1, bound);
      assert n as real * bound == (n - 1) as real * bound + bound;
    }
  }

  /** Backoff: fewer waits than attempts, and the k-th one is base * 2^k, cut at the cap. */
  lemma Backoff(g: Gate, s: Settings, net: Net, b: Batch, stops: nat -> bool, k: nat)
    requires s.backoffBase <= s.backoffCap && s.backoffCap >= 0.0
    requires k < |Post(g, s, net, b, 1, s.backoffBase, stops).waits|
    ensures var waits := Post(g, s, net, b, 1, s.backoffBase, stops).waits;
            && |waits| <= s.maxAttempts - 1
            && waits[k] ==
               if Doublings(s.backoffBase, k) < s.backoffCap then Doublings(s.backoffBase, k) else s.backoffCap
  {
    WaitCount(g, s, net, b, 1, s.backoffBase, stops);
    WaitAt(g, s, net, b, 1, s.backoffBase, stops, k);
    DelayClosed(s.backoffBase, s.backoffCap, k);
  }

  lemma WaitsCapped(g: Gate, s: Settings, net: Net, b: Batch, stops: nat -> bool)
    requires s.backoffBase <= s.backoffCap && s.backoffCap >= 0.0 && s.maxAttempts >= 1
    ensures var waits := Post(g, s, net, b, 1, s.backoffBase, stops).waits;
            |waits| <= s.maxAttempts - 1 && forall k :: 0 <= k < |waits| ==> waits[k] <= s.backoffCap
  {
    var waits := Post(g, s, net, b, 1, s.backoffBase, stops).waits;
    WaitCount(g, s, net, b, 1, s.backoffBase, stops);
    forall k | 0 <= k < |waits| ensures waits[k] <= s.backoffCap {
      Backoff(g, s, net, b, stops, k);
    }
  }

  /** So a batch waits at most (attempts - 1) * cap in all. */
  lemma BackoffTotal(g: Gate, s: Settings, net: Net, b: Batch, stops: nat -> bool)
    requires s.backoffBase <= s.backoffCap && s.backoffCap >= 0.0 && s.maxAttempts >= 1
    ensures Sum(Post(g, s, net, b, 1, s.backoffBase, stops).waits) <= (s.maxAttempts - 1) as real * s.backoffCap
  {
    var waits := Post(g, s, net, b, 1, s.backoffBase, stops).waits;
    assert |waits| <= s.maxAttempts - 1 && forall k :: 0 <= k < |waits| ==> waits[k] <= s.backoffCap by {
      WaitsCapped(g, s, net, b, stops);
    }
    SumAtMost(waits, s.maxAttempts - 1, s.backoffCap);
  }

  /** Attempt k (from 0) is made: every earlier one was transient and no shutdown came in between. */
  ghost predicate Reached(g: Gate, s: Settings, net: Net, b: Batch, first: nat, stops: nat -> bool, k: nat) {
    && first + k <= s.maxAttempts
    && forall j :: 0 <= j < k ==> Classify(Seen(g, net, b, j)) == TRANSIENT && !stops(first + j)
  }

  lemma ReachedNext(g: Gate, s: Settings, net: Net, b: Batch, first: nat, stops: nat -> bool, k: nat)
    requires Reached(g, s, Attempt(g, net, b), b, first + 1, stops, k)
    requires Classify(Seen(g, net, b, 0)) == TRANSIENT && !stops(first)
    ensures Reached(g, s, net, b, first, stops, k + 1)
    ensures Seen(g, net, b, k + 1) == Seen(g, Attempt(g, net, b), b, k)
  {
    forall j | 0 <= j < k + 1 ensures Classify(Seen(g, net, b, j)) == TRANSIENT && !stops(first + j) {
      if j > 0 {
        assert Seen(g, net, b, j) == Seen(g, Attempt(g, net, b), b, j - 1);
        assert !stops(first + 1 + (j - 1));
      }
    }
  }

  /** How a post_batch ends: the last attempt made, and why it was the last. */
  lemma {:induction false} PostEnds(g: Gate, s: Settings, net: Net, b: Batch, first: nat, delay: real,
                                    stops: nat -> bool)
    returns (k: nat)
    requires first <= s.maxAttempts
    ensures Reached(g, s, net, b, first, stops, k)
    ensures Classify(Seen(g, net, b, k)) == Post(g, s, net, b, first, delay, stops).verdict
    ensures Classify(Seen(g, net, b, k)) == TRANSIENT ==> first + k == s.maxAttempts || stops(first + k)
    decreases s.maxAttempts - first
  {
    if Classify(Seen(g, net, b, 0)) != TRANSIENT || first == s.maxAttempts || stops(first) {
      k := 0;
    } else {
      var m := PostEnds(g, s, Attempt(g, net, b), b, first + 1, Doubled(delay, s.backoffCap), stops);
      ReachedNext(g, s, net, b, first, stops, m);
      k := m + 1;
    }
  }

  /** OK (or PERMANENT) comes back exactly when some attempt is reached and gets it. */
  lemma VerdictIff(g: Gate, s: Settings, net: Net, b: Batch, stops: nat -> bool, v: Verdict)
    requires v != TRANSIENT
    ensures Post(g, s, net, b, 1, s.backoffBase, stops).verdict == v
       <==> exists k: nat :: Reached(g, s, net, b, 1, stops, k) && Classify(Seen(g, net, b, k)) == v
  {
    if s.maxAttempts >= 1 {
      var last := PostEnds(g, s, net, b, 1, s.backoffBase, stops);
      forall k: nat | Reached(g, s, net, b, 1, stops, k) && Classify(Seen(g, net, b, k)) == v ensures k == last {
      }
    }
  }
}
