/** RequestBudget: a hard request cap and a minimum interval between requests. */
module RateLimit {
  import opened Common
  import opened RealRows

  /** A monotone clock whose sleep lasts at least as long as asked; drift is the adversary's. */
  class Clock {
    const drift: nat -> real
    var ticks: nat
    var now: real

    constructor (drift: nat -> real)
      ensures now == 0.0
    {
      this.drift := drift;
      ticks, now := 0, 0.0;
    }

    method Read() returns (t: real)
      modifies this
      ensures t == now >= old(now)
    {
      now := now + Pos(drift(ticks));
      ticks := ticks + 1;
      t := now;
    }

    method Sleep(d: real)
      requires d >= 0.0
      modifies this
      ensures now >= old(now) + d
    {
      now := now + d + Pos(drift(ticks));
      ticks := ticks + 1;
    }
  }

  /** Consecutive entries at least gap apart. */
  ghost predicate Spaced(times: seq<real>, gap: real) {
    forall i :: 0 < i < |times| ==> times[i] - times[i - 1] >= gap
  }

  /** The share of a minute that each request may take. */
  function Interval(rpm: nat): (gap: real)
    requires rpm > 0
    ensures gap * rpm as real == 60.0
  {
    60.0 / rpm as real
  }

  class RequestBudget {
    const rpm: nat
    const maxRequests: nat
    const clock: Clock
    var used: nat
    var last: Option<real>
    ghost var times: seq<real>

    ghost predicate Valid()
      reads this, clock
    {
      && rpm > 0 && used == |times| && used <= maxRequests
      && last == (if times == [] then None else Some(times[|times| - 1]))
      && (last.Some? ==> last.value <= clock.now)
      && Spaced(times, Interval(rpm))
    }

    constructor (rpm: nat, maxRequests: nat, clock: Clock)
      requires rpm > 0
      ensures Valid() && this.rpm == rpm && this.maxRequests == maxRequests && this.clock == clock
      ensures used == 0 && times == []
    {
      this.rpm, this.maxRequests, this.clock := rpm, maxRequests, clock;
      used, last, times := 0, None, [];
    }

    /** before_request: refused exactly when the cap is reached, else one token, spaced from the last. */
    method BeforeRequest() returns (ok: bool)
      requires Valid()
      modifies this, clock
      ensures Valid()
      ensures ok <==> old(used) < maxRequests
      ensures ok ==> used == old(used) + 1 && |times| == |old(times)| + 1 && times[..|old(times)|] == old(times)
      ensures ok ==> old(clock.now) <= times[|times| - 1] <= clock.now
      ensures !ok ==> used == old(used) && times == old(times) && clock.now == old(clock.now)
    {
      hide Interval;
      if used >= maxRequests {
        return false;
      }
      var now := clock.Read();
      if last.Some? {
        var remaining := Interval(rpm) - (now - last.value);
        if remaining > 0.0 {
          clock.Sleep(remaining);
          now := clock.Read();
        }
      }
      used := used + 1;
      last := Some(now);
      times := times + [now];
      ok := true;
    }
  }

  lemma {:induction false} RequestsApart(times: seq<real>, gap: real, i: nat, j: nat)
    requires Spaced(times, gap) && i <= j < |times|
    ensures times[j] - times[i] >= (j - i) as real * gap
    decreases j - i
  {
    if i < j {
      RequestsApart(times, gap, i, j - 1);
      MulDistributes((j - 1 - i) as real, 1.0, gap);
    }
  }

  predicate InMinute(t: real, from: real) {
    from <= t < from + 60.0
  }

  /** Two requests in one half-open minute are fewer than requests_per_minute positions apart. */
  lemma MinuteSpan(times: seq<real>, rpm: nat, from: real, i: nat, j: nat)
    requires rpm > 0 && Spaced(times, Interval(rpm)) && i <= j < |times|
    requires InMinute(times[i], from) && InMinute(times[j], from)
    ensures j - i < rpm
  {
    RequestsApart(times, Interval(rpm), i, j);
    Quotient(60.0, rpm as real);
    if j - i >= rpm {
      MulDistributes((j - i) as real, rpm as real, Interval(rpm));
      MulNonneg((j - i) as real - rpm as real, Interval(rpm));
    }
  }

  /** How many of the first n requests fall in the half-open minute starting at from. */
  function CountInMinute(times: seq<real>, from: real, n: nat): nat
    requires n <= |times|
  {
    if n == 0 then 0 else CountInMinute(times, from, n - 1) + (if InMinute(times[n - 1], from) then 1 else 0)
  }

  lemma {:induction false} CountFrom(times: seq<real>, rpm: nat, from: real, n: nat) returns (first: nat)
    requires rpm > 0 && Spaced(times, Interval(rpm)) && n <= |times|
    ensures first <= n && CountInMinute(times, from, n) <= n - first
    ensures first < n ==> InMinute(times[first], from)
    ensures CountInMinute(times, from, n) <= rpm
  {
    hide InMinute, Interval, Spaced;
    if n == 0 {
      first := 0;
    } else {
      first := CountFrom(times, rpm, from, n - 1);
      if InMinute(times[n - 1], from) {
        MinuteSpan(times, rpm, from, first, n - 1);
      } else if first == n - 1 {
        first := n;
      }
    }
  }

  lemma {:induction false} CountIsSize(times: seq<real>, from: real, n: nat)
    requires n <= |times|
    ensures CountInMinute(times, from, n) == |set i: nat | i < n && from <= times[i] < from + 60.0|
  {
    var all := set i: nat | i < n && from <= times[i] < from + 60.0;
    if n == 0 {
      assert all == {};
    } else {
      CountIsSize(times, from, n - 1);
      var rest := set i: nat | i < n - 1 && from <= times[i] < from + 60.0;
      assert all == if InMinute(times[n - 1], from) then rest + {n - 1} else rest;
    }
  }

  /** Over a whole run, every half-open 60-second window holds at most requests_per_minute requests. */
  lemma RateBound(times: seq<real>, rpm: nat, from: real)
    requires rpm > 0 && Spaced(times, Interval(rpm))
    ensures |set i: nat | i < |times| && from <= times[i] < from + 60.0| <= rpm
  {
    var first := CountFrom(times, rpm, from, |times|);
    CountIsSize(times, from, |times|);
  }
}

/** The wire form of one response page, and the pagination chain a provider defines. */
module TablePages {
  import opened Common

  /** A cell of a row, as its JSON text. */
  type Cell = string

  /** meta.next_cursor_id as found in the payload; Other is any value that is neither null nor a string. */
  datatype CursorField = Null | Text(id: string) | Other

  /** A JSON object: either lacking the datatable/meta shape, or a table whose parts may be malformed. */
  datatype Payload =
    | Shapeless
    | Table(columns: seq<Option<string>>, rows: seq<Option<seq<Cell>>>, next: CursorField)

  datatype Page = Page(columns: seq<string>, rows: seq<seq<Cell>>, next: Option<string>)

  function LowerChar(c: char): char {
    if 'A' <= c <= 'Z' then (c as int + 32) as char else c
  }

  function Lower(s: string): string {
    seq(|s|, i requires 0 <= i < |s| => LowerChar(s[i]))
  }

  /** Lower-casing changes the ASCII capitals alone, each by the distance of the two alphabets. */
  lemma LowerExact(s: string)
    ensures |Lower(s)| == |s|
    ensures forall i :: 0 <= i < |s| ==>
              if 'A' <= s[i] <= 'Z' then 'a' <= Lower(s)[i] <= 'z' && (Lower(s)[i] as int) - (s[i] as int) == 32 else Lower(s)[i] == s[i]
  {
  }

  predicate WellFormed(p: Payload) {
    && p.Table?
    && (forall i :: 0 <= i < |p.columns| ==> p.columns[i].Some?)
    && (forall i :: 0 <= i < |p.rows| ==> p.rows[i].Some? && |p.rows[i].value| == |p.columns|)
    && !p.next.Other? && (p.next.Text? ==> |p.next.id| <= 512)
  }

  function PageOf(p: Payload): Page
    requires WellFormed(p)
  {
    Page(
      seq(|p.columns|, i requires 0 <= i < |p.columns| => Lower(p.columns[i].value)),
      seq(|p.rows|, i requires 0 <= i < |p.rows| => p.rows[i].value),
      if p.next.Null? || p.next.id == "" then None else Some(p.next.id))
  }

  /** _parse_table_page: accepts exactly the well-formed payloads. */
  method ParseTablePage(p: Payload) returns (r: Option<Page>)
    ensures r.Some? <==> WellFormed(p)
    ensures r.Some? ==> r.value == PageOf(p)
  {
    if p.Shapeless? {
      return None;
    }
    var columns := [];
    for c := 0 to |p.columns|
      invariant |columns| == c
      invariant forall i :: 0 <= i < c ==> p.columns[i].Some? && columns[i] == Lower(p.columns[i].value)
    {
      if p.columns[c].None? {
        return None;
      }
      columns := columns + [Lower(p.columns[c].value)];
    }
    var rows := [];
    for k := 0 to |p.rows|
      invariant |rows| == k
      invariant forall i :: 0 <= i < k ==> p.rows[i] == Some(rows[i]) && |rows[i]| == |columns|
    {
      if p.rows[k].None? || |p.rows[k].value| != |columns| {
        return None;
      }
      rows := rows + [p.rows[k].value];
    }
    if p.next.Null? || p.next == Text("") {
      return Some(Page(columns, rows, None));
    }
    if p.next.Other? || |p.next.id| > 512 {
      return None;
    }
    r := Some(Page(columns, rows, Some(p.next.id)));
  }

  predicate Continues(p: Payload) {
    WellFormed(p) && PageOf(p).next.Some?
  }

  /** A provider that answers each cursor with one payload; the first page is asked for without a cursor. */
  type Provider = Option<string> -> Payload

  ghost predicate Follows(provider: Provider, pages: seq<Payload>, i: nat)
    requires i < |pages|
  {
    if i == 0 then pages[0] == provider(None)
    else Continues(pages[i - 1]) && pages[i] == provider(PageOf(pages[i - 1]).next)
  }

  /** The pages are the provider's first |pages| answers when following cursors. */
  ghost predicate IsChain(provider: Provider, pages: seq<Payload>) {
    forall i :: 0 <= i < |pages| ==> Follows(provider, pages, i)
  }

  /** Every page parses and has the columns of the first. */
  ghost predicate Uniform(pages: seq<Payload>) {
    forall i :: 0 <= i < |pages| ==>
      WellFormed(pages[i]) && WellFormed(pages[0]) && PageOf(pages[i]).columns == PageOf(pages[0]).columns
  }

  /** The provider's whole answer: a uniform chain whose last page names no cursor. */
  ghost predicate Complete(provider: Provider, pages: seq<Payload>) {
    pages != [] && IsChain(provider, pages) && Uniform(pages) && !Continues(pages[|pages| - 1])
  }

  /** Cursors determine the pages: every chain is a prefix of a complete one. */
  lemma {:induction false} ChainIsPrefix(provider: Provider, whole: seq<Payload>, pages: seq<Payload>)
    requires Complete(provider, whole) && IsChain(provider, pages)
    ensures pages <= whole
  {
    if pages != [] {
      var n := |pages| - 1;
      forall i | 0 <= i < n
        ensures Follows(provider, pages[..n], i)
      {
        assert Follows(provider, pages, i);
      }
      ChainIsPrefix(provider, whole, pages[..n]);
      assert Follows(provider, pages, n);
      assert n > 0 ==> pages[n - 1] == pages[..n][n - 1] == whole[n - 1];
      assert Follows(provider, whole, n);
    }
  }

  lemma CompleteUnique(provider: Provider, a: seq<Payload>, b: seq<Payload>)
    requires Complete(provider, a) && Complete(provider, b)
    ensures a == b
  {
    ChainIsPrefix(provider, a, b);
    ChainIsPrefix(provider, b, a);
  }

  lemma ChainExtends(provider: Provider, pages: seq<Payload>, p: Payload)
    requires IsChain(provider, pages)
    requires pages == [] ==> p == provider(None)
    requires pages != [] ==> Continues(pages[|pages| - 1]) && p == provider(PageOf(pages[|pages| - 1]).next)
    ensures IsChain(provider, pages + [p])
  {
    var longer := pages + [p];
    forall i | 0 <= i < |longer|
      ensures Follows(provider, longer, i)
    {
      if i < |pages| {
        assert Follows(provider, pages, i);
      }
    }
  }

  function RowsOf(p: Payload): seq<seq<Cell>> {
    if WellFormed(p) then PageOf(p).rows else []
  }

  function AllRows(pages: seq<Payload>): seq<seq<Cell>> {
    if pages == [] then [] else AllRows(pages[..|pages| - 1]) + RowsOf(pages[|pages| - 1])
  }
}

/** NasdaqDataLinkClient's page loop: bounded retries, a request budget, and resumption from staged pages. */
module PagedFetch {
  import opened Common
  import opened RealRows
  import opened RateLimit
  import opened TablePages

  /** A 200 body: unreadable, rejected (not an object, or echoing the credential), or an object. */
  datatype Body = Malformed | Rejected | Object(payload: Payload)

  /** NoReply covers a transport failure and the death of the process while it waits. */
  datatype Response = NoReply | Reply(status: int, body: Body, retryAfter: Option<real>)

  datatype FetchError = Budget | Transport | Authentication | Status | BadBody | BadPage | SchemaChange | Killed

  datatype Fetched = Fetched(pages: seq<Payload>, columns: seq<string>, rows: seq<seq<Cell>>)

  /** The adversary: answers by request number and cursor. */
  type Wire = (nat, Option<string>) -> Response

  predicate Retryable(resp: Response) {
    resp.Reply? && resp.status in {429, 500, 502, 503, 504}
  }

  /** What an answer makes of the request; None when it is worth another attempt. */
  function Verdict(resp: Response): Option<Result<Payload, FetchError>> {
    if resp.NoReply? then Some(Err(Transport))
    else if resp.status == 200 then Some(if resp.body.Object? then Ok(resp.body.payload) else Err(BadBody))
    else if resp.status in {401, 403} then Some(Err(Authentication))
    else if !Retryable(resp) then Some(Err(Status))
    else None
  }

  predicate Good(resp: Response) {
    resp.Reply? && resp.status == 200 && resp.body.Object?
  }

  /** Every payload that arrives is the provider's answer to the cursor sent; failures are unrestricted. */
  ghost predicate Faithful(wire: Wire, provider: Provider) {
    forall k, c :: Good(wire(k, c)) ==> wire(k, c).body.payload == provider(c)
  }

  /** The staging directory holds exactly the pages numbered below |pages|, and they are these. */
  ghost predicate Stages(staging: map<nat, Payload>, pages: seq<Payload>) {
    && (forall k: nat :: k in staging <==> k < |pages|)
    && (forall k: nat :: k in staging ==> staging[k] == pages[k])
  }

  ghost predicate StagedPrefix(provider: Provider, staging: map<nat, Payload>) {
    exists pages :: Stages(staging, pages) && IsChain(provider, pages)
  }

  function Repeated(page: nat, n: nat): (s: seq<nat>)
    ensures |s| == n
  {
    seq(n, _ => page)
  }

  function PowerOfTwo(n: nat): (p: nat)
    ensures p >= 1
  {
    if n == 0 then 1 else 2 * PowerOfTwo(n - 1)
  }

  /** The answers from request number from to before request number to, each of a status that is retried. */
  ghost predicate AllRetried(wire: Wire, cursor: Option<string>, from: nat, to: nat) {
    forall k :: from <= k < to ==> wire(k, cursor).Reply? && wire(k, cursor).status in {429, 500, 502, 503, 504}
  }

  /**
   * What one request for a page comes to, the requests numbered from on: the first answer that is not 429 or a
   * temporary server failure decides, an object of status 200 being the result, as long as the budget and the retries last.
   */
  ghost predicate RequestOutcome(wire: Wire, cursor: Option<string>, from: nat, used: nat, maxRequests: nat,
                                 maxRetries: nat, r: Result<Payload, FetchError>) {
    && from <= used <= from + maxRetries + 1
    && (forall end: nat :: Reached(wire, cursor, from, end, maxRequests, maxRetries) && wire(end, cursor).NoReply?
          ==> r == Err(Transport) && used == end + 1)
    && (forall end: nat :: Reached(wire, cursor, from, end, maxRequests, maxRetries) && wire(end, cursor).Reply? ==>
          && (wire(end, cursor).status == 200 ==>
                r == (if wire(end, cursor).body.Object? then Ok(wire(end, cursor).body.payload) else Err(BadBody)) && used == end + 1)
          && (wire(end, cursor).status in {401, 403} ==> r == Err(Authentication) && used == end + 1)
          && (wire(end, cursor).status !in {200, 401, 403, 429, 500, 502, 503, 504} ==> r == Err(Status) && used == end + 1))
    && (from + maxRetries < maxRequests && AllRetried(wire, cursor, from, from + maxRetries + 1) ==>
          r == Err(Status) && used == from + maxRetries + 1)
    && (from <= maxRequests <= from + maxRetries && AllRetried(wire, cursor, from, maxRequests) ==>
          r == Err(Budget) && used == maxRequests)
  }

  /** Every answer before this request is retried, and neither the retries nor the budget are spent before it. */
  ghost predicate Reached(wire: Wire, cursor: Option<string>, from: nat, end: nat, maxRequests: nat, maxRetries: nat) {
    from <= end <= from + maxRetries && end < maxRequests && AllRetried(wire, cursor, from, end)
  }

  /** The last answer is the first that is not retried. */
  lemma DecidedLast(wire: Wire, cursor: Option<string>, from: nat, used: nat, maxRequests: nat, maxRetries: nat,
                    r: Result<Payload, FetchError>)
    requires from < used <= from + maxRetries + 1 && used <= maxRequests && AllRetried(wire, cursor, from, used - 1)
    requires Verdict(wire(used - 1, cursor)) == Some(r)
    ensures RequestOutcome(wire, cursor, from, used, maxRequests, maxRetries, r)
    ensures r.Ok? ==> Good(wire(used - 1, cursor)) && r.value == wire(used - 1, cursor).body.payload
    ensures r.Err? ==> r.error in {Transport, Authentication, Status, BadBody}
  {
    forall end: nat | Reached(wire, cursor, from, end, maxRequests, maxRetries)
        && !(wire(end, cursor).Reply? && wire(end, cursor).status in {429, 500, 502, 503, 504})
      ensures end == used - 1
    {
    }
  }

  /** Every answer is retried until the retries or the budget are spent. */
  lemma DecidedNever(wire: Wire, cursor: Option<string>, from: nat, used: nat, maxRequests: nat, maxRetries: nat,
                     r: Result<Payload, FetchError>)
    requires from <= used <= from + maxRetries + 1 && used <= maxRequests && AllRetried(wire, cursor, from, used)
    requires || (r == Err(Budget) && used == maxRequests && used <= from + maxRetries)
             || (r == Err(Status) && used == from + maxRetries + 1)
    ensures RequestOutcome(wire, cursor, from, used, maxRequests, maxRetries, r)
  {
    forall end: nat | Reached(wire, cursor, from, end, maxRequests, maxRetries)
      ensures wire(end, cursor).Reply? && wire(end, cursor).status in {429, 500, 502, 503, 504}
    {
    }
  }

  /** Without a request left the budget refuses. */
  lemma NothingLeft(wire: Wire, cursor: Option<string>, from: nat, used: nat, maxRetries: nat, r: Result<Payload, FetchError>)
    requires RequestOutcome(wire, cursor, from, used, from, maxRetries, r)
    ensures r == Err(Budget) && used == from
  {
    assert AllRetried(wire, cursor, from, from);
  }

  /** A first answer that is a good page is the result. */
  lemma FirstAnswer(wire: Wire, cursor: Option<string>, from: nat, used: nat, maxRequests: nat, maxRetries: nat,
                    r: Result<Payload, FetchError>)
    requires RequestOutcome(wire, cursor, from, used, maxRequests, maxRetries, r) && from < maxRequests
    requires Good(wire(from, cursor))
    ensures r == Ok(wire(from, cursor).body.payload) && used == from + 1
  {
    assert Reached(wire, cursor, from, from, maxRequests, maxRetries);
  }

  /** Consecutive requests lie apart by what the provider asked for and by the exponential backoff. */
  ghost predicate WaitedBetween(times: seq<real>, wire: Wire, cursor: Option<string>, from: nat, to: nat, backoff: real)
    requires to <= |times|
  {
    forall k :: from < k < to ==> Waited(times[k] - times[k - 1], wire(k - 1, cursor), k - 1 - from, backoff)
  }

  /** A wait of at least Retry-After, and at least the backoff doubled with every retry. */
  ghost predicate Waited(wait: real, resp: Response, retry: nat, backoff: real) {
    && wait >= backoff * PowerOfTwo(retry) as real
    && (resp.Reply? && resp.retryAfter.Some? ==> wait >= resp.retryAfter.value)
  }

  /** Over a whole request the waits add up to the backoff times the doublings. */
  lemma {:induction false} BackoffDoubles(times: seq<real>, wire: Wire, cursor: Option<string>, from: nat, end: nat, backoff: real)
    requires from < end <= |times| && WaitedBetween(times, wire, cursor, from, end, backoff)
    ensures times[end - 1] - times[from] >= backoff * (PowerOfTwo(end - 1 - from) - 1) as real
    decreases end
  {
    if end - 1 > from {
      BackoffDoubles(times, wire, cursor, from, end - 1, backoff);
      assert Waited(times[end - 1] - times[end - 2], wire(end - 2, cursor), end - 2 - from, backoff);
      var p := PowerOfTwo(end - 2 - from);
      assert (2 * p - 1) as real == (p - 1) as real + p as real;
      assert backoff * ((p - 1) as real + p as real) == backoff * (p - 1) as real + backoff * p as real;
    }
  }

  lemma NoneRetried(wire: Wire, cursor: Option<string>, from: nat)
    ensures AllRetried(wire, cursor, from, from)
  {
  }

  lemma OneMoreRetried(wire: Wire, cursor: Option<string>, from: nat, to: nat)
    requires from < to && AllRetried(wire, cursor, from, to - 1) && Verdict(wire(to - 1, cursor)).None?
    ensures AllRetried(wire, cursor, from, to)
  {
  }

  lemma Started(times: seq<real>, wire: Wire, cursor: Option<string>, from: nat, backoff: real)
    requires from <= |times|
    ensures WaitedBetween(times, wire, cursor, from, from, backoff)
  {
  }

  lemma WaitedMore(before: seq<real>, now: real, times: seq<real>, wire: Wire, cursor: Option<string>, from: nat, backoff: real)
    requires from <= |before| && |times| == |before| + 1 && times[..|before|] == before && times[|before|] >= now
    requires WaitedBetween(before, wire, cursor, from, |before|, backoff)
    requires |before| > from ==>
               Waited(now - before[|before| - 1], wire(|before| - 1, cursor), |before| - 1 - from, backoff)
    ensures WaitedBetween(times, wire, cursor, from, |times|, backoff)
  {
    assert forall k :: 0 <= k < |before| ==> times[k] == before[k];
    if |before| > from {
      WaitedLonger(now - before[|before| - 1], times[|before|] - before[|before| - 1], wire(|before| - 1, cursor),
                   |before| - 1 - from, backoff);
    }
    hide Waited;
  }

  lemma WaitedLonger(wait: real, longer: real, resp: Response, retry: nat, backoff: real)
    requires Waited(wait, resp, retry, backoff) && wait <= longer
    ensures Waited(longer, resp, retry, backoff)
  {
  }

  function MaxReal(a: real, b: real): real {
    if a >= b then a else b
  }

  class Client {
    const maxRetries: nat
    const backoff: real
    const wire: Wire
    const jitter: nat -> real
    const budget: RequestBudget
    var staging: map<nat, Payload>
    /** The page number of every request made, in order. */
    ghost var asked: seq<nat>

    ghost predicate Valid()
      reads this, budget, budget.clock
    {
      budget.Valid() && |asked| == budget.used && backoff >= 0.0
    }

    constructor (budget: RequestBudget, maxRetries: nat, backoff: real, wire: Wire, jitter: nat -> real,
                 staging: map<nat, Payload>)
      requires budget.Valid() && budget.used == 0 && backoff >= 0.0
      ensures Valid() && this.budget == budget && this.wire == wire && this.maxRetries == maxRetries
      ensures this.staging == staging && asked == []
    {
      this.budget, this.maxRetries, this.backoff, this.wire := budget, maxRetries, backoff, wire;
      this.jitter, this.staging, this.asked := jitter, staging, [];
    }

    /** _request_json: at most maxRetries + 1 attempts within the budget, spaced as the provider and the backoff ask. */
    method RequestJson(cursor: Option<string>) returns (r: Result<Payload, FetchError>)
      requires budget.Valid() && backoff >= 0.0
      modifies budget, budget.clock
      ensures budget.Valid() && old(budget.used) <= budget.used
      ensures RequestOutcome(wire, cursor, old(budget.used), budget.used, budget.maxRequests, maxRetries, r)
      ensures WaitedBetween(budget.times, wire, cursor, old(budget.used), budget.used, backoff)
      ensures r.Ok? ==>
                budget.used > old(budget.used) && Good(wire(budget.used - 1, cursor))
                && r.value == wire(budget.used - 1, cursor).body.payload
      ensures r.Err? ==> r.error in {Budget, Transport, Authentication, Status, BadBody}
      ensures r == Err(Budget) ==> budget.used == budget.maxRequests
    {
      hide PowerOfTwo, MaxReal, Pos, Waited, Spaced, RequestOutcome, AllRetried, WaitedBetween, Interval, Verdict, Good;
      ghost var used0 := budget.used;
      NoneRetried(wire, cursor, used0);
      Started(budget.times, wire, cursor, used0, backoff);
      for retry := 0 to maxRetries + 1
        invariant budget.Valid() && budget.used == used0 + retry
        invariant AllRetried(wire, cursor, used0, budget.used)
        invariant retry <= maxRetries
        invariant WaitedBetween(budget.times, wire, cursor, used0, budget.used, backoff)
        invariant retry > 0 ==> Waited(budget.clock.now - budget.times[budget.used - 1], wire(budget.used - 1, cursor), retry - 1, backoff)
      {
        ghost var before, now := budget.times, budget.clock.now;
        var granted := budget.BeforeRequest();
        if !granted {
          DecidedNever(wire, cursor, used0, budget.used, budget.maxRequests, maxRetries, Err(Budget));
          return Err(Budget);
        }
        WaitedMore(before, now, budget.times, wire, cursor, used0, backoff);
        var response := wire(budget.used - 1, cursor);
        var verdict := Verdict(response);
        if verdict.Some? {
          DecidedLast(wire, cursor, used0, budget.used, budget.maxRequests, maxRetries, verdict.value);
          return verdict.value;
        }
        OneMoreRetried(wire, cursor, used0, budget.used);
        if retry >= maxRetries {
          DecidedNever(wire, cursor, used0, budget.used, budget.maxRequests, maxRetries, Err(Status));
          return Err(Status);
        }
        ghost var paused := budget.clock.now;
        Pause(response, retry);
        WaitedLonger(budget.clock.now - paused, budget.clock.now - budget.times[budget.used - 1], response, retry, backoff);
      }
      assert false;
    }

    /** The wait between attempts: the longer of Retry-After and the jittered exponential backoff. */
    method Pause(response: Response, retry: nat)
      requires budget.Valid() && backoff >= 0.0
      modifies budget.clock
      ensures budget.Valid() && Waited(budget.clock.now - old(budget.clock.now), response, retry, backoff)
    {
      hide PowerOfTwo;
      var providerWait := if response.Reply? && response.retryAfter.Some? then response.retryAfter.value else 0.0;
      var exponential := backoff * PowerOfTwo(retry) as real;
      MulNonneg(backoff, PowerOfTwo(retry) as real);
      MulNonneg(Pos(jitter(budget.used)), exponential);
      budget.clock.Sleep(MaxReal(providerWait, exponential + Pos(jitter(budget.used)) * exponential));
    }

    /** One page: read from staging when it is there, otherwise requested and staged before it is parsed. */
    method ObtainPage(page: nat, cursor: Option<string>) returns (r: Result<Payload, FetchError>)
      requires Valid()
      modifies this, budget, budget.clock
      ensures Valid()
      ensures Requested(old(asked), asked, page, maxRetries)
      ensures budget.used == old(budget.used) + |asked| - |old(asked)|
      ensures page in old(staging) ==> r == Ok(old(staging)[page]) && asked == old(asked)
      ensures page !in old(staging) && r.Ok? ==>
                budget.used > old(budget.used) && Good(wire(budget.used - 1, cursor))
                && r.value == wire(budget.used - 1, cursor).body.payload
      ensures staging == if r.Ok? then old(staging)[page := r.value] else old(staging)
      ensures r.Err? ==> r.error !in {BadPage, SchemaChange, Killed}
      ensures r == Err(Budget) ==> budget.used == budget.maxRequests
      ensures Smooth(wire) ==> (r.Err? ==> r.error == Budget) && Growth(old(staging), staging) == |asked| - |old(asked)|
    {
      hide Good, AllRetried, WaitedBetween, Spaced, Interval;
      if page in staging {
        assert asked == asked + Repeated(page, 0);
        assert staging == staging[page := staging[page]];
        return Ok(staging[page]);
      }
      ghost var first := budget.used;
      r := RequestJson(cursor);
      asked := asked + Repeated(page, budget.used - first);
      if first == budget.maxRequests {
        NothingLeft(wire, cursor, first, budget.used, maxRetries, r);
      } else if Smooth(wire) {
        FirstAnswer(wire, cursor, first, budget.used, budget.maxRequests, maxRetries, r);
      }
      hide RequestOutcome;
      if r.Ok? {
        staging := staging[page := r.value];
      }
    }

    /** One turn of the page loop: obtain the next page, parse it and compare its columns with the first page's. */
    method TakePage(pages: seq<Payload>, columns: Option<seq<string>>, ghost rows: seq<seq<Cell>>, cursor: Option<string>,
                    ghost provider: Provider) returns (r: Result<(Payload, Page), FetchError>)
      requires Valid() && Gathered(pages, columns, rows, cursor, staging)
      modifies this, budget, budget.clock
      ensures Valid() && budget.used == old(budget.used) + |asked| - |old(asked)|
      ensures Requested(old(asked), asked, |pages|, maxRetries)
      ensures |pages| in old(staging) ==> asked == old(asked)
      ensures Extends(old(staging), staging)
      ensures r.Ok? ==> PageRead(pages, rows, r.value.0, r.value.1, staging)
      ensures r.Ok? ==> old(Budgeted(budget, staging, |pages|)) > Budgeted(budget, staging, |pages| + 1)
      ensures old(Served(wire, provider, staging)) && IsChain(provider, pages) ==>
                && Served(wire, provider, staging)
                && (r.Ok? ==> IsChain(provider, pages + [r.value.0]))
                && (r.Err? && r.error in {BadPage, SchemaChange} ==> NoAnswer(provider))
      ensures r.Err? && r.error in {BadPage, SchemaChange} ==> Poisoned(staging, |pages|)
      ensures r.Err? ==> r.error != Killed && (r.error == Budget ==> budget.used == budget.maxRequests)
      ensures Smooth(wire) ==> (r.Err? ==> Expected(r.error)) && Growth(old(staging), staging) == |asked| - |old(asked)|
    {
      hide Requested, Gathered, Extends, Served, NoAnswer, IsChain, WellFormed, Joined, Uniform, PageOf, Ahead;
      hide Smooth, Good, Spaced, Interval, Repeated, Poisoned;
      ghost var before := staging;
      var reply := ObtainPage(|pages|, cursor);
      StagedMore(before, |pages|, if reply.Ok? then Some(reply.value) else None);
      if reply.Err? {
        return Err(reply.error);
      }
      var payload := reply.value;
      ghost var honest := Served(wire, provider, before) && IsChain(provider, pages);
      AheadShrinks(before, staging, |pages|, payload);
      if honest {
        ServedMore(wire, provider, before, pages, columns, rows, cursor, payload, budget.used);
      }
      var parsed := ParseTablePage(payload);
      if parsed.None? || (columns.Some? && columns.value != parsed.value.columns) {
        PoisonTaken(pages, columns, rows, cursor, before, payload);
      }
      if parsed.None? {
        if honest {
          Unreadable(provider, pages, payload);
        }
        return Err(BadPage);
      }
      if columns.Some? && columns.value != parsed.value.columns {
        if honest {
          Mismatch(provider, pages, columns, rows, cursor, before, payload);
        }
        return Err(SchemaChange);
      }
      GatherMore(pages, columns, rows, cursor, before, payload);
      r := Ok((payload, parsed.value));
    }

    /** The table branch of _fetch_network, up to the moment every page is staged; it ends for every provider. */
    method FetchPages(killed: nat -> bool, ghost provider: Provider) returns (r: Result<Fetched, FetchError>)
      requires Valid()
      modifies this, budget, budget.clock
      ensures Valid() && budget.used - old(budget.used) == |asked| - |old(asked)|
      ensures Extends(old(staging), staging)
      ensures OnlyUnstaged(old(asked), asked, old(staging), maxRetries)
      ensures r.Ok? ==> Whole(r.value, staging)
      ensures old(Served(wire, provider, staging)) ==> Served(wire, provider, staging)
      ensures old(Served(wire, provider, staging)) && r.Ok? ==> Complete(provider, r.value.pages)
      ensures old(Served(wire, provider, staging)) && r.Err? && r.error in {BadPage, SchemaChange} ==> NoAnswer(provider)
      ensures r.Err? && r.error in {BadPage, SchemaChange} ==> exists k: nat :: Poisoned(staging, k)
      ensures r == Err(Budget) ==> budget.used == budget.maxRequests
      ensures r == Err(Killed) ==> exists page :: killed(page)
      ensures Smooth(wire) ==> (r.Err? ==> Expected(r.error)) && Growth(old(staging), staging) == |asked| - |old(asked)|
    {
      hide OnlyUnstaged, Requested, Gathered, Extends, Served, Complete, NoAnswer, IsChain, Whole, Joined, PageRead;
      hide Smooth, Budgeted, Spaced, Interval, PageOf, Uniform, Continues, WellFormed, Poisoned;
      ghost var honest := Served(wire, provider, staging);
      ghost var staging0, asked0 := staging, asked;
      var pages: seq<Payload> := [];
      var columns: Option<seq<string>> := None;
      var cursor: Option<string> := None;
      var rows: seq<seq<Cell>> := [];
      Starting(provider, staging, asked, maxRetries);
      while true
        invariant Valid() && budget.used - old(budget.used) == |asked| - |asked0|
        invariant Gathered(pages, columns, rows, cursor, staging)
        invariant Extends(staging0, staging)
        invariant OnlyUnstaged(asked0, asked, staging0, maxRetries)
        invariant forall i :: |asked0| <= i < |asked| ==> asked[i] < |pages|
        invariant honest ==> Served(wire, provider, staging) && IsChain(provider, pages)
        invariant Smooth(wire) ==> Growth(staging0, staging) == |asked| - |asked0|
        decreases Budgeted(budget, staging, |pages|)
      {
        if killed(|pages|) {
          return Err(Killed);
        }
        ghost var before, askedBefore := staging, asked;
        var taken := TakePage(pages, columns, rows, cursor, provider);
        AskedMore(asked0, askedBefore, asked, staging0, before, |pages|, maxRetries);
        ExtendsTransitive(staging0, before, staging);
        if taken.Err? {
          return Err(taken.error);
        }
        var (payload, page) := taken.value;
        NextTurn(provider, pages, rows, payload, page, staging);
        columns := Some(page.columns);
        rows := rows + page.rows;
        pages := pages + [payload];
        if page.next.None? {
          return Ok(Fetched(pages, columns.value, rows));
        }
        cursor := page.next;
      }
    }
  }

  /** The termination measure: requests left, plus staged pages at or beyond the current one. */
  ghost function Budgeted(budget: RequestBudget, staging: map<nat, Payload>, page: nat): (left: int)
    reads budget, budget.clock
    ensures budget.Valid() ==> left >= 0
  {
    budget.maxRequests - budget.used + Ahead(staging, page)
  }

  ghost predicate Extends(before: map<nat, Payload>, after: map<nat, Payload>) {
    forall k :: k in before ==> k in after && after[k] == before[k]
  }

  /** A wire that answers every request at once. */
  ghost predicate Smooth(wire: Wire) {
    forall k, c :: Good(wire(k, c))
  }

  /** What can stop a fetch on a smooth wire. */
  predicate Expected(e: FetchError) {
    e in {Budget, BadPage, SchemaChange, Killed}
  }

  function Growth(before: map<nat, Payload>, after: map<nat, Payload>): int {
    |after| - |before|
  }

  /** At most maxRetries + 1 requests were added, all for this page. */
  ghost predicate Requested(before: seq<nat>, after: seq<nat>, page: nat, maxRetries: nat) {
    exists n: nat :: n <= maxRetries + 1 && after == before + Repeated(page, n)
  }

  function Count(s: seq<nat>, page: nat): nat {
    if s == [] then 0 else Count(s[..|s| - 1], page) + (if s[|s| - 1] == page then 1 else 0)
  }

  /** The requests added are for pages not staged at the start, each at most maxRetries + 1 times. */
  ghost predicate OnlyUnstaged(before: seq<nat>, after: seq<nat>, staged: map<nat, Payload>, maxRetries: nat) {
    && before <= after
    && (forall i :: |before| <= i < |after| ==> after[i] !in staged)
    && (forall page :: Count(after[|before|..], page) <= maxRetries + 1)
  }

  ghost predicate Served(wire: Wire, provider: Provider, staging: map<nat, Payload>) {
    Faithful(wire, provider) && StagedPrefix(provider, staging)
  }

  ghost predicate NoAnswer(provider: Provider) {
    forall whole :: !Complete(provider, whole)
  }

  /** The pages read so far are the staged ones, share their columns, and each names the next cursor. */
  ghost predicate Gathered(pages: seq<Payload>, columns: Option<seq<string>>, rows: seq<seq<Cell>>,
                           cursor: Option<string>, staging: map<nat, Payload>) {
    && (forall i :: 0 <= i < |pages| ==> i in staging && staging[i] == pages[i] && Continues(pages[i]))
    && Uniform(pages) && rows == AllRows(pages)
    && (if pages == [] then columns == None && cursor == None
        else columns == Some(PageOf(pages[0]).columns) && cursor == PageOf(pages[|pages| - 1]).next)
  }

  /** As Gathered, but nothing is known yet of the last page's cursor. */
  ghost predicate Joined(pages: seq<Payload>, columns: seq<string>, rows: seq<seq<Cell>>, staging: map<nat, Payload>) {
    && pages != [] && Uniform(pages)
    && (forall i :: 0 <= i < |pages| ==> i in staging && staging[i] == pages[i])
    && (forall i :: 0 <= i < |pages| - 1 ==> Continues(pages[i]))
    && columns == PageOf(pages[0]).columns && rows == AllRows(pages)
  }

  /** A finished fetch: all staged pages up to the one that names no cursor, with one schema and all their rows. */
  ghost predicate Whole(f: Fetched, staging: map<nat, Payload>) {
    && f.pages != [] && Uniform(f.pages)
    && (forall i :: 0 <= i < |f.pages| ==> i in staging && staging[i] == f.pages[i])
    && (forall i :: 0 <= i < |f.pages| ==> (Continues(f.pages[i]) <==> i < |f.pages| - 1))
    && f.columns == PageOf(f.pages[0]).columns && f.rows == AllRows(f.pages)
  }

  /** Staged pages at or beyond an index: with the requests left, what the page loop uses up. */
  ghost function Ahead(staging: map<nat, Payload>, page: nat): nat {
    |set k | k in staging && k >= page|
  }

  lemma AheadShrinks(before: map<nat, Payload>, after: map<nat, Payload>, page: nat, payload: Payload)
    requires after == before[page := payload]
    ensures Ahead(after, page + 1) == if page in before then Ahead(before, page) - 1 else Ahead(before, page)
  {
    var later := set k | k in after && k >= page + 1;
    var now := set k | k in before && k >= page;
    if page in before {
      assert now == later + {page};
    } else {
      assert now == later;
    }
  }

  lemma Starting(provider: Provider, staging: map<nat, Payload>, asked: seq<nat>, maxRetries: nat)
    ensures Gathered([], None, [], None, staging) && Extends(staging, staging)
    ensures OnlyUnstaged(asked, asked, staging, maxRetries) && IsChain(provider, [])
  {
  }

  lemma {:induction false} CountAppend(s: seq<nat>, page: nat, n: nat, q: nat)
    ensures Count(s + Repeated(page, n), q) == Count(s, q) + (if q == page then n else 0)
  {
    var t := s + Repeated(page, n);
    if n == 0 {
      assert t == s;
    } else {
      CountAppend(s, page, n - 1, q);
      assert t[..|t| - 1] == s + Repeated(page, n - 1);
    }
  }

  lemma {:induction false} CountAbsent(s: seq<nat>, page: nat)
    requires page !in s
    ensures Count(s, page) == 0
  {
    if s != [] {
      CountAbsent(s[..|s| - 1], page);
    }
  }

  lemma AskedMore(first: seq<nat>, before: seq<nat>, after: seq<nat>, staged: map<nat, Payload>,
                  staging: map<nat, Payload>, page: nat, maxRetries: nat)
    requires OnlyUnstaged(first, before, staged, maxRetries) && Requested(before, after, page, maxRetries)
    requires Extends(staged, staging) && (page in staging ==> after == before)
    requires forall i :: |first| <= i < |before| ==> before[i] < page
    ensures OnlyUnstaged(first, after, staged, maxRetries)
    ensures before <= after && forall i :: |first| <= i < |after| ==> after[i] <= page
  {
    if after != before {
      var n: nat :| n <= maxRetries + 1 && after == before + Repeated(page, n);
      assert after[|first|..] == before[|first|..] + Repeated(page, n);
      forall q
        ensures Count(after[|first|..], q) <= maxRetries + 1
      {
        CountAppend(before[|first|..], page, n, q);
        CountAbsent(before[|first|..], page);
      }
    }
  }

  lemma StagedMore(before: map<nat, Payload>, page: nat, payload: Option<Payload>)
    requires page in before ==> payload == Some(before[page])
    ensures Extends(before, if payload.Some? then before[page := payload.value] else before)
  {
  }

  lemma ExtendsTransitive(a: map<nat, Payload>, b: map<nat, Payload>, c: map<nat, Payload>)
    requires Extends(a, b) && Extends(b, c)
    ensures Extends(a, c)
  {
  }

  /** A faithful wire keeps staging a prefix of the provider's chain, and the page just read continues it. */
  lemma ServedMore(wire: Wire, provider: Provider, staging: map<nat, Payload>, pages: seq<Payload>,
                   columns: Option<seq<string>>, rows: seq<seq<Cell>>, cursor: Option<string>, payload: Payload, used: nat)
    requires Served(wire, provider, staging) && IsChain(provider, pages)
    requires Gathered(pages, columns, rows, cursor, staging)
    requires |pages| in staging ==> payload == staging[|pages|]
    requires |pages| !in staging ==>
               used > 0 && Good(wire(used - 1, cursor)) && payload == wire(used - 1, cursor).body.payload
    ensures Served(wire, provider, staging[|pages| := payload])
    ensures IsChain(provider, pages + [payload])
  {
    hide WellFormed, Uniform, AllRows;
    var page := |pages|;
    var staged :| Stages(staging, staged) && IsChain(provider, staged);
    if page in staging {
      assert staged[..page] == pages;
      assert Follows(provider, staged, page);
      ChainExtends(provider, pages, payload);
      assert staging[page := payload] == staging;
    } else {
      assert page > 0 ==> page - 1 in staging;
      assert staged == pages;
      ChainExtends(provider, pages, payload);
      assert Stages(staging[page := payload], pages + [payload]);
    }
  }

  /** A chain with a page no complete answer can contain rules every complete answer out. */
  lemma NoWhole(provider: Provider, pages: seq<Payload>)
    requires IsChain(provider, pages) && !Uniform(pages)
    ensures NoAnswer(provider)
  {
    forall whole
      ensures !Complete(provider, whole)
    {
      if Complete(provider, whole) {
        ChainIsPrefix(provider, whole, pages);
        assert forall i :: 0 <= i < |pages| ==> pages[i] == whole[i];
      }
    }
  }

  lemma Mismatch(provider: Provider, pages: seq<Payload>, columns: Option<seq<string>>, rows: seq<seq<Cell>>,
                 cursor: Option<string>, staging: map<nat, Payload>, payload: Payload)
    requires IsChain(provider, pages + [payload]) && Gathered(pages, columns, rows, cursor, staging)
    requires WellFormed(payload) && columns.Some? && columns.value != PageOf(payload).columns
    ensures NoAnswer(provider)
  {
    var longer := pages + [payload];
    assert longer[|pages|] == payload && longer[0] == pages[0];
    NoWhole(provider, longer);
  }

  /** The page just taken joins the ones before it. */
  ghost predicate PageRead(pages: seq<Payload>, rows: seq<seq<Cell>>, payload: Payload, page: Page,
                           staging: map<nat, Payload>) {
    WellFormed(payload) && page == PageOf(payload) && Joined(pages + [payload], page.columns, rows + page.rows, staging)
  }

  lemma GatherMore(pages: seq<Payload>, columns: Option<seq<string>>, rows: seq<seq<Cell>>, cursor: Option<string>,
                   staging: map<nat, Payload>, payload: Payload)
    requires Gathered(pages, columns, rows, cursor, staging) && WellFormed(payload)
    requires columns.Some? ==> columns.value == PageOf(payload).columns
    requires |pages| in staging ==> staging[|pages|] == payload
    ensures PageRead(pages, rows, payload, PageOf(payload), staging[|pages| := payload])
  {
    hide PageOf, WellFormed;
    var longer := pages + [payload];
    assert longer[..|longer| - 1] == pages;
    assert AllRows(longer) == AllRows(pages) + PageOf(payload).rows;
    hide AllRows;
  }

  lemma NextTurn(provider: Provider, pages: seq<Payload>, rows: seq<seq<Cell>>, payload: Payload, page: Page,
                 staging: map<nat, Payload>)
    requires PageRead(pages, rows, payload, page, staging)
    ensures page.next.Some? ==>
              Gathered(pages + [payload], Some(page.columns), rows + page.rows, page.next, staging)
    ensures page.next.None? ==> Whole(Fetched(pages + [payload], page.columns, rows + page.rows), staging)
    ensures page.next.None? && IsChain(provider, pages + [payload]) ==> Complete(provider, pages + [payload])
  {
    hide PageOf, WellFormed, AllRows;
  }

  lemma Unreadable(provider: Provider, pages: seq<Payload>, payload: Payload)
    requires IsChain(provider, pages + [payload]) && !WellFormed(payload)
    ensures NoAnswer(provider)
  {
    var longer := pages + [payload];
    assert longer[|pages|] == payload;
    NoWhole(provider, longer);
  }

  // ----- poisoned staging

  /** Staged pages up to k lead on to page k, which no fetch can accept: it is malformed or changes the columns. */
  ghost predicate Poisoned(staging: map<nat, Payload>, k: nat) {
    && (forall i :: 0 <= i <= k ==> i in staging) && (forall i :: 0 <= i < k ==> Continues(staging[i]))
    && (WellFormed(staging[k]) ==> k > 0 && PageOf(staging[k]).columns != PageOf(staging[0]).columns)
  }

  lemma PoisonTaken(pages: seq<Payload>, columns: Option<seq<string>>, rows: seq<seq<Cell>>, cursor: Option<string>,
                    staging: map<nat, Payload>, payload: Payload)
    requires Gathered(pages, columns, rows, cursor, staging)
    requires WellFormed(payload) ==> columns.Some? && columns.value != PageOf(payload).columns
    requires |pages| in staging ==> staging[|pages|] == payload
    ensures Poisoned(staging[|pages| := payload], |pages|)
  {
    hide AllRows;
  }

  // ----- interrupted and resumed fetches

  /** One process: its wire, clock drift, jitter, and the page before which it is killed, if any. */
  datatype Attempt = Attempt(wire: Wire, jitter: nat -> real, drift: nat -> real, killed: nat -> bool)

  datatype Limits = Limits(rpm: nat, maxRequests: nat, maxRetries: nat, backoff: real)

  ghost predicate Usable(limits: Limits) {
    limits.rpm > 0 && limits.backoff >= 0.0
  }

  /** The attempt is cut short by nothing but its request budget. */
  ghost predicate Untroubled(a: Attempt) {
    Smooth(a.wire) && forall page :: !a.killed(page)
  }

  lemma {:induction false} KeysBelow(keys: set<nat>, n: nat)
    requires forall k: nat :: k in keys <==> k < n
    ensures |keys| == n
  {
    if n == 0 {
      assert keys == {};
    } else {
      KeysBelow(keys - {n - 1}, n - 1);
    }
  }

  lemma StagedBound(provider: Provider, staging: map<nat, Payload>, whole: seq<Payload>)
    requires StagedPrefix(provider, staging) && Complete(provider, whole)
    ensures |staging| <= |whole|
  {
    var staged :| Stages(staging, staged) && IsChain(provider, staged);
    ChainIsPrefix(provider, whole, staged);
    KeysBelow(staging.Keys, |staged|);
  }

  /** Fresh processes resuming from one staging directory, until one of them finishes. */
  method FetchWithResumes(limits: Limits, attempts: seq<Attempt>, ghost provider: Provider) returns (r: Option<Fetched>)
    requires Usable(limits) && forall a :: a in attempts ==> Faithful(a.wire, provider)
    ensures r.Some? ==> Complete(provider, r.value.pages) && r.value.rows == AllRows(r.value.pages)
    ensures limits.maxRequests > 0 && (forall a :: a in attempts ==> Untroubled(a)) ==>
              forall whole :: Complete(provider, whole) && |whole| < |attempts| ==> r.Some?
  {
    hide Complete, Served, Smooth, IsChain, Extends, OnlyUnstaged, Spaced, Interval, Uniform, NoAnswer;
    var staging: map<nat, Payload> := map[];
    NothingStaged(provider);
    ghost var steady := limits.maxRequests > 0 && forall a :: a in attempts ==> Untroubled(a);
    for i := 0 to |attempts|
      invariant StagedPrefix(provider, staging)
      invariant steady ==> forall whole :: Complete(provider, whole) ==> |staging| >= i
    {
      var a := attempts[i];
      var clock := new Clock(a.drift);
      var budget := new RequestBudget(limits.rpm, limits.maxRequests, clock);
      var client := new Client(budget, limits.maxRetries, limits.backoff, a.wire, a.jitter, staging);
      ServedMeans(a.wire, provider, staging);
      var done := client.FetchPages(a.killed, provider);
      ServedMeans(a.wire, provider, client.staging);
      if done.Ok? {
        return Some(done.value);
      }
      assert steady ==> Untroubled(a);
      forall whole | steady && Complete(provider, whole)
        ensures |client.staging| >= i + 1
      {
        AnswerExists(provider, whole);
      }
      staging := client.staging;
    }
    forall whole | steady && Complete(provider, whole)
      ensures |attempts| <= |whole|
    {
      StagedBound(provider, staging, whole);
    }
    r := None;
  }

  lemma NothingStaged(provider: Provider)
    ensures StagedPrefix(provider, map[])
  {
    assert Stages(map[], []) && IsChain(provider, []);
  }

  lemma ServedMeans(wire: Wire, provider: Provider, staging: map<nat, Payload>)
    ensures Served(wire, provider, staging) <==> Faithful(wire, provider) && StagedPrefix(provider, staging)
  {
  }

  lemma AnswerExists(provider: Provider, whole: seq<Payload>)
    requires Complete(provider, whole)
    ensures !NoAnswer(provider)
  {
  }

  /** A page is staged before it is parsed, so one bad page defeats every later fetch that resumes from it. */
  lemma PoisonIsPermanent(staging: map<nat, Payload>, k: nat, after: map<nat, Payload>)
    requires Poisoned(staging, k) && Extends(staging, after)
    ensures Poisoned(after, k) && forall f :: !Whole(f, after)
  {
    forall f
      ensures !Whole(f, after)
    {
      NotWhole(after, k, f);
    }
  }

  lemma WholePage(staging: map<nat, Payload>, f: Fetched, i: nat)
    requires Whole(f, staging) && i <= Max(0, |f.pages| - 1)
    ensures i in staging && 0 in staging && WellFormed(staging[i]) && WellFormed(staging[0])
    ensures PageOf(staging[i]).columns == PageOf(staging[0]).columns
    ensures Continues(staging[i]) <==> i < |f.pages| - 1
  {
  }

  lemma NotWhole(staging: map<nat, Payload>, k: nat, f: Fetched)
    requires Poisoned(staging, k)
    ensures !Whole(f, staging)
  {
    hide Whole;
    if Whole(f, staging) {
      WholePage(staging, f, Min(k, Max(0, |f.pages| - 1)));
    }
  }

  /** Follow the staged pages; where they end, one empty last page under the first page's columns completes the fetch. */
  lemma {:induction false} Finish(staging: map<nat, Payload>, pages: seq<Payload>)
      returns (after: map<nat, Payload>, f: Fetched)
    requires forall k: nat :: !Poisoned(staging, k)
    requires Uniform(pages)
    requires forall i :: 0 <= i < |pages| ==> i in staging && staging[i] == pages[i] && Continues(pages[i])
    ensures Extends(staging, after) && Whole(f, after)
    decreases Ahead(staging, |pages|)
  {
    hide PageOf, WellFormed, AllRows;
    var n := |pages|;
    var next := if n in staging then staging[n] else Closing(pages);
    if n !in staging {
      ClosingFits(pages);
    } else {
      assert !Poisoned(staging, n);
    }
    var longer := pages + [next];
    assert Uniform(longer) by {
      assert n > 0 ==> longer[0] == pages[0];
    }
    if n in staging && Continues(next) {
      AheadShrinks(staging, staging, n, next);
      after, f := Finish(staging, longer);
    } else {
      after := staging[n := next];
      f := Fetched(longer, PageOf(longer[0]).columns, AllRows(longer));
    }
  }

  function Closing(pages: seq<Payload>): Payload {
    Table(if pages != [] && pages[0].Table? then pages[0].columns else [], [], Null)
  }

  lemma ClosingFits(pages: seq<Payload>)
    requires pages != [] ==> WellFormed(pages[0])
    ensures WellFormed(Closing(pages)) && !Continues(Closing(pages))
    ensures pages != [] ==> PageOf(Closing(pages)).columns == PageOf(pages[0]).columns
  {
  }

  /** A staging directory can still lead to a finished fetch exactly when none of its pages poisons it. */
  lemma FinishableIff(staging: map<nat, Payload>)
    ensures (exists after, f :: Extends(staging, after) && Whole(f, after)) <==> forall k: nat :: !Poisoned(staging, k)
  {
    hide Extends, Whole, Poisoned;
    if forall k: nat :: !Poisoned(staging, k) {
      var after, f := Finish(staging, []);
    }
    forall k: nat, after, f | Poisoned(staging, k) && Extends(staging, after)
      ensures !Whole(f, after)
    {
      PoisonIsPermanent(staging, k, after);
    }
  }

  /** From an empty staging directory, one fetch against a provider of malformed pages reaches such a state. */
  method FetchFromBadProvider(limits: Limits, drift: nat -> real, jitter: nat -> real)
      returns (r: Result<Fetched, FetchError>, staging: map<nat, Payload>)
    requires Usable(limits) && limits.maxRequests > 0
    ensures r.Err? && Poisoned(staging, 0) && forall after, f :: Extends(staging, after) ==> !Whole(f, after)
  {
    hide Whole, Poisoned, Extends, OnlyUnstaged, Complete, NoAnswer, Spaced, Interval;
    ghost var provider: Provider := _ => Shapeless;
    var clock := new Clock(drift);
    var budget := new RequestBudget(limits.rpm, limits.maxRequests, clock);
    var client := new Client(budget, limits.maxRetries, limits.backoff, BadWire, jitter, map[]);
    NothingStaged(provider);
    r := client.FetchPages(page => false, provider);
    staging := client.staging;
    if r.Ok? {
      FirstIsBad(provider, r.value.pages);
    }
    if r != Err(Budget) {
      ghost var k: nat :| Poisoned(staging, k);
      PoisonStaged(staging, k);
    }
    BadIsStaged(provider, staging);
    forall after, f | Extends(staging, after)
      ensures !Whole(f, after)
    {
      PoisonIsPermanent(staging, 0, after);
    }
  }

  function BadWire(k: nat, cursor: Option<string>): Response {
    Reply(200, Object(Shapeless), None)
  }

  lemma FirstIsBad(provider: Provider, pages: seq<Payload>)
    requires Complete(provider, pages)
    ensures WellFormed(provider(None))
  {
    assert Follows(provider, pages, 0);
  }

  lemma PoisonStaged(staging: map<nat, Payload>, k: nat)
    requires Poisoned(staging, k)
    ensures k in staging
  {
  }

  lemma BadIsStaged(provider: Provider, staging: map<nat, Payload>)
    requires StagedPrefix(provider, staging) && staging != map[] && !WellFormed(provider(None))
    ensures Poisoned(staging, 0)
  {
    var pages :| Stages(staging, pages) && IsChain(provider, pages);
    var k :| k in staging;
    assert Follows(provider, pages, 0);
  }
}
