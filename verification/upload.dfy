/** The upload worker: what one reply means for an event, and a pass over the due rows. */
module Upload {
  import opened Options
  import opened HerdrMetadata
  import opened HostEvents
  import opened PendingEvents
  import opened Dequeue
  import opened AgentConfig
  import opened Ledger
  import opened LedgerInvariant
  import opened LedgerRuns
  import opened DurableQueue

  datatype Reply = NoReply | Status(code: nat)
  /** The path below the endpoint: /v1/host-events or /v2/host-events. */
  datatype Api = V1 | V2

  datatype Request = Request(endpoint: string, api: Api, eventId: string, body: Body)
  datatype Outcome = Settled(fate: Fate) | Failed

  function First(replies: seq<Reply>): Reply { if replies == [] then NoReply else replies[0] }
  function Rest(replies: seq<Reply>): seq<Reply> { if replies == [] then [] else replies[1..] }

  predicate Success(reply: Reply) { reply.Status? && (200 <= reply.code < 300 || reply.code == 409) }

  predicate HasMetadata(body: Body) { body.Parsed? && body.event.metadata.Some? }

  function Bare(body: Body): Body { if body.Parsed? then Parsed(body.event.(metadata := None)) else body }

  function Weight(body: Body): nat { if HasMetadata(body) then 1 else 0 }

  predicate Permanent(body: Body, reply: Reply) {
    body.Parsed? && reply.Status? &&
    ((EventSource(body.event) == HerdrSource && reply.code in {400, 404, 422})
     || (body.event.eventType == TestNotification && reply.code == 429))
  }

  /** The verdict on an event, given the replies in order. */
  function Judge(body: Body, replies: seq<Reply>): Outcome
    decreases Weight(body)
  {
    if Success(First(replies)) then Settled(Accepted)
    else if First(replies) == Status(400) && HasMetadata(body) then Judge(Bare(body), Rest(replies))
    else if Permanent(body, First(replies)) then Settled(Rejected)
    else Failed
  }

  /** The bodies posted for it. */
  function Posts(body: Body, replies: seq<Reply>): (bodies: seq<Body>)
    ensures 1 <= |bodies| <= 1 + Weight(body)
    decreases Weight(body)
  {
    if First(replies) == Status(400) && HasMetadata(body) then [body] + Posts(Bare(body), Rest(replies)) else [body]
  }

  function ApiOf(body: Body): Api { if body.Parsed? && EventSource(body.event) == HerdrSource then V2 else V1 }

  function Requests(endpoint: string, eventId: string, bodies: seq<Body>): seq<Request> {
    seq(|bodies|, i requires 0 <= i < |bodies| => Request(endpoint, ApiOf(bodies[i]), eventId, bodies[i]))
  }

  /** The reply to the last post of an event: the second, if the first was refused for its metadata. */
  function LastReply(body: Body, replies: seq<Reply>): Reply {
    if body.Parsed? && body.event.metadata.Some? && First(replies) == Status(400) then First(Rest(replies)) else First(replies)
  }

  /** What the last reply means: acceptance on a success or a conflict, rejection for good of a Herdr event
      on 400, 404 and 422 and of a test notification on 429, and otherwise another try. */
  lemma JudgeFacts(body: Body, replies: seq<Reply>)
    ensures Judge(body, replies) in {Settled(Accepted), Settled(Rejected), Failed}
    ensures Judge(body, replies) == Settled(Accepted) <==>
      var reply := LastReply(body, replies);
      reply.Status? && (200 <= reply.code <= 299 || reply.code == 409)
    ensures Judge(body, replies) == Settled(Rejected) <==>
      var reply := LastReply(body, replies);
      && body.Parsed? && reply.Status?
      && ((EventSource(body.event) == HerdrSource && (reply.code == 400 || reply.code == 404 || reply.code == 422))
          || (body.event.eventType == TestNotification && reply.code == 429))
    ensures Judge(body, replies) == Settled(Rejected) ==> Rejectable(body)
    decreases Weight(body)
  {
    hide EventSource;
    if First(replies) == Status(400) && HasMetadata(body) {
      JudgeFacts(Bare(body), Rest(replies));
    }
    VerdictFacts(body, First(replies));
  }

  /** An event is posted with its metadata first, and exactly after a 400 once more without; Herdr events
      go to the second version of the API, all others to the first. */
  lemma PostFacts(body: Body, replies: seq<Reply>)
    ensures Posts(body, replies) ==
      if body.Parsed? && body.event.metadata.Some? && First(replies) == Status(400)
      then [body, Parsed(body.event.(metadata := None))] else [body]
    ensures forall b :: b in Posts(body, replies) ==>
      ApiOf(b) == if body.Parsed? && EventSource(body.event) == HerdrSource then V2 else V1
  {
    hide EventSource;
    VerdictFacts(body, First(replies));
    if First(replies) == Status(400) && HasMetadata(body) {
      assert Posts(Bare(body), Rest(replies)) == [Bare(body)];
      assert [body] + [Bare(body)] == [body, Bare(body)];
    }
  }

  lemma VerdictFacts(body: Body, reply: Reply)
    ensures Permanent(body, reply) ==> Rejectable(body)
    ensures Rejectable(Bare(body)) ==> Rejectable(body)
    ensures Success(reply) ==> reply != Status(400)
    ensures ApiOf(Bare(body)) == ApiOf(body)
  {
  }

  lemma ExpireFacts(s: State, now: int)
    requires Inv(s)
    ensures UniqueRowids(s.events.rows) && Legal(s, Expire(now))
    ensures PartOf(LedgerRuns.Next(s, Expire(now)).events.rows, s.events.rows)
  {
    hide BindingsOk, PanesOk, NoStaleHints, Conserved, Increasing;
  }

  /** Completing or rescheduling a present row under the verdict it was given is a legal step. */
  lemma SettleFacts(s: State, id: string, replies: seq<Reply>, attempts: nat, next: int)
    requires id in s.events.rows
    ensures var outcome := Judge(s.events.rows[id].body, replies);
      outcome.Settled? ==>
        && Legal(s, Finish(id, outcome.fate))
        && LedgerRuns.Next(s, Finish(id, outcome.fate)).events.rows == s.events.rows - {id}
    ensures Legal(s, Reschedule(id, attempts, next))
    ensures LedgerRuns.Next(s, Reschedule(id, attempts, next)).events.rows.Keys == s.events.rows.Keys
  {
    hide Judge, Rejectable;
    JudgeFacts(s.events.rows[id].body, replies);
  }

  lemma FewerRows(t: Table, u: Table)
    requires t.Keys < u.Keys
    ensures |t| < |u|
  {
    var gone :| gone in u && gone !in t;
    SubsetSize(t.Keys, u.Keys - {gone});
    assert |t| == |t.Keys| && |u| == |u.Keys|;
  }

  function Delay(attempts: nat): nat { if attempts < 12 then Pow2(attempts) else 3600 }

  /** One second, doubled with every attempt up to an hour. */
  lemma DelayDoubles(attempts: nat)
    ensures Delay(0) == 1
    ensures Delay(attempts + 1) == if 2 * Delay(attempts) < 3600 then 2 * Delay(attempts) else 3600
  {
    if attempts < 12 {
      PowersOfTwo();
    }
  }

  lemma PowersOfTwo()
    ensures Pow2(10) == 1024 && Pow2(11) == 2048
    ensures forall n: nat :: n < 11 ==> Pow2(n) <= 1024
  {
    forall n: nat | n < 11
      ensures Pow2(n) <= 1024
    {
      PowerGrows(n, 10);
    }
  }

  lemma {:induction false} PowerGrows(m: nat, n: nat)
    requires m <= n
    ensures Pow2(m) <= Pow2(n)
  {
    if m < n {
      PowerGrows(m, n - 1);
    }
  }

  function Pow2(n: nat): nat { if n == 0 then 1 else 2 * Pow2(n - 1) }

  /** The HTTP client: it records requests and hands out the given replies. */
  class Client {
    var replies: seq<Reply>
    var sent: seq<Request>

    constructor (replies: seq<Reply>)
      ensures this.replies == replies && sent == []
    {
      this.replies, sent := replies, [];
    }

    method Do(request: Request) returns (reply: Reply)
      modifies this
      ensures sent == old(sent) + [request] && reply == First(old(replies)) && replies == Rest(old(replies))
    {
      sent := sent + [request];
      reply := First(replies);
      replies := Rest(replies);
    }
  }

  /** One turn of the loop: the times at which it dequeues and, on failure, reschedules. */
  datatype Turn = Turn(now: int, later: int)

  /** What the loop reads and changes. */
  datatype World = World(s: State, last: Option<Source>, replies: seq<Reply>, sent: seq<Request>)

  /** Completed on acceptance or rejection, else put off. */
  function Verdict(row: Row, id: string, replies: seq<Reply>, turn: Turn): Step {
    match Judge(row.body, replies)
    case Settled(fate) => Finish(id, fate)
    case Failed => Reschedule(id, row.attempts + 1, turn.later + Delay(row.attempts + 1))
  }

  function Unread(replies: seq<Reply>, n: nat): seq<Reply> { if n < |replies| then replies[n..] else [] }

  /** What one turn may do, to the last detail. */
  ghost predicate Turned(c: Config, turn: Turn, before: World, picked: Option<string>, after: World) {
    if !c.state.Active? then picked.None? && after == before
    else
      var q := LedgerRuns.Next(before.s, Expire(turn.now));
      var rows := q.events.rows;
      match picked
      case None =>
        && after == before.(s := q)
        && forall id :: id in rows ==> !Eligible(rows[id], turn.now, TrimSlashes(c.endpoint))
      case Some(id) =>
        && id in rows && IsNext(rows, turn.now, TrimSlashes(c.endpoint), before.last, id)
        && var posts := Posts(rows[id].body, before.replies);
           after == World(LedgerRuns.Next(q, Verdict(rows[id], id, before.replies, turn)), Some(rows[id].source),
                          Unread(before.replies, |posts|), before.sent + Requests(c.endpoint, id, posts))
  }

  ghost predicate GoesOn(turn: Turn, before: World, picked: Option<string>) {
    var rows := LedgerRuns.Next(before.s, Expire(turn.now)).events.rows;
    picked.Some? && picked.value in rows && Judge(rows[picked.value].body, before.replies).Settled?
  }

  /** The round of the waiting game that a turn is: completed, or put off by its backoff. */
  function RoundOf(turn: Turn, before: World, id: string): Round
    requires id in before.s.events.rows
  {
    var row := before.s.events.rows[id];
    Round(before.s.events.rows, turn.now, id,
          if Judge(row.body, before.replies).Settled? then None else Some(turn.later + Delay(row.attempts + 1)))
  }

  /** So the bound on waiting speaks of the turns of the worker, failed uploads included. */
  lemma TurnIsRound(c: Config, turn: Turn, before: World, id: string, after: World)
    requires Turned(c, turn, before, Some(id), after) && c.state.Active?
    ensures id in before.s.events.rows
    ensures var r := RoundOf(turn, before, id);
      && IsNext(r.found - Stale(r.found, r.now), r.now, TrimSlashes(c.endpoint), before.last, r.handed)
      && after.s.events.rows == After(r) && after.last == Some(r.found[r.handed].source)
  {
    hide IsNext, Judge, Posts, Requests, Delay, Unread, TrimSlashes;
    var r := RoundOf(turn, before, id);
    var t := r.found - Stale(r.found, r.now);
    assert LedgerRuns.Next(before.s, Expire(turn.now)).events.rows == t;
    if r.retry.None? {
      assert {id} * t.Keys == {id};
    }
  }

  /** The turns taken, all going on but the last, which does if the context was cancelled after it. */
  ghost predicate Drained(c: Config, turns: seq<Turn>, worlds: seq<World>, picks: seq<Option<string>>, cancelled: bool) {
    && |worlds| == |picks| + 1 && |picks| <= |turns| && (cancelled ==> |picks| == |turns|) && (!cancelled ==> picks != [])
    && forall n :: 0 <= n < |picks| ==>
      && Turned(c, turns[n], worlds[n], picks[n], worlds[n + 1])
      && (GoesOn(turns[n], worlds[n], picks[n]) <==> n < |picks| - 1 || cancelled)
  }

  lemma DrainedStep(c: Config, turns: seq<Turn>, n: nat, worlds: seq<World>, picks: seq<Option<string>>,
    picked: Option<string>, after: World)
    requires n < |turns| && Drained(c, turns[..n], worlds, picks, true) && Turned(c, turns[n], worlds[n], picked, after)
    ensures var more := GoesOn(turns[n], worlds[n], picked);
      && (more ==> Drained(c, turns[..n + 1], worlds + [after], picks + [picked], true))
      && (!more ==> Drained(c, turns, worlds + [after], picks + [picked], false))
  {
    hide Turned, GoesOn;
    forall i | 0 <= i < n ensures turns[..n][i] == turns[i] == turns[..n + 1][i] {
    }
  }

  /** The requests sent since: each to the configured endpoint, for an event bound to it. */
  ghost predicate SentWell(c: Config, before: seq<Request>, now: seq<Request>, rows: Table) {
    && before <= now
    && forall i :: |before| <= i < |now| ==>
      && now[i].endpoint == c.endpoint && now[i].eventId in rows
      && rows[now[i].eventId].backend == TrimSlashes(c.endpoint)
  }

  lemma TurnSendsWell(c: Config, turn: Turn, before: World, picked: Option<string>, after: World)
    requires Inv(before.s) && Wellformed(c) && Turned(c, turn, before, picked, after)
    ensures SentWell(c, before.sent, after.sent, before.s.events.rows)
  {
    hide Inv, LedgerRuns.Next, Judge, Posts, Verdict, Unread, Delay, TrimSlashes, UniqueRowids, IsNext;
    ExpireFacts(before.s, turn.now);
    if picked.Some? && c.state.Active? {
      var rows := LedgerRuns.Next(before.s, Expire(turn.now)).events.rows;
      NextIsThere(rows, turn.now, TrimSlashes(c.endpoint), before.last, picked.value);
    }
  }

  lemma SentNothing(c: Config, sent: seq<Request>, t: Table)
    ensures SentWell(c, sent, sent, t)
  {
  }

  lemma SentWellJoins(c: Config, a: seq<Request>, b: seq<Request>, d: seq<Request>, t: Table, u: Table)
    requires SentWell(c, a, b, t) && SentWell(c, b, d, u) && PartOf(u, t)
    ensures SentWell(c, a, d, t)
  {
    assert forall i :: 0 <= i < |b| ==> b[i] == d[i];
  }

  lemma NextIsThere(t: Table, now: int, owner: string, last: Option<Source>, id: string)
    requires IsNext(t, now, owner, last, id)
    ensures id in t && Eligible(t[id], now, owner)
  {
  }

  class Worker {
    var config: Config
    const queue: Queue
    const client: Client

    constructor (config: Config, queue: Queue, client: Client)
      ensures this.config == config && this.queue == queue && this.client == client
    {
      this.config, this.queue, this.client := config, queue, client;
    }

    method UploadToBackend(id: string, body: Body, endpoint: string) returns (outcome: Outcome)
      modifies client
      ensures outcome == Judge(body, old(client.replies))
      ensures client.sent == old(client.sent) + Requests(endpoint, id, Posts(body, old(client.replies)))
      ensures outcome.Settled? ==> outcome.fate == Accepted || outcome.fate == Rejected
      ensures client.replies == Unread(old(client.replies), |Posts(body, old(client.replies))|)
      decreases Weight(body)
    {
      var reply := client.Do(Request(endpoint, ApiOf(body), id, body));
      if reply.Status? && (200 <= reply.code < 300 || reply.code == 409) {
        return Settled(Accepted);
      }
      if reply == Status(400) && HasMetadata(body) {
        ghost var rest := Posts(Bare(body), client.replies);
        assert Requests(endpoint, id, [body] + rest) ==
          [Request(endpoint, ApiOf(body), id, body)] + Requests(endpoint, id, rest);
        outcome := UploadToBackend(id, Bare(body), endpoint);
        return;
      }
      if Permanent(body, reply) {
        return Settled(Rejected);
      }
      return Failed;
    }

    function Current(): World
      reads this, queue, client
    {
      World(queue.View(), queue.lastSource, client.replies, client.sent)
    }

    /** The row of the configured endpoint that is next. */
    method PickNext(now: int) returns (next: Option<string>)
      requires UniqueRowids(queue.rows)
      modifies queue
      ensures queue.View() == LedgerRuns.Next(old(queue.View()), Expire(now))
      ensures next.None? ==> queue.lastSource == old(queue.lastSource)
      ensures next.None? ==> forall id :: id in queue.rows ==> !Eligible(queue.rows[id], now, TrimSlashes(config.endpoint))
      ensures next.Some? ==>
        && next.value in queue.rows && Eligible(queue.rows[next.value], now, TrimSlashes(config.endpoint))
        && IsNext(queue.rows, now, TrimSlashes(config.endpoint), old(queue.lastSource), next.value)
        && queue.lastSource == Some(queue.rows[next.value].source)
    {
      hide LedgerRuns.Next, UniqueRowids, IsNext, TrimSlashes;
      next := queue.NextForBackend(now, config.endpoint);
    }

    /** One turn of the loop; more says whether it goes on. */
    method UploadNext(turn: Turn) returns (more: bool, ghost picked: Option<string>, ghost steps: seq<Step>)
      requires Inv(queue.View()) && Wellformed(config)
      modifies queue, client
      ensures Turned(config, turn, old(Current()), picked, Current()) && (more <==> GoesOn(turn, old(Current()), picked))
      ensures Follows(old(queue.View()), steps, queue.View())
      ensures more ==> queue.rows.Keys < old(queue.rows.Keys) && PartOf(queue.rows, old(queue.rows))
    {
      hide Inv, Legal, LedgerRuns.Next, Follows, UniqueRowids, IsNext, Eligible, TrimSlashes;
      hide Judge, Posts, Requests, Unread, Delay;
      more, picked, steps := false, None, [];
      ghost var s := queue.View();
      NoSteps(s);
      if !config.state.Active? {
        return;
      }
      ExpireFacts(s, turn.now);
      var next := PickNext(turn.now);
      picked, steps := next, [Expire(turn.now)];
      ghost var t := queue.View();
      OneOrTwoSteps(s, Expire(turn.now), Wipe);
      if next.None? {
        return;
      }
      var row := queue.rows[next.value];
      var outcome := UploadToBackend(next.value, row.body, config.endpoint);
      SettleFacts(t, next.value, old(client.replies), row.attempts + 1, turn.later + Delay(row.attempts + 1));
      ghost var verdict := Verdict(row, next.value, old(client.replies), turn);
      OneOrTwoSteps(s, Expire(turn.now), verdict);
      steps := steps + [verdict];
      if outcome.Settled? {
        queue.Complete(next.value, outcome.fate);
        more := true;
      } else {
        queue.Retry(next.value, row.attempts + 1, turn.later + Delay(row.attempts + 1));
      }
    }

    /** uploadDue, until the context is cancelled after the given turns: turn by turn, each picking the
        event it must and going on exactly after a completed one. */
    method UploadDue(turns: seq<Turn>)
      returns (cancelled: bool, ghost steps: seq<Step>, ghost worlds: seq<World>, ghost picks: seq<Option<string>>)
      requires Inv(queue.View()) && Wellformed(config)
      modifies queue, client
      ensures Drained(config, turns, worlds, picks, cancelled) && worlds[0] == old(Current()) && worlds[|picks|] == Current()
      ensures Follows(old(queue.View()), steps, queue.View()) && Inv(queue.View())
      ensures SentWell(config, old(client.sent), client.sent, old(queue.rows))
      ensures |turns| > |old(queue.rows)| ==> !cancelled
    {
      hide Inv, Legal, LedgerRuns.Next, Judge, Posts, Follows, Turned, GoesOn, IsNext, SentWell;
      steps, worlds, picks := [], [Current()], [];
      ghost var s, rows := queue.View(), queue.rows;
      NoSteps(s);
      SentNothing(config, client.sent, rows);
      for n := 0 to |turns|
        invariant Drained(config, turns[..n], worlds, picks, true) && worlds[0] == old(Current()) && worlds[n] == Current()
        invariant Follows(s, steps, queue.View()) && Inv(queue.View())
        invariant SentWell(config, old(client.sent), client.sent, rows)
        invariant PartOf(queue.rows, rows) && |queue.rows| + n <= |rows|
      {
        ghost var t, w := queue.View(), Current();
        var more, picked, latest := UploadNext(turns[n]);
        if more {
          FewerRows(queue.rows, t.events.rows);
        }
        FollowsKeepsInv(t, latest, queue.View());
        FollowsJoins(s, steps, t, latest, queue.View());
        TurnSendsWell(config, turns[n], w, picked, Current());
        SentWellJoins(config, old(client.sent), w.sent, client.sent, rows, t.events.rows);
        DrainedStep(config, turns, n, worlds, picks, picked, Current());
        steps, worlds, picks := steps + latest, worlds + [Current()], picks + [picked];
        if !more {
          return false, steps, worlds, picks;
        }
      }
      assert turns[..|turns|] == turns;
      return true, steps, worlds, picks;
    }
  }
}
