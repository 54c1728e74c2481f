/** Which row NextForBackend hands out, and how long a row can wait for it. */
module Dequeue {
  import opened Options
  import opened PendingEvents

  /** WHERE next_attempt_at <= now AND expires_at > now AND (backend = '' OR ...) */
  predicate Eligible(r: Row, now: int, backend: string) {
    r.nextAttempt <= now && r.expires > now && (backend == "" || r.backend == backend)
  }

  predicate Older(a: Row, b: Row) { a.created < b.created || (a.created == b.created && a.rowid < b.rowid) }

  /** ORDER BY CASE WHEN source = lastSource THEN 1 ELSE 0 END, created_at, rowid */
  predicate Sooner(a: Row, b: Row, last: Option<Source>) {
    (Some(a.source) != last && Some(b.source) == last) || ((Some(a.source) == last <==> Some(b.source) == last) && Older(a, b))
  }

  /** Row id is the one the query returns. */
  ghost predicate IsNext(t: Table, now: int, backend: string, last: Option<Source>, id: string) {
    && id in t && Eligible(t[id], now, backend)
    && forall j :: j in t && Eligible(t[j], now, backend) && j != id ==> Sooner(t[id], t[j], last)
  }

  lemma NextIsUnique(t: Table, now: int, backend: string, last: Option<Source>, a: string, b: string)
    requires IsNext(t, now, backend, last, a) && IsNext(t, now, backend, last, b)
    ensures a == b
  {
  }

  // --- Waiting ---

  /** Older rows of the same source bound to the same backend, due by the horizon. */
  function OlderOwn(t: Table, x: string, horizon: int): set<string>
    requires x in t
  {
    set j |
      && j in t && t[j].source == t[x].source && t[j].backend == t[x].backend
      && t[j].nextAttempt <= horizon && Older(t[j], t[x])
  }

  /** Whatever else happened between two calls: row x is still there, unchanged, and
      no older row of its source and backend has come to be due by the horizon. */
  ghost predicate Meanwhile(t: Table, u: Table, x: string, horizon: int) {
    x in t && x in u && u[x] == t[x] && OlderOwn(u, x, horizon) <= OlderOwn(t, x, horizon)
  }

  /** One call that hands out a row: the table it found, its time, the row, and what became of its upload:
      completed, or put off until retry. */
  datatype Round = Round(found: Table, now: int, handed: string, retry: Option<int>)

  function After(r: Round): Table {
    var t := r.found - Stale(r.found, r.now);
    if r.handed !in t then t
    else if r.retry.None? then t - {r.handed}
    else t[r.handed := t[r.handed].(attempts := t[r.handed].attempts + 1, nextAttempt := r.retry.value)]
  }

  /** Row x waits on its backend through all the rounds, none after the horizon: due, unexpired and
      not handed out. The call sets the last source, whatever becomes of the upload. */
  ghost predicate Waits(t: Table, last: Option<Source>, rounds: seq<Round>, x: string, horizon: int)
    decreases |rounds|
  {
    rounds == [] ||
    var r := rounds[0];
    && Meanwhile(t, r.found, x, horizon) && r.now <= horizon
    && t[x].backend != "" && Eligible(t[x], r.now, t[x].backend)
    && IsNext(r.found - Stale(r.found, r.now), r.now, t[x].backend, last, r.handed)
    && r.handed != x
    && Waits(After(r), Some(r.found[r.handed].source), rounds[1..], x, horizon)
  }

  /** The row handed out is of the source and comes back, due again by the horizon. */
  predicate ComesBack(r: Round, source: Source, horizon: int) {
    r.retry.Some? && r.retry.value <= horizon && r.handed in r.found && r.found[r.handed].source == source
  }

  function Returns(rounds: seq<Round>, source: Source, horizon: int): nat {
    if rounds == [] then 0 else (if ComesBack(rounds[0], source, horizon) then 1 else 0) + Returns(rounds[1..], source, horizon)
  }

  /** The other source goes first, or may: the row was of the last source, or nothing was handed out yet. */
  function Penalty(t: Table, last: Option<Source>, x: string): nat
    requires x in t
  {
    if last.None? || last.value == t[x].source then 1 else 0
  }

  lemma RoundAdvances(t: Table, last: Option<Source>, r: Round, x: string, horizon: int)
    requires Waits(t, last, [r], x, horizon)
    ensures var u := After(r);
      && x in u && u[x] == t[x]
      && 2 * |OlderOwn(u, x, horizon)| + Penalty(u, Some(r.found[r.handed].source), x)
         < 2 * |OlderOwn(t, x, horizon)| + Penalty(t, last, x) + if ComesBack(r, t[x].source, horizon) then 2 else 0
  {
    var u := After(r);
    var live := r.found - Stale(r.found, r.now);
    assert x in live && Sooner(live[r.handed], live[x], last);
    SubsetSize(OlderOwn(r.found, x, horizon), OlderOwn(t, x, horizon));
    if r.found[r.handed].source == t[x].source {
      assert r.handed in OlderOwn(r.found, x, horizon);
      if ComesBack(r, t[x].source, horizon) {
        SubsetSize(OlderOwn(u, x, horizon), OlderOwn(r.found, x, horizon));
      } else {
        SubsetSize(OlderOwn(u, x, horizon), OlderOwn(r.found, x, horizon) - {r.handed});
      }
    } else {
      assert last.None? || last.value == t[x].source by {
        assert live[r.handed].source != live[x].source;
        assert last.Some? ==> last.value.Codex? || last.value.Herdr?;
      }
      SubsetSize(OlderOwn(u, x, horizon), OlderOwn(r.found, x, horizon));
    }
  }

  /** A due row with k older rows of its source and backend due by the horizon cannot wait through
      2(k + 1) calls until then, however many rows of the other source arrive meanwhile and whether the
      uploads succeed or fail; each row that comes back by the horizon after a failure costs two more. */
  lemma {:induction false} BoundedWait(t: Table, last: Option<Source>, rounds: seq<Round>, x: string, horizon: int)
    requires x in t && Waits(t, last, rounds, x, horizon)
    ensures |rounds| <= 2 * (|OlderOwn(t, x, horizon)| + Returns(rounds, t[x].source, horizon)) + Penalty(t, last, x)
    ensures |rounds| < 2 * (|OlderOwn(t, x, horizon)| + Returns(rounds, t[x].source, horizon) + 1)
    decreases |rounds|
  {
    if rounds != [] {
      var r := rounds[0];
      assert Waits(t, last, [r], x, horizon);
      RoundAdvances(t, last, r, x, horizon);
      BoundedWait(After(r), Some(r.found[r.handed].source), rounds[1..], x, horizon);
    }
  }

  /** Enqueueing, of either source, never puts a row before a waiting one unless the clock went back. */
  lemma EnqueueIsFair(e: Events, id: string, row: Row, now: int, x: string, horizon: int)
    requires UniqueRowids(e.rows) && Caps(e.rows) && x in e.rows && e.rows[x].created <= row.created
    requires x in EnqueueRow(e, id, row, now).rows
    ensures Meanwhile(e.rows, EnqueueRow(e, id, row, now).rows, x, horizon)
  {
    EnqueueKeepsCaps(e, id, row, now);
    InsertKeepsRowids(e, id, row);
  }

  /** Nor does any deletion. */
  lemma DeleteIsFair(e: Events, ids: set<string>, why: Fate, x: string, horizon: int)
    requires ids <= e.rows.Keys && x in e.rows && x !in ids
    ensures Meanwhile(e.rows, Delete(e, ids, why).rows, x, horizon)
  {
  }

  /** Nor does any other change of attempts and due time of a row that was due by the horizon, or is not after. */
  lemma RetryIsFair(t: Table, id: string, attempts: nat, next: int, x: string, horizon: int)
    requires id in t && x in t && x != id && (t[id].nextAttempt <= horizon || next > horizon)
    ensures Meanwhile(t, t[id := t[id].(attempts := attempts, nextAttempt := next)], x, horizon)
  {
    var u := t[id := t[id].(attempts := attempts, nextAttempt := next)];
    assert forall j :: j in u ==> j in t && u[j].rowid == t[j].rowid && u[j].created == t[j].created;
  }

  lemma MeanwhileJoins(t: Table, u: Table, v: Table, x: string, horizon: int)
    requires Meanwhile(t, u, x, horizon) && Meanwhile(u, v, x, horizon)
    ensures Meanwhile(t, v, x, horizon)
  {
  }

  lemma NothingMeanwhile(t: Table, x: string, horizon: int)
    requires x in t
    ensures Meanwhile(t, t, x, horizon)
  {
  }
}
