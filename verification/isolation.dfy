/** No amount of Herdr traffic evicts, delays or alters a queued Codex event. */
module CodexIsolation {
  import opened PendingEvents

  /** What may happen to the table. Deletions by pane, incarnation or disabling name Herdr rows. */
  datatype Op =
    | AddCodex(id: string, row: Row, now: int)
    | AddHerdr(id: string, row: Row, now: int)
    | Tick(now: int)
    | Complete(id: string, fate: Fate)
    | Retry(id: string, attempts: nat, nextAttempt: int)
    | AssignBackend(endpoint: string)
    | DropHerdr(ids: set<string>)
    | Clear

  function Retried(t: Table, id: string, attempts: nat, nextAttempt: int): Table {
    if id in t then t[id := t[id].(attempts := attempts, nextAttempt := nextAttempt)] else t
  }

  /** UPDATE ... SET backend WHERE backend = '' */
  function Assigned(t: Table, endpoint: string): Table {
    map id | id in t :: if t[id].backend == "" then t[id].(backend := endpoint) else t[id]
  }

  function HerdrAmong(t: Table, ids: set<string>): set<string> { set id | id in ids && id in t && t[id].source == Herdr }

  ghost function Apply(e: Events, op: Op): Events {
    match op
    case AddCodex(id, row, now) => EnqueueRow(e, id, row, now)
    case AddHerdr(id, row, now) => EnqueueRow(e, id, row, now)
    case Tick(now) => Purge(e, now)
    case Complete(id, fate) => Delete(e, {id} * e.rows.Keys, fate)
    case Retry(id, attempts, next) => e.(rows := Retried(e.rows, id, attempts, next))
    case AssignBackend(endpoint) => e.(rows := Assigned(e.rows, endpoint))
    case DropHerdr(ids) => Delete(e, HerdrAmong(e.rows, ids), Discarded)
    case Clear => Delete(e, e.rows.Keys, Discarded)
  }

  ghost function Run(e: Events, ops: seq<Op>): Events
    decreases |ops|
  {
    if ops == [] then e else Run(Apply(e, ops[0]), ops[1..])
  }

  predicate Live(t: Table, now: int, id: string) { id in t && t[id].source == Codex && t[id].expires > now }

  /** No expired row, and no Herdr row, holds the id: absent, or pending under the same id. */
  predicate Free(t: Table, now: int, id: string) { id in t ==> Live(t, now, id) }

  /** Equal in everything a client can see. */
  predicate SameRow(a: Row, b: Row) {
    a.body == b.body && a.attempts == b.attempts && a.nextAttempt == b.nextAttempt && a.created == b.created
    && a.expires == b.expires && a.backend == b.backend
  }

  /** The unexpired Codex rows are the same, in the same order. */
  ghost predicate SameCodex(t: Table, u: Table, now: int) {
    && (forall id :: Live(t, now, id) <==> Live(u, now, id))
    && (forall id :: Live(t, now, id) ==> SameRow(t[id], u[id]))
    && (forall a, b :: Live(t, now, a) && Live(t, now, b) ==> (t[a].rowid < t[b].rowid <==> u[a].rowid < u[b].rowid))
  }

  ghost predicate Sound(e: Events) { UniqueRowids(e.rows) && Caps(e.rows) }

  /** t and u have the same keys, sources, sessions, times and rowids. */
  ghost predicate SameSkeleton(t: Table, u: Table) {
    t.Keys == u.Keys && forall id :: id in t ==>
      t[id].source == u[id].source && t[id].session == u[id].session && t[id].rowid == u[id].rowid
  }

  lemma SkeletonIsSound(t: Table, e: Events)
    requires Sound(e) && SameSkeleton(t, e.rows)
    ensures UniqueRowids(t) && Caps(t)
  {
    assert forall scope :: Members(t, scope) == Members(e.rows, scope);
  }

  lemma ApplyIsSound(e: Events, op: Op)
    requires Sound(e)
    ensures Sound(Apply(e, op))
  {
    match op
    case AddCodex(id, row, now) => EnqueueKeepsCaps(e, id, row, now);
    case AddHerdr(id, row, now) => EnqueueKeepsCaps(e, id, row, now);
    case Retry(_, _, _) => SkeletonIsSound(Apply(e, op).rows, e);
    case AssignBackend(_) => SkeletonIsSound(Apply(e, op).rows, e);
    case _ => PartKeepsCaps(Apply(e, op).rows, e.rows);
  }

  lemma CodexOutranksHerdr(e: Events, id: string, row: Row, now: int, j: string)
    requires Caps(e.rows) && id !in e.rows && row.source == Herdr && Live(e.rows, now, j)
    ensures Survives(Insert(e, id, row).rows, now, j)
  {
    var newer := NewerKept(Insert(e, id, row).rows, now, j);
    assert newer <= Members(e.rows, Everything) - {j};
    SubsetSize(newer, Members(e.rows, Everything) - {j});
  }

  /** A Herdr insertion leaves every unexpired Codex row in place. */
  lemma HerdrKeepsCodex(e: Events, id: string, row: Row, now: int, j: string)
    requires Sound(e) && id !in e.rows && row.source == Herdr
    ensures Live(EnqueueRow(e, id, row, now).rows, now, j) <==> Live(e.rows, now, j)
    ensures Live(e.rows, now, j) ==> EnqueueRow(e, id, row, now).rows[j] == e.rows[j]
  {
    EnqueueKeepsCaps(e, id, row, now);
    if Live(e.rows, now, j) {
      InsertLeavesOthersCapped(e, id, row);
      CodexOutranksHerdr(e, id, row, now, j);
      PassesAreClosedForm(Insert(e, id, row), row.session, now, j);
    }
  }

  lemma SameCodexLater(t: Table, u: Table, now: int, later: int)
    requires SameCodex(t, u, now) && now <= later
    ensures SameCodex(t, u, later)
  {
    assert forall id :: Live(t, later, id) ==> Live(t, now, id);
    assert forall id :: Live(u, later, id) ==> Live(u, now, id);
  }

  /** Replacing t by a table with the same live Codex rows keeps the relation. */
  lemma SameCodexVia(t: Table, v: Table, u: Table, now: int)
    requires SameCodex(t, u, now)
    requires forall j :: (Live(v, now, j) <==> Live(t, now, j)) && (Live(t, now, j) ==> v[j] == t[j])
    ensures SameCodex(v, u, now)
  {
  }

  lemma InsertedTogether(e: Events, f: Events, id: string, row: Row, now: int)
    requires UniqueRowids(e.rows) && UniqueRowids(f.rows) && (id in e.rows <==> id in f.rows) && row.source == Codex
    requires SameCodex(e.rows, f.rows, now)
    ensures SameCodex(Insert(e, id, row).rows, Insert(f, id, row).rows, now)
  {
    InsertKeepsRowids(e, id, row);
    InsertKeepsRowids(f, id, row);
    hide NextRowid, UniqueRowids, SameCodex;
    if id !in e.rows {
      AddedTogether(e.rows, f.rows, id, Insert(e, id, row).rows[id], Insert(f, id, row).rows[id], now);
    }
  }

  /** A Codex row after all others on both sides. */
  lemma AddedTogether(t: Table, u: Table, id: string, a: Row, b: Row, now: int)
    requires SameCodex(t, u, now) && id !in t && id !in u
    requires a.source == b.source && a.expires == b.expires && SameRow(a, b)
    requires (forall j :: j in t ==> t[j].rowid < a.rowid) && forall j :: j in u ==> u[j].rowid < b.rowid
    ensures SameCodex(t[id := a], u[id := b], now)
  {
    hide SameRow;
    var t', u' := t[id := a], u[id := b];
    forall j
      ensures j != id ==> (Live(t', now, j) <==> Live(t, now, j)) && (Live(u', now, j) <==> Live(u, now, j))
      ensures Live(t', now, j) <==> Live(u', now, j)
      ensures Live(t', now, j) ==> SameRow(t'[j], u'[j])
    {
    }
    forall i, j | Live(t', now, i) && Live(t', now, j)
      ensures t'[i].rowid < t'[j].rowid <==> u'[i].rowid < u'[j].rowid
    {
      assert i != id ==> Live(t, now, i) && Live(u, now, i);
      assert j != id ==> Live(t, now, j) && Live(u, now, j);
    }
  }

  /** The cap of 500 ranks a Codex row by Codex rows only, so both runs evict the same ones. */
  lemma SameEviction(t: Table, u: Table, now: int, j: string)
    requires SameCodex(t, u, now) && Live(t, now, j)
    ensures Survives(t, now, j) <==> Survives(u, now, j)
  {
    forall k
      ensures k in NewerKept(t, now, j) <==> k in NewerKept(u, now, j)
    {
      assert Live(t, now, k) <==> Live(u, now, k);
    }
    assert NewerKept(t, now, j) == NewerKept(u, now, j);
  }

  /** Which unexpired Codex rows an enqueue leaves. */
  lemma LiveAfterEnqueue(e: Events, id: string, row: Row, now: int)
    requires Sound(e) && Free(e.rows, now, id) && row.source == Codex
    ensures var t := Insert(e, id, row).rows; var u := EnqueueRow(e, id, row, now).rows;
      PartOf(u, t) && forall j :: Live(u, now, j) <==> Live(t, now, j) && Survives(t, now, j)
  {
    var e0, u := Insert(e, id, row), EnqueueRow(e, id, row, now).rows;
    InsertLeavesOthersCapped(e, id, row);
    EnqueueKeepsCaps(e, id, row, now);
    hide Caps, UniqueRowids, Survives, EnqueueRow, Insert;
    forall j ensures Live(u, now, j) <==> Live(e0.rows, now, j) && Survives(e0.rows, now, j) {
      if Live(e0.rows, now, j) {
        PassesAreClosedForm(e0, row.session, now, j);
      }
    }
  }

  lemma CodexAddedTogether(e: Events, f: Events, id: string, row: Row, now: int)
    requires Sound(e) && Sound(f) && Free(e.rows, now, id) && Free(f.rows, now, id) && row.source == Codex
    requires SameCodex(e.rows, f.rows, now)
    ensures SameCodex(EnqueueRow(e, id, row, now).rows, EnqueueRow(f, id, row, now).rows, now)
  {
    var t, u := Insert(e, id, row).rows, Insert(f, id, row).rows;
    InsertedTogether(e, f, id, row, now);
    InsertLeavesOthersCapped(e, id, row);
    InsertLeavesOthersCapped(f, id, row);
    LiveAfterEnqueue(e, id, row, now);
    LiveAfterEnqueue(f, id, row, now);
    hide Caps, UniqueRowids, Survives, EnqueueRow, Insert;
    forall j ensures Live(t, now, j) ==> (Survives(t, now, j) <==> Survives(u, now, j)) {
      if Live(t, now, j) {
        SameEviction(t, u, now, j);
      }
    }
    SameCodexPart(t, u, EnqueueRow(e, id, row, now).rows, EnqueueRow(f, id, row, now).rows, now);
  }

  lemma SameCodexPart(t: Table, u: Table, t': Table, u': Table, now: int)
    requires SameCodex(t, u, now) && PartOf(t', t) && PartOf(u', u)
    requires forall j :: Live(t', now, j) <==> Live(u', now, j)
    ensures SameCodex(t', u', now)
  {
    assert forall j :: Live(t', now, j) ==> Live(t, now, j);
  }

  lemma DeletedTogether(e: Events, f: Events, a: set<string>, b: set<string>, why: Fate, now: int)
    requires SameCodex(e.rows, f.rows, now) && a <= e.rows.Keys && b <= f.rows.Keys
    requires forall j :: Live(e.rows, now, j) ==> (j in a <==> j in b)
    ensures SameCodex(Delete(e, a, why).rows, Delete(f, b, why).rows, now)
  {
    var t, u := Delete(e, a, why).rows, Delete(f, b, why).rows;
    forall j
      ensures Live(t, now, j) <==> Live(u, now, j)
    {
      assert Live(e.rows, now, j) <==> Live(f.rows, now, j);
    }
    SameCodexPart(e.rows, f.rows, t, u, now);
  }

  lemma UpdatedTogether(e: Events, f: Events, op: Op, now: int)
    requires SameCodex(e.rows, f.rows, now) && (op.Retry? || op.AssignBackend?)
    ensures SameCodex(Apply(e, op).rows, Apply(f, op).rows, now)
  {
    match op
    case Retry(id, attempts, next) =>
      forall j | Live(e.rows, now, j)
        ensures SameRow(Retried(e.rows, id, attempts, next)[j], Retried(f.rows, id, attempts, next)[j])
      {
      }
      RewrittenTogether(e.rows, f.rows, Retried(e.rows, id, attempts, next), Retried(f.rows, id, attempts, next), now);
    case AssignBackend(endpoint) =>
      RewrittenTogether(e.rows, f.rows, Assigned(e.rows, endpoint), Assigned(f.rows, endpoint), now);
  }

  /** Same ids, sources, expiries and rowids. */
  ghost predicate SameShape(t: Table, t': Table) {
    t.Keys == t'.Keys && forall j :: j in t ==>
      t'[j].source == t[j].source && t'[j].expires == t[j].expires && t'[j].rowid == t[j].rowid
  }

  lemma RewrittenTogether(t: Table, u: Table, t': Table, u': Table, now: int)
    requires SameCodex(t, u, now) && SameShape(t, t') && SameShape(u, u')
    requires forall j :: Live(t, now, j) ==> SameRow(t'[j], u'[j])
    ensures SameCodex(t', u', now)
  {
    hide SameRow;
    assert forall j :: Live(t', now, j) <==> Live(t, now, j);
    assert forall j :: Live(u', now, j) <==> Live(u, now, j);
  }

  lemma OtherOpsKeepSame(e: Events, f: Events, op: Op, now: int)
    requires SameCodex(e.rows, f.rows, now) && !op.AddCodex? && !op.AddHerdr?
    requires op.Tick? ==> op.now == now
    ensures SameCodex(Apply(e, op).rows, Apply(f, op).rows, now)
  {
    match op
    case Tick(_) => DeletedTogether(e, f, Stale(e.rows, now), Stale(f.rows, now), Expired, now);
    case Complete(id, fate) => DeletedTogether(e, f, {id} * e.rows.Keys, {id} * f.rows.Keys, fate, now);
    case DropHerdr(ids) => DeletedTogether(e, f, HerdrAmong(e.rows, ids), HerdrAmong(f.rows, ids), Discarded, now);
    case Clear => DeletedTogether(e, f, e.rows.Keys, f.rows.Keys, Discarded, now);
    case _ => UpdatedTogether(e, f, op, now);
  }

  /** Why ids must be free: INSERT OR IGNORE runs before the expiry pass, so a Codex event whose id is
      still held by an expired row is lost together with that row; otherwise it is pending afterwards. */
  lemma EnqueuedCodexIsPendingIfFree(e: Events, id: string, row: Row, now: int)
    requires Sound(e) && row.source == Codex && row.expires > now
    requires id in e.rows ==> e.rows[id].source == Codex
    requires forall j :: j in e.rows ==> e.rows[j].created <= row.created
    ensures id in EnqueueRow(e, id, row, now).rows <==> Free(e.rows, now, id)
  {
    InsertKeepsRowids(e, id, row);
    if id !in e.rows {
      InsertIs(e, id, row);
    }
    InsertLeavesOthersCapped(e, id, row);
    EnqueueIsPasses(e, id, row, now);
    PassesAreClosedForm(Insert(e, id, row), row.session, now, id);
    hide UniqueRowids, EnqueueRow, Passes, Survives, NextRowid, Insert;
    if id in e.rows {
      InsertIgnored(e, id, row);
      AnyCodexSurvives(e.rows, now, id);
    } else {
      NewestCodexSurvives(e.rows, Insert(e, id, row).rows, now, id);
    }
  }

  lemma InsertIgnored(e: Events, id: string, row: Row)
    requires id in e.rows
    ensures Insert(e, id, row) == e
  {
  }

  lemma AnyCodexSurvives(t: Table, now: int, id: string)
    requires Caps(t) && id in t && t[id].source == Codex
    ensures Survives(t, now, id) <==> t[id].expires > now
  {
    var newer := NewerKept(t, now, id);
    SubsetSize(newer, Members(t, Everything) - {id});
  }

  lemma NewestCodexSurvives(t: Table, u: Table, now: int, id: string)
    requires id !in t && id in u && u == t[id := u[id]] && u[id].source == Codex && u[id].expires > now
    requires forall j :: j in t ==> t[j].created <= u[id].created && t[j].rowid < u[id].rowid
    ensures Survives(u, now, id)
  {
    assert NewerKept(u, now, id) == {};
  }
}
