/** The publisher's own code (internal/publisher/publisher.go): topUp and handleAck of the ACK mode,
    proved to take only steps of the Pipeline, and the fire-and-forget flush. */
module Publisher {
  import opened Decimal
  import opened Deposits
  import opened BufferStore
  import opened Pipeline
  import opened AckWindow

  /** The outstanding map: ids sent on this connection whose ACK is awaited. */
  class Outstanding {
    var items: map<string, Key>

    constructor ()
      ensures items == map[]
    {
      items := map[];
    }

    /** A new id makes the window one larger; the others keep their keys. */
    method Add(id: string, k: Key)
      modifies this
      ensures items == old(items)[id := k]
      ensures |items| == |old(items)| + if id in old(items) then 0 else 1
    {
      assert items[id := k].Keys == items.Keys + {id};
      items := items[id := k];
    }

    method Take(id: string) returns (found: bool, k: Key)
      modifies this
      ensures found <==> id in old(items)
      ensures found ==> k == old(items)[id]
      ensures items == old(items) - {id}
    {
      if id in items {
        found, k := true, items[id];
        items := items - {id};
      } else {
        found, k := false, Key(0, "", 0);
      }
    }
  }

  // ---------- topUp ----------

  /** The same steps taken in the system: only the connection differs, and it now is `c`. */
  ghost predicate OnLink(w: World, s: System, t: System, c: Conn) {
    Leads(w, s, t) && t == s.(link := Up(c))
  }

  ghost method Act(w: World, s: System, t: System, c: Conn, a: PubAction) returns (v: System)
    requires OnLink(w, s, t, c) && (Quiet(a) || a.Write?) && Enabled(w, s, c, a)
    ensures OnLink(w, s, v, ConnAfter(w, s, c, a).conn)
  {
    v := t.(link := ConnAfter(w, t, c, a));
    LeadsOn(w, s, t, v, ByPublisher(a));
  }

  ghost method BeginFill(w: World, s: System, c: Conn) returns (v: System, c': Conn)
    requires s.link == Up(c) && c.phase.Selecting? && |c.out| < w.maxInFlight
    ensures c' == c.(phase := Filling(Payloads(Prefix(s.db.rows, FetchLimit(w))))) && OnLink(w, s, v, c')
  {
    LeadsNowhere(w, s);
    v := Act(w, s, s, c, Fetch);
    c' := v.link.conn;
  }

  ghost method FinishFill(w: World, s: System, t: System, c: Conn) returns (v: System, c': Conn)
    requires OnLink(w, s, t, c) && c.phase.Filling? && (|c.out| >= w.maxInFlight || c.phase.todo == [])
    ensures c' == c.(phase := Selecting) && OnLink(w, s, v, c')
  {
    v := Act(w, s, t, c, EndFill);
    c' := c.(phase := Selecting);
  }

  /** The window after a top-up that found `rows` in the buffer. */
  ghost predicate Filled(w: World, rows: seq<Row>, out: set<string>) {
    && |out| <= w.maxInFlight
    && (|out| == w.maxInFlight || forall d | d in Payloads(Prefix(rows, FetchLimit(w))) :: IdOf(d) in out)
  }

  lemma {:induction false} PayloadIds(rows: seq<Row>)
    ensures (set d | d in Payloads(rows) :: IdOf(d)) == IdSet(rows)
  {
    hide AckId;
    var ids := set d | d in Payloads(rows) :: IdOf(d);
    forall id | id in IdSet(rows) ensures id in ids {
      var i :| 0 <= i < |rows| && IdOf(rows[i].deposit) == id;
      assert Payloads(rows)[i] in Payloads(rows);
    }
  }

  /** Pigeonhole: a filled window whose ids are all buffer ids holds at least the fetch limit and at
      most the window, capped by the buffer; with a batch no smaller than the window that is exact. */
  lemma WindowSize(w: World, rows: seq<Row>, out: set<string>)
    requires UniqueKeys(rows)
    ensures Filled(w, rows, out) && out <= IdSet(rows) ==>
              Min(FetchLimit(w), |rows|) <= |out| <= Min(w.maxInFlight, |rows|)
    ensures Filled(w, rows, out) && out <= IdSet(rows) && w.maxBatch >= w.maxInFlight ==>
              |out| == Min(w.maxInFlight, |rows|)
  {
    hide AckId;
    if Filled(w, rows, out) && out <= IdSet(rows) {
      IdSetSize(rows);
      Within(out, IdSet(rows));
      if |out| < w.maxInFlight {
        var fetched := Prefix(rows, FetchLimit(w));
        IdSetSize(fetched);
        PayloadIds(fetched);
        Within(IdSet(fetched), out);
      }
    }
  }

  /** The connection after one more message was written and recorded. */
  ghost function AfterSend(c: Conn, d: Deposit, rest: seq<Deposit>): Conn {
    c.(phase := Filling(rest), out := c.out[IdOf(d) := d.key], wire := c.wire + [d], written := c.written + {d.key})
  }

  /** The loop body of topUp for the next fetched row. */
  method Consider(w: World, out: Outstanding, d: Deposit, writes: bool, ghost rest: seq<Deposit>,
                  ghost s: System, ghost t: System, ghost c: Conn)
    returns (ok: bool, sends: bool, ghost t': System, ghost c': Conn)
    requires OnLink(w, s, t, c) && c.phase == Filling([d] + rest) && c.out == out.items && |c.out| < w.maxInFlight
    modifies out
    ensures OnLink(w, s, t', c') && c'.out == out.items
    ensures ok <==> IdOf(d) in old(out.items) || writes
    ensures ok ==> (sends <==> IdOf(d) !in old(out.items))
    ensures ok ==> c' == if sends then AfterSend(c, d, rest) else c.(phase := Filling(rest))
    ensures !ok ==> c' == c
  {
    hide AckId;
    t', c', sends := t, c, false;
    assert ([d] + rest)[1..] == rest;
    if AckId(d.key) in out.items {
      t' := Act(w, s, t', c', SkipSent);
      c' := t'.link.conn;
      return true, false, t', c';
    }
    if !writes { return false, false, t', c'; }
    t' := Act(w, s, t', c', Write);
    c' := t'.link.conn;
    out.Add(AckId(d.key), d.key);
    t' := Act(w, s, t', c', Record);
    c' := t'.link.conn;
    return true, true, t', c';
  }

  /** The deposits whose id is neither in `ids` nor that of an earlier one, in order. */
  ghost function Fresh(ds: seq<Deposit>, ids: set<string>): seq<Deposit> {
    if ds == [] then []
    else
      var last := |ds| - 1;
      Fresh(ds[..last], ids) +
      (if IdOf(ds[last]) in ids || exists j | 0 <= j < last :: IdOf(ds[j]) == IdOf(ds[last]) then [] else [ds[last]])
  }

  /** Of the first `n` fetched deposits the new ones were sent, and all of them are outstanding. */
  ghost predicate SoFar(pending: seq<Deposit>, n: nat, ids: set<string>, out: set<string>, sent: seq<Deposit>) {
    && n <= |pending| && sent == Fresh(pending[..n], ids)
    && out == ids + set d | d in pending[..n] :: IdOf(d)
  }

  lemma SoFarNone(pending: seq<Deposit>, ids: set<string>)
    ensures SoFar(pending, 0, ids, ids, [])
  {
  }

  lemma SoFarNext(ds: seq<Deposit>, i: nat, ids: set<string>, out: set<string>, sent: seq<Deposit>)
    requires SoFar(ds, i, ids, out, sent) && i < |ds|
    ensures IdOf(ds[i]) in out ==> SoFar(ds, i + 1, ids, out, sent)
    ensures IdOf(ds[i]) !in out ==> SoFar(ds, i + 1, ids, out + {IdOf(ds[i])}, sent + [ds[i]])
  {
    hide AckId;
    var before, after := ds[..i], ds[..i + 1];
    assert after[..i] == before && after == before + [ds[i]];
    assert (set d | d in after :: IdOf(d)) == (set d | d in before :: IdOf(d)) + {IdOf(ds[i])};
    FreshNext(before, ds[i], ids, out);
    hide Fresh;
  }

  lemma FreshNext(before: seq<Deposit>, d: Deposit, ids: set<string>, out: set<string>)
    requires out == ids + set d | d in before :: IdOf(d)
    ensures Fresh(before + [d], ids) == Fresh(before, ids) + if IdOf(d) in out then [] else [d]
  {
    hide AckId;
    var after := before + [d];
    assert after[..|before|] == before;
    assert forall j | 0 <= j < |before| :: after[j] == before[j] && IdOf(before[j]) in out;
    if IdOf(d) in out && IdOf(d) !in ids {
      var d' :| d' in before && IdOf(d') == IdOf(d);
      var j :| 0 <= j < |before| && before[j] == d';
      assert IdOf(after[j]) == IdOf(d);
    }
  }

  /** Enough was sent: the window is filled, and still holds ids of buffer rows only. */
  lemma SoFarFills(w: World, rows: seq<Row>, n: nat, ids: set<string>, out: set<string>, sent: seq<Deposit>)
    requires SoFar(Payloads(Prefix(rows, FetchLimit(w))), n, ids, out, sent)
    ensures ids <= IdSet(rows) ==> out <= IdSet(rows)
    ensures |out| <= w.maxInFlight && (n == |Prefix(rows, FetchLimit(w))| || |out| == w.maxInFlight) ==>
              Filled(w, rows, out)
  {
    hide AckId;
    PrefixListed(rows, FetchLimit(w));
    var pending := Payloads(Prefix(rows, FetchLimit(w)));
    assert n == |pending| ==> pending[..n] == pending;
  }

  /** What sending `sent` did to the connection `c`. */
  ghost predicate Sent(c: Conn, c': Conn, sent: seq<Deposit>) {
    && c'.wire == c.wire + sent && c'.queue == c.queue && c'.acks == c.acks && c'.inbox == c.inbox
    && c'.out.Keys == c.out.Keys + (set d | d in sent :: IdOf(d))
    && forall d | d in sent :: IdOf(d) !in c.out
  }

  lemma SentNothing(c: Conn, phase: Phase)
    ensures Sent(c, c.(phase := phase), [])
  {
  }

  lemma SentOneMore(c: Conn, c': Conn, sent: seq<Deposit>, d: Deposit, rest: seq<Deposit>)
    requires Sent(c, c', sent)
    ensures IdOf(d) !in c'.out ==> Sent(c, AfterSend(c', d, rest), sent + [d])
    ensures Sent(c, c'.(phase := Filling(rest)), sent)
  {
    hide AckId;
    assert (set e | e in sent + [d] :: IdOf(e)) == (set e | e in sent :: IdOf(e)) + {IdOf(d)};
    assert AfterSend(c', d, rest).out.Keys == c'.out.Keys + {IdOf(d)};
  }

  lemma AfterSendOut(c: Conn, d: Deposit, rest: seq<Deposit>)
    requires IdOf(d) !in c.out
    ensures AfterSend(c, d, rest).out.Keys == c.out.Keys + {IdOf(d)}
    ensures |AfterSend(c, d, rest).out| == |c.out| + 1
    ensures AfterSend(c, d, rest).phase == Filling(rest)
  {
    hide AckId;
    assert AfterSend(c, d, rest).out.Keys == c.out.Keys + {IdOf(d)};
  }

  /** What the loop keeps: the books of the connection and of the fetched deposits, and where it stands. */
  ghost predicate SendState(c: Conn, now: Conn, pending: seq<Deposit>, i: nat, sent: seq<Deposit>) {
    && Sent(c, now, sent) && SoFar(pending, i, c.out.Keys, now.out.Keys, sent)
    && i <= |pending| && now.phase == Filling(pending[i..])
  }

  lemma SendStateStarts(c: Conn, pending: seq<Deposit>)
    requires c.phase == Filling(pending)
    ensures SendState(c, c, pending, 0, [])
  {
    SentNothing(c, c.phase);
    SoFarNone(pending, c.out.Keys);
    assert pending[0..] == pending;
  }

  lemma TailSplits(ds: seq<Deposit>, i: nat)
    requires i < |ds|
    ensures ds[i..] == [ds[i]] + ds[i + 1..]
  {
  }

  lemma SendStateSkips(c: Conn, now: Conn, pending: seq<Deposit>, i: nat, sent: seq<Deposit>)
    requires SendState(c, now, pending, i, sent) && i < |pending| && IdOf(pending[i]) in now.out
    ensures SendState(c, now.(phase := Filling(pending[i + 1..])), pending, i + 1, sent)
  {
    SoFarNext(pending, i, c.out.Keys, now.out.Keys, sent);
    SentOneMore(c, now, sent, pending[i], pending[i + 1..]);
    hide AckId;
    hide SoFar;
    hide Sent;
  }

  lemma SendStateSends(c: Conn, now: Conn, pending: seq<Deposit>, i: nat, sent: seq<Deposit>)
    requires SendState(c, now, pending, i, sent) && i < |pending| && IdOf(pending[i]) !in now.out
    ensures SendState(c, AfterSend(now, pending[i], pending[i + 1..]), pending, i + 1, sent + [pending[i]])
    ensures |AfterSend(now, pending[i], pending[i + 1..]).out| == |now.out| + 1
    ensures AfterSend(now, pending[i], pending[i + 1..]).phase == Filling(pending[i + 1..])
  {
    SoFarNext(pending, i, c.out.Keys, now.out.Keys, sent);
    SentOneMore(c, now, sent, pending[i], pending[i + 1..]);
    AfterSendOut(now, pending[i], pending[i + 1..]);
    hide AckId;
    hide SoFar;
    hide Sent;
    hide AfterSend;
  }

  /** One iteration of the send loop. */
  method SendNext(w: World, out: Outstanding, pending: seq<Deposit>, i: nat, writes: bool, ghost sent: seq<Deposit>,
                  ghost s: System, ghost t: System, ghost c: Conn, ghost now: Conn)
    returns (ok: bool, sends: bool, ghost t': System, ghost now': Conn)
    requires OnLink(w, s, t, now) && now.out == out.items && |now.out| < w.maxInFlight
    requires i < |pending| && SendState(c, now, pending, i, sent)
    modifies out
    ensures OnLink(w, s, t', now') && now'.out == out.items
    ensures ok ==> SendState(c, now', pending, i + 1, if sends then sent + [pending[i]] else sent)
    ensures ok ==> |now'.out| == |now.out| + if sends then 1 else 0
    ensures !ok ==> now' == now && !writes && IdOf(pending[i]) !in now.out
  {
    hide AckId;
    hide OnLink;
    hide AfterSend;
    TailSplits(pending, i);
    if IdOf(pending[i]) in now.out {
      SendStateSkips(c, now, pending, i, sent);
    } else {
      SendStateSends(c, now, pending, i, sent);
    }
    SendStatePhase(c, now, pending, i, sent);
    hide SendState;
    ok, sends, t', now' := Consider(w, out, pending[i], writes, pending[i + 1..], s, t, now);
  }

  /** The send loop of topUp over the fetched rows: of the first `n` it sends those that are new. */
  method SendPending(w: World, out: Outstanding, pending: seq<Deposit>, writes: nat -> bool,
                     ghost s: System, ghost t: System, ghost c: Conn)
    returns (ok: bool, sent: seq<Deposit>, ghost n: nat, ghost s': System, ghost c': Conn)
    requires OnLink(w, s, t, c) && c.phase == Filling(pending) && c.out == out.items && |c.out| < w.maxInFlight
    modifies out
    ensures OnLink(w, s, s', c') && c'.out == out.items && SendState(c, c', pending, n, sent)
    ensures ok ==> |c'.out| <= w.maxInFlight && (n == |pending| || |c'.out| == w.maxInFlight)
    ensures !ok ==> n < |pending| && !writes(n) && IdOf(pending[n]) !in c'.out
  {
    hide *;
    s', c', sent, n := t, c, [], 0;
    SendStateStarts(c, pending);
    var available := w.maxInFlight - |out.items|;
    var i := 0;
    while i < |pending| && available > 0
      invariant 0 <= i == n <= |pending| && 0 <= available == w.maxInFlight - |c'.out|
      invariant OnLink(w, s, s', c') && c'.out == out.items
      invariant SendState(c, c', pending, n, sent)
    {
      var sends;
      ok, sends, s', c' := SendNext(w, out, pending, i, writes(i), sent, s, s', c, c');
      if !ok { return false, sent, n, s', c'; }
      if sends {
        sent := sent + [pending[i]];
        available := available - 1;
      }
      i, n := i + 1, n + 1;
    }
    return true, sent, n, s', c';
  }

  /** What a top-up did to the connection `c`, `rows` being in the buffer: of the first `n` fetched rows
      it sent the new ones in order; if it succeeded the window is filled; outstanding ids stay ids of
      buffer rows, and then the window has the size the pigeonhole gives. */
  ghost predicate ToppedUp(w: World, rows: seq<Row>, c: Conn, c': Conn, n: nat, sent: seq<Deposit>, ok: bool) {
    && Sent(c, c', sent)
    && SoFar(Payloads(Prefix(rows, FetchLimit(w))), n, c.out.Keys, c'.out.Keys, sent)
    && (ok ==> c'.phase.Selecting? && Filled(w, rows, c'.out.Keys))
    && (c.out.Keys <= IdSet(rows) ==> c'.out.Keys <= IdSet(rows))
    && (ok && c.out.Keys <= IdSet(rows) ==>
          Min(FetchLimit(w), |rows|) <= |c'.out| <= Min(w.maxInFlight, |rows|))
  }

  lemma ToppedUpNothing(w: World, rows: seq<Row>, c: Conn, ok: bool)
    requires UniqueKeys(rows) && c.phase.Selecting? && (ok ==> |c.out| == w.maxInFlight)
    ensures ToppedUp(w, rows, c, c, 0, [], ok)
  {
    SentNothing(c, c.phase);
    SoFarNone(Payloads(Prefix(rows, FetchLimit(w))), c.out.Keys);
    WindowSize(w, rows, c.out.Keys);
    hide Sent;
    hide SoFar;
    hide IdSet;
  }

  lemma ToppedUpSome(w: World, rows: seq<Row>, c: Conn, begun: Conn, c': Conn, n: nat, sent: seq<Deposit>, ok: bool)
    requires UniqueKeys(rows) && SendState(begun, c', Payloads(Prefix(rows, FetchLimit(w))), n, sent)
    requires begun == c.(phase := begun.phase)
    requires ok ==> |c'.out| <= w.maxInFlight && (n == |Prefix(rows, FetchLimit(w))| || |c'.out| == w.maxInFlight)
    ensures ToppedUp(w, rows, c, if ok then c'.(phase := Selecting) else c', n, sent, ok)
    ensures n == |Prefix(rows, FetchLimit(w))| ==> c'.phase == Filling([])
  {
    hide Sent;
    hide SoFar;
    hide IdSet;
    hide Filled;
    hide UniqueKeys;
    PayloadsLength(Prefix(rows, FetchLimit(w)));
    hide Payloads;
    hide Prefix;
    SentPhases(c, begun, c', sent);
    SoFarFills(w, rows, n, c.out.Keys, c'.out.Keys, sent);
    WindowSize(w, rows, c'.out.Keys);
  }

  lemma PayloadsLength(rows: seq<Row>)
    ensures |Payloads(rows)| == |rows|
  {
  }

  lemma {:induction false} IdsBound(ds: seq<Deposit>)
    ensures |set d | d in ds :: IdOf(d)| <= |ds|
  {
    hide AckId;
    if ds == [] {
      assert (set d | d in ds :: IdOf(d)) == {};
    } else {
      var last := |ds| - 1;
      IdsBound(ds[..last]);
      assert ds == ds[..last] + [ds[last]];
      assert (set d | d in ds :: IdOf(d)) == (set d | d in ds[..last] :: IdOf(d)) + {IdOf(ds[last])};
    }
  }

  /** Starting from an empty window, every successful top-up leaves exactly as many messages outstanding
      as it may fetch, or as there are rows; so it fills the window as far as the rows allow if and
      only if the batch limit does not stand in the way. */
  lemma EmptyWindowFills(w: World, rows: seq<Row>, c: Conn, c': Conn, n: nat, sent: seq<Deposit>)
    requires UniqueKeys(rows) && c.out == map[] && ToppedUp(w, rows, c, c', n, sent, true)
    ensures |c'.out| == Min(FetchLimit(w), |rows|)
    ensures |c'.out| == Min(w.maxInFlight, |rows|) <==> Min(w.maxInFlight, |rows|) <= w.maxBatch
  {
    hide AckId;
    hide Filled;
    hide Sent;
    hide IdSet;
    var pending := Payloads(Prefix(rows, FetchLimit(w)));
    IdsBound(pending[..n]);
    assert c.out.Keys == {};
    assert c'.out.Keys == set d | d in pending[..n] :: IdOf(d);
    assert c.out.Keys <= IdSet(rows);
    assert |c'.out| == |c'.out.Keys|;
  }

  /** Fetch the oldest rows and send those not outstanding, oldest first, until the window is full.
      `answers` tells whether the query succeeds, `writes(i)` whether the i-th fetched row can be written;
      an error, after which the connection is dropped, means that the query failed or that the next
      row to send could not be written. */
  method TopUp(w: World, repo: BufferRepo, out: Outstanding, answers: bool, writes: nat -> bool,
               ghost s: System, ghost c: Conn)
    returns (ok: bool, sent: seq<Deposit>, ghost n: nat, ghost s': System, ghost c': Conn)
    requires repo.Valid() && s.db == repo.Contents() && s.link == Up(c)
    requires c.phase.Selecting? && c.out == out.items && |c.out| <= w.maxInFlight
    modifies out
    ensures OnLink(w, s, s', c') && c'.out == out.items
    ensures ToppedUp(w, repo.rows, c, c', n, sent, ok)
    ensures !ok ==> |c.out| < w.maxInFlight && (!answers || Unwritten(w, repo.rows, c', n, writes))
    ensures ok ==> |c.out| == w.maxInFlight || answers
  {
    hide AckId;
    hide ToppedUp;
    hide SendState;
    s', c', sent, n := s, c, [], 0;
    LeadsNowhere(w, s);
    hide Leads;
    var available := w.maxInFlight - |out.items|;
    if available <= 0 {
      ToppedUpNothing(w, repo.rows, c, true);
      return true, sent, n, s', c';
    }
    var limit := available + |out.items|;
    if limit > w.maxBatch { limit := w.maxBatch; }
    var fetched, pending := repo.PendingAll(limit, answers);
    if !fetched {
      ToppedUpNothing(w, repo.rows, c, false);
      return false, sent, n, s', c';
    }
    s', c' := BeginFill(w, s, c);
    ghost var begun := c';
    ok, sent, n, s', c' := SendPending(w, out, pending, writes, s, s', c');
    SendStatePhase(begun, c', pending, n, sent);
    ToppedUpSome(w, repo.rows, c, begun, c', n, sent, ok);
    if ok {
      s', c' := FinishFill(w, s, s', c');
    }
  }

  /** The next fetched row is not outstanding and could not be written. */
  ghost predicate Unwritten(w: World, rows: seq<Row>, c: Conn, n: nat, writes: nat -> bool) {
    var fetched := Payloads(Prefix(rows, FetchLimit(w)));
    n < |fetched| && !writes(n) && IdOf(fetched[n]) !in c.out
  }

  lemma SendStatePhase(c: Conn, now: Conn, pending: seq<Deposit>, n: nat, sent: seq<Deposit>)
    requires SendState(c, now, pending, n, sent)
    ensures n <= |pending| && now.phase == Filling(pending[n..])
  {
  }

  lemma SentPhases(c: Conn, begun: Conn, c': Conn, sent: seq<Deposit>)
    requires begun == c.(phase := begun.phase) && Sent(begun, c', sent)
    ensures Sent(c, c', sent) && Sent(c, c'.(phase := Selecting), sent)
  {
  }

  // ---------- handleAck ----------

  lemma IgnoreAck(w: World, s: System, c: Conn)
    requires s.link == Up(c) && c.phase.Selecting? && c.queue != [] && c.queue[0] !in c.out
    ensures Leads(w, s, s.(link := Up(c.(queue := c.queue[1..]))))
  {
    LeadsNowhere(w, s);
    LeadsOn(w, s, s, s.(link := Up(c.(queue := c.queue[1..]))), ByPublisher(TakeAck));
  }

  lemma SettleAck(w: World, s: System, c: Conn, c': Conn, applied: bool)
    requires s.link == Up(c) && c.phase.Selecting? && c.queue != [] && c.queue[0] in c.out
    requires c' == c.(queue := c.queue[1..], out := c.out - {c.queue[0]})
    ensures Leads(w, s, s.(link := Up(c'),
                           db := if applied then s.db.(rows := Delete(s.db.rows, c.out[c.queue[0]])) else s.db))
  {
    var k := c.out[c.queue[0]];
    var t := s.(link := Up(c'.(phase := Taken(k))));
    LeadsNowhere(w, s);
    LeadsOn(w, s, s, t, ByPublisher(TakeAck));
    var u := t.(link := Up(c'), db := if applied then s.db.(rows := Delete(s.db.rows, k)) else s.db);
    LeadsOn(w, s, t, u, ByPublisher(Unlist(applied)));
  }

  /** Handle the oldest queued ACK: an id that is not outstanding changes nothing; an outstanding one
      leaves the window and, unless the DELETE fails, its row leaves the buffer. */
  method HandleAck(w: World, repo: BufferRepo, out: Outstanding, id: string, executes: bool, reports: bool,
                   ghost s: System, ghost c: Conn)
    returns (ok: bool, ghost s': System, ghost c': Conn)
    requires repo.Valid() && s.db == repo.Contents() && s.link == Up(c)
    requires c.phase.Selecting? && c.out == out.items && c.queue != [] && c.queue[0] == id
    modifies out, repo`rows
    ensures repo.Valid() && Leads(w, s, s') && s' == s.(link := Up(c'), db := repo.Contents())
    ensures c' == c.(queue := c.queue[1..], out := out.items) && out.items == old(out.items) - {id}
    ensures ok <==> id !in old(out.items) || (executes && reports)
    ensures repo.rows ==
            if id in old(out.items) && executes then Delete(old(repo.rows), old(out.items)[id]) else old(repo.rows)
  {
    hide Leads;
    var found, k := out.Take(id);
    ok := true;
    if !found {
      assert out.items == c.out;
      IgnoreAck(w, s, c);
    }
    c' := c.(queue := c.queue[1..], out := out.items);
    if found {
      ok := repo.Ack(k, executes, reports);
      SettleAck(w, s, c, c', executes);
    }
    s' := s.(link := Up(c'), db := repo.Contents());
  }

  // ---------- fire and forget ----------

  /** The rows whose key is not in `ks`, in order. */
  function Without(rows: seq<Row>, ks: set<Key>): seq<Row> {
    if rows == [] then []
    else
      var last := |rows| - 1;
      Without(rows[..last], ks) + (if rows[last].deposit.key in ks then [] else [rows[last]])
  }

  function KeysOf(ds: seq<Deposit>): set<Key> { set d | d in ds :: d.key }

  lemma {:induction false} WithoutDelete(rows: seq<Row>, ks: set<Key>, k: Key)
    ensures Delete(Without(rows, ks), k) == Without(rows, ks + {k})
    ensures Without(rows, {}) == rows
  {
    if rows != [] {
      var last := |rows| - 1;
      WithoutDelete(rows[..last], ks, k);
      var kept := Without(rows[..last], ks);
      assert rows == rows[..last] + [rows[last]];
      if rows[last].deposit.key !in ks {
        assert Without(rows, ks)[..|kept|] == kept;
      } else {
        assert Without(rows, ks) == kept;
      }
    }
  }

  lemma {:induction false} WithoutMembers(rows: seq<Row>, ks: set<Key>)
    ensures forall r | r in Without(rows, ks) :: r in rows && r.deposit.key !in ks
  {
    if rows != [] {
      WithoutMembers(rows[..|rows| - 1], ks);
    }
  }

  /** Nothing is lost or duplicated: kept and removed rows together are the original rows. */
  lemma {:induction false} WithoutConserves(rows: seq<Row>, ks: set<Key>, all: set<Key>)
    requires forall i | 0 <= i < |rows| :: rows[i].deposit.key in all
    ensures multiset(Without(rows, ks)) + multiset(Without(rows, all - ks)) == multiset(rows)
  {
    if rows != [] {
      var last := |rows| - 1;
      var init := rows[..last];
      var x := rows[last];
      var kept, gone := Without(init, ks), Without(init, all - ks);
      WithoutConserves(init, ks, all);
      assert rows == init + [x];
      if x.deposit.key in ks {
        assert Without(rows, ks) == kept && Without(rows, all - ks) == gone + [x];
      } else {
        assert Without(rows, ks) == kept + [x] && Without(rows, all - ks) == gone;
      }
    }
  }

  lemma {:induction false} WithoutAll(rows: seq<Row>, ks: set<Key>)
    requires forall i | 0 <= i < |rows| :: rows[i].deposit.key in ks
    ensures Without(rows, ks) == []
  {
    if rows != [] { WithoutAll(rows[..|rows| - 1], ks); }
  }

  /** Removing exactly the first `n` rows leaves the others. */
  lemma {:induction false} WithoutPrefix(rows: seq<Row>, n: nat, ks: set<Key>)
    requires n <= |rows| && (forall i | 0 <= i < n :: rows[i].deposit.key in ks)
    requires forall i | n <= i < |rows| :: rows[i].deposit.key !in ks
    ensures Without(rows, ks) == rows[n..]
    decreases |rows|
  {
    if n == |rows| {
      WithoutAll(rows, ks);
    } else {
      var last := |rows| - 1;
      WithoutPrefix(rows[..last], n, ks);
      assert rows[n..] == rows[..last][n..] + [rows[last]];
    }
  }

  lemma PrefixKeys(rows: seq<Row>, n: nat)
    requires UniqueKeys(rows) && n <= |rows|
    ensures forall i | 0 <= i < n :: rows[i].deposit.key in KeysOf(Payloads(rows[..n]))
    ensures forall i | n <= i < |rows| :: rows[i].deposit.key !in KeysOf(Payloads(rows[..n]))
  {
    var ds := Payloads(rows[..n]);
    forall i | 0 <= i < n ensures rows[i].deposit.key in KeysOf(ds) {
      assert ds[i] in ds;
    }
  }

  /** How the calls of one round fare: the query, and for each fetched row the write, the DELETE and
      its report. */
  datatype Round = Round(answers: bool, writes: nat -> bool, executes: nat -> bool, reports: nat -> bool)

  ghost predicate Perfect(r: Round) { r.answers && forall i: nat :: r.writes(i) && r.executes(i) && r.reports(i) }

  /** The keys of the messages whose DELETE executes. */
  ghost function Deleted(written: seq<Deposit>, r: Round): set<Key> {
    set i | 0 <= i < |written| && r.executes(i) :: written[i].key
  }

  lemma DeletedMore(written: seq<Deposit>, d: Deposit, r: Round)
    ensures Deleted(written + [d], r) ==
            if r.executes(|written|) then Deleted(written, r) + {d.key} else Deleted(written, r)
    ensures Deleted([], r) == {}
  {
    var more := written + [d];
    assert forall i | 0 <= i < |written| :: more[i] == written[i];
    forall k | k in Deleted(written, r) ensures k in Deleted(more, r) {
      var i :| 0 <= i < |written| && r.executes(i) && written[i].key == k;
      assert more[i].key == k;
    }
    if r.executes(|written|) { assert more[|written|].key in Deleted(more, r); }
  }

  lemma DeletedWithin(written: seq<Deposit>, r: Round)
    ensures Deleted(written, r) <= KeysOf(written)
    ensures (forall i | 0 <= i < |written| :: r.executes(i)) ==> Deleted(written, r) == KeysOf(written)
  {
    if forall i | 0 <= i < |written| :: r.executes(i) {
      forall k | k in KeysOf(written) ensures k in Deleted(written, r) {
        var d :| d in written && d.key == k;
        var i :| 0 <= i < |written| && written[i] == d;
        assert written[i].key in Deleted(written, r);
      }
    }
  }

  /** Write each pending deposit and delete it at once. `written` lists the messages handed to the
      connection: all up to the first whose write fails, which ends the batch with an error. A failed
      DELETE is only skipped. `clean` tells that nothing failed. */
  method SendBatch(repo: BufferRepo, pending: seq<Deposit>, r: Round)
    returns (ok: bool, clean: bool, written: seq<Deposit>)
    requires repo.Valid()
    modifies repo`rows
    ensures repo.Valid() && repo.rows == Without(old(repo.rows), Deleted(written, r))
    ensures written <= pending && (forall i | 0 <= i < |written| :: r.writes(i))
    ensures |written| < |pending| ==> !r.writes(|written|)
    ensures ok <==> written == pending
    ensures clean <==> ok && forall i | 0 <= i < |pending| :: r.executes(i) && r.reports(i)
  {
    hide Without;
    hide Deleted;
    hide Delete;
    hide UniqueKeys;
    written, clean := [], true;
    WithoutDelete(repo.rows, {}, Key(0, "", 0));
    DeletedMore([], Deposit(Key(0, "", 0), "", "", "", 0, "", Pending, "", ""), r);
    for i := 0 to |pending|
      invariant repo.Valid() && repo.rows == Without(old(repo.rows), Deleted(written, r))
      invariant written == pending[..i] && forall j | 0 <= j < i :: r.writes(j)
      invariant clean <==> forall j | 0 <= j < i :: r.executes(j) && r.reports(j)
    {
      var d := pending[i];
      if !r.writes(i) { return false, false, written; }
      DeletedMore(written, d, r);
      WithoutDelete(old(repo.rows), Deleted(written, r), d.key);
      written := written + [d];
      var acked := repo.Ack(d.key, r.executes(i), r.reports(i));
      if !acked { clean := false; }
    }
    return true, clean, written;
  }

  /** The books of a flush: what is left is the original without the removed keys, only written
      messages were removed, and while nothing failed the written prefix and the rest make the whole. */
  ghost predicate Account(orig: seq<Row>, rows: seq<Row>, written: seq<Deposit>, removed: set<Key>, clean: bool) {
    && rows == Without(orig, removed)
    && removed <= KeysOf(written)
    && (forall d | d in written :: d in Payloads(orig))
    && (clean ==> written + Payloads(rows) == Payloads(orig))
  }

  lemma AccountOpens(rows: seq<Row>)
    ensures Account(rows, rows, [], {}, true)
  {
    WithoutDelete(rows, {}, Key(0, "", 0));
  }

  lemma AccountRound(orig: seq<Row>, before: seq<Row>, rows: seq<Row>, written: seq<Deposit>, removed: set<Key>,
                     clean: bool, limit: nat, sent: seq<Deposit>, gone: set<Key>, tidy: bool)
    requires UniqueKeys(before) && Account(orig, before, written, removed, clean)
    requires rows == Without(before, gone) && gone <= KeysOf(sent) && sent <= Payloads(Prefix(before, limit))
    requires tidy ==> sent == Payloads(Prefix(before, limit)) && gone == KeysOf(sent)
    ensures Account(orig, rows, written + sent, removed + gone, clean && tidy)
    ensures |rows| <= |before| && (tidy ==> |sent| <= |before| && rows == before[|sent|..])
  {
    hide Without;
    hide KeysOf;
    WithoutTwice(orig, removed, gone);
    WithoutShrinks(before, gone);
    PrefixPayloads(orig, removed, before, limit, sent);
    KeysOfBoth(written, sent);
    if tidy {
      TidyRound(before, limit, sent, gone);
      TidyTotal(orig, before, written, sent);
    }
  }

  lemma TidyTotal(orig: seq<Row>, before: seq<Row>, written: seq<Deposit>, sent: seq<Deposit>)
    requires |sent| <= |before| && Payloads(before) == sent + Payloads(before[|sent|..])
    ensures written + Payloads(before) == Payloads(orig) ==>
              (written + sent) + Payloads(before[|sent|..]) == Payloads(orig)
  {
    assert (written + sent) + Payloads(before[|sent|..]) == written + (sent + Payloads(before[|sent|..]));
  }

  lemma {:induction false} WithoutShrinks(rows: seq<Row>, ks: set<Key>)
    ensures |Without(rows, ks)| <= |rows|
  {
    if rows != [] { WithoutShrinks(rows[..|rows| - 1], ks); }
  }

  lemma KeysOfBoth(a: seq<Deposit>, b: seq<Deposit>)
    ensures KeysOf(a + b) == KeysOf(a) + KeysOf(b)
  {
  }

  lemma TidyRound(before: seq<Row>, limit: nat, sent: seq<Deposit>, gone: set<Key>)
    requires UniqueKeys(before) && sent == Payloads(Prefix(before, limit)) && gone == KeysOf(sent)
    ensures |sent| <= |before| && Without(before, gone) == before[|sent|..]
    ensures Payloads(before) == sent + Payloads(before[|sent|..])
  {
    assert Prefix(before, limit) == before[..|sent|];
    PrefixKeys(before, |sent|);
    WithoutPrefix(before, |sent|, gone);
  }

  datatype FlushEnd = Flushed | Failed | Cancelled

  /** Some round has a query or a write that fails. */
  ghost predicate Broken(rounds: nat -> Round, patience: nat) {
    exists i, j | 0 <= i < patience && 0 <= j :: Fault(rounds(i), j)
  }

  ghost predicate Fault(r: Round, j: nat) { !r.answers || !r.writes(j) }

  /** Repeat batches until the buffer is empty or something fails. `patience` is the number of times
      the context is still found alive; `stalled` tells that some batch removed no row. */
  method FlushUntilEmpty(repo: BufferRepo, maxBatch: nat, rounds: nat -> Round, patience: nat)
    returns (end: FlushEnd, clean: bool, stalled: bool, written: seq<Deposit>,
             ghost removed: set<Key>, ghost spent: nat)
    requires repo.Valid() && maxBatch > 0
    modifies repo`rows
    ensures repo.Valid() && Account(old(repo.rows), repo.rows, written, removed, clean)
    ensures clean && end == Flushed ==> repo.rows == [] && written == Payloads(old(repo.rows))
    ensures clean ==> !stalled && end != Failed
    ensures !stalled && patience > |old(repo.rows)| ==> end != Cancelled
    ensures end == Flushed ==> |repo.rows| < maxBatch
    ensures end == Cancelled ==> spent == patience
    ensures end == Failed ==> Broken(rounds, patience)
    ensures (forall i | 0 <= i < patience :: Perfect(rounds(i))) ==> clean
  {
    written, removed, clean, stalled, spent := [], {}, true, false, 0;
    AccountOpens(repo.rows);
    var round := 0;
    while round < patience
      invariant spent == round
      invariant repo.Valid() && Account(old(repo.rows), repo.rows, written, removed, clean)
      invariant clean ==> !stalled
      invariant round <= patience && (!stalled ==> |repo.rows| + round <= |old(repo.rows)|)
      invariant (forall i | 0 <= i < patience :: Perfect(rounds(i))) ==> clean
    {
      hide Account;
      hide Deleted;
      hide KeysOf;
      var r := rounds(round);
      var fetched, pending := repo.PendingAll(maxBatch, r.answers);
      if !fetched {
        AccountSpoils(old(repo.rows), repo.rows, written, removed, clean);
        assert Fault(rounds(round), 0);
        return Failed, false, stalled, written, removed, spent;
      }
      if pending == [] {
        AccountCloses(old(repo.rows), repo.rows, written, removed, clean);
        return Flushed, clean, stalled, written, removed, spent;
      }
      var before := repo.rows;
      var ok, tidy, sent := SendBatch(repo, pending, r);
      ghost var gone := Deleted(sent, r);
      DeletedWithin(sent, r);
      AccountRound(old(repo.rows), before, repo.rows, written, removed, clean, maxBatch, sent, gone, tidy);
      removed, written, clean := removed + gone, written + sent, clean && tidy;
      AccountCloses(old(repo.rows), repo.rows, written, removed, clean);
      if |repo.rows| == |before| { stalled := true; }
      if !ok {
        assert |sent| < |pending| && Fault(rounds(round), |sent|);
        return Failed, false, stalled, written, removed, spent;
      }
      if |pending| < maxBatch { return Flushed, clean, stalled, written, removed, spent; }
      round, spent := round + 1, spent + 1;
    }
    return Cancelled, clean, stalled, written, removed, spent;
  }

  lemma AccountSpoils(orig: seq<Row>, rows: seq<Row>, written: seq<Deposit>, removed: set<Key>, clean: bool)
    requires Account(orig, rows, written, removed, clean)
    ensures Account(orig, rows, written, removed, false)
  {
  }

  lemma AccountCloses(orig: seq<Row>, rows: seq<Row>, written: seq<Deposit>, removed: set<Key>, clean: bool)
    requires Account(orig, rows, written, removed, clean)
    ensures clean && rows == [] ==> written == Payloads(orig)
  {
    assert rows == [] ==> written + Payloads(rows) == written;
  }

  lemma {:induction false} WithoutTwice(rows: seq<Row>, ks: set<Key>, ks': set<Key>)
    ensures Without(Without(rows, ks), ks') == Without(rows, ks + ks')
  {
    if rows != [] {
      var last := |rows| - 1;
      var kept := Without(rows[..last], ks);
      WithoutTwice(rows[..last], ks, ks');
      if rows[last].deposit.key !in ks {
        assert Without(rows, ks)[..|kept|] == kept;
      } else {
        assert Without(rows, ks) == kept;
      }
    }
  }

  lemma PrefixPayloads(rows: seq<Row>, ks: set<Key>, kept: seq<Row>, limit: nat, sent: seq<Deposit>)
    requires kept == Without(rows, ks) && sent <= Payloads(Prefix(kept, limit))
    ensures forall d | d in sent :: d in Payloads(rows)
  {
    WithoutMembers(rows, ks);
    forall d | d in sent ensures d in Payloads(rows) {
      var i :| 0 <= i < |sent| && sent[i] == d;
      assert kept[i] in kept;
      var j :| 0 <= j < |rows| && rows[j] == kept[i];
      assert Payloads(rows)[j] == d;
    }
  }
}
