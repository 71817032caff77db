/** What dispatching guarantees over every run: arrivals and completions of any packets, in any interleaving. */
module DispatchRuns {
  import opened KdcTypes
  import opened Lookasides
  import opened Dispatch

  datatype Event =
    | Arrival(id: nat, request: Packet, isTcp: bool, now: int)
    | Completion(id: nat, code: int, response: Option<Packet>, now: int)

  predicate Enabled(s: State, e: Event) {
    if e.Arrival? then e.id !in s.inFlight else e.id in s.inFlight
  }

  function Step(cfg: Config, s: State, e: Event): (t: State)
    requires Enabled(s, e)
  {
    match e
    case Arrival(id, request, isTcp, now) => Arrived(cfg, s, id, request, isTcp, now)
    case Completion(id, code, response, now) => Completed(cfg, s, id, code, response, now)
  }

  const START := State([], map[], [])

  /** `states` is the run of `events` from the start. */
  ghost predicate IsRun(cfg: Config, events: seq<Event>, states: seq<State>) {
    && |states| == |events| + 1 && states[0] == START
    && forall i :: 0 <= i < |events| ==>
         Enabled(states[i], events[i]) && states[i + 1] == Step(cfg, states[i], events[i])
  }

  // What a step puts into the cache, and what it drops to make room.

  ghost predicate Inserts(s: State, e: Event)
    requires Enabled(s, e)
  {
    match e
    case Arrival(_, request, _, _) => Find(s.cache, request).None?
    case Completion(_, code, response, _) => code == 0 && response.Some?
  }

  function Request(s: State, e: Event): (p: Packet)
    requires Enabled(s, e)
  {
    if e.Arrival? then e.request else s.inFlight[e.id].request
  }

  function Reply(e: Event): (p: Packet) {
    if e.Completion? && e.response.Some? then e.response.value else []
  }

  /** The cache just before a step makes room in it. */
  function Before(s: State, e: Event): (q: seq<Entry>)
    requires Enabled(s, e)
  {
    if e.Completion? && e.code != KRB5KDC_ERR_DISCARD then Removed(s.cache, s.inFlight[e.id].request) else s.cache
  }

  /** The step does not drop the entry of a request in flight, other than the one it completes. */
  ghost predicate Spares(s: State, e: Event)
    requires Enabled(s, e)
  {
    forall i :: i in s.inFlight && i != e.id ==> Spared(s, e, i)
  }

  ghost predicate Spared(s: State, e: Event, i: nat)
    requires Enabled(s, e) && i in s.inFlight
  {
    Inserts(s, e) ==>
      Find(Purged(Before(s, e), e.now, EntrySize(Request(s, e), Reply(e))), s.inFlight[i].request).Some?
  }

  /** No packet has two processings in flight, and each one in flight is in the cache with an empty reply. */
  ghost predicate OneEach(s: State) {
    && Unique(s.cache)
    && (forall i, j :: i in s.inFlight && j in s.inFlight && s.inFlight[i].request == s.inFlight[j].request ==> i == j)
    && forall i :: i in s.inFlight ==> Marked(s.cache, s.inFlight[i].request)
  }

  predicate Marked(cache: seq<Entry>, request: Packet) {
    var e := Find(cache, request);
    e.Some? && e.value.reply == []
  }

  lemma FindInPurged(q: seq<Entry>, now: int, extra: nat, request: Packet)
    requires Unique(q)
    requires Find(Purged(q, now, extra), request).Some?
    ensures Find(q, request) == Find(Purged(q, now, extra), request)
  {
    PurgedIs(q, now, extra);
    FindOfUnique(q, Find(Purged(q, now, extra), request).value);
  }

  lemma FindInInserted(q: seq<Entry>, req: Packet, reply: Packet, now: int, other: Packet)
    requires Unique(q) && Find(q, req).None? && other != req
    ensures Find(Inserted(q, req, reply, now), other) == Find(Purged(q, now, EntrySize(req, reply)), other)
  {
    hide Purged, Unique;
    PurgedIs(q, now, EntrySize(req, reply));
    FindAppended(Purged(q, now, EntrySize(req, reply)), Entry(now, req, reply), other);
  }

  lemma {:induction false} FindAppended(q: seq<Entry>, e: Entry, other: Packet)
    requires other != e.req
    ensures Find(q + [e], other) == Find(q, other)
  {
    if q == [] {
      assert q + [e] == [e] && [e][1..] == [];
    } else {
      assert (q + [e])[1..] == q[1..] + [e];
      FindAppended(q[1..], e, other);
    }
  }

  lemma FindInRemoved(q: seq<Entry>, req: Packet, other: Packet)
    requires Unique(q)
    ensures Find(Removed(q, req), other) == if other == req then None else Find(q, other)
  {
    RemovedElements(q, req);
    RemovedUnique(q, req);
    if other != req && Find(q, other).Some? {
      FindOfUnique(Removed(q, req), Find(q, other).value);
    }
  }

  lemma BeforeIs(s: State, e: Event)
    requires Enabled(s, e) && Unique(s.cache)
    ensures Unique(Before(s, e))
    ensures Inserts(s, e) ==> Find(Before(s, e), Request(s, e)).None?
    ensures forall p :: p != Request(s, e) ==> Find(Before(s, e), p) == Find(s.cache, p)
  {
    hide Find, Unique, Removed;
    if e.Completion? && e.code != KRB5KDC_ERR_DISCARD {
      RemovedUnique(s.cache, Request(s, e));
      forall p
        ensures Find(Removed(s.cache, Request(s, e)), p) == if p == Request(s, e) then None else Find(s.cache, p)
      {
        FindInRemoved(s.cache, Request(s, e), p);
      }
    }
  }

  /** The cache after a step: what it was before making room, or that purged and with the new entry at the end. */
  lemma CacheAfter(cfg: Config, s: State, e: Event)
    requires Enabled(s, e)
    ensures Step(cfg, s, e).cache
         == if Inserts(s, e) then Inserted(Before(s, e), Request(s, e), Reply(e), e.now) else Before(s, e)
  {
    hide Find, Removed, Inserted;
  }

  lemma CacheStaysUnique(cfg: Config, s: State, e: Event)
    requires Enabled(s, e) && Unique(s.cache)
    ensures Unique(Step(cfg, s, e).cache)
  {
    hide Find, Unique, Removed, Inserted, Step, Before;
    BeforeIs(s, e);
    CacheAfter(cfg, s, e);
    if Inserts(s, e) {
      InsertedIs(Before(s, e), Request(s, e), Reply(e), e.now);
    }
  }

  /** Looking up another packet after a step finds what was there, unless that was dropped to make room. */
  lemma OtherPackets(cfg: Config, s: State, e: Event, p: Packet)
    requires Enabled(s, e) && Unique(s.cache) && p != Request(s, e)
    ensures Find(Step(cfg, s, e).cache, p)
         == if Inserts(s, e) then Find(Purged(Before(s, e), e.now, EntrySize(Request(s, e), Reply(e))), p)
            else Find(s.cache, p)
  {
    hide Find, Unique, Removed, Inserted, Step, Before;
    BeforeIs(s, e);
    CacheAfter(cfg, s, e);
    if Inserts(s, e) {
      FindInInserted(Before(s, e), Request(s, e), Reply(e), e.now, p);
    }
  }

  lemma OtherStaysMarked(cfg: Config, s: State, e: Event, p: Packet)
    requires Enabled(s, e) && Unique(s.cache) && p != Request(s, e) && Marked(s.cache, p)
    ensures Marked(Step(cfg, s, e).cache, p)
       <==> (Inserts(s, e) ==> Find(Purged(Before(s, e), e.now, EntrySize(Request(s, e), Reply(e))), p).Some?)
  {
    hide Find, Unique, Removed, Inserted, Step, Before, Purged;
    BeforeIs(s, e);
    OtherPackets(cfg, s, e, p);
    var q := Purged(Before(s, e), e.now, EntrySize(Request(s, e), Reply(e)));
    if Inserts(s, e) && Find(q, p).Some? {
      FindInPurged(Before(s, e), e.now, EntrySize(Request(s, e), Reply(e)), p);
    }
  }

  lemma InFlightAfter(cfg: Config, s: State, e: Event)
    requires Enabled(s, e)
    ensures Step(cfg, s, e).inFlight ==
            if e.Completion? then s.inFlight - {e.id}
            else if Inserts(s, e) then s.inFlight[e.id := Job(e.request, e.isTcp)]
            else s.inFlight
  {
    hide Find, Removed, Inserted;
  }

  /** After a step that is no hit, another job's packet is marked exactly if its entry was spared. */
  lemma OthersMarked(cfg: Config, s: State, e: Event)
    requires OneEach(s) && Enabled(s, e) && (Inserts(s, e) || e.Completion?)
    ensures forall i :: i in s.inFlight && i != e.id ==>
              (Marked(Step(cfg, s, e).cache, s.inFlight[i].request) <==> Spared(s, e, i))
  {
    hide Find, Unique, Removed, Inserted, Step, Before, Purged, Marked;
    Apart(s, e);
    forall i | i in s.inFlight && i != e.id
      ensures Marked(Step(cfg, s, e).cache, s.inFlight[i].request) <==> Spared(s, e, i)
    {
      OtherStaysMarked(cfg, s, e, s.inFlight[i].request);
    }
  }

  /** The jobs in flight after a step that is no hit. */
  lemma JobsAfter(cfg: Config, s: State, e: Event)
    requires OneEach(s) && Enabled(s, e) && (Inserts(s, e) || e.Completion?)
    ensures var jobs := Step(cfg, s, e).inFlight;
            && (forall i :: i in s.inFlight && i != e.id ==> i in jobs && jobs[i] == s.inFlight[i])
            && (forall i :: i in jobs && i != e.id ==> i in s.inFlight)
            && (e.id in jobs <==> e.Arrival?) && (e.Arrival? ==> jobs[e.id].request == Request(s, e))
            && (forall i, j :: i in jobs && j in jobs && jobs[i].request == jobs[j].request ==> i == j)
  {
    hide Find, Unique, Removed, Inserted, Step, Before, Marked;
    InFlightAfter(cfg, s, e);
    Apart(s, e);
  }

  /** A step keeps the state of `OneEach` exactly when it spares the entries of the other requests in flight. */
  lemma {:induction false} StepKeepsExactly(cfg: Config, s: State, e: Event)
    requires OneEach(s) && Enabled(s, e)
    ensures OneEach(Step(cfg, s, e)) <==> Spares(s, e)
  {
    hide Find, Unique, Removed, Inserted, Step, Before, Purged, Marked, Spared, Inserts, Request;
    CacheStaysUnique(cfg, s, e);
    if e.Arrival? && !Inserts(s, e) {
      HitKeeps(cfg, s, e);
      HitSpares(s, e);
    } else {
      NewIsMarked(cfg, s, e);
      OthersMarked(cfg, s, e);
      JobsAfter(cfg, s, e);
    }
  }

  lemma HitSpares(s: State, e: Event)
    requires Enabled(s, e) && !Inserts(s, e)
    ensures Spares(s, e)
  {
  }

  /** A step that puts something into the cache does so for a packet no other job in flight has. */
  lemma Apart(s: State, e: Event)
    requires OneEach(s) && Enabled(s, e)
    ensures Inserts(s, e) || e.Completion? ==>
              forall i :: i in s.inFlight && i != e.id ==> s.inFlight[i].request != Request(s, e)
  {
  }

  lemma NewIsMarked(cfg: Config, s: State, e: Event)
    requires Unique(s.cache) && Enabled(s, e)
    ensures e.Arrival? && Inserts(s, e) ==> Marked(Step(cfg, s, e).cache, Request(s, e))
  {
    if e.Arrival? && Inserts(s, e) {
      InsertedIs(s.cache, e.request, [], e.now);
    }
  }

  lemma HitKeeps(cfg: Config, s: State, e: Event)
    requires Enabled(s, e)
    ensures e.Arrival? && !Inserts(s, e) ==>
              Step(cfg, s, e).cache == s.cache && Step(cfg, s, e).inFlight == s.inFlight
  {
  }

  /** Over a whole run: no packet is ever processed twice at a time, and every packet in flight is marked in the cache,
      if and only if no step drops the entry of a request in flight. */
  lemma {:induction false} OneEachAlongRun(cfg: Config, events: seq<Event>, states: seq<State>)
    requires IsRun(cfg, events, states)
    ensures (forall i :: 0 <= i < |states| ==> OneEach(states[i]))
       <==> (forall i :: 0 <= i < |events| ==> Spares(states[i], events[i]))
  {
    hide Step, Spares;
    if forall i :: 0 <= i < |states| ==> OneEach(states[i]) {
      forall i | 0 <= i < |events|
        ensures Spares(states[i], events[i])
      {
        assert OneEach(states[i + 1]);
        StepKeepsExactly(cfg, states[i], events[i]);
      }
    }
    if forall i :: 0 <= i < |events| ==> Spares(states[i], events[i]) {
      for i := 0 to |events|
        invariant forall j :: 0 <= j <= i ==> OneEach(states[j])
      {
        StepKeepsExactly(cfg, states[i], events[i]);
      }
    }
  }

  // Duplicates.

  /** A packet that arrives while it is being processed is not processed again.  It is answered at once, with code 0
      and an empty reply: the lookup hands out a copy of the empty reply, so the discard code is not used. */
  lemma {:induction false} DuplicateInFlight(cfg: Config, s: State, e: Event, i: nat)
    requires OneEach(s) && Enabled(s, e) && e.Arrival?
    requires i in s.inFlight && s.inFlight[i].request == e.request
    ensures Step(cfg, s, e) == s.(sent := s.sent + [Answer(e.id, 0, Some([]))])
  {
    hide Find, Unique;
    assert Marked(s.cache, s.inFlight[i].request);
  }

  /** Whoever asked, as `id`, is sent the reply `r` with `code`, whole over TCP and over UDP if it fits into a datagram;
      otherwise the packet that says it is too big, or just the code if that cannot be made. */
  predicate Sends(cfg: Config, a: Answer, id: nat, isTcp: bool, code: int, r: Packet) {
    && a.id == id
    && if isTcp || |r| <= cfg.maxDatagram then a.code == code && a.response == Some(r)
       else if cfg.tooBig.Ok? then a.code == 0 && a.response == Some(cfg.tooBig.value)
       else a.code == cfg.tooBig.code && a.response == None
  }

  predicate SendsOne(s: State, t: State) {
    |t.sent| == |s.sent| + 1 && t.sent[..|s.sent|] == s.sent
  }

  function LastSent(s: State, t: State): (a: Answer)
    requires SendsOne(s, t)
  {
    t.sent[|s.sent|]
  }

  /** The step answers the arriving packet with the reply `r` and does nothing else. */
  predicate AnsweredWith(cfg: Config, s: State, e: Event, t: State, r: Packet)
    requires e.Arrival?
  {
    t == s.(sent := t.sent) && SendsOne(s, t) && Sends(cfg, LastSent(s, t), e.id, e.isTcp, 0, r)
  }

  /** No hit is ever discarded, whatever the state: its answer carries a reply and code 0, unless the reply is too big
      for a datagram and the error that says so cannot be made. */
  lemma {:induction false} HitIsAnswered(cfg: Config, s: State, e: Event)
    requires Enabled(s, e) && e.Arrival? && Find(s.cache, e.request).Some?
    ensures AnsweredWith(cfg, s, e, Step(cfg, s, e), Find(s.cache, e.request).value.reply)
    ensures var a := LastSent(s, Step(cfg, s, e));
            (a.code == 0 && a.response.Some?) || (cfg.tooBig.Err? && a.code == cfg.tooBig.code && a.response.None?)
  {
  }

  /** A completed request is answered with its reply and code, to whoever sent it and by the way it came; and
      without one if there is none. */
  lemma {:induction false} CompletionIsAnswered(cfg: Config, s: State, e: Event)
    requires Enabled(s, e) && e.Completion?
    ensures var t, job := Step(cfg, s, e), s.inFlight[e.id];
            && SendsOne(s, t)
            && (if e.response.Some? then Sends(cfg, LastSent(s, t), e.id, job.isTcp, e.code, e.response.value)
                else LastSent(s, t) == Answer(e.id, e.code, None))
  {
  }

  /** A request that completes without a reply is forgotten, so that it is processed anew when it arrives again; unless
      its code says to discard it, when nothing is changed and duplicates stay suppressed. */
  lemma {:induction false} FailureIsForgotten(cfg: Config, s: State, e: Event)
    requires OneEach(s) && Enabled(s, e) && e.Completion? && (e.code != 0 || e.response.None?)
    ensures var t, p := Step(cfg, s, e), s.inFlight[e.id].request;
            if e.code == KRB5KDC_ERR_DISCARD then t.cache == s.cache
            else Find(t.cache, p).None? && forall q :: q != p ==> Find(t.cache, q) == Find(s.cache, q)
  {
    hide Find, Unique;
    if e.code != KRB5KDC_ERR_DISCARD {
      var p := s.inFlight[e.id].request;
      RemovedUnique(s.cache, p);
      forall q
        ensures Find(Removed(s.cache, p), q) == if q == p then None else Find(s.cache, q)
      {
        FindInRemoved(s.cache, p, q);
      }
    }
  }

  /** An arrival that is not in the cache is processed: it is in flight afterwards, by the way it came, and marked
      in the cache; nothing is sent. */
  lemma {:induction false} MissIsProcessed(cfg: Config, s: State, e: Event)
    requires Unique(s.cache) && Enabled(s, e) && e.Arrival? && Find(s.cache, e.request).None?
    ensures var t := Step(cfg, s, e);
            && t.sent == s.sent && t.inFlight == s.inFlight[e.id := Job(e.request, e.isTcp)]
            && Find(t.cache, e.request) == Some(Entry(e.now, e.request, []))
  {
    InsertedIs(s.cache, e.request, [], e.now);
    hide Find, Unique, Inserted;
  }

  /** `p` is not in flight and the cache holds the reply `r` for it. */
  ghost predicate Settled(s: State, p: Packet, r: Packet) {
    && Find(s.cache, p).Some? && Find(s.cache, p).value.reply == r
    && forall i :: i in s.inFlight ==> s.inFlight[i].request != p
  }

  /** The step does not drop the entry of `p`. */
  ghost predicate Keeps(s: State, e: Event, p: Packet)
    requires Enabled(s, e)
  {
    Inserts(s, e) ==> Find(Purged(Before(s, e), e.now, EntrySize(Request(s, e), Reply(e))), p).Some?
  }

  /** A completed request is settled with the whole of its reply, also when the reply is too big for the datagram that
      asked for it. */
  lemma {:induction false} CompletionSettles(cfg: Config, s: State, e: Event)
    requires OneEach(s) && Enabled(s, e) && e.Completion? && e.code == 0 && e.response.Some?
    ensures Settled(Step(cfg, s, e), s.inFlight[e.id].request, e.response.value)
  {
    hide Find, Unique, Removed, Inserted, Step, Before;
    BeforeIs(s, e);
    CacheAfter(cfg, s, e);
    InFlightAfter(cfg, s, e);
    Apart(s, e);
    InsertedIs(Before(s, e), Request(s, e), Reply(e), e.now);
  }

  lemma SettledIsAnswered(cfg: Config, s: State, e: Event, p: Packet, r: Packet)
    requires Enabled(s, e) && Settled(s, p, r) && Request(s, e) == p
    ensures e.Arrival? && AnsweredWith(cfg, s, e, Step(cfg, s, e), r)
    ensures Settled(Step(cfg, s, e), p, r)
  {
    hide Find, Removed, Inserted;
  }

  lemma StaysSettled(cfg: Config, s: State, e: Event, p: Packet, r: Packet)
    requires Unique(s.cache) && Enabled(s, e) && Settled(s, p, r)
    requires Request(s, e) != p && Keeps(s, e, p)
    ensures Settled(Step(cfg, s, e), p, r)
  {
    hide Find, Unique, Removed, Inserted, Step, Before, Purged;
    InFlightAfter(cfg, s, e);
    OtherPackets(cfg, s, e, p);
    BeforeIs(s, e);
    if Inserts(s, e) {
      FindInPurged(Before(s, e), e.now, EntrySize(Request(s, e), Reply(e)), p);
    }
  }

  /** Once a request has completed with a reply, every later arrival of the same packet is answered with that reply and
      is not processed again, as long as its entry is not dropped: the whole reply over TCP, and the whole reply or the
      too-big error over UDP. */
  lemma {:induction false} DuplicatesGetTheReply(cfg: Config, events: seq<Event>, states: seq<State>, k: nat, n: nat)
    requires IsRun(cfg, events, states) && k < n <= |events|
    requires OneEach(states[k])
    requires events[k].Completion? && events[k].code == 0 && events[k].response.Some?
    requires forall i :: k < i < n ==>
               Request(states[i], events[i]) == states[k].inFlight[events[k].id].request
               || Keeps(states[i], events[i], states[k].inFlight[events[k].id].request)
    ensures var p := states[k].inFlight[events[k].id].request; var r := events[k].response.value;
            && (forall i :: k < i <= n ==> Settled(states[i], p, r))
            && forall i :: k < i < n && events[i].Arrival? && events[i].request == p ==>
                 AnsweredWith(cfg, states[i], events[i], states[i + 1], r)
  {
    hide Step, Find, Unique, Keeps, Settled, OneEach, AnsweredWith;
    var p := states[k].inFlight[events[k].id].request;
    var r := events[k].response.value;
    CompletionSettles(cfg, states[k], events[k]);
    for j := k + 1 to n
      invariant forall i :: k < i <= j ==> Settled(states[i], p, r)
      invariant forall i :: k < i < j && events[i].Arrival? && events[i].request == p ==>
                  AnsweredWith(cfg, states[i], events[i], states[i + 1], r)
    {
      UniqueAlongRun(cfg, events, states, j);
      if Request(states[j], events[j]) == p {
        SettledIsAnswered(cfg, states[j], events[j], p, r);
      } else {
        StaysSettled(cfg, states[j], events[j], p, r);
        assert events[j].Arrival? ==> events[j].request == Request(states[j], events[j]);
      }
    }
  }

  // What holds of every run, whatever is dropped.

  lemma {:induction false} UniqueAlongRun(cfg: Config, events: seq<Event>, states: seq<State>, n: nat)
    requires IsRun(cfg, events, states) && n < |states|
    ensures Unique(states[n].cache)
  {
    if n > 0 {
      UniqueAlongRun(cfg, events, states, n - 1);
      CacheStaysUnique(cfg, states[n - 1], events[n - 1]);
    }
  }

  /** Some completion before step `n` produced the reply `r` for the packet `p`. */
  ghost predicate Produced(events: seq<Event>, states: seq<State>, n: nat, p: Packet, r: Packet)
    requires n <= |events| <= |states|
  {
    exists k :: 0 <= k < n && events[k].Completion? && events[k].code == 0 && events[k].response == Some(r)
                && events[k].id in states[k].inFlight && states[k].inFlight[events[k].id].request == p
  }

  lemma NewEntries(cfg: Config, s: State, e: Event, d: Entry)
    requires Enabled(s, e) && d in Step(cfg, s, e).cache && d !in s.cache
    ensures Inserts(s, e) && d == Entry(e.now, Request(s, e), Reply(e))
  {
    hide Find, Unique, Inserted, Step, Purged;
    CacheAfter(cfg, s, e);
    if e.Completion? {
      RemovedElements(s.cache, Request(s, e));
    }
    if Inserts(s, e) {
      InsertedElements(Before(s, e), Request(s, e), Reply(e), e.now, d);
    }
  }

  lemma InsertedElements(q: seq<Entry>, req: Packet, reply: Packet, now: int, d: Entry)
    ensures d in Inserted(q, req, reply, now) ==> d in q || d == Entry(now, req, reply)
  {
    PurgedIs(q, now, EntrySize(req, reply));
  }

  /** Every reply in the cache that is not empty was produced, with code 0, for that very packet. */
  lemma {:induction false} CachedRepliesAreGenuine(cfg: Config, events: seq<Event>, states: seq<State>, n: nat)
    requires IsRun(cfg, events, states) && n < |states|
    ensures forall d :: d in states[n].cache && d.reply != [] ==> Produced(events, states, n, d.req, d.reply)
  {
    hide Step, Inserts, Request;
    if n > 0 {
      CachedRepliesAreGenuine(cfg, events, states, n - 1);
      forall d | d in states[n].cache && d.reply != []
        ensures Produced(events, states, n, d.req, d.reply)
      {
        if d in states[n - 1].cache {
          var k :| 0 <= k < n - 1 && events[k].Completion? && events[k].code == 0
                   && events[k].response == Some(d.reply) && events[k].id in states[k].inFlight
                   && states[k].inFlight[events[k].id].request == d.req;
          assert k < n;
        } else {
          NewEntries(cfg, states[n - 1], events[n - 1], d);
          NewReplies(states[n - 1], events[n - 1]);
        }
      }
    }
  }

  lemma NewReplies(s: State, e: Event)
    requires Enabled(s, e) && Inserts(s, e) && Reply(e) != []
    ensures e.Completion? && e.code == 0 && e.response == Some(Reply(e)) && Request(s, e) == s.inFlight[e.id].request
  {
  }

  ghost predicate EmptyOrProduced(events: seq<Event>, states: seq<State>, n: nat, p: Packet, r: Packet)
    requires n <= |events| <= |states|
  {
    r == [] || Produced(events, states, n, p, r)
  }

  /** So a packet is never answered from the cache with a reply made for another one. */
  lemma {:induction false} AnswersAreGenuine(cfg: Config, events: seq<Event>, states: seq<State>, n: nat)
    requires IsRun(cfg, events, states) && n < |events| && events[n].Arrival?
    requires Find(states[n].cache, events[n].request).Some?
    ensures exists r :: AnsweredWith(cfg, states[n], events[n], states[n + 1], r)
                        && EmptyOrProduced(events, states, n, events[n].request, r)
  {
    CachedRepliesAreGenuine(cfg, events, states, n);
    var d := Find(states[n].cache, events[n].request).value;
    var r := d.reply;
    assert d in states[n].cache && EmptyOrProduced(events, states, n, events[n].request, r);
    assert AnsweredWith(cfg, states[n], events[n], states[n + 1], r);
  }

  lemma {:induction false} RemovedIsNoBigger(q: seq<Entry>, req: Packet)
    ensures TotalSize(Removed(q, req)) <= TotalSize(q) && |Removed(q, req)| <= |q|
  {
    if q != [] {
      RemovedIsNoBigger(q[1..], req);
      var r := Removed(q[1..], req);
      assert [] + r == r;
      assert ([q[0]] + r)[1..] == r;
    }
  }

  ghost predicate Bounded(q: seq<Entry>) {
    TotalSize(q) <= LOOKASIDE_MAX_SIZE || |q| <= 1
  }

  /** The cache never outgrows its limit, unless a single entry does. */
  lemma {:induction false} CacheStaysBounded(cfg: Config, events: seq<Event>, states: seq<State>, n: nat)
    requires IsRun(cfg, events, states) && n < |states|
    ensures Bounded(states[n].cache)
  {
    hide Step, Find, Removed, Inserted, Inserts, Request, TotalSize;
    if n == 0 {
      assert |states[0].cache| <= 1;
    } else {
      CacheStaysBounded(cfg, events, states, n - 1);
      var s, e := states[n - 1], events[n - 1];
      CacheAfter(cfg, s, e);
      if e.Completion? {
        RemovedIsNoBigger(s.cache, s.inFlight[e.id].request);
      }
      InsertedIsBounded(Before(s, e), Request(s, e), Reply(e), e.now);
    }
  }

  // A condition on each step under which no entry of a request in flight is dropped, however long the run.

  /** A fresh entry outlives the purge if there is room. */
  lemma {:induction false} FreshSurvives(q: seq<Entry>, now: int, extra: nat, d: Entry)
    requires d in q && !Stale(d, now) && TotalSize(q) + extra <= LOOKASIDE_MAX_SIZE
    ensures d in Purged(q, now, extra)
  {
    if MustGo(q, now, extra) {
      FreshSurvives(q[1..], now, extra, d);
    }
  }

  /** The new entry fits, and the entries of the other requests in flight are less than two minutes old. */
  predicate Roomy(s: State, e: Event)
    requires Enabled(s, e)
  {
    && TotalSize(Before(s, e)) + EntrySize(Request(s, e), Reply(e)) <= LOOKASIDE_MAX_SIZE
    && forall i :: i in s.inFlight && i != e.id ==>
         Find(s.cache, s.inFlight[i].request).Some? ==> !Stale(Find(s.cache, s.inFlight[i].request).value, e.now)
  }

  lemma RoomySpares(s: State, e: Event)
    requires OneEach(s) && Enabled(s, e) && Roomy(s, e)
    ensures Spares(s, e)
  {
    hide Unique, Removed, Before, Purged, Marked, Stale, TotalSize;
    if Inserts(s, e) {
      BeforeIs(s, e);
      Apart(s, e);
      forall i | i in s.inFlight && i != e.id
        ensures Spared(s, e, i)
      {
        FreshStays(s, e, i);
      }
    }
  }

  lemma FreshStays(s: State, e: Event, i: nat)
    requires OneEach(s) && Enabled(s, e) && Inserts(s, e) && Roomy(s, e) && i in s.inFlight && i != e.id
    ensures Spared(s, e, i)
  {
    hide Find, Unique, Removed, Before, Purged, Stale, TotalSize;
    var p := s.inFlight[i].request;
    assert Marked(s.cache, p);
    BeforeIs(s, e);
    Apart(s, e);
    FreshSurvives(Before(s, e), e.now, EntrySize(Request(s, e), Reply(e)), Find(s.cache, p).value);
  }

  /** Runs of any length in which every step is roomy process no packet twice at a time. */
  lemma {:induction false} RoomyRunsAreSafe(cfg: Config, events: seq<Event>, states: seq<State>)
    requires IsRun(cfg, events, states)
    requires forall i :: 0 <= i < |events| ==> Roomy(states[i], events[i])
    ensures forall i :: 0 <= i < |states| ==> OneEach(states[i])
  {
    hide Step, Spares, Roomy, OneEach;
    assert OneEach(states[0]) by {
      StartIsSafe();
    }
    for i := 0 to |events|
      invariant forall j :: 0 <= j <= i ==> OneEach(states[j])
    {
      RoomySpares(states[i], events[i]);
      StepKeepsExactly(cfg, states[i], events[i]);
    }
  }

  lemma StartIsSafe()
    ensures OneEach(START)
  {
  }

  lemma MissIs(cfg: Config, s: State, id: nat, p: Packet, now: int, kept: seq<Entry>)
    requires forall d :: d in s.cache ==> d.req != p
    requires Purged(s.cache, now, EntrySize(p, [])) == kept
    ensures Arrived(cfg, s, id, p, false, now)
         == s.(cache := kept + [Entry(now, p, [])], inFlight := s.inFlight[id := Job(p, false)])
  {
    hide Purged;
  }

  lemma ThreeSteps(cfg: Config, e0: Event, e1: Event, e2: Event, s1: State, s2: State, s3: State)
    requires Enabled(START, e0) && s1 == Step(cfg, START, e0)
    requires Enabled(s1, e1) && s2 == Step(cfg, s1, e1)
    requires Enabled(s2, e2) && s3 == Step(cfg, s2, e2)
    ensures IsRun(cfg, [e0, e1, e2], [START, s1, s2, s3])
  {
    hide Step;
  }

  lemma SizeOfAppended(q: seq<Entry>, e: Entry)
    ensures TotalSize(q + [e]) == TotalSize(q) + EntrySize(e.req, e.reply)
  {
    TotalSizeOfConcat(q, [e]);
    assert [e][1..] == [];
  }

  lemma OneEntry(e: Entry, now: int, extra: nat)
    ensures Purged([e], now, extra)
         == if Stale(e, now) || EntrySize(e.req, e.reply) + extra > LOOKASIDE_MAX_SIZE then [] else [e]
  {
    SizeOfAppended([], e);
    assert [] + [e] == [e] && [e][1..] == [];
  }

  function Waiting(s: State, id: nat, p: Packet, now: int, kept: seq<Entry>): (t: State) {
    s.(cache := kept + [Entry(now, p, [])], inFlight := s.inFlight[id := Job(p, false)])
  }

  lemma FirstSlowStep(cfg: Config, p: Packet)
    ensures Arrived(cfg, START, 0, p, false, 0) == Waiting(START, 0, p, 0, [])
  {
    MissIs(cfg, START, 0, p, 0, []);
  }

  lemma SecondSlowStep(cfg: Config, s: State, p: Packet, q: Packet)
    requires p != q && s.cache == [Entry(0, p, [])]
    ensures Arrived(cfg, s, 1, q, false, STALE_TIME) == Waiting(s, 1, q, STALE_TIME, [])
  {
    hide Purged, Arrived;
    OneEntry(Entry(0, p, []), STALE_TIME, EntrySize(q, []));
    MissIs(cfg, s, 1, q, STALE_TIME, []);
  }

  lemma FreshAndFitting(d: Entry, p: Packet)
    requires EntrySize(d.req, d.reply) + EntrySize(p, []) <= LOOKASIDE_MAX_SIZE
    ensures Purged([d], d.timein, EntrySize(p, [])) == [d]
  {
    hide EntrySize;
    OneEntry(d, d.timein, EntrySize(p, []));
  }

  lemma ThirdSlowStep(cfg: Config, s: State, p: Packet, d: Entry)
    requires s.cache == [d] && d.req != p && d.timein == STALE_TIME
    requires EntrySize(d.req, d.reply) + EntrySize(p, []) <= LOOKASIDE_MAX_SIZE
    ensures Arrived(cfg, s, 2, p, false, STALE_TIME) == Waiting(s, 2, p, STALE_TIME, s.cache)
  {
    hide Purged, Arrived, EntrySize;
    FreshAndFitting(d, p);
    MissIs(cfg, s, 2, p, STALE_TIME, s.cache);
  }

  function Slow1(p: Packet): (s: State) {
    Waiting(START, 0, p, 0, [])
  }

  function Slow2(p: Packet, q: Packet): (s: State) {
    Waiting(Slow1(p), 1, q, STALE_TIME, [])
  }

  function Slow3(p: Packet, q: Packet): (s: State) {
    Waiting(Slow2(p, q), 2, p, STALE_TIME, Slow2(p, q).cache)
  }

  lemma SlowShape(p: Packet, q: Packet)
    ensures Slow1(p).cache == [Entry(0, p, [])] && Slow2(p, q).cache == [Entry(STALE_TIME, q, [])]
    ensures Slow3(p, q).inFlight == map[0 := Job(p, false), 1 := Job(q, false), 2 := Job(p, false)]
    ensures Enabled(START, Arrival(0, p, false, 0)) && Enabled(Slow1(p), Arrival(1, q, false, STALE_TIME))
    ensures Enabled(Slow2(p, q), Arrival(2, p, false, STALE_TIME))
  {
  }

  /** When an entry is dropped the property is lost: a request that takes two minutes can come to be processed twice at
      a time, here as jobs 0 and 2. */
  lemma {:induction false} SlowRequestTwiceInFlight(cfg: Config, p: Packet, q: Packet)
    requires p != q && EntrySize(p, []) + EntrySize(q, []) <= LOOKASIDE_MAX_SIZE
    ensures IsRun(cfg, [Arrival(0, p, false, 0), Arrival(1, q, false, STALE_TIME), Arrival(2, p, false, STALE_TIME)],
                  [START, Slow1(p), Slow2(p, q), Slow3(p, q)])
    ensures Slow3(p, q).inFlight == map[0 := Job(p, false), 1 := Job(q, false), 2 := Job(p, false)]
  {
    hide EntrySize, IsRun, Arrived, Waiting, Enabled;
    SlowShape(p, q);
    FirstSlowStep(cfg, p);
    SecondSlowStep(cfg, Slow1(p), p, q);
    ThirdSlowStep(cfg, Slow2(p, q), p, Entry(STALE_TIME, q, []));
    ThreeSteps(cfg, Arrival(0, p, false, 0), Arrival(1, q, false, STALE_TIME), Arrival(2, p, false, STALE_TIME),
               Slow1(p), Slow2(p, q), Slow3(p, q));
  }
}
