/** Dispatching request packets around the lookaside cache (dispatch.c).  A packet not in the cache is entered there
    with an empty reply and processed; the processing completes later, through a callback, possibly after other
    packets have arrived. */
module Dispatch {
  import opened KdcTypes
  import opened Lookasides

  datatype Job = Job(request: Packet, isTcp: bool)

  /** What a caller of dispatch() is told: a code, and a reply or none. */
  datatype Answer = Answer(id: nat, code: int, response: Option<Packet>)

  /** `tooBig` is the outcome of constructing the response-too-big error. */
  datatype Config = Config(maxDatagram: nat, tooBig: Result<Packet>)

  datatype State = State(cache: seq<Entry>, inFlight: map<nat, Job>, sent: seq<Answer>)

  predicate Oversized(cfg: Config, isTcp: bool, response: Option<Packet>) {
    !isTcp && response.Some? && |response.value| > cfg.maxDatagram
  }

  function Delivered(cfg: Config, id: nat, isTcp: bool, code: int, response: Option<Packet>): (a: Answer) {
    if !Oversized(cfg, isTcp, response) then Answer(id, code, response)
    else if cfg.tooBig.Err? then Answer(id, cfg.tooBig.code, None)
    else Answer(id, 0, Some(cfg.tooBig.value))
  }

  function Arrived(cfg: Config, s: State, id: nat, request: Packet, isTcp: bool, now: int): (t: State) {
    match Find(s.cache, request)
    case Some(e) => s.(sent := s.sent + [Delivered(cfg, id, isTcp, 0, Some(e.reply))])
    case None => s.(cache := Inserted(s.cache, request, [], now), inFlight := s.inFlight[id := Job(request, isTcp)])
  }

  function Cached(cache: seq<Entry>, request: Packet, code: int, response: Option<Packet>, now: int): (c: seq<Entry>) {
    var kept := if code != KRB5KDC_ERR_DISCARD then Removed(cache, request) else cache;
    if code == 0 && response.Some? then Inserted(kept, request, response.value, now) else kept
  }

  function Completed(cfg: Config, s: State, id: nat, code: int, response: Option<Packet>, now: int): (t: State)
    requires id in s.inFlight
  {
    var job := s.inFlight[id];
    State(Cached(s.cache, job.request, code, response, now), s.inFlight - {id},
          s.sent + [Delivered(cfg, id, job.isTcp, code, response)])
  }

  class Dispatcher {
    const cfg: Config
    const lookaside: Lookaside
    var inFlight: map<nat, Job>
    var sent: seq<Answer>

    ghost predicate Valid()
      reads this, lookaside, lookaside.table
    {
      lookaside.Valid()
    }

    ghost function View(): (s: State)
      reads this, lookaside
    {
      State(lookaside.queue, inFlight, sent)
    }

    constructor (cfg: Config, hash: Packet -> nat)
      ensures Valid() && fresh(lookaside) && fresh(lookaside.table) && View() == State([], map[], []) && this.cfg == cfg
    {
      this.cfg := cfg;
      lookaside := new Lookaside(hash);
      inFlight, sent := map[], [];
    }

    method FinishDispatch(id: nat, isTcp: bool, code: int, response: Option<Packet>)
      modifies `sent
      ensures sent == old(sent) + [Delivered(cfg, id, isTcp, code, response)]
    {
      var c, r := code, response;
      if !isTcp && response.Some? && |response.value| > cfg.maxDatagram {
        match cfg.tooBig {
          case Ok(packet) => c, r := 0, Some(packet);
          case Err(error) => c, r := error, None;
        }
      }
      sent := sent + [Answer(id, c, r)];
    }

    method FinishDispatchCache(id: nat, code: int, response: Option<Packet>, now: int)
      requires Valid() && id in inFlight
      modifies `inFlight, `sent, lookaside, lookaside.table
      ensures Valid() && View() == Completed(cfg, old(View()), id, code, response, now)
    {
      var job := inFlight[id];
      if code != KRB5KDC_ERR_DISCARD {
        RemovedElements(lookaside.queue, job.request);
        lookaside.Remove(job.request);
      }
      if code == 0 && response.Some? {
        lookaside.Insert(job.request, response.value, now);
      }
      inFlight := inFlight - {id};
      FinishDispatch(id, job.isTcp, code, response);
    }

    /** The request of a packet not found is in flight afterwards: process_tgs_req() or process_as_req() has it. */
    method Receive(id: nat, request: Packet, isTcp: bool, now: int)
      requires Valid() && id !in inFlight
      modifies `inFlight, `sent, lookaside, lookaside.table
      ensures Valid() && View() == Arrived(cfg, old(View()), id, request, isTcp, now)
    {
      var hit, response := lookaside.Check(request);
      if hit {
        FinishDispatch(id, isTcp, if response.Some? then 0 else KRB5KDC_ERR_DISCARD, response);
        return;
      }
      lookaside.Insert(request, [], now);
      inFlight := inFlight[id := Job(request, isTcp)];
    }
  }
}
