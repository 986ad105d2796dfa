/**
  The Soroban event indexer: a cursor-and-page protocol against a remote log that grows while
  it is read, with a dead-letter queue for events that cannot be processed.

  What the outside world does during one poll is a script: before each page the log grows, and
  then the RPC fails or answers; each event's listeners and the queue then succeed or throw.
  A script that runs out is a process that dies there.
 */
module EventIndexer {
  import opened Prelude

  const PAGE_LIMIT: nat := 200

  // ----- events -----

  datatype Amount = NotANumber | Number(value: real)

  /** The payload fields the indexer reads, as their string forms; `None` is null or undefined. */
  datatype Payload = Payload(
    paymentReference: Option<string>,
    reference: Option<string>,
    txHash: Option<string>,
    amount: Option<Amount>,
    asset: Option<string>,
    settlementId: Option<string>,
    partnerReference: Option<string>,
    from: Option<string>)

  /** The strings an event's topic list can start with, as far as the indexer tells them apart. */
  datatype Topic = Blank | PaymentTopic | SettlementTopic | OtherTopic(name: string)

  datatype RpcEvent = RpcEvent(id: string, pagingToken: nat, ledger: nat, topic: seq<Topic>, value: Payload)

  datatype Dto =
    | PaymentConfirmed(eventId: string, pagingToken: nat, ledger: nat, paymentReference: string, txHash: string,
                       amount: real, asset: string, from: Option<string>)
    | SettlementCompleted(eventId: string, pagingToken: nat, ledger: nat, settlementId: string,
                          partnerReference: Option<string>)

  datatype Parse = Irrelevant | Malformed | Parsed(dto: Dto)

  /** `first ?? second ?? default`. */
  function Coalesce(first: Option<string>, second: Option<string>, default: string): string {
    if first.Some? then first.value else second.GetOr(default)
  }

  function ToPaymentConfirmed(raw: RpcEvent): Parse {
    var v := raw.value;
    var reference := Coalesce(v.paymentReference, v.reference, "");
    var txHash := v.txHash.GetOr("");
    var amount := v.amount.GetOr(Number(0.0));
    if reference == "" || txHash == "" || amount.NotANumber? then Malformed
    else Parsed(PaymentConfirmed(raw.id, raw.pagingToken, raw.ledger, reference, txHash, amount.value,
                                 v.asset.GetOr("USDC"), v.from))
  }

  function ToSettlementCompleted(raw: RpcEvent): Parse {
    var settlementId := Coalesce(raw.value.settlementId, raw.value.reference, "");
    if settlementId == "" then Malformed
    else Parsed(SettlementCompleted(raw.id, raw.pagingToken, raw.ledger, settlementId, raw.value.partnerReference))
  }

  function ParseEvent(raw: RpcEvent): Parse {
    if raw.topic == [] then Irrelevant
    else
      match raw.topic[0]
      case PaymentTopic => ToPaymentConfirmed(raw)
      case SettlementTopic => ToSettlementCompleted(raw)
      case _ => Irrelevant
  }

  /** The event-emitter channels `soroban.payment.confirmed` and `soroban.settlement.completed`. */
  datatype Channel = PaymentChannel | SettlementChannel

  function ChannelOf(dto: Dto): Channel {
    if dto.PaymentConfirmed? then PaymentChannel else SettlementChannel
  }

  /** What became of an event. */
  datatype Fate = Skipped | Emitted(channel: Channel, dto: Dto) | DeadLettered
  datatype Handled = Handled(event: RpcEvent, fate: Fate)

  // ----- the remote log -----

  datatype RemoteLog = RemoteLog(events: seq<RpcEvent>, tip: nat)
  datatype Growth = Growth(more: seq<RpcEvent>, tip: nat)

  /** Tokens are positions, and the tip is the last closed ledger. */
  predicate Positioned(l: RemoteLog) {
    forall i :: 0 <= i < |l.events| ==> l.events[i].pagingToken == i && 1 <= l.events[i].ledger <= l.tip
  }

  /** Events come in ledger order. */
  predicate Ordered(events: seq<RpcEvent>) {
    forall i, j :: 0 <= i < j < |events| ==> events[i].ledger <= events[j].ledger
  }

  predicate ValidLog(l: RemoteLog) {
    Positioned(l) && Ordered(l.events)
  }

  function Grow(l: RemoteLog, g: Growth): RemoteLog {
    RemoteLog(l.events + g.more, g.tip)
  }

  /** Closed ledgers get no more events. */
  predicate Grows(l: RemoteLog, g: Growth) {
    && l.tip <= g.tip
    && Positioned(Grow(l, g)) && Ordered(g.more)
    && forall i :: 0 <= i < |g.more| ==> g.more[i].ledger > l.tip
  }

  /** The first position from `i` on whose ledger is at least `k`. */
  function FirstFrom(events: seq<RpcEvent>, k: nat, i: nat): (n: nat)
    requires i <= |events|
    ensures i <= n <= |events|
    ensures forall j :: i <= j < n ==> events[j].ledger < k
    ensures n < |events| ==> events[n].ledger >= k
    decreases |events| - i
  {
    if i == |events| || events[i].ledger >= k then i else FirstFrom(events, k, i + 1)
  }

  /** The number of leading events before ledger `k`. */
  function FirstAt(events: seq<RpcEvent>, k: nat): (n: nat)
    ensures n <= |events|
    ensures forall i :: 0 <= i < n ==> events[i].ledger < k
    ensures n < |events| ==> events[n].ledger >= k
  {
    FirstFrom(events, k, 0)
  }

  function PageStart(l: RemoteLog, start: Option<nat>, cursor: Option<nat>): nat {
    if cursor.Some? then cursor.value + 1
    else if start.Some? then FirstAt(l.events, start.value)
    else 0
  }

  /** At most 200 events in order, from just after the cursor, from the start ledger, or from the beginning. */
  function Fetch(l: RemoteLog, start: Option<nat>, cursor: Option<nat>): seq<RpcEvent> {
    var from := PageStart(l, start, cursor);
    if from >= |l.events| then []
    else if from + PAGE_LIMIT < |l.events| then l.events[from..from + PAGE_LIMIT]
    else l.events[from..]
  }

  // ----- one poll -----

  datatype Verdict = Verdict(delivered: bool, queued: bool)
  datatype Reply = RpcFails | Answers(verdicts: seq<Verdict>)
  datatype Turn = Turn(growth: Growth, reply: Reply)

  /** `None` when the dead-letter queue itself throws. */
  function HandleEvent(event: RpcEvent, v: Verdict): Option<Fate> {
    match ParseEvent(event)
    case Irrelevant => Some(Skipped)
    case Malformed => if v.queued then Some(DeadLettered) else None
    case Parsed(dto) =>
      if v.delivered then Some(Emitted(ChannelOf(dto), dto))
      else if v.queued then Some(DeadLettered) else None
  }

  /** The events from `i` on that get handled before the poll aborts or the page ends. */
  function HandleFrom(page: seq<RpcEvent>, verdicts: seq<Verdict>, i: nat): (done: seq<Handled>)
    requires i <= |page|
    ensures i + |done| <= |page|
    decreases |page| - i
  {
    if i == |page| || i >= |verdicts| then []
    else
      match HandleEvent(page[i], verdicts[i])
      case None => []
      case Some(fate) => [Handled(page[i], fate)] + HandleFrom(page, verdicts, i + 1)
  }

  function HandlePage(page: seq<RpcEvent>, verdicts: seq<Verdict>): (done: seq<Handled>)
    ensures |done| <= |page|
  {
    HandleFrom(page, verdicts, 0)
  }

  function Max(a: nat, b: nat): nat {
    if a < b then b else a
  }

  function SeenAfter(seen: nat, handled: seq<Handled>): nat {
    if handled == [] then seen
    else
      var before, last := SeenAfter(seen, handled[..|handled| - 1]), handled[|handled| - 1];
      if last.fate.Emitted? then Max(before, last.event.ledger) else before
  }

  /** What the page loop did; `finished` is the latest ledger seen, or `None` if the loop was aborted. */
  datatype Sweep = Sweep(log: RemoteLog, handled: seq<Handled>, finished: Option<nat>)

  /** How one page leaves the loop. */
  datatype Next = Abort | Stop(seen: nat) | Continue(seen: nat, token: nat)
  datatype PageRun = PageRun(handled: seq<Handled>, next: Next)

  function ReadPage(l: RemoteLog, start: Option<nat>, cursor: Option<nat>, seen: nat, reply: Reply): PageRun {
    match reply
    case RpcFails => PageRun([], Abort)
    case Answers(verdicts) =>
      var page := Fetch(l, start, cursor);
      var done := HandlePage(page, verdicts);
      var seen1 := SeenAfter(Max(seen, l.tip), done);
      PageRun(done,
              if |done| < |page| then Abort
              else if |page| < PAGE_LIMIT then Stop(seen1)
              else Continue(seen1, page[|page| - 1].pagingToken))
  }

  function Prepend(done: seq<Handled>, s: Sweep): Sweep {
    Sweep(s.log, done + s.handled, s.finished)
  }

  function SweepPages(l: RemoteLog, start: Option<nat>, cursor: Option<nat>, seen: nat, script: seq<Turn>): Sweep
    decreases |script|
  {
    if script == [] then Sweep(l, [], None)
    else
      var l1 := Grow(l, script[0].growth);
      var run := ReadPage(l1, start, cursor, seen, script[0].reply);
      match run.next
      case Abort => Sweep(l1, run.handled, None)
      case Stop(seen1) => Sweep(l1, run.handled, Some(seen1))
      case Continue(seen1, token) => Prepend(run.handled, SweepPages(l1, None, Some(token), seen1, script[1..]))
  }

  /** What is left of a sweep after the round `script[i]`, `done` being handled before it. */
  lemma SweepRound(done: seq<Handled>, l: RemoteLog, start: Option<nat>, cursor: Option<nat>, seen: nat, script: seq<Turn>, i: nat)
    requires i < |script|
    ensures var l1 := Grow(l, script[i].growth);
            var run := ReadPage(l1, start, cursor, seen, script[i].reply);
            Prepend(done, SweepPages(l, start, cursor, seen, script[i..])) ==
            match run.next
            case Abort => Sweep(l1, done + run.handled, None)
            case Stop(seen1) => Sweep(l1, done + run.handled, Some(seen1))
            case Continue(seen1, token) =>
              Prepend(done + run.handled, SweepPages(l1, None, Some(token), seen1, script[i + 1..]))
  {
    assert script[i..][1..] == script[i + 1..];
    var l1 := Grow(l, script[i].growth);
    var run := ReadPage(l1, start, cursor, seen, script[i].reply);
    if run.next.Continue? {
      var rest := SweepPages(l1, None, Some(run.next.token), run.next.seen, script[i + 1..]);
      assert done + (run.handled + rest.handled) == (done + run.handled) + rest.handled;
    }
  }

  datatype System = System(log: RemoteLog, cursor: Option<nat>, handled: seq<Handled>)

  function StartLedger(last: nat): Option<nat> {
    if last > 0 then Some(last + 1) else None
  }

  function SweepOf(s: System, script: seq<Turn>): Sweep {
    var last := s.cursor.GetOr(0);
    SweepPages(s.log, StartLedger(last), None, last, script)
  }

  /** The cursor is stored only when the loop ended and saw a later ledger. */
  function Absorb(s: System, sweep: Sweep): System {
    var last := s.cursor.GetOr(0);
    System(sweep.log,
           if sweep.finished.Some? && sweep.finished.value > last then sweep.finished else s.cursor,
           s.handled + sweep.handled)
  }

  function Poll(s: System, script: seq<Turn>): System {
    Absorb(s, SweepOf(s, script))
  }

  predicate Aborts(s: System, script: seq<Turn>) {
    SweepOf(s, script).finished.None?
  }

  // ----- the objects -----

  class EventServer {
    var log: RemoteLog

    constructor (log: RemoteLog)
      ensures this.log == log
    {
      this.log := log;
    }

    method GetEvents(growth: Growth, start: Option<nat>, cursor: Option<nat>) returns (page: seq<RpcEvent>, latestLedger: nat)
      modifies this
      ensures log == Grow(old(log), growth)
      ensures page == Fetch(log, start, cursor) && latestLedger == log.tip
    {
      log := Grow(log, growth);
      page := Fetch(log, start, cursor);
      latestLedger := log.tip;
    }
  }

  class Indexer {
    const server: EventServer
    const contractId: string
    var polling: bool
    var cursor: Option<nat>
    var handled: seq<Handled>

    ghost function Snapshot(): System
      reads this, server
    {
      System(server.log, cursor, handled)
    }

    constructor (server: EventServer, contractId: string)
      ensures this.server == server && this.contractId == contractId
      ensures !polling && cursor == None && handled == []
    {
      this.server := server;
      this.contractId := contractId;
      polling := false;
      cursor := None;
      handled := [];
    }

    /** The event loop of one page: false if the dead-letter queue threw or the process died. */
    method HandleEvents(events: seq<RpcEvent>, verdicts: seq<Verdict>, seen: nat) returns (completed: bool, latestSeen: nat)
      modifies this`handled
      ensures handled == old(handled) + HandlePage(events, verdicts)
      ensures completed <==> |HandlePage(events, verdicts)| == |events|
      ensures latestSeen == SeenAfter(seen, HandlePage(events, verdicts))
    {
      ghost var done: seq<Handled> := [];
      latestSeen := seen;
      for i := 0 to |events|
        invariant |done| == i
        invariant handled == old(handled) + done
        invariant HandlePage(events, verdicts) == done + HandleFrom(events, verdicts, i)
        invariant latestSeen == SeenAfter(seen, done)
      {
        assert done + [] == done;
        if i >= |verdicts| { return false, latestSeen; }
        var event, verdict := events[i], verdicts[i];
        var fate := Skipped;
        var parse := ParseEvent(event);
        if !parse.Irrelevant? {
          if parse.Parsed? && verdict.delivered {
            fate := Emitted(ChannelOf(parse.dto), parse.dto);
          } else {
            if !verdict.queued { return false, latestSeen; }
            fate := DeadLettered;
          }
        }
        handled := handled + [Handled(event, fate)];
        if fate.Emitted? {
          latestSeen := Max(latestSeen, event.ledger);
        }
        assert (done + [Handled(event, fate)])[..i] == done;
        done := done + [Handled(event, fate)];
      }
      assert done + [] == done;
      return true, latestSeen;
    }

    /** One round of the page loop. */
    method HandleNextPage(turn: Turn, startLedger: Option<nat>, pageCursor: Option<nat>, seen: nat) returns (next: Next)
      modifies this`handled, server
      ensures server.log == Grow(old(server.log), turn.growth)
      ensures var run := ReadPage(server.log, startLedger, pageCursor, seen, turn.reply);
              handled == old(handled) + run.handled && next == run.next
    {
      var events, latestLedger := server.GetEvents(turn.growth, startLedger, pageCursor);
      if turn.reply.RpcFails? { return Abort; }
      var latestSeen := Max(seen, latestLedger);
      if |events| == 0 { return Stop(latestSeen); }
      var completed;
      completed, latestSeen := HandleEvents(events, turn.reply.verdicts, latestSeen);
      if !completed { return Abort; }
      if |events| < PAGE_LIMIT { return Stop(latestSeen); }
      return Continue(latestSeen, events[|events| - 1].pagingToken);
    }

    /** The page loop: the latest ledger seen, or nothing when an exception or a crash left it. */
    method SweepAllPages(script: seq<Turn>, lastLedger: nat) returns (finished: Option<nat>)
      modifies this`handled, server
      ensures Sweep(server.log, handled, finished)
           == Prepend(old(handled), SweepPages(old(server.log), StartLedger(lastLedger), None, lastLedger, script))
    {
      var startLedger := StartLedger(lastLedger);
      var latestSeenLedger := lastLedger;
      var pageCursor: Option<nat> := None;
      ghost var goal := Prepend(handled, SweepPages(server.log, startLedger, None, lastLedger, script));
      finished := None;
      var i := 0;
      assert script[0..] == script;
      while i < |script|
        invariant 0 <= i <= |script| && finished == None
        invariant goal == Prepend(handled, SweepPages(server.log, startLedger, pageCursor, latestSeenLedger, script[i..]))
      {
        SweepRound(handled, server.log, startLedger, pageCursor, latestSeenLedger, script, i);
        var next := HandleNextPage(script[i], startLedger, pageCursor, latestSeenLedger);
        if next.Abort? { return; }
        latestSeenLedger := next.seen;
        if next.Stop? { return Some(latestSeenLedger); }
        pageCursor := Some(next.token);
        startLedger := None;
        i := i + 1;
      }
    }

    method PollEvents(script: seq<Turn>)
      modifies this, server
      ensures old(polling) || contractId == "" ==> Snapshot() == old(Snapshot()) && polling == old(polling)
      ensures !old(polling) && contractId != "" ==> Snapshot() == Poll(old(Snapshot()), script) && !polling
    {
      if polling { return; }
      if contractId == "" { return; }
      polling := true;
      var lastLedger := cursor.GetOr(0);
      var latestSeenLedger := SweepAllPages(script, lastLedger);
      if latestSeenLedger.Some? && latestSeenLedger.value > lastLedger {
        cursor := latestSeenLedger;
      }
      polling := false;
    }
  }
}
