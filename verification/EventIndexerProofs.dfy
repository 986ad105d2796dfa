/** Coverage and exactly-once handling over whole runs of the indexer. */
module EventIndexerProofs {
  import opened Prelude
  import opened EventIndexer

  // ----- runs -----

  /** A cron tick, growth of the log between ticks, or the cache losing the stored cursor. */
  datatype Step = Tick(script: seq<Turn>) | Growing(growth: Growth) | CursorLost

  function Next(s: System, step: Step): System {
    match step
    case Tick(script) => Poll(s, script)
    case Growing(growth) => s.(log := Grow(s.log, growth))
    case CursorLost => s.(cursor := None)
  }

  predicate ValidScript(l: RemoteLog, script: seq<Turn>)
    decreases |script|
  {
    script != [] ==> Grows(l, script[0].growth) && ValidScript(Grow(l, script[0].growth), script[1..])
  }

  predicate ValidStep(s: System, step: Step) {
    match step
    case Tick(script) => ValidScript(s.log, script)
    case Growing(growth) => Grows(s.log, growth)
    case CursorLost => true
  }

  /** A step in which nothing goes wrong: no poll aborts and the cursor is not lost. */
  predicate SmoothStep(s: System, step: Step) {
    !step.CursorLost? && (step.Tick? ==> !Aborts(s, step.script))
  }

  predicate ValidRun(s: System, steps: seq<Step>)
    decreases |steps|
  {
    steps != [] ==> ValidStep(s, steps[0]) && ValidRun(Next(s, steps[0]), steps[1..])
  }

  predicate SmoothRun(s: System, steps: seq<Step>)
    decreases |steps|
  {
    steps != [] ==> SmoothStep(s, steps[0]) && SmoothRun(Next(s, steps[0]), steps[1..])
  }

  function Run(s: System, steps: seq<Step>): System
    decreases |steps|
  {
    if steps == [] then s else Run(Next(s, steps[0]), steps[1..])
  }

  function Start(l: RemoteLog): System {
    System(l, None, [])
  }

  // ----- one sweep -----

  predicate IsPayment(e: RpcEvent) {
    e.topic != [] && e.topic[0] == PaymentTopic
  }

  predicate IsSettlement(e: RpcEvent) {
    e.topic != [] && e.topic[0] == SettlementTopic
  }

  /** `first ?? second` is there and not blank: a blank first choice does not fall back. */
  predicate Named(first: Option<string>, second: Option<string>) {
    if first.Some? then first.value != "" else second.Some? && second.value != ""
  }

  /** The payload has what listeners rely on. */
  predicate Deliverable(e: RpcEvent) {
    var v := e.value;
    || (IsPayment(e) && Named(v.paymentReference, v.reference) && Named(v.txHash, None) && v.amount != Some(NotANumber))
    || (IsSettlement(e) && Named(v.settlementId, v.reference))
  }

  /** What listeners are given for an event, field by field. */
  predicate Carries(dto: Dto, e: RpcEvent) {
    var v := e.value;
    && (dto.eventId, dto.pagingToken, dto.ledger) == (e.id, e.pagingToken, e.ledger)
    && match dto
       case PaymentConfirmed(_, _, _, reference, txHash, amount, asset, from) =>
         && IsPayment(e)
         && Some(reference) == (if v.paymentReference.Some? then v.paymentReference else v.reference)
         && Some(txHash) == v.txHash
         && (if v.amount.Some? then v.amount == Some(Number(amount)) else amount == 0.0)
         && (if v.asset.Some? then v.asset == Some(asset) else asset == "USDC")
         && from == v.from
       case SettlementCompleted(_, _, _, settlementId, partnerReference) =>
         && IsSettlement(e)
         && Some(settlementId) == (if v.settlementId.Some? then v.settlementId else v.reference)
         && partnerReference == v.partnerReference
  }

  /** The fate fits what topic and payload say: skipped exactly without one of the two topics, emitted only whole, on
      the channel of its topic, and otherwise dead-lettered. */
  predicate FateOk(h: Handled) {
    match h.fate
    case Skipped => !IsPayment(h.event) && !IsSettlement(h.event)
    case DeadLettered => IsPayment(h.event) || IsSettlement(h.event)
    case Emitted(channel, dto) =>
      && Deliverable(h.event) && Carries(dto, h.event)
      && (channel == PaymentChannel <==> IsPayment(h.event))
  }

  /** Neither can the event be delivered nor does the dead-letter queue take it. */
  predicate Stuck(e: RpcEvent, v: Verdict) {
    (IsPayment(e) || IsSettlement(e)) && !(Deliverable(e) && v.delivered) && !v.queued
  }

  /** One event: it is emitted exactly if it is deliverable and its listeners succeed, and stops the page exactly if stuck. */
  lemma HandleEventFits(e: RpcEvent, v: Verdict)
    ensures HandleEvent(e, v).None? <==> Stuck(e, v)
    ensures HandleEvent(e, v).Some? ==>
              var fate := HandleEvent(e, v).value;
              FateOk(Handled(e, fate)) && (fate.Emitted? <==> Deliverable(e) && v.delivered)
  {
  }

  /** The event has a fate that fits it, and is emitted exactly if it is deliverable and its listeners succeed. */
  predicate DecidedBy(h: Handled, e: RpcEvent, v: Verdict) {
    h.event == e && FateOk(h) && (h.fate.Emitted? <==> Deliverable(e) && v.delivered)
  }

  /** The process dies before event `i`, or that is stuck. */
  predicate StopsAt(page: seq<RpcEvent>, verdicts: seq<Verdict>, i: nat)
    requires i < |page|
  {
    i >= |verdicts| || Stuck(page[i], verdicts[i])
  }

  lemma {:induction false} HandleFromExactly(page: seq<RpcEvent>, verdicts: seq<Verdict>, i: nat)
    requires i <= |page|
    ensures var done := HandleFrom(page, verdicts, i);
            && i + |done| <= |page|
            && (|done| > 0 ==> i + |done| <= |verdicts|)
            && (forall k :: 0 <= k < |done| ==> DecidedBy(done[k], page[i + k], verdicts[i + k]))
            && (i + |done| < |page| ==> StopsAt(page, verdicts, i + |done|))
    decreases |page| - i
  {
    if i < |page| && i < |verdicts| {
      HandleEventFits(page[i], verdicts[i]);
      if HandleEvent(page[i], verdicts[i]).Some? {
        HandleFromExactly(page, verdicts, i + 1);
      }
    }
  }

  /** A page is handled in order, each event as its payload and its listeners decide, up to its end, to the first stuck
      event, or to where the process dies. */
  lemma PageHandledExactly(page: seq<RpcEvent>, verdicts: seq<Verdict>)
    ensures var done := HandlePage(page, verdicts);
            && |done| <= |page| && |done| <= |verdicts|
            && (forall k :: 0 <= k < |done| ==> DecidedBy(done[k], page[k], verdicts[k]))
            && (|done| < |page| ==> StopsAt(page, verdicts, |done|))
  {
    HandleFromExactly(page, verdicts, 0);
  }

  /** `handled` are the events at positions `pos`, `pos + 1`, ..., each once and in order. */
  predicate Covers(handled: seq<Handled>, events: seq<RpcEvent>, pos: nat) {
    && pos + |handled| <= |events|
    && forall i :: 0 <= i < |handled| ==> handled[i].event == events[pos + i] && FateOk(handled[i])
  }

  lemma HandleFromCovers(page: seq<RpcEvent>, verdicts: seq<Verdict>, i: nat)
    requires i <= |page|
    ensures Covers(HandleFrom(page, verdicts, i), page, i)
  {
    HandleFromExactly(page, verdicts, i);
  }

  lemma {:induction false} SeenStays(seen: nat, handled: seq<Handled>)
    requires forall i :: 0 <= i < |handled| ==> handled[i].event.ledger <= seen
    ensures SeenAfter(seen, handled) == seen
    decreases |handled|
  {
    if handled != [] {
      SeenStays(seen, handled[..|handled| - 1]);
    }
  }

  lemma FirstAtUnique(events: seq<RpcEvent>, k: nat, n: nat)
    requires n <= |events|
    requires forall i :: 0 <= i < n ==> events[i].ledger < k
    requires n < |events| ==> events[n].ledger >= k
    ensures FirstAt(events, k) == n
  {
  }

  /** `late` is `l` after some more ledgers. */
  predicate Extends(l: RemoteLog, late: RemoteLog) {
    && l.tip <= late.tip
    && |l.events| <= |late.events| && late.events[..|l.events|] == l.events
    && Positioned(late)
    && Ordered(late.events[|l.events|..])
    && forall i :: |l.events| <= i < |late.events| ==> late.events[i].ledger > l.tip
  }

  lemma ExtendsOrdered(l: RemoteLog, late: RemoteLog)
    requires ValidLog(l) && Extends(l, late)
    ensures ValidLog(late)
  {
    var n := |l.events|;
    forall i, j | 0 <= i < j < |late.events| ensures late.events[i].ledger <= late.events[j].ledger {
      assert i < n ==> late.events[i] == l.events[i];
      assert j < n ==> late.events[j] == l.events[j];
      assert i >= n ==> late.events[n..][i - n] == late.events[i];
      assert j >= n ==> late.events[n..][j - n] == late.events[j];
    }
  }

  lemma GrowsExtends(l: RemoteLog, g: Growth)
    requires Grows(l, g)
    ensures Extends(l, Grow(l, g))
  {
    assert Grow(l, g).events[|l.events|..] == g.more;
  }

  lemma ExtendsTwice(a: RemoteLog, b: RemoteLog, c: RemoteLog)
    requires Positioned(a) && Extends(a, b) && Extends(b, c)
    ensures Extends(a, c)
  {
    var n, m := |a.events|, |b.events|;
    assert c.events[..n] == c.events[..m][..n];
    forall i | n <= i < |c.events| ensures c.events[i].ledger > a.tip {
      assert i < m ==> c.events[i] == c.events[..m][i];
    }
    forall i, j | 0 <= i < j < |c.events| - n ensures c.events[n..][i].ledger <= c.events[n..][j].ledger {
      var x, y := n + i, n + j;
      assert c.events[n..][i] == c.events[x] && c.events[n..][j] == c.events[y];
      assert x < m ==> c.events[x] == b.events[x] == b.events[n..][i];
      assert y < m ==> c.events[y] == b.events[y] == b.events[n..][j];
      assert x >= m ==> c.events[x] == c.events[m..][x - m];
      assert y >= m ==> c.events[y] == c.events[m..][y - m];
    }
  }

  /** Where the next page begins is decided by closed ledgers, so growth does not move it. */
  predicate Anchored(l: RemoteLog, start: Option<nat>, cursor: Option<nat>) {
    if cursor.Some? then cursor.value < |l.events|
    else start.Some? ==> start.value <= l.tip + 1
  }

  lemma GrowthKeepsStart(l: RemoteLog, g: Growth, start: Option<nat>, cursor: Option<nat>)
    requires Positioned(l) && Grows(l, g) && Anchored(l, start, cursor)
    ensures PageStart(Grow(l, g), start, cursor) == PageStart(l, start, cursor) <= |l.events|
  {
    if cursor.None? && start.Some? {
      var n := FirstAt(l.events, start.value);
      var events := Grow(l, g).events;
      forall i | 0 <= i < n ensures events[i].ledger < start.value {
        assert events[i] == l.events[i];
      }
      FirstAtUnique(events, start.value, n);
    }
  }

  lemma FetchIsSlice(l: RemoteLog, start: Option<nat>, cursor: Option<nat>)
    requires PageStart(l, start, cursor) <= |l.events|
    ensures var pos := PageStart(l, start, cursor);
            var page := Fetch(l, start, cursor);
            && |page| <= PAGE_LIMIT && pos + |page| <= |l.events|
            && page == l.events[pos..pos + |page|]
            && (|page| < PAGE_LIMIT ==> pos + |page| == |l.events|)
  {
  }

  /** What a request asks for: events after the cursor, or else from the start ledger on, or else all. */
  predicate Wanted(e: RpcEvent, start: Option<nat>, cursor: Option<nat>) {
    if cursor.Some? then e.pagingToken > cursor.value else start.Some? ==> e.ledger >= start.value
  }

  lemma WantedFromStart(l: RemoteLog, start: Option<nat>, cursor: Option<nat>, k: nat)
    requires ValidLog(l) && k < |l.events|
    ensures Wanted(l.events[k], start, cursor) <==> k >= PageStart(l, start, cursor)
  {
  }

  lemma PageIsWanted(l: RemoteLog, start: Option<nat>, cursor: Option<nat>, i: nat)
    requires ValidLog(l) && i < |Fetch(l, start, cursor)|
    ensures var page, pos := Fetch(l, start, cursor), PageStart(l, start, cursor);
            pos + i < |l.events| && page[i] == l.events[pos + i] && Wanted(page[i], start, cursor) && page[i].pagingToken == pos + i
  {
    var pos := PageStart(l, start, cursor);
    FetchIsSlice(l, start, cursor);
    WantedFromStart(l, start, cursor, pos + i);
  }

  lemma InPage(l: RemoteLog, start: Option<nat>, cursor: Option<nat>, k: nat)
    requires ValidLog(l) && PageStart(l, start, cursor) <= k < PageStart(l, start, cursor) + |Fetch(l, start, cursor)|
    ensures k < |l.events| && l.events[k] in Fetch(l, start, cursor)
  {
    PageIsWanted(l, start, cursor, k - PageStart(l, start, cursor));
  }

  lemma PageLeavesOutLater(l: RemoteLog, start: Option<nat>, cursor: Option<nat>, k: nat)
    requires ValidLog(l) && k < |l.events| && Wanted(l.events[k], start, cursor) && l.events[k] !in Fetch(l, start, cursor)
    ensures var page := Fetch(l, start, cursor);
            |page| == PAGE_LIMIT && l.events[k].pagingToken > page[|page| - 1].pagingToken
  {
    var pos, page := PageStart(l, start, cursor), Fetch(l, start, cursor);
    WantedFromStart(l, start, cursor, k);
    FetchIsSlice(l, start, cursor);
    if k < pos + |page| {
      InPage(l, start, cursor, k);
    }
    PageIsWanted(l, start, cursor, |page| - 1);
  }

  /** A page holds at most 200 events, all wanted and without gaps, and leaves out a wanted event only when it is full
      and the event comes after it. */
  lemma PageHoldsNextWanted(l: RemoteLog, start: Option<nat>, cursor: Option<nat>)
    requires ValidLog(l)
    ensures var page := Fetch(l, start, cursor);
            && |page| <= 200
            && (forall i :: 0 <= i < |page| ==>
                  page[i] in l.events && Wanted(page[i], start, cursor) && page[i].pagingToken == page[0].pagingToken + i)
            && (forall k :: 0 <= k < |l.events| && Wanted(l.events[k], start, cursor) && l.events[k] !in page ==>
                  |page| == 200 && l.events[k].pagingToken > page[|page| - 1].pagingToken)
  {
    var page := Fetch(l, start, cursor);
    forall i | 0 <= i < |page|
      ensures page[i] in l.events && Wanted(page[i], start, cursor) && page[i].pagingToken == page[0].pagingToken + i
    {
      PageIsWanted(l, start, cursor, 0);
      PageIsWanted(l, start, cursor, i);
    }
    forall k | 0 <= k < |l.events| && Wanted(l.events[k], start, cursor) && l.events[k] !in page
      ensures |page| == PAGE_LIMIT && l.events[k].pagingToken > page[|page| - 1].pagingToken
    {
      PageLeavesOutLater(l, start, cursor, k);
    }
  }

  lemma PageCovers(l: RemoteLog, pos: nat, page: seq<RpcEvent>, verdicts: seq<Verdict>)
    requires Positioned(l) && pos + |page| <= |l.events| && page == l.events[pos..pos + |page|]
    ensures Covers(HandlePage(page, verdicts), l.events, pos)
    ensures SeenAfter(l.tip, HandlePage(page, verdicts)) == l.tip
  {
    var done := HandlePage(page, verdicts);
    HandleFromCovers(page, verdicts, 0);
    forall i | 0 <= i < |done|
      ensures done[i].event == l.events[pos + i] && done[i].event.ledger <= l.tip
    {
      assert page[i] == l.events[pos + i];
    }
    SeenStays(l.tip, done);
  }

  /** What one page run from position `pos` leaves behind. */
  predicate RunCovers(run: PageRun, l: RemoteLog, pos: nat) {
    && Covers(run.handled, l.events, pos)
    && (run.next.Stop? ==> run.next.seen == l.tip && pos + |run.handled| == |l.events|)
    && (run.next.Continue? ==> run.next.seen == l.tip && run.next.token + 1 == pos + |run.handled|)
  }

  lemma PageRunCovers(l: RemoteLog, start: Option<nat>, cursor: Option<nat>, seen: nat, reply: Reply)
    requires Positioned(l) && PageStart(l, start, cursor) <= |l.events| && seen <= l.tip
    ensures RunCovers(ReadPage(l, start, cursor, seen, reply), l, PageStart(l, start, cursor))
  {
    if reply.Answers? {
      var pos, page := PageStart(l, start, cursor), Fetch(l, start, cursor);
      FetchIsSlice(l, start, cursor);
      PageCovers(l, pos, page, reply.verdicts);
      if |page| == PAGE_LIMIT {
        assert page[|page| - 1] == l.events[pos + |page| - 1];
      }
    }
  }

  predicate SweepEffect(sweep: Sweep, l: RemoteLog, pos: nat) {
    && Extends(l, sweep.log)
    && Covers(sweep.handled, sweep.log.events, pos)
    && (sweep.finished.Some? ==> sweep.finished.value == sweep.log.tip && pos + |sweep.handled| == |sweep.log.events|)
  }

  lemma CoversAppend(first: seq<Handled>, second: seq<Handled>, early: seq<RpcEvent>, late: seq<RpcEvent>, pos: nat)
    requires |early| <= |late| && late[..|early|] == early
    requires Covers(first, early, pos) && Covers(second, late, pos + |first|)
    ensures Covers(first + second, late, pos)
  {
    forall i | 0 <= i < |first + second|
      ensures (first + second)[i].event == late[pos + i] && FateOk((first + second)[i])
    {
      if i < |first| {
        assert early[pos + i] == late[..|early|][pos + i];
      }
    }
  }

  lemma PrependEffect(l: RemoteLog, l1: RemoteLog, run: PageRun, rest: Sweep, pos: nat)
    requires Positioned(l) && Extends(l, l1)
    requires Covers(run.handled, l1.events, pos) && SweepEffect(rest, l1, pos + |run.handled|)
    ensures SweepEffect(Prepend(run.handled, rest), l, pos)
  {
    ExtendsTwice(l, l1, rest.log);
    CoversAppend(run.handled, rest.handled, l1.events, rest.log.events, pos);
  }

  lemma EndEffect(l: RemoteLog, l1: RemoteLog, handled: seq<Handled>, finished: Option<nat>, pos: nat)
    requires Positioned(l1) && (l1 == l || Extends(l, l1)) && Covers(handled, l1.events, pos)
    requires finished.Some? ==> finished.value == l1.tip && pos + |handled| == |l1.events|
    ensures SweepEffect(Sweep(l1, handled, finished), l, pos)
  {
  }

  /** A first round followed by the rest, if the round leads to one. */
  function Conclude(l1: RemoteLog, run: PageRun, rest: Sweep): Sweep {
    match run.next
    case Abort => Sweep(l1, run.handled, None)
    case Stop(seen1) => Sweep(l1, run.handled, Some(seen1))
    case Continue(_, _) => Prepend(run.handled, rest)
  }

  lemma RoundEffect(l: RemoteLog, l1: RemoteLog, run: PageRun, rest: Sweep, pos: nat)
    requires Positioned(l) && Extends(l, l1) && RunCovers(run, l1, pos)
    requires run.next.Continue? ==> SweepEffect(rest, l1, run.next.token + 1)
    ensures SweepEffect(Conclude(l1, run, rest), l, pos)
  {
    match run.next {
      case Abort => EndEffect(l, l1, run.handled, None, pos);
      case Stop(seen1) => EndEffect(l, l1, run.handled, Some(seen1), pos);
      case Continue(_, _) => PrependEffect(l, l1, run, rest, pos);
    }
  }

  lemma RoundCovers(l: RemoteLog, start: Option<nat>, cursor: Option<nat>, seen: nat, turn: Turn)
    requires Positioned(l) && Grows(l, turn.growth) && Anchored(l, start, cursor) && seen <= l.tip
    ensures var l1 := Grow(l, turn.growth);
            Extends(l, l1) && RunCovers(ReadPage(l1, start, cursor, seen, turn.reply), l1, PageStart(l, start, cursor))
  {
    var l1 := Grow(l, turn.growth);
    GrowthKeepsStart(l, turn.growth, start, cursor);
    GrowsExtends(l, turn.growth);
    PageRunCovers(l1, start, cursor, seen, turn.reply);
  }

  function RestOf(l1: RemoteLog, run: PageRun, script: seq<Turn>): Sweep {
    if run.next.Continue? then SweepPages(l1, None, Some(run.next.token), run.next.seen, script) else Sweep(l1, [], None)
  }

  /** A sweep with a first round, by definition. */
  lemma SweepUnfolds(l: RemoteLog, start: Option<nat>, cursor: Option<nat>, seen: nat, script: seq<Turn>)
    requires script != []
    ensures var l1 := Grow(l, script[0].growth);
            var run := ReadPage(l1, start, cursor, seen, script[0].reply);
            SweepPages(l, start, cursor, seen, script) == Conclude(l1, run, RestOf(l1, run, script[1..]))
  {
  }

  /** The round after a full page is as well placed as the first. */
  lemma NextRoundStarts(l: RemoteLog, start: Option<nat>, cursor: Option<nat>, seen: nat, turn: Turn)
    requires Positioned(l) && Grows(l, turn.growth) && Anchored(l, start, cursor) && seen <= l.tip
    requires ReadPage(Grow(l, turn.growth), start, cursor, seen, turn.reply).next.Continue?
    ensures var l1 := Grow(l, turn.growth);
            var next := ReadPage(l1, start, cursor, seen, turn.reply).next;
            && Positioned(l1) && next.seen <= l1.tip && Anchored(l1, None, Some(next.token))
            && PageStart(l1, None, Some(next.token)) == next.token + 1 <= |l1.events|
  {
    RoundCovers(l, start, cursor, seen, turn);
  }

  lemma FirstRoundCovers(l: RemoteLog, l1: RemoteLog, start: Option<nat>, cursor: Option<nat>, seen: nat, turn: Turn,
                         run: PageRun, rest: Sweep, pos: nat)
    requires Positioned(l) && Grows(l, turn.growth) && Anchored(l, start, cursor) && seen <= l.tip
    requires l1 == Grow(l, turn.growth) && run == ReadPage(l1, start, cursor, seen, turn.reply)
    requires pos == PageStart(l, start, cursor)
    requires run.next.Continue? ==> SweepEffect(rest, l1, run.next.token + 1)
    ensures SweepEffect(Conclude(l1, run, rest), l, pos)
  {
    RoundCovers(l, start, cursor, seen, turn);
    GrowthKeepsStart(l, turn.growth, start, cursor);
    RoundEffect(l, l1, run, rest, pos);
  }

  lemma {:induction false} SweepCovers(l: RemoteLog, start: Option<nat>, cursor: Option<nat>, seen: nat, script: seq<Turn>)
    requires Positioned(l) && ValidScript(l, script) && Anchored(l, start, cursor) && seen <= l.tip
    requires PageStart(l, start, cursor) <= |l.events|
    ensures SweepEffect(SweepPages(l, start, cursor, seen, script), l, PageStart(l, start, cursor))
    decreases |script|
  {
    if script == [] {
      EndEffect(l, l, [], None, PageStart(l, start, cursor));
    } else {
      var l1 := Grow(l, script[0].growth);
      var run := ReadPage(l1, start, cursor, seen, script[0].reply);
      if run.next.Continue? {
        NextRoundStarts(l, start, cursor, seen, script[0]);
        SweepCovers(l1, None, Some(run.next.token), run.next.seen, script[1..]);
      }
      FirstRoundCovers(l, l1, start, cursor, seen, script[0], run, RestOf(l1, run, script[1..]), PageStart(l, start, cursor));
      SweepUnfolds(l, start, cursor, seen, script);
    }
  }

  /** The number of events up to the stored cursor. */
  function Behind(s: System): nat {
    FirstAt(s.log.events, s.cursor.GetOr(0) + 1)
  }

  /** What a poll does, in terms of positions in the log. */
  predicate PollEffect(s: System, s': System, aborted: bool) {
    var pos := Behind(s);
    && Extends(s.log, s'.log)
    && |s.handled| <= |s'.handled| && s'.handled[..|s.handled|] == s.handled
    && Covers(s'.handled[|s.handled|..], s'.log.events, pos)
    && (aborted ==> s'.cursor == s.cursor)
    && (!aborted ==> s'.cursor.GetOr(0) == s'.log.tip && |s'.handled| - |s.handled| + pos == |s'.log.events|)
  }

  lemma AbsorbCovers(s: System, sweep: Sweep)
    requires SweepEffect(sweep, s.log, Behind(s)) && s.cursor.GetOr(0) <= s.log.tip
    ensures PollEffect(s, Absorb(s, sweep), sweep.finished.None?)
  {
    assert Absorb(s, sweep).handled[|s.handled|..] == sweep.handled;
  }

  /** A poll starts reading right after the events up to the cursor. */
  lemma StartsBehind(s: System)
    requires Positioned(s.log) && s.cursor.GetOr(0) <= s.log.tip
    ensures PageStart(s.log, StartLedger(s.cursor.GetOr(0)), None) == Behind(s)
    ensures Anchored(s.log, StartLedger(s.cursor.GetOr(0)), None)
  {
    if s.cursor.GetOr(0) == 0 {
      FirstAtUnique(s.log.events, 1, 0);
    }
  }

  lemma PollCovers(s: System, script: seq<Turn>)
    requires Positioned(s.log) && ValidScript(s.log, script) && s.cursor.GetOr(0) <= s.log.tip
    ensures PollEffect(s, Poll(s, script), Aborts(s, script))
  {
    StartsBehind(s);
    SweepCovers(s.log, StartLedger(s.cursor.GetOr(0)), None, s.cursor.GetOr(0), script);
    AbsorbCovers(s, SweepOf(s, script));
  }

  // ----- at least once -----

  predicate WasHandled(handled: seq<Handled>, event: RpcEvent) {
    exists j :: 0 <= j < |handled| && handled[j].event == event
  }

  ghost predicate Inv(s: System) {
    && ValidLog(s.log)
    && s.cursor.GetOr(0) <= s.log.tip
    && (forall i :: 0 <= i < Behind(s) ==> WasHandled(s.handled, s.log.events[i]))
    && (forall j :: 0 <= j < |s.handled| ==> s.handled[j].event in s.log.events && FateOk(s.handled[j]))
  }

  lemma ExtendsKeepsFirstAt(l: RemoteLog, late: RemoteLog, k: nat)
    requires Extends(l, late) && k <= l.tip + 1
    ensures FirstAt(late.events, k) == FirstAt(l.events, k)
  {
    var n := FirstAt(l.events, k);
    forall i | 0 <= i < |l.events| ensures late.events[i] == l.events[i] {
      assert late.events[..|l.events|][i] == l.events[i];
    }
    FirstAtUnique(late.events, k, n);
  }

  lemma StillHandled(handled: seq<Handled>, late: seq<Handled>, event: RpcEvent)
    requires |handled| <= |late| && late[..|handled|] == handled
    requires WasHandled(handled, event)
    ensures WasHandled(late, event)
  {
    var j :| 0 <= j < |handled| && handled[j].event == event;
    assert late[j] == late[..|handled|][j];
  }

  lemma PollHandles(s: System, s': System, aborted: bool, i: nat)
    requires Inv(s) && PollEffect(s, s', aborted)
    requires i < Behind(s')
    ensures WasHandled(s'.handled, s'.log.events[i])
  {
    var n, pos := |s.handled|, Behind(s);
    if aborted {
      ExtendsKeepsFirstAt(s.log, s'.log, s.cursor.GetOr(0) + 1);
    }
    if i < pos {
      assert s'.log.events[i] == s'.log.events[..|s.log.events|][i];
      StillHandled(s.handled, s'.handled, s.log.events[i]);
    } else {
      assert s'.handled[n + (i - pos)] == s'.handled[n..][i - pos];
    }
  }

  lemma StillThere(l: RemoteLog, late: RemoteLog, event: RpcEvent)
    requires Extends(l, late) && event in l.events
    ensures event in late.events
  {
    var k :| 0 <= k < |l.events| && l.events[k] == event;
    assert late.events[..|l.events|][k] == late.events[k];
  }

  lemma PollKeepsInv(s: System, s': System, aborted: bool)
    requires Inv(s) && PollEffect(s, s', aborted)
    ensures Inv(s')
  {
    ExtendsOrdered(s.log, s'.log);
    forall i | 0 <= i < Behind(s') ensures WasHandled(s'.handled, s'.log.events[i]) {
      PollHandles(s, s', aborted, i);
    }
    forall j | 0 <= j < |s'.handled| ensures s'.handled[j].event in s'.log.events && FateOk(s'.handled[j]) {
      if j < |s.handled| {
        assert s'.handled[j] == s'.handled[..|s.handled|][j];
        StillThere(s.log, s'.log, s.handled[j].event);
      } else {
        assert s'.handled[j] == s'.handled[|s.handled|..][j - |s.handled|];
      }
    }
  }

  lemma GrowingKeepsInv(s: System, g: Growth)
    requires Inv(s) && Grows(s.log, g)
    ensures Inv(s.(log := Grow(s.log, g)))
  {
    var late := Grow(s.log, g);
    GrowsExtends(s.log, g);
    ExtendsOrdered(s.log, late);
    ExtendsKeepsFirstAt(s.log, late, s.cursor.GetOr(0) + 1);
    forall j | 0 <= j < |s.handled| ensures s.handled[j].event in late.events {
      StillThere(s.log, late, s.handled[j].event);
    }
  }

  lemma StepKeepsInv(s: System, step: Step)
    requires Inv(s) && ValidStep(s, step)
    ensures Inv(Next(s, step))
  {
    match step {
      case Tick(script) =>
        PollCovers(s, script);
        PollKeepsInv(s, Poll(s, script), Aborts(s, script));
      case Growing(growth) => GrowingKeepsInv(s, growth);
      case CursorLost => FirstAtUnique(s.log.events, 1, 0);
    }
  }

  lemma {:induction false} RunKeepsInv(s: System, steps: seq<Step>)
    requires Inv(s) && ValidRun(s, steps)
    ensures Inv(Run(s, steps))
    decreases |steps|
  {
    if steps != [] {
      StepKeepsInv(s, steps[0]);
      RunKeepsInv(Next(s, steps[0]), steps[1..]);
    }
  }

  lemma StartInv(l: RemoteLog)
    requires ValidLog(l)
    ensures Inv(Start(l)) && Behind(Start(l)) == 0
  {
    FirstAtUnique(l.events, 1, 0);
  }

  /** Over every run, with aborted polls, crashes and lost cursors: no event up to the stored cursor was missed,
      and whatever was handled is an event of the log with the fate it calls for. */
  lemma NothingMissed(l: RemoteLog, steps: seq<Step>)
    requires ValidLog(l) && ValidRun(Start(l), steps)
    ensures var s := Run(Start(l), steps);
            && (forall e :: e in s.log.events && e.ledger <= s.cursor.GetOr(0) ==> WasHandled(s.handled, e))
            && (forall j :: 0 <= j < |s.handled| ==> s.handled[j].event in s.log.events && FateOk(s.handled[j]))
            && s.cursor.GetOr(0) <= s.log.tip
  {
    StartInv(l);
    RunKeepsInv(Start(l), steps);
    var s := Run(Start(l), steps);
    forall e | e in s.log.events && e.ledger <= s.cursor.GetOr(0) ensures WasHandled(s.handled, e) {
      var i :| 0 <= i < |s.log.events| && s.log.events[i] == e;
      assert i < Behind(s);
    }
  }

  /** Over every run, spelled out: an event is skipped exactly if its topics begin with neither of the two, dead-lettered
      whenever its payload lacks something, and emitted only with the fields of its payload. */
  lemma EmittedFits(l: RemoteLog, steps: seq<Step>, j: nat)
    requires ValidLog(l) && ValidRun(Start(l), steps) && j < |Run(Start(l), steps).handled|
    ensures var s := Run(Start(l), steps);
            var e, fate := s.handled[j].event, s.handled[j].fate;
            && e in s.log.events
            && (fate == Skipped <==> !IsPayment(e) && !IsSettlement(e))
            && ((IsPayment(e) || IsSettlement(e)) && !Deliverable(e) ==> fate == DeadLettered)
            && (fate.Emitted? ==> Carries(fate.dto, e) && (fate.channel == PaymentChannel <==> IsPayment(e)))
  {
    NothingMissed(l, steps);
  }

  // ----- exactly once -----

  /** Exactly the events up to the cursor were handled, each once, in log order. */
  predicate OnceInOrder(s: System) {
    && |s.handled| == Behind(s)
    && forall i :: 0 <= i < |s.handled| ==> s.handled[i].event == s.log.events[i]
  }

  lemma PollContinuesOrder(s: System, s': System, i: nat)
    requires OnceInOrder(s) && PollEffect(s, s', false) && i < |s'.handled|
    ensures i < |s'.log.events| && s'.handled[i].event == s'.log.events[i]
  {
    var n := |s.handled|;
    if i < n {
      assert s'.handled[i] == s'.handled[..n][i];
      assert s'.log.events[i] == s'.log.events[..|s.log.events|][i];
    } else {
      assert s'.handled[i] == s'.handled[n..][i - n];
    }
  }

  lemma SmoothPollKeepsOnce(s: System, s': System)
    requires Inv(s) && OnceInOrder(s) && PollEffect(s, s', false)
    ensures OnceInOrder(s')
  {
    forall i | 0 <= i < |s'.handled| ensures s'.handled[i].event == s'.log.events[i] {
      PollContinuesOrder(s, s', i);
    }
    FirstAtUnique(s'.log.events, s'.cursor.GetOr(0) + 1, |s'.log.events|);
  }

  lemma GrowingKeepsOnce(s: System, g: Growth)
    requires OnceInOrder(s) && Grows(s.log, g) && s.cursor.GetOr(0) <= s.log.tip
    ensures OnceInOrder(s.(log := Grow(s.log, g)))
  {
    GrowsExtends(s.log, g);
    ExtendsKeepsFirstAt(s.log, Grow(s.log, g), s.cursor.GetOr(0) + 1);
  }

  lemma SmoothKeepsOnce(s: System, step: Step)
    requires Inv(s) && ValidStep(s, step) && SmoothStep(s, step) && OnceInOrder(s)
    ensures OnceInOrder(Next(s, step))
  {
    match step {
      case Tick(script) =>
        PollCovers(s, script);
        SmoothPollKeepsOnce(s, Poll(s, script));
      case Growing(growth) => GrowingKeepsOnce(s, growth);
    }
  }

  lemma {:induction false} SmoothRunKeepsOnce(s: System, steps: seq<Step>)
    requires Inv(s) && ValidRun(s, steps) && SmoothRun(s, steps) && OnceInOrder(s)
    ensures OnceInOrder(Run(s, steps))
    decreases |steps|
  {
    if steps != [] {
      SmoothKeepsOnce(s, steps[0]);
      StepKeepsInv(s, steps[0]);
      SmoothRunKeepsOnce(Next(s, steps[0]), steps[1..]);
    }
  }

  /** When no poll aborts and the cursor is kept, the handled events are exactly those up to the cursor, once each and in order. */
  lemma ExactlyOnce(l: RemoteLog, steps: seq<Step>)
    requires ValidLog(l) && ValidRun(Start(l), steps) && SmoothRun(Start(l), steps)
    ensures OnceInOrder(Run(Start(l), steps))
  {
    StartInv(l);
    SmoothRunKeepsOnce(Start(l), steps);
  }

  // ----- the cursor -----

  predicate NeverLost(steps: seq<Step>) {
    forall i :: 0 <= i < |steps| ==> !steps[i].CursorLost?
  }

  lemma {:induction false} CursorClimbs(s: System, steps: seq<Step>)
    requires Inv(s) && ValidRun(s, steps) && NeverLost(steps)
    ensures s.cursor.GetOr(0) <= Run(s, steps).cursor.GetOr(0)
    decreases |steps|
  {
    if steps != [] {
      StepKeepsInv(s, steps[0]);
      if steps[0].Tick? {
        PollCovers(s, steps[0].script);
      }
      CursorClimbs(Next(s, steps[0]), steps[1..]);
    }
  }

  lemma {:induction false} RunAppend(s: System, steps: seq<Step>, more: seq<Step>)
    ensures Run(s, steps + more) == Run(Run(s, steps), more)
    ensures ValidRun(s, steps + more) <==> ValidRun(s, steps) && ValidRun(Run(s, steps), more)
    decreases |steps|
  {
    if steps == [] {
      assert steps + more == more;
    } else {
      assert (steps + more)[1..] == steps[1..] + more;
      RunAppend(Next(s, steps[0]), steps[1..], more);
    }
  }

  /** The cursor never goes back, and a poll that ends without an abort has caught up with the whole log. */
  lemma CursorNeverGoesBack(l: RemoteLog, steps: seq<Step>, more: seq<Step>, script: seq<Turn>)
    requires ValidLog(l) && ValidRun(Start(l), steps + more) && NeverLost(more)
    requires ValidScript(Run(Start(l), steps).log, script)
    ensures var s, s' := Run(Start(l), steps), Run(Start(l), steps + more);
            && s.cursor.GetOr(0) <= s'.cursor.GetOr(0)
            && (!Aborts(s, script) ==>
                  var caughtUp := Poll(s, script);
                  caughtUp.cursor.GetOr(0) == caughtUp.log.tip)
  {
    RunAppend(Start(l), steps, more);
    StartInv(l);
    RunKeepsInv(Start(l), steps);
    CursorClimbs(Run(Start(l), steps), more);
    PollCovers(Run(Start(l), steps), script);
  }

  // ----- progress -----

  lemma {:induction false} HandledNotStuck(page: seq<RpcEvent>, verdicts: seq<Verdict>, i: nat, k: nat)
    requires i <= |page| && i <= k < i + |HandleFrom(page, verdicts, i)|
    ensures k < |page| && !StopsAt(page, verdicts, k)
    decreases |page| - i
  {
    HandleEventFits(page[i], verdicts[i]);
    if i < k {
      HandledNotStuck(page, verdicts, i + 1, k);
    }
  }

  /** With the cursor at the tip every event of the log has been handled. */
  lemma CaughtUp(s: System)
    requires Inv(s) && s.cursor.GetOr(0) == s.log.tip
    ensures forall e :: e in s.log.events ==> WasHandled(s.handled, e)
  {
    FirstAtUnique(s.log.events, s.log.tip + 1, |s.log.events|);
    forall e | e in s.log.events ensures WasHandled(s.handled, e) {
      var i :| 0 <= i < |s.log.events| && s.log.events[i] == e;
      assert i < Behind(s);
    }
  }

  /** One round aborts exactly if the RPC fails or an event of its page is stuck or never reached; otherwise it goes on
      exactly after a full page. */
  lemma RoundEndsExactly(l: RemoteLog, start: Option<nat>, cursor: Option<nat>, seen: nat, reply: Reply)
    ensures var page, next := Fetch(l, start, cursor), ReadPage(l, start, cursor, seen, reply).next;
            && (next.Abort? <==> (reply.RpcFails? || exists i :: 0 <= i < |page| && StopsAt(page, reply.verdicts, i)))
            && (!next.Abort? ==> (next.Continue? <==> |page| >= 200))
  {
    if reply.Answers? {
      var page := Fetch(l, start, cursor);
      PageHandledExactly(page, reply.verdicts);
      var done := HandlePage(page, reply.verdicts);
      if |done| == |page| {
        forall i | 0 <= i < |page| ensures !StopsAt(page, reply.verdicts, i) {
          HandledNotStuck(page, reply.verdicts, 0, i);
        }
      }
    }
  }

  /** The RPC answers and nothing gets stuck. */
  predicate Calm(turn: Turn) {
    && turn.reply.Answers? && |turn.reply.verdicts| >= 200
    && forall i :: 0 <= i < |turn.reply.verdicts| ==> turn.reply.verdicts[i].queued
  }

  lemma CalmRound(l: RemoteLog, start: Option<nat>, cursor: Option<nat>, seen: nat, turn: Turn)
    requires Calm(turn)
    ensures var run := ReadPage(l, start, cursor, seen, turn.reply);
            && !run.next.Abort? && |run.handled| == |Fetch(l, start, cursor)| <= 200
            && (run.next.Continue? ==> |run.handled| == 200)
  {
    PageHandledExactly(Fetch(l, start, cursor), turn.reply.verdicts);
  }

  /** A calm sweep finishes, unless every one of its rounds reads a full page. */
  lemma {:induction false} CalmSweep(l: RemoteLog, start: Option<nat>, cursor: Option<nat>, seen: nat, script: seq<Turn>)
    requires forall i :: 0 <= i < |script| ==> Calm(script[i])
    ensures var sweep := SweepPages(l, start, cursor, seen, script);
            sweep.finished.Some? || |sweep.handled| == 200 * |script|
    decreases |script|
  {
    if script != [] {
      var l1 := Grow(l, script[0].growth);
      var run := ReadPage(l1, start, cursor, seen, script[0].reply);
      CalmRound(l1, start, cursor, seen, script[0]);
      if run.next.Continue? {
        CalmSweep(l1, None, Some(run.next.token), run.next.seen, script[1..]);
      }
      SweepUnfolds(l, start, cursor, seen, script);
    }
  }

  lemma CalmPollFinishes(s: System, script: seq<Turn>)
    requires Inv(s) && ValidScript(s.log, script)
    requires forall i :: 0 <= i < |script| ==> Calm(script[i])
    requires 200 * |script| > |Poll(s, script).log.events| - Behind(s)
    ensures var s' := Poll(s, script);
            && !Aborts(s, script) && s'.cursor.GetOr(0) == s'.log.tip
            && forall e :: e in s'.log.events ==> WasHandled(s'.handled, e)
  {
    CalmSweep(s.log, StartLedger(s.cursor.GetOr(0)), None, s.cursor.GetOr(0), script);
    PollCovers(s, script);
    var s' := Poll(s, script);
    PollKeepsInv(s, s', Aborts(s, script));
    CaughtUp(s');
  }

  /** Progress: after every run a calm poll that has more rounds than full pages to read ends, stores the tip as its cursor
      and has handled every event up to it. */
  lemma CalmPollCatchesUp(l: RemoteLog, steps: seq<Step>, script: seq<Turn>)
    requires ValidLog(l) && ValidRun(Start(l), steps) && ValidScript(Run(Start(l), steps).log, script)
    requires forall i :: 0 <= i < |script| ==> Calm(script[i])
    requires 200 * |script| > |Poll(Run(Start(l), steps), script).log.events| - Behind(Run(Start(l), steps))
    ensures var s := Run(Start(l), steps);
            var s' := Poll(s, script);
            && !Aborts(s, script) && s'.cursor.GetOr(0) == s'.log.tip
            && forall e :: e in s'.log.events ==> WasHandled(s'.handled, e)
  {
    StartInv(l);
    RunKeepsInv(Start(l), steps);
    CalmPollFinishes(Run(Start(l), steps), script);
  }
}
