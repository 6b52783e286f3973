/** What the journals of the paper book record over a run (paper/service.py:31-101). */
module PaperJournals {
  import opened Prelude
  import opened PaperModels
  import opened PaperBook
  import opened PaperLaws

  lemma EventsOfSnoc(events: seq<DcaEvent>, e: DcaEvent, id: nat)
    ensures EventsOf(events + [e], id) == EventsOf(events, id) + if e.positionId == id then [e] else []
  {
    assert (events + [e])[..|events|] == events;
  }

  /** The entries of a position, numbered from one. */
  ghost predicate NumberedFrom1(history: seq<DcaEvent>, count: nat) {
    |history| == count && forall k | 0 <= k < count :: history[k].entryNumber == k + 1
  }

  ghost predicate EventsBelow(events: seq<DcaEvent>, n: nat) {
    forall i | 0 <= i < |events| :: events[i].positionId < n
  }

  lemma {:induction false} NoEventsYet(events: seq<DcaEvent>, n: nat)
    requires EventsBelow(events, n)
    ensures EventsOf(events, n) == []
  {
    if events != [] { NoEventsYet(events[..|events| - 1], n); }
  }

  /** One event for each DCA entry of the position, in order. */
  ghost predicate LoggedAt(events: seq<DcaEvent>, id: nat, p: Position) {
    NumberedFrom1(EventsOf(events, id), p.dcaEntries)
  }

  /** Every open position has one event for each of its DCA entries, in order. */
  ghost predicate Logged(book: Book) {
    && EventsBelow(book.dcaEvents, book.nextId)
    && forall id | id in book.positions :: id < book.nextId && LoggedAt(book.dcaEvents, id, book.positions[id])
  }

  lemma EnterLogged(config: Config, book: Book, request: Request, quote: Option<Quote>, conditions: Conditions)
    requires Logged(book)
    ensures Logged(Enter(config, book, request, quote, conditions).0)
  {
    NoEventsYet(book.dcaEvents, book.nextId);
  }

  lemma DcaLogged(config: Config, book: Book, id: nat, request: Request, quote: Option<Quote>, conditions: Conditions)
    requires Logged(book)
    ensures Logged(AddDca(config, book, id, request, quote, conditions).0)
  {
    var (after, outcome) := AddDca(config, book, id, request, quote, conditions);
    if outcome.Accepted? {
      OneMoreEvent(book, after, id, after.dcaEvents[|book.dcaEvents|]);
    } else if id in book.positions {
      SameEntries(book, after, id);
    }
  }

  lemma OwnEvent(events: seq<DcaEvent>, e: DcaEvent, id: nat, p: Position, grown: Position)
    requires LoggedAt(events, id, p) && e.positionId == id && e.entryNumber == grown.dcaEntries == p.dcaEntries + 1
    ensures LoggedAt(events + [e], id, grown)
  {
    EventsOfSnoc(events, e, id);
  }

  lemma OtherEvent(events: seq<DcaEvent>, e: DcaEvent, id: nat, p: Position)
    requires LoggedAt(events, id, p) && e.positionId != id
    ensures LoggedAt(events + [e], id, p)
  {
    EventsOfSnoc(events, e, id);
  }

  lemma OneMoreEvent(book: Book, after: Book, id: nat, e: DcaEvent)
    requires Logged(book) && id in book.positions && id in after.positions
    requires after.positions == book.positions[id := after.positions[id]] && after.nextId == book.nextId
    requires after.dcaEvents == book.dcaEvents + [e] && e.positionId == id
    requires e.entryNumber == after.positions[id].dcaEntries == book.positions[id].dcaEntries + 1
    ensures Logged(after)
  {
    forall k | k in after.positions ensures k < after.nextId && LoggedAt(after.dcaEvents, k, after.positions[k]) {
      assert LoggedAt(book.dcaEvents, k, book.positions[k]);
      if k == id {
        OwnEvent(book.dcaEvents, e, id, book.positions[id], after.positions[id]);
      } else {
        OtherEvent(book.dcaEvents, e, k, book.positions[k]);
      }
    }
  }

  lemma SameEntries(book: Book, after: Book, id: nat)
    requires Logged(book) && id in book.positions && id in after.positions
    requires after.positions == book.positions[id := after.positions[id]] && after.nextId == book.nextId
    requires after.dcaEvents == book.dcaEvents && after.positions[id].dcaEntries == book.positions[id].dcaEntries
    ensures Logged(after)
  {
    forall k | k in after.positions ensures k < after.nextId && LoggedAt(after.dcaEvents, k, after.positions[k]) {
      assert LoggedAt(book.dcaEvents, k, book.positions[k]);
    }
  }

  lemma MarkLogged(book: Book, id: nat, price: real, timestamp: int)
    requires Logged(book)
    ensures Logged(Mark(book, id, price, timestamp).0)
  {
    if id in book.positions { SameEntries(book, Mark(book, id, price, timestamp).0, id); }
  }

  lemma CloseLogged(book: Book, id: nat, price: real, reason: string)
    requires Logged(book)
    ensures Logged(Close(book, id, price, reason).0)
  {
  }

  lemma ExitLogged(book: Book, id: nat, view: ExitView, maxHolding: int, price: real, timestamp: int)
    requires Logged(book)
    ensures Logged(EvaluateExit(book, id, view, maxHolding, price, timestamp).0)
  {
    if id in book.positions {
      var after := EvaluateExit(book, id, view, maxHolding, price, timestamp).0;
      var (action, code) := DecisionOn(book, id, view, maxHolding, timestamp);
      if action == REDUCE_POSITION {
        SameEntries(book, after, id);
      } else {
        CloseLogged(book, id, price, code);
      }
    }
  }

  lemma ApplyLogged(config: Config, book: Book, op: Operation)
    requires Logged(book)
    ensures Logged(Apply(config, book, op).0)
  {
    match op
    case DoEnter(request, quote, conditions) => EnterLogged(config, book, request, quote, conditions);
    case DoMark(id, price, timestamp) => MarkLogged(book, id, price, timestamp);
    case DoDca(id, request, quote, conditions) => DcaLogged(config, book, id, request, quote, conditions);
    case DoClose(id, price, reason) => CloseLogged(book, id, price, reason);
    case DoEvaluateExit(id, view, maxHolding, price, timestamp) =>
      ExitLogged(book, id, view, maxHolding, price, timestamp);
    case _ =>
  }

  /** Over every run each open position's DCA events are numbered like its entries. */
  lemma {:induction false} RunLogged(config: Config, book: Book, ops: seq<Operation>)
    requires Logged(book)
    ensures Logged(Run(config, book, ops))
    decreases |ops|
  {
    if ops != [] {
      ApplyLogged(config, book, ops[0]);
      RunLogged(config, Apply(config, book, ops[0]).0, ops[1..]);
    }
  }

  /** A journal that records the close of its trade. */
  ghost predicate ClosedWith(journal: Journal, id: nat, result: FinalResult, dcaEntries: nat) {
    journal.tradeId == id && journal.finalResult == Some(result) && NumberedFrom1(journal.dcaHistory, dcaEntries)
  }

  ghost predicate ChangedOnlyAt(before: seq<Journal>, after: seq<Journal>, id: nat) {
    id < |before| == |after| && forall i | 0 <= i < |before| && i != id :: after[i] == before[i]
  }

  /** Closing writes the whole DCA history of the trade, and its result, into its own journal and no other. */
  lemma CloseWritesOwnJournal(config: Config, book: Book, id: nat, price: real, reason: string)
    requires Sound(config, book) && Logged(book) && id in book.positions
    ensures var journals := Close(book, id, price, reason).0.journals;
      ChangedOnlyAt(book.journals, journals, id)
      && ClosedWith(journals[id], id, ResultOf(book, id, price), book.positions[id].dcaEntries)
  {
    JournalIndexIs(book.journals, book.positions, book.nextId, id);
    assert LoggedAt(book.dcaEvents, id, book.positions[id]);
  }

  // ------------------------------------------------------------ closed is closed

  ghost predicate ClosedStay(before: seq<Journal>, after: seq<Journal>) {
    && |before| <= |after|
    && forall i | 0 <= i < |before| && before[i].finalResult.Some? :: after[i] == before[i]
  }

  lemma CloseKeepsClosed(config: Config, book: Book, id: nat, price: real, reason: string)
    requires Sound(config, book)
    ensures ClosedStay(book.journals, Close(book, id, price, reason).0.journals)
  {
    if id in book.positions { JournalIndexIs(book.journals, book.positions, book.nextId, id); }
  }

  lemma OpeningKeepsClosed(config: Config, book: Book, request: Request, quote: Option<Quote>, conditions: Conditions)
    ensures ClosedStay(book.journals, Apply(config, book, DoEnter(request, quote, conditions)).0.journals)
  {
  }

  lemma ClosingKeepsClosed(config: Config, book: Book, id: nat, price: real, reason: string)
    requires Sound(config, book)
    ensures ClosedStay(book.journals, Apply(config, book, DoClose(id, price, reason)).0.journals)
  {
    CloseKeepsClosed(config, book, id, price, reason);
  }

  lemma ExitKeepsClosed(
    config: Config, book: Book, id: nat, view: ExitView, maxHolding: int, price: real, timestamp: int)
    requires Sound(config, book)
    ensures ClosedStay(book.journals,
                       Apply(config, book, DoEvaluateExit(id, view, maxHolding, price, timestamp)).0.journals)
  {
    if id in book.positions {
      var (_, code) := DecisionOn(book, id, view, maxHolding, timestamp);
      CloseKeepsClosed(config, book, id, price, code);
    }
  }

  lemma OthersKeepJournals(config: Config, book: Book, op: Operation)
    requires !op.DoEnter? && !op.DoClose? && !op.DoEvaluateExit?
    ensures Apply(config, book, op).0.journals == book.journals
  {
  }

  lemma ApplyKeepsClosed(config: Config, book: Book, op: Operation)
    requires Sound(config, book)
    ensures ClosedStay(book.journals, Apply(config, book, op).0.journals)
  {
    match op
    case DoEnter(request, quote, conditions) => OpeningKeepsClosed(config, book, request, quote, conditions);
    case DoClose(id, price, reason) => ClosingKeepsClosed(config, book, id, price, reason);
    case DoEvaluateExit(id, view, maxHolding, price, timestamp) =>
      ExitKeepsClosed(config, book, id, view, maxHolding, price, timestamp);
    case _ => OthersKeepJournals(config, book, op);
  }

  /** Over every run the journal of a closed trade is never rewritten. */
  lemma {:induction false} RunKeepsClosed(config: Config, book: Book, ops: seq<Operation>)
    requires Sound(config, book)
    ensures ClosedStay(book.journals, Run(config, book, ops).journals)
    decreases |ops|
  {
    if ops != [] {
      ApplySound(config, book, ops[0]);
      ApplyKeepsClosed(config, book, ops[0]);
      RunKeepsClosed(config, Apply(config, book, ops[0]).0, ops[1..]);
    }
  }
}
