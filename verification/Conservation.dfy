/** Nothing appears or disappears over a run: units are resting, traded, cancelled or dropped. */
module Conservation {
  import opened Types
  import opened Queues
  import opened Exchange
  import opened Invariants
  import opened Greedy
  import opened Execution

  function BookDepth(b: Book): int { Depth(b.bids) + Depth(b.asks) }

  function TapeUnits(ts: seq<Trade>): int { if ts == [] then 0 else ts[0].qty + TapeUnits(ts[1..]) }

  lemma TapeUnitsConcat(a: seq<Trade>, b: seq<Trade>)
    ensures TapeUnits(a + b) == TapeUnits(a) + TapeUnits(b)
  {
    if a == [] {
      assert a + b == b;
    } else {
      assert (a + b)[1..] == a[1..] + b;
      TapeUnitsConcat(a[1..], b);
    }
  }

  lemma TapeUnitsOfSlices(ts: seq<Trade>)
    ensures TapeUnits(ts) == SliceUnits(SlicesOf(ts))
  {
    if ts != [] { TapeUnitsOfSlices(ts[1..]); }
  }

  /** Units a step brings in, takes out by cancelling, and drops as the rest of a market order. */
  function AdmittedUnits(s: State, step: Step): int {
    if step.Place? && Admits(s, step.order) then step.order.qty else 0
  }

  function CancelledUnits(s: State, step: Step): int {
    if step.CancelId? && FindIndexed(s.book, step.id).Some? then FindIndexed(s.book, step.id).value.qty else 0
  }

  function DroppedUnits(s: State, step: Step): int {
    if step.Place? && Admits(s, step.order) && step.order.kind == Market
    then Process(s, step.order).1.remainingQty else 0
  }

  lemma MatchTape(s: State, taker: Order, batch: int)
    ensures var j := Match(s, taker, batch).state.journal;
            j.tape == s.journal.tape && j.tradeSeq == s.journal.tradeSeq && j.nextTradeId == s.journal.nextTradeId
    decreases |Opposing(s, taker)|, taker.qty > 0
  {
    if CanFill(s, taker) {
      MatchTape(Fill(s, taker, batch), taker.(qty := taker.qty - FillSize(s, taker)), batch);
    }
  }

  /** The trade sink receives exactly the trades in the result. */
  lemma PlaceTape(s: State, o: Order)
    ensures Process(s, o).0.journal.tape == s.journal.tape + Process(s, o).1.trades
  {
    if Admits(s, o) {
      MatchTape(Announced(s, o), o, s.journal.batchSeq);
    } else {
      assert s.journal.tape + [] == s.journal.tape;
    }
  }

  lemma PlaceUnits(s: State, o: Order)
    requires Core(s) && ProperIds(s, Place(o)) && Admits(s, o)
    ensures var (t, r) := Process(s, o);
            && BookDepth(t.book) == BookDepth(s.book) + o.qty - 2 * r.filledQty
                                    - (if o.kind == Market then r.remainingQty else 0)
            && TapeUnits(r.trades) == r.filledQty
  {
    AcceptedOutcome(s, o);
    var (t, r) := Process(s, o);
    var q, f := Opposing(s, o), Takes(Opposing(s, o), o);
    ReachableNonNegative(Opposite(o.side), q, o);
    PriceTimePriority(Opposite(o.side), q, f);
    TapeUnitsOfSlices(r.trades);
    TotalInsert(o.side, s.book.Queue(o.side), o.(qty := o.qty - f), Units());
    TwoSides(s.book, o.side);
    TwoSides(t.book, o.side);
  }

  lemma TwoSides(b: Book, side: Side)
    ensures BookDepth(b) == Depth(b.Queue(side)) + Depth(b.Queue(Opposite(side)))
  {
  }

  lemma CancelUnits(s: State, id: int)
    requires Core(s) && ProperIds(s, CancelId(id))
    ensures BookDepth(Cancel(s, id).0.book) == BookDepth(s.book) - CancelledUnits(s, CancelId(id))
    ensures Cancel(s, id).0.journal.tape == s.journal.tape
  {
    if id in s.book.index {
      var o := CancelledOrder(s, id);
      var side := s.book.index[id].side;
      TotalRemove(s.book.Queue(side), id, Units());
    }
  }

  function RunTotal(amount: (State, Step) -> int, s: State, steps: seq<Step>): int
    decreases |steps|
  {
    if steps == [] then 0 else amount(s, steps[0]) + RunTotal(amount, Apply(s, steps[0]), steps[1..])
  }

  /** Units in = units out. A traded unit leaves twice: once as the taker's, once as the maker's. */
  lemma {:induction false} UnitsConserved(s: State, steps: seq<Step>)
    requires Core(s) && ProperRun(s, steps)
    ensures var t := Run(s, steps);
            BookDepth(s.book) + RunTotal(AdmittedUnits, s, steps) + 2 * TapeUnits(s.journal.tape)
              == BookDepth(t.book) + 2 * TapeUnits(t.journal.tape)
                 + RunTotal(CancelledUnits, s, steps) + RunTotal(DroppedUnits, s, steps)
    decreases |steps|
  {
    if steps != [] {
      match steps[0] {
        case Place(o) =>
          PlaceTape(s, o);
          TapeUnitsConcat(s.journal.tape, Process(s, o).1.trades);
          if Admits(s, o) { PlaceUnits(s, o); }
        case CancelId(id) => CancelUnits(s, id);
        case _ =>
      }
      ApplyCore(s, steps[0]);
      UnitsConserved(Apply(s, steps[0]), steps[1..]);
    }
  }

  // ----- numbering of the tape

  /** Sequence numbers and trade ids run 1, 2, 3, ... along the tape. */
  ghost predicate TapeNumbered(j: Journal) {
    && j.tradeSeq == |j.tape| + 1 && j.nextTradeId == |j.tape| + 1
    && forall i :: 0 <= i < |j.tape| ==> j.tape[i].seqNo == i + 1 && j.tape[i].tradeId == i + 1
  }

  lemma PlaceNumbered(s: State, o: Order)
    requires TapeNumbered(s.journal)
    ensures TapeNumbered(Process(s, o).0.journal)
  {
    if Admits(s, o) {
      MatchTape(Announced(s, o), o, s.journal.batchSeq);
      var m := Matching(s, o);
      var stamped := Stamp(m.trades, m.state.journal.tradeSeq, m.state.journal.nextTradeId);
      assert Process(s, o).0.journal.tape == s.journal.tape + stamped;
    }
  }

  /** Over any run, from an empty tape, trades are numbered without gaps in the order they were made. */
  lemma {:induction false} RunNumbered(s: State, steps: seq<Step>)
    requires TapeNumbered(s.journal)
    ensures TapeNumbered(Run(s, steps).journal)
    decreases |steps|
  {
    if steps != [] {
      if steps[0].Place? { PlaceNumbered(s, steps[0].order); }
      RunNumbered(Apply(s, steps[0]), steps[1..]);
    }
  }
}
