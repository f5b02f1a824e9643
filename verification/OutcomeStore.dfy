/** The in-memory store of closed outcomes: unique identifiers, listed by close time. */
module OutcomeStore {
  import opened MarketData
  import StableSort

  datatype Outcome = Outcome(id: string, direction: Direction, entryPrice: real, exitPrice: real, size: int,
      closedAt: int)

  function RealizedPnl(o: Outcome): real {
    (if o.direction == Buy then o.exitPrice - o.entryPrice else o.entryPrice - o.exitPrice) * o.size as real
  }

  /**
   What a trade realises is the cash it returns less the cash it takes, a sale first for a short one; so a
   short trade is the negated long one, and splitting a trade splits its result.
  */
  lemma PnlIsCashFlow(o: Outcome, part: int)
    ensures var (entered, left) := (o.entryPrice * o.size as real, o.exitPrice * o.size as real);
            && (o.direction == Buy ==> RealizedPnl(o) == left - entered)
            && (o.direction == Sell ==> RealizedPnl(o) == entered - left)
    ensures RealizedPnl(o.(direction := Sell)) == -RealizedPnl(o.(direction := Buy))
    ensures RealizedPnl(o.(size := part)) + RealizedPnl(o.(size := o.size - part)) == RealizedPnl(o)
  {
    var gain, rest := o.exitPrice - o.entryPrice, o.size - part;
    assert rest as real == o.size as real - part as real;
    assert gain * rest as real == gain * o.size as real - gain * part as real;
    assert -gain * rest as real == -gain * o.size as real - -gain * part as real;
  }

  function ClosedAt(o: Outcome): int {
    o.closedAt
  }

  function Ids(outcomes: seq<Outcome>): set<string> {
    set o <- outcomes :: o.id
  }

  ghost predicate UniqueIds(outcomes: seq<Outcome>) {
    forall j, k :: 0 <= j < k < |outcomes| ==> outcomes[j].id != outcomes[k].id
  }

  class InMemoryOutcomeStore {
    var outcomes: seq<Outcome>
    var ids: set<string>

    ghost predicate Valid()
      reads this
    {
      ids == Ids(outcomes) && UniqueIds(outcomes)
    }

    constructor ()
      ensures Valid() && outcomes == []
    {
      outcomes, ids := [], {};
    }

    /** False, changing nothing, where the store raises. */
    method Append(o: Outcome) returns (ok: bool)
      requires Valid()
      modifies this
      ensures Valid() && ok == (o.id !in Ids(old(outcomes)))
      ensures outcomes == if ok then old(outcomes) + [o] else old(outcomes)
    {
      if o.id in ids {
        return false;
      }
      outcomes := outcomes + [o];
      ids := ids + {o.id};
      ok := true;
      assert ids == Ids(outcomes) by {
        assert forall x :: x in outcomes <==> x in old(outcomes) || x == o;
      }
      assert forall k :: 0 <= k < |old(outcomes)| ==> old(outcomes)[k].id in Ids(old(outcomes));
    }

    /** Every outcome once, by close time; equal close times in order of recording. */
    method ListOutcomes() returns (r: seq<Outcome>)
      ensures r == StableSort.Sort(outcomes, ClosedAt)
      ensures StableSort.SortedBy(r, ClosedAt) && multiset(r) == multiset(outcomes)
      ensures forall t :: StableSort.WithKey(r, ClosedAt, t) == StableSort.WithKey(outcomes, ClosedAt, t)
    {
      r := StableSort.Sort(outcomes, ClosedAt);
      StableSort.SortCorrect(outcomes, ClosedAt, 0);
      forall t ensures StableSort.WithKey(r, ClosedAt, t) == StableSort.WithKey(outcomes, ClosedAt, t) {
        StableSort.SortCorrect(outcomes, ClosedAt, t);
      }
    }
  }
}
