/** What executing a job comes to: the account fetches decide which transactions are dispatched. */
module SettlementJobs {
  import opened Common

  /** Settled, refunded and claimable packs are over for the worker. */
  datatype PackStatus = PENDING | SELECTED | OVER

  datatype PackView = PackView(expiresAt: nat, lucky: bool, status: PackStatus)

  datatype Kind = EARN | LIMIT | DCA

  datatype Destination = PACKS | STOCKS

  datatype PositionView = PositionView(
    active: bool, kind: Kind, destination: Destination, autoPacks: bool, claimable: nat, shares: nat,
    updatedAt: nat, nextFillAt: nat, expiresAt: nat, stepsRemaining: nat)

  /** The answers of the fetches of one execution, in order.  A pack is fetched before and after its
      resolution and once more by the swap; a position by the engine and by the swap.  `gross` is the
      position's yield; the swap may find nothing to spend, or the price of a limit not reached. */
  datatype Work =
    | OnPack(now: nat, first: PackView, fulfilled: bool, second: PackStatus, third: PackStatus)
    | OnPosition(now: nat, before: PositionView, gross: int, later: PositionView, nothing: bool, tooDear: bool)

  const MIN_BATCH: nat := 10_000_000
  const MIN_HARVEST: int := 100_000
  const MIN_EARNED: nat := 1_000_000

  /** An expired pack is left alone, unless it is a lucky one that still waits for its number. */
  predicate Live(now: nat, p: PackView) { now < p.expiresAt || (p.lucky && p.status == PENDING) }

  predicate Resolves(w: Work)
    requires w.OnPack?
  {
    Live(w.now, w.first) && w.first.status == PENDING && w.fulfilled
  }

  /** Selected from the start or by the resolution, and still so when the swap looks again. */
  predicate SwapsPack(w: Work)
    requires w.OnPack?
  {
    && Live(w.now, w.first) && w.third == SELECTED
    && (w.first.status == SELECTED || (Resolves(w) && w.second == SELECTED))
  }

  predicate Batches(p: PositionView) {
    p.kind == EARN && p.destination == PACKS && p.autoPacks && p.claimable >= MIN_BATCH
  }

  predicate Harvests(now: nat, p: PositionView, gross: int) {
    p.kind == EARN && p.shares > 0 && now >= p.updatedAt + 3600 && gross >= MIN_HARVEST
  }

  predicate Fills(now: nat, p: PositionView) {
    && p.active
    && if p.kind == EARN then p.destination == STOCKS && p.claimable >= MIN_EARNED
       else p.nextFillAt <= now < p.expiresAt && p.stepsRemaining > 0
  }

  /** A position yields its packs, or is harvested, or is filled; one of these, or none. */
  predicate Due(w: Work)
    requires w.OnPosition?
  {
    && w.before.active
    && (Batches(w.before) || Harvests(w.now, w.before, w.gross)
        || (Fills(w.now, w.later) && !w.nothing && !(w.before.kind == LIMIT && w.tooDear)))
  }

  function One(b: bool): nat { if b then 1 else 0 }

  /** How many transactions a job is executed with. */
  function Dispatches(w: Work): nat {
    if w.OnPack? then One(Resolves(w)) + One(SwapsPack(w)) else One(Due(w))
  }

  /** What is dispatched for a pack, case by case. */
  lemma PackDispatches(w: Work)
    requires w.OnPack?
    ensures var swapped := if w.third == SELECTED then 1 else 0;
            Dispatches(w) == match w.first.status
              case PENDING =>
                if !w.fulfilled || (w.first.expiresAt <= w.now && !w.first.lucky) then 0
                else if w.second == SELECTED then 1 + swapped else 1
              case SELECTED => if w.first.expiresAt <= w.now then 0 else swapped
              case OVER => 0
  {
  }

  /** And for a position: a batch of packs from ten dollars of yield on, a harvest an hour after the last one
      from ten cents on, a purchase from one dollar of yield on, and an instalment in its window. */
  lemma PositionDispatches(w: Work)
    requires w.OnPosition?
    ensures Dispatches(w) <= 1 && (!w.before.active ==> Dispatches(w) == 0)
    ensures var p := w.before;
            p.active && p.kind == EARN ==>
              var batch := p.destination == PACKS && p.autoPacks && p.claimable >= 10_000_000;
              var harvest := p.shares > 0 && w.now >= p.updatedAt + 3600 && w.gross >= 100_000;
              && (batch || harvest ==> Dispatches(w) == 1)
              && (!batch && !harvest && w.later == p ==>
                  (Dispatches(w) == 1 <==> p.destination == STOCKS && p.claimable >= 1_000_000 && !w.nothing))
    ensures var p := w.before;
            p.active && p.kind != EARN && w.later == p ==>
              (Dispatches(w) == 1 <==>
                 && p.nextFillAt <= w.now < p.expiresAt && p.stepsRemaining > 0 && !w.nothing
                 && (p.kind == DCA || !w.tooDear))
  {
  }
}
