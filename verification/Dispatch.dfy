/**
  The stock step of a dispatch: usable quantities leave the batch rows one allocation at a time and the
  aggregate rows once per warehouse and item. It keeps the two in agreement, and in stock tables that
  agree the checks on the aggregate never refuse anything.
 */
module Dispatch {
  import opened Common
  import opened Sums
  import opened Tables
  import opened Ledger

  /** One line of a dispatch plan; a missing quantity is zero. */
  datatype Allocation = Allocation(batch: BatchKey, quantity: int)

  datatype Refusal =
    | NoBatch(batch: BatchKey)
    | ShortBatch(batch: BatchKey)
    | NoInventory(row: StockKey)
    | ShortInventory(row: StockKey)

  function StockRow(k: BatchKey): StockKey
  {
    StockKey(k.warehouse, k.item)
  }

  // ----- What a plan takes -----

  /** What a plan takes from a batch row; allocations that are not positive are skipped. */
  function Taken(plan: seq<Allocation>, k: BatchKey): nat
  {
    if plan == [] then 0 else
      var a := plan[|plan| - 1];
      Taken(plan[..|plan| - 1], k) + if a.quantity > 0 && a.batch == k then a.quantity else 0
  }

  /** What it takes from an aggregate row. */
  function TakenAt(plan: seq<Allocation>, s: StockKey): nat
  {
    if plan == [] then 0 else
      var a := plan[|plan| - 1];
      TakenAt(plan[..|plan| - 1], s) + if a.quantity > 0 && StockRow(a.batch) == s then a.quantity else 0
  }

  predicate BatchCovers(batches: map<BatchKey, Batch>, plan: seq<Allocation>, k: BatchKey)
  {
    0 < Taken(plan, k) ==> k in batches && Taken(plan, k) <= batches[k].q.usable
  }

  predicate RowCovers(inventory: map<StockKey, Quantities>, plan: seq<Allocation>, s: StockKey)
  {
    0 < TakenAt(plan, s) ==> s in inventory && TakenAt(plan, s) <= inventory[s].usable
  }

  /** Every batch row has what the whole plan takes from it. */
  ghost predicate BatchesSuffice(batches: map<BatchKey, Batch>, plan: seq<Allocation>)
  {
    forall k :: BatchCovers(batches, plan, k)
  }

  ghost predicate InventorySuffices(inventory: map<StockKey, Quantities>, plan: seq<Allocation>)
  {
    forall s :: RowCovers(inventory, plan, s)
  }

  function Less(q: Quantities, n: int): Quantities
  {
    q.(usable := q.usable - n)
  }

  function DepletedBatches(batches: map<BatchKey, Batch>, plan: seq<Allocation>): map<BatchKey, Batch>
  {
    map k | k in batches :: batches[k].(q := Less(batches[k].q, Taken(plan, k)))
  }

  function DepletedInventory(inventory: map<StockKey, Quantities>, plan: seq<Allocation>): map<StockKey, Quantities>
  {
    map s | s in inventory :: Less(inventory[s], TakenAt(plan, s))
  }

  function Depleted(stock: Stock, plan: seq<Allocation>): Stock
  {
    Stock(DepletedBatches(stock.batches, plan), DepletedInventory(stock.inventory, plan))
  }

  /** A plan takes from a row the sum of the positive quantities allocated to it. */
  lemma {:induction false} TakenIsSum(plan: seq<Allocation>, k: BatchKey)
    ensures Taken(plan, k) == SumSeq(plan, (a: Allocation) => if a.batch == k && a.quantity > 0 then a.quantity else 0)
  {
    if plan != [] {
      TakenIsSum(plan[..|plan| - 1], k);
    }
  }

  lemma TakenNext(plan: seq<Allocation>, n: nat, k: BatchKey)
    requires n < |plan|
    ensures Taken(plan[..n + 1], k) ==
              Taken(plan[..n], k) + if plan[n].quantity > 0 && plan[n].batch == k then plan[n].quantity else 0
  {
    assert plan[..n + 1][..n] == plan[..n];
  }

  lemma TakenAtNext(plan: seq<Allocation>, n: nat, s: StockKey)
    requires n < |plan|
    ensures TakenAt(plan[..n + 1], s) ==
              TakenAt(plan[..n], s) + if plan[n].quantity > 0
                && StockRow(plan[n].batch) == s then plan[n].quantity else 0
  {
    assert plan[..n + 1][..n] == plan[..n];
  }

  lemma {:induction false} TakenGrows(plan: seq<Allocation>, n: nat, k: BatchKey)
    requires n <= |plan|
    ensures Taken(plan[..n], k) <= Taken(plan, k)
    decreases |plan| - n
  {
    if n == |plan| {
      assert plan[..n] == plan;
    } else {
      TakenNext(plan, n, k);
      TakenGrows(plan, n + 1, k);
    }
  }

  // ----- Batch rows and aggregate rows -----

  /** What is taken from the batch rows of a warehouse and item adds up to what is taken from its aggregate. */
  lemma {:induction false} TakenAdds(batches: map<BatchKey, Batch>, plan: seq<Allocation>, n: nat, s: StockKey)
    requires n <= |plan| && forall i :: 0 <= i < n && plan[i].quantity > 0 ==> plan[i].batch in batches
    ensures SumOver(BatchKeys(batches, s), k => Taken(plan[..n], k)) == TakenAt(plan[..n], s)
  {
    var keys := BatchKeys(batches, s);
    if n == 0 {
      SumConstant(keys, k => Taken(plan[..0], k), 0);
    } else {
      var f, g := (k: BatchKey) => Taken(plan[..n - 1], k) as int, (k: BatchKey) => Taken(plan[..n], k) as int;
      TakenAdds(batches, plan, n - 1, s);
      SameSums(keys, plan, n - 1, f);
      SameSums(keys, plan, n, g);
      TakenAtNext(plan, n - 1, s);
      OneMoreAdds(keys, plan, n - 1, f, g);
    }
  }

  lemma OneMoreAdds(keys: set<BatchKey>, plan: seq<Allocation>, n: nat, f: BatchKey -> int, g: BatchKey -> int)
    requires n < |plan|
    requires forall k :: f(k) == Taken(plan[..n], k) && g(k) == Taken(plan[..n + 1], k)
    ensures var a := plan[n];
      SumOver(keys, g) == SumOver(keys, f) + if a.quantity > 0 && a.batch in keys then a.quantity else 0
  {
    var a := plan[n];
    forall k ensures g(k) == f(k) + if a.quantity > 0 && a.batch == k then a.quantity else 0 {
      TakenNext(plan, n, k);
    }
    if a.quantity > 0 && a.batch in keys {
      SumUpdate(keys, f, g, a.batch);
      assert keys + {a.batch} == keys;
    } else {
      SumSame(keys, f, g);
    }
  }

  lemma SameSums(keys: set<BatchKey>, plan: seq<Allocation>, n: nat, f: BatchKey -> int)
    requires n <= |plan| && forall k :: k in keys ==> f(k) == Taken(plan[..n], k)
    ensures SumOver(keys, k => Taken(plan[..n], k)) == SumOver(keys, f)
  {
    SumSame(keys, k => Taken(plan[..n], k), f);
  }

  lemma {:induction false} PositiveIsTaken(plan: seq<Allocation>, i: nat)
    requires i < |plan| && plan[i].quantity > 0
    ensures 0 < Taken(plan, plan[i].batch)
  {
    TakenNext(plan, i, plan[i].batch);
    TakenGrows(plan, i + 1, plan[i].batch);
  }

  lemma TakenAddsUp(batches: map<BatchKey, Batch>, plan: seq<Allocation>, s: StockKey)
    requires BatchesSuffice(batches, plan)
    ensures SumOver(BatchKeys(batches, s), k => Taken(plan, k)) == TakenAt(plan, s)
  {
    forall i | 0 <= i < |plan| && plan[i].quantity > 0 ensures plan[i].batch in batches {
      PositiveIsTaken(plan, i);
      assert BatchCovers(batches, plan, plan[i].batch);
    }
    TakenAdds(batches, plan, |plan|, s);
    assert plan[..|plan|] == plan;
  }

  /** A dispatch that the batch rows can serve leaves both stock tables in agreement. */
  lemma DispatchKeepsAgreement(stock: Stock, plan: seq<Allocation>)
    requires Agrees(stock) && BatchesSuffice(stock.batches, plan) && InventorySuffices(stock.inventory, plan)
    ensures Agrees(Depleted(stock, plan))
  {
    forall s, c
      ensures StockCol(Depleted(stock, plan).inventory, s, c) == BatchSum(Depleted(stock, plan).batches, s, c)
    {
      assert RowCovers(stock.inventory, plan, s);
      DepletedSum(stock.batches, plan, s, c);
    }
  }

  lemma DepletedSum(batches: map<BatchKey, Batch>, plan: seq<Allocation>, s: StockKey, c: Column)
    requires BatchesSuffice(batches, plan)
    ensures BatchSum(DepletedBatches(batches, plan), s, c) ==
              BatchSum(batches, s, c) - if c == UsableCol then TakenAt(plan, s) else 0
  {
    var after := DepletedBatches(batches, plan);
    var keys := BatchKeys(batches, s);
    var f, g, h := (k: BatchKey) => BatchCol(batches, k, c), (k: BatchKey) => Taken(plan, k) as int,
                   (k: BatchKey) => BatchCol(after, k, c);
    assert BatchKeys(after, s) == keys;
    if c == UsableCol {
      TakenAddsUp(batches, plan, s);
      SumSame(keys, k => Taken(plan, k), g);
      SumMinus(keys, f, g, h);
    } else {
      SumSame(keys, f, h);
    }
  }

  /**
    Where the tables agree and no batch row is negative, the checks on the aggregate rows never refuse:
    a dispatch goes through exactly if the batch rows suffice.
   */
  lemma InventoryAlwaysSuffices(stock: Stock, plan: seq<Allocation>)
    requires Agrees(stock) && forall k :: k in stock.batches ==> 0 <= stock.batches[k].q.usable
    requires BatchesSuffice(stock.batches, plan)
    ensures InventorySuffices(stock.inventory, plan)
  {
    forall s ensures RowCovers(stock.inventory, plan, s) {
      var keys := BatchKeys(stock.batches, s);
      var f, g := (k: BatchKey) => Taken(plan, k) as int, (k: BatchKey) => BatchCol(stock.batches, k, UsableCol);
      TakenAddsUp(stock.batches, plan, s);
      SumSame(keys, k => Taken(plan, k), f);
      forall k | k in keys ensures f(k) <= g(k) {
        assert BatchCovers(stock.batches, plan, k);
      }
      SumDrift(keys, f, g, 0);
      assert StockCol(stock.inventory, s, UsableCol) == BatchSum(stock.batches, s, UsableCol);
    }
  }

  // ----- The program -----

  /** The totals collected so far, one for each aggregate row that something is taken from. */
  ghost predicate Totals(totals: map<StockKey, int>, plan: seq<Allocation>)
  {
    && (forall s :: s in totals ==> 0 < totals[s] == TakenAt(plan, s))
    && (forall s :: s !in totals ==> TakenAt(plan, s) == 0)
  }

  /** A true reason for refusing a plan at the batch rows, and at the aggregate rows. */
  predicate BatchLacks(batches: map<BatchKey, Batch>, plan: seq<Allocation>, r: Refusal)
  {
    match r
    case NoBatch(k) => k !in batches && 0 < Taken(plan, k)
    case ShortBatch(k) => k in batches && batches[k].q.usable < Taken(plan, k)
    case _ => false
  }

  predicate RowLacks(inventory: map<StockKey, Quantities>, plan: seq<Allocation>, r: Refusal)
  {
    match r
    case NoInventory(s) => s !in inventory && 0 < TakenAt(plan, s)
    case ShortInventory(s) => s in inventory && inventory[s].usable < TakenAt(plan, s)
    case _ => false
  }

  class Depot {
    var batches: map<BatchKey, Batch>
    var inventory: map<StockKey, Quantities>

    constructor (stock: Stock)
      ensures batches == stock.batches && inventory == stock.inventory
    {
      batches, inventory := stock.batches, stock.inventory;
    }

    /** Takes the allocations from the batch rows, adding up the totals per aggregate row. */
    method TakeFromBatches(plan: seq<Allocation>)
      returns (refusal: Option<Refusal>, after: map<BatchKey, Batch>, totals: map<StockKey, int>)
      ensures refusal.None? <==> BatchesSuffice(batches, plan)
      ensures refusal.None? ==> after == DepletedBatches(batches, plan) && Totals(totals, plan)
      ensures refusal.Some? ==> BatchLacks(batches, plan, refusal.value)
    {
      after, totals := batches, map[];
      assert DepletedBatches(batches, plan[..0]) == batches;
      for i := 0 to |plan|
        invariant after == DepletedBatches(batches, plan[..i])
        invariant BatchesSuffice(batches, plan[..i])
        invariant Totals(totals, plan[..i])
      {
        var a := plan[i];
        DepletedNext(batches, plan, i);
        TotalsNext(totals, plan, i);
        if a.quantity > 0 {
          if a.batch !in after || after[a.batch].q.usable < a.quantity {
            NotCovered(batches, plan, i);
            return Some(if a.batch in after then ShortBatch(a.batch) else NoBatch(a.batch)), after, totals;
          }
          after := after[a.batch := after[a.batch].(q := Less(after[a.batch].q, a.quantity))];
          var s := StockRow(a.batch);
          totals := totals[s := (if s in totals then totals[s] else 0) + a.quantity];
        }
        BatchesNext(batches, plan, i);
      }
      assert plan[..|plan|] == plan;
      return None, after, totals;
    }

    /** Takes the totals from the aggregate rows. */
    method TakeFromInventory(totals: map<StockKey, int>, plan: seq<Allocation>)
      returns (refusal: Option<Refusal>, after: map<StockKey, Quantities>)
      requires Totals(totals, plan)
      ensures refusal.None? <==> InventorySuffices(inventory, plan)
      ensures refusal.None? ==> after == DepletedInventory(inventory, plan)
      ensures refusal.Some? ==> RowLacks(inventory, plan, refusal.value)
    {
      after := inventory;
      var todo := totals.Keys;
      while todo != {}
        invariant todo <= totals.Keys
        invariant forall s :: s in totals && s !in todo ==> RowCovers(inventory, plan, s)
        invariant after.Keys == inventory.Keys
        invariant forall s :: s in inventory ==>
                    after[s] == if s in todo then inventory[s] else Less(inventory[s], TakenAt(plan, s))
      {
        var s :| s in todo;
        if s !in after || after[s].usable < totals[s] {
          assert !RowCovers(inventory, plan, s);
          return Some(if s in after then ShortInventory(s) else NoInventory(s)), after;
        }
        after := after[s := Less(after[s], totals[s])];
        todo := todo - {s};
      }
      return None, after;
    }

    /** Depletes the stock by a plan, or refuses it and leaves the stock as it is. */
    method DepleteUsableStock(plan: seq<Allocation>) returns (refusal: Option<Refusal>)
      modifies this
      ensures refusal.None? <==> BatchesSuffice(old(batches), plan) && InventorySuffices(old(inventory), plan)
      ensures Stock(batches, inventory) ==
                if refusal.None? then Depleted(old(Stock(batches, inventory)), plan) else old(Stock(batches, inventory))
      ensures refusal.Some? ==>
                if BatchesSuffice(old(batches), plan) then RowLacks(old(inventory), plan, refusal.value)
                else BatchLacks(old(batches), plan, refusal.value)
    {
      var after, totals;
      refusal, after, totals := TakeFromBatches(plan);
      if refusal.Some? {
        return;
      }
      var rows;
      refusal, rows := TakeFromInventory(totals, plan);
      if refusal.Some? {
        return;
      }
      batches, inventory := after, rows;
    }
  }

  /** An allocation that its batch row cannot serve any more: the row does not have what the plan takes. */
  lemma NotCovered(batches: map<BatchKey, Batch>, plan: seq<Allocation>, i: nat)
    requires i < |plan| && plan[i].quantity > 0
    requires var k := plan[i].batch; k !in batches || batches[k].q.usable - Taken(plan[..i], k) < plan[i].quantity
    ensures !BatchesSuffice(batches, plan)
    ensures var k := plan[i].batch;
            0 < Taken(plan, k) && (k in batches ==> batches[k].q.usable < Taken(plan, k))
  {
    var k := plan[i].batch;
    TakenNext(plan, i, k);
    TakenGrows(plan, i + 1, k);
    assert !BatchCovers(batches, plan, k);
  }

  lemma BatchesNext(batches: map<BatchKey, Batch>, plan: seq<Allocation>, i: nat)
    requires i < |plan| && BatchesSuffice(batches, plan[..i])
    requires var k := plan[i].batch;
             plan[i].quantity > 0 ==> k in batches && Taken(plan[..i], k) + plan[i].quantity <= batches[k].q.usable
    ensures BatchesSuffice(batches, plan[..i + 1])
  {
    var now := plan[..i + 1];
    forall k ensures BatchCovers(batches, now, k) {
      TakenNext(plan, i, k);
      assert BatchCovers(batches, plan[..i], k);
    }
  }

  /** The tables after one more allocation, if it takes something and if it does not. */
  lemma DepletedNext(batches: map<BatchKey, Batch>, plan: seq<Allocation>, i: nat)
    requires i < |plan|
    ensures var before, after := DepletedBatches(batches, plan[..i]), DepletedBatches(batches, plan[..i + 1]);
            var a := plan[i];
            && (a.quantity <= 0 ==> after == before)
            && (a.quantity > 0 && a.batch in batches ==>
                  after == before[a.batch := before[a.batch].(q := Less(before[a.batch].q, a.quantity))])
  {
    forall k | k in batches
      ensures Taken(plan[..i + 1], k) ==
                Taken(plan[..i], k) + if plan[i].quantity > 0 && plan[i].batch == k then plan[i].quantity else 0
    {
      TakenNext(plan, i, k);
    }
  }

  lemma TotalsNext(totals: map<StockKey, int>, plan: seq<Allocation>, i: nat)
    requires i < |plan| && Totals(totals, plan[..i])
    ensures plan[i].quantity <= 0 ==> Totals(totals, plan[..i + 1])
    ensures var s := StockRow(plan[i].batch);
            plan[i].quantity > 0 ==>
              Totals(totals[s := (if s in totals then totals[s] else 0) + plan[i].quantity], plan[..i + 1])
  {
    var now := plan[..i + 1];
    forall s
      ensures TakenAt(now, s) ==
                TakenAt(plan[..i], s) + if plan[i].quantity > 0
                  && StockRow(plan[i].batch) == s then plan[i].quantity else 0
    {
      TakenAtNext(plan, i, s);
    }
  }
}
