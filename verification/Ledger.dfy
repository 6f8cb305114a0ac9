/**
  The stock ledger: the aggregate per warehouse and item agrees with its batch rows, the effect of
  a whole history of postings in closed form, and why the order of postings does not matter.
 */
module Ledger {
  import opened Common
  import opened Sums
  import opened Tables
  import opened Intakes

  function StockCol(inventory: map<StockKey, Quantities>, k: StockKey, c: Column): int
  {
    if k in inventory then inventory[k].Of(c) else 0
  }

  function BatchCol(batches: map<BatchKey, Batch>, k: BatchKey, c: Column): int
  {
    if k in batches then batches[k].q.Of(c) else 0
  }

  function LineCol(lines: map<ItemId, Line>, i: ItemId, c: Column): int
  {
    if i in lines then lines[i].q.Of(c) else 0
  }

  ghost function BatchKeys(batches: map<BatchKey, Batch>, s: StockKey): set<BatchKey>
  {
    set k | k in batches && k.warehouse == s.warehouse && k.item == s.item
  }

  ghost function BatchSum(batches: map<BatchKey, Batch>, s: StockKey, c: Column): int
  {
    SumOver(BatchKeys(batches, s), k => BatchCol(batches, k, c))
  }

  /** Both representations of stock show the same usable, defective and expired quantities. */
  ghost predicate Agrees(stock: Stock)
  {
    forall s, c :: StockCol(stock.inventory, s, c) == BatchSum(stock.batches, s, c)
  }

  // ----- One posting -----

  lemma PostInventoryCol(
    inventory: map<StockKey, Quantities>, w: WarehouseId, lines: map<ItemId, Line>, s: StockKey, c: Column)
    ensures StockCol(PostInventory(inventory, w, lines), s, c) ==
            StockCol(inventory, s, c) + if s.warehouse == w then LineCol(lines, s.item, c) else 0
  {
    if s.warehouse == w && s.item in lines {
      assert s == StockKey(w, s.item);
    }
  }

  lemma PostBatchesAt(batches: map<BatchKey, Batch>, w: WarehouseId, lines: map<ItemId, Line>, k: BatchKey)
    ensures Touches(w, lines, k) ==>
              k in PostBatches(batches, w, lines)
                && PostBatches(batches, w, lines)[k] == Merge(batches, k, lines[k.item])
    ensures !Touches(w, lines, k) ==>
              (k in PostBatches(batches, w, lines) <==> k in batches) &&
              (k in batches ==> PostBatches(batches, w, lines)[k] == batches[k])
  {
    if Touches(w, lines, k) {
      assert k == BatchKey(w, k.item, lines[k.item].batchNo);
    }
  }

  lemma PostBatchSum(batches: map<BatchKey, Batch>, w: WarehouseId, lines: map<ItemId, Line>, s: StockKey, c: Column)
    ensures BatchSum(PostBatches(batches, w, lines), s, c) ==
            BatchSum(batches, s, c) + if s.warehouse == w then LineCol(lines, s.item, c) else 0
  {
    var after := PostBatches(batches, w, lines);
    var f, g := (k: BatchKey) => BatchCol(batches, k, c), (k: BatchKey) => BatchCol(after, k, c);
    forall k ensures (k in after <==> k in batches || Touches(w, lines, k))
                     && (!Touches(w, lines, k) ==> f(k) == g(k))
    {
      PostBatchesAt(batches, w, lines, k);
    }
    if s.warehouse == w && s.item in lines {
      var k := BatchKey(w, s.item, lines[s.item].batchNo);
      PostBatchesAt(batches, w, lines, k);
      assert BatchKeys(after, s) == BatchKeys(batches, s) + {k};
      SumUpdate(BatchKeys(batches, s), f, g, k);
      if k !in batches {
        assert BatchKeys(batches, s) - {k} == BatchKeys(batches, s);
      }
    } else {
      assert BatchKeys(after, s) == BatchKeys(batches, s);
      SumSame(BatchKeys(batches, s), f, g);
    }
  }

  /** Posting raises both representations by the same amounts, renamed batch numbers included. */
  lemma PostKeepsAgreement(stock: Stock, w: WarehouseId, lines: map<ItemId, Line>)
    requires Agrees(stock)
    ensures Agrees(Post(stock, w, lines))
  {
    forall s, c
      ensures StockCol(PostInventory(stock.inventory, w, lines), s, c) ==
          BatchSum(PostBatches(stock.batches, w, lines), s, c)
    {
      PostInventoryCol(stock.inventory, w, lines, s, c);
      PostBatchSum(stock.batches, w, lines, s, c);
    }
  }

  // ----- A history of postings -----

  /** The stock after a history of postings, oldest first. */
  function Replay(stock: Stock, history: seq<Posting>): Stock
  {
    if history == [] then stock
    else
      var last := history[|history| - 1];
      Post(Replay(stock, history[..|history| - 1]), last.key.warehouse, last.lines)
  }

  lemma ReplayAppend(stock: Stock, history: seq<Posting>, p: Posting)
    ensures Replay(stock, history + [p]) == Post(Replay(stock, history), p.key.warehouse, p.lines)
  {
    assert (history + [p])[..|history|] == history;
  }

  /** What one posting adds to an aggregate row, and to a batch row. */
  function ToStock(p: Posting, s: StockKey, c: Column): int
  {
    if p.key.warehouse == s.warehouse then LineCol(p.lines, s.item, c) else 0
  }

  function ToBatch(p: Posting, k: BatchKey, c: Column): int
  {
    if Touches(p.key.warehouse, p.lines, k) then p.lines[k.item].q.Of(c) else 0
  }

  /** Every aggregate row is its opening quantity plus what each posting of the history contributed. */
  lemma {:induction false} ReplayStock(stock: Stock, history: seq<Posting>, s: StockKey, c: Column)
    ensures StockCol(Replay(stock, history).inventory, s, c) ==
            StockCol(stock.inventory, s, c) + SumSeq(history, p => ToStock(p, s, c))
  {
    if history != [] {
      var n := |history| - 1;
      ReplayStock(stock, history[..n], s, c);
      var before := Replay(stock, history[..n]);
      PostInventoryCol(before.inventory, history[n].key.warehouse, history[n].lines, s, c);
    }
  }

  lemma {:induction false} ReplayBatch(stock: Stock, history: seq<Posting>, k: BatchKey, c: Column)
    ensures BatchCol(Replay(stock, history).batches, k, c) ==
            BatchCol(stock.batches, k, c) + SumSeq(history, p => ToBatch(p, k, c))
  {
    if history != [] {
      var n := |history| - 1;
      ReplayBatch(stock, history[..n], k, c);
      PostBatchesAt(Replay(stock, history[..n]).batches, history[n].key.warehouse, history[n].lines, k);
    }
  }

  /** The dates competing for a batch row's expiry: its opening one and those of the lines posted to it. */
  ghost function ExpiryDates(stock: Stock, history: seq<Posting>, k: BatchKey): set<Day>
  {
    (if k in stock.batches && stock.batches[k].expiry.Some? then {stock.batches[k].expiry.value} else {}) +
    set p | p in history && Touches(p.key.warehouse, p.lines, k) && p.lines[k.item].expiry.Some? ::
      p.lines[k.item].expiry.value
  }

  ghost predicate IsEarliest(e: Option<Day>, dates: set<Day>)
  {
    match e
    case None => dates == {}
    case Some(d) => d in dates && forall x :: x in dates ==> d <= x
  }

  function BatchExpiry(batches: map<BatchKey, Batch>, k: BatchKey): Option<Day>
  {
    if k in batches then batches[k].expiry else None
  }

  lemma LastOrEarlier(history: seq<Posting>, p: Posting)
    requires history != []
    ensures p in history <==> p in history[..|history| - 1] || p == history[|history| - 1]
  {
    assert history == history[..|history| - 1] + [history[|history| - 1]];
  }

  /** The date the last posting of a history adds to the competition for `k`'s expiry, if any. */
  ghost function LastDate(history: seq<Posting>, k: BatchKey): set<Day>
    requires history != []
  {
    var p := history[|history| - 1];
    if Touches(p.key.warehouse, p.lines, k) && p.lines[k.item].expiry.Some? then {p.lines[k.item].expiry.value} else {}
  }

  lemma ExpiryDatesLast(stock: Stock, history: seq<Posting>, k: BatchKey)
    requires history != []
    ensures ExpiryDates(stock, history, k) == ExpiryDates(stock, history[..|history| - 1], k) + LastDate(history, k)
  {
    forall p: Posting ensures p in history <==> p in history[..|history| - 1] || p == history[|history| - 1] {
      LastOrEarlier(history, p);
    }
  }

  /** A batch row's expiry is always the earliest date recorded for it, and empty only when there is none. */
  lemma {:induction false} ReplayExpiry(stock: Stock, history: seq<Posting>, k: BatchKey)
    ensures IsEarliest(BatchExpiry(Replay(stock, history).batches, k), ExpiryDates(stock, history, k))
  {
    if history != [] {
      var n := |history| - 1;
      var p := history[n];
      ReplayExpiry(stock, history[..n], k);
      ExpiryDatesLast(stock, history, k);
      MergedExpiry(Replay(stock, history[..n]).batches, p.key.warehouse, p.lines, k);
    }
  }

  lemma MergedExpiry(batches: map<BatchKey, Batch>, w: WarehouseId, lines: map<ItemId, Line>, k: BatchKey)
    ensures BatchExpiry(PostBatches(batches, w, lines), k) ==
            if Touches(w, lines, k) then Earlier(BatchExpiry(batches, k), lines[k.item].expiry)
              else BatchExpiry(batches, k)
  {
    PostBatchesAt(batches, w, lines, k);
  }

  ghost predicate Touched(history: seq<Posting>, k: BatchKey)
  {
    exists p :: p in history && Touches(p.key.warehouse, p.lines, k)
  }

  lemma TouchedLast(history: seq<Posting>, k: BatchKey)
    requires history != []
    ensures var p := history[|history| - 1];
      Touched(history, k) <==> Touched(history[..|history| - 1], k) || Touches(p.key.warehouse, p.lines, k)
  {
    forall p: Posting ensures p in history <==> p in history[..|history| - 1] || p == history[|history| - 1] {
      LastOrEarlier(history, p);
    }
  }

  /** Which batch rows exist after a history. */
  lemma {:induction false} ReplayBatchKeys(stock: Stock, history: seq<Posting>, k: BatchKey)
    ensures k in Replay(stock, history).batches <==> k in stock.batches || Touched(history, k)
  {
    if history != [] {
      var n := |history| - 1;
      ReplayBatchKeys(stock, history[..n], k);
      TouchedLast(history, k);
      PostBatchesAt(Replay(stock, history[..n]).batches, history[n].key.warehouse, history[n].lines, k);
    }
  }

  /**
    The order in which intakes are verified does not matter: two histories with the same postings
    give the same quantities in every aggregate and batch row, the same batch rows, and the same
    expiry dates.
   */
  lemma PostingOrderIrrelevant(stock: Stock, h1: seq<Posting>, h2: seq<Posting>)
    requires multiset(h1) == multiset(h2)
    ensures forall s, c :: StockCol(Replay(stock, h1).inventory, s, c) == StockCol(Replay(stock, h2).inventory, s, c)
    ensures forall k, c :: BatchCol(Replay(stock, h1).batches, k, c) == BatchCol(Replay(stock, h2).batches, k, c)
    ensures Replay(stock, h1).batches.Keys == Replay(stock, h2).batches.Keys
    ensures forall k :: BatchExpiry(Replay(stock, h1).batches, k) == BatchExpiry(Replay(stock, h2).batches, k)
  {
    forall s, c ensures StockCol(Replay(stock, h1).inventory, s, c) == StockCol(Replay(stock, h2).inventory, s, c) {
      ReplayStock(stock, h1, s, c);
      ReplayStock(stock, h2, s, c);
      SumSeqPermutation(h1, h2, p => ToStock(p, s, c));
    }
    forall k, c ensures BatchCol(Replay(stock, h1).batches, k, c) == BatchCol(Replay(stock, h2).batches, k, c) {
      ReplayBatch(stock, h1, k, c);
      ReplayBatch(stock, h2, k, c);
      SumSeqPermutation(h1, h2, p => ToBatch(p, k, c));
    }
    assert forall p :: p in h1 <==> p in h2 by {
      assert forall p :: p in h1 <==> p in multiset(h1);
    }
    forall k ensures k in Replay(stock, h1).batches <==> k in Replay(stock, h2).batches {
      ReplayBatchKeys(stock, h1, k);
      ReplayBatchKeys(stock, h2, k);
    }
    forall k ensures BatchExpiry(Replay(stock, h1).batches, k) == BatchExpiry(Replay(stock, h2).batches, k) {
      ReplayExpiry(stock, h1, k);
      ReplayExpiry(stock, h2, k);
      assert ExpiryDates(stock, h1, k) == ExpiryDates(stock, h2, k);
    }
  }

  // ----- What the order does decide -----

  /** The first line of a history that is posted to batch row `k`. */
  function FirstLine(history: seq<Posting>, k: BatchKey): Option<Line>
  {
    if history == [] then None
    else
      var p := history[|history| - 1];
      var earlier := FirstLine(history[..|history| - 1], k);
      if earlier.Some? then earlier
      else if Touches(p.key.warehouse, p.lines, k) then Some(p.lines[k.item])
      else None
  }

  lemma {:induction false} FirstLineFirst(history: seq<Posting>, k: BatchKey)
    ensures match FirstLine(history, k)
      case None => !Touched(history, k)
      case Some(l) => exists n :: 0 <= n < |history| && TouchesAt(history, n, k) && history[n].lines[k.item] == l
                        && forall m :: 0 <= m < n ==> !TouchesAt(history, m, k)
  {
    if history != [] {
      var last := |history| - 1;
      var before := history[..last];
      FirstLineFirst(before, k);
      TouchedLast(history, k);
      if FirstLine(before, k).Some? {
        var n :| 0 <= n < |before| && TouchesAt(before, n, k) && before[n].lines[k.item] == FirstLine(before, k).value
                 && forall m :: 0 <= m < n ==> !TouchesAt(before, m, k);
        forall m | 0 <= m < n ensures !TouchesAt(history, m, k) {
          assert !TouchesAt(before, m, k);
        }
        assert TouchesAt(history, n, k);
      } else if TouchesAt(history, last, k) {
        forall m | 0 <= m < last ensures !TouchesAt(history, m, k) {
          assert before[m] in before;
        }
      }
    }
  }

  predicate TouchesAt(history: seq<Posting>, n: nat, k: BatchKey)
    requires n < |history|
  {
    Touches(history[n].key.warehouse, history[n].lines, k)
  }

  /** The columns of a batch row that are written only when the row is created. */
  datatype Origin = Origin(unitValue: int, batchDate: Day)

  function OriginOf(batches: map<BatchKey, Batch>, k: BatchKey): Option<Origin>
  {
    if k in batches then Some(Origin(batches[k].unitValue, batches[k].batchDate)) else None
  }

  /** A row that was there keeps its own; any other row has those of the first line posted to it. */
  function FirstOrigin(stock: Stock, history: seq<Posting>, k: BatchKey): Option<Origin>
  {
    if k in stock.batches then OriginOf(stock.batches, k)
    else match FirstLine(history, k)
      case None => None
      case Some(l) => Some(Origin(l.unitValue, l.batchDate))
  }

  /** Unit value and batch date of a row, for every history: by the row's origin, never by a later posting. */
  lemma {:induction false} FirstPostingSetsUnitValue(stock: Stock, history: seq<Posting>, k: BatchKey)
    ensures OriginOf(Replay(stock, history).batches, k) == FirstOrigin(stock, history, k)
  {
    if history != [] {
      var n := |history| - 1;
      FirstPostingSetsUnitValue(stock, history[..n], k);
      PostBatchesAt(Replay(stock, history[..n]).batches, history[n].key.warehouse, history[n].lines, k);
    }
  }

  lemma SameBatch(a: Batch, b: Batch)
    requires forall c :: a.q.Of(c) == b.q.Of(c)
    requires a.expiry == b.expiry && a.unitValue == b.unitValue && a.batchDate == b.batchDate
    ensures a == b
  {
    assert a.q.Of(UsableCol) == b.q.Of(UsableCol) && a.q.Of(DefectiveCol) == b.q.Of(DefectiveCol)
        && a.q.Of(ExpiredCol) == b.q.Of(ExpiredCol);
  }

  /** Everything but the origin of a batch row is the same for two orders of the same postings. */
  lemma SameBatchIff(stock: Stock, h1: seq<Posting>, h2: seq<Posting>, k: BatchKey)
    requires multiset(h1) == multiset(h2) && k in Replay(stock, h1).batches && k in Replay(stock, h2).batches
    ensures Replay(stock, h1).batches[k] == Replay(stock, h2).batches[k] <==>
            FirstOrigin(stock, h1, k) == FirstOrigin(stock, h2, k)
  {
    var b1, b2 := Replay(stock, h1).batches, Replay(stock, h2).batches;
    FirstPostingSetsUnitValue(stock, h1, k);
    FirstPostingSetsUnitValue(stock, h2, k);
    if FirstOrigin(stock, h1, k) == FirstOrigin(stock, h2, k) {
      PostingOrderIrrelevant(stock, h1, h2);
      assert BatchExpiry(b1, k) == BatchExpiry(b2, k);
      forall c ensures b1[k].q.Of(c) == b2[k].q.Of(c) {
        assert BatchCol(b1, k, c) == BatchCol(b2, k, c);
      }
      SameBatch(b1[k], b2[k]);
    }
  }

  /** Every row created by the history is created with the same unit value and batch date. */
  ghost predicate SameOrigins(stock: Stock, h1: seq<Posting>, h2: seq<Posting>)
  {
    forall k :: k !in stock.batches && Touched(h1, k) ==> FirstOrigin(stock, h1, k) == FirstOrigin(stock, h2, k)
  }

  lemma SameOriginsSuffice(stock: Stock, h1: seq<Posting>, h2: seq<Posting>, k: BatchKey)
    requires multiset(h1) == multiset(h2) && SameOrigins(stock, h1, h2)
    ensures k in Replay(stock, h1).batches <==> k in Replay(stock, h2).batches
    ensures k in Replay(stock, h1).batches ==> Replay(stock, h1).batches[k] == Replay(stock, h2).batches[k]
  {
    SameKeys(stock, h1, h2, k);
    if k in Replay(stock, h1).batches {
      SameBatchIff(stock, h1, h2, k);
    }
  }

  lemma SameKeys(stock: Stock, h1: seq<Posting>, h2: seq<Posting>, k: BatchKey)
    requires multiset(h1) == multiset(h2)
    ensures k in Replay(stock, h1).batches <==> k in stock.batches || Touched(h1, k)
    ensures k in Replay(stock, h1).batches <==> k in Replay(stock, h2).batches
  {
    ReplayBatchKeys(stock, h1, k);
    PostingOrderIrrelevant(stock, h1, h2);
  }

  /**
    Two orders of the same postings leave the same batch rows exactly if every row they create is
    created with the same unit value and batch date.
   */
  lemma SameBatchesIff(stock: Stock, h1: seq<Posting>, h2: seq<Posting>)
    requires multiset(h1) == multiset(h2)
    ensures Replay(stock, h1).batches == Replay(stock, h2).batches <==> SameOrigins(stock, h1, h2)
  {
    var b1, b2 := Replay(stock, h1).batches, Replay(stock, h2).batches;
    if b1 == b2 {
      forall k | k !in stock.batches && Touched(h1, k)
        ensures FirstOrigin(stock, h1, k) == FirstOrigin(stock, h2, k)
      {
        SameKeys(stock, h1, h2, k);
        SameBatchIff(stock, h1, h2, k);
      }
    }
    if SameOrigins(stock, h1, h2) {
      forall k ensures (k in b1 <==> k in b2) && (k in b1 ==> b1[k] == b2[k]) {
        SameOriginsSuffice(stock, h1, h2, k);
      }
    }
  }

  /** So two postings of one batch at different unit values do not commute on that column. */
  lemma BatchUnitValueDependsOnOrder(p: Posting, q: Posting)
    requires p == Posting(IntakeKey(1, 1), 1,
        map[5 := Line("B1", 0, None, 100, 100, Quantities(100, 0, 0), VerifiedItem)])
    requires q == Posting(IntakeKey(2, 1), 1,
        map[5 := Line("B1", 0, None, 200, 200, Quantities(100, 0, 0), VerifiedItem)])
    ensures Replay(Stock(map[], map[]), [p, q]) != Replay(Stock(map[], map[]), [q, p])
  {
    var k := BatchKey(1, 5, "B1");
    FirstOfTwo(p, q, k);
    FirstOfTwo(q, p, k);
    FirstPostingSetsUnitValue(Stock(map[], map[]), [p, q], k);
    FirstPostingSetsUnitValue(Stock(map[], map[]), [q, p], k);
  }

  lemma FirstOfTwo(p: Posting, q: Posting, k: BatchKey)
    requires Touches(p.key.warehouse, p.lines, k)
    ensures FirstLine([p, q], k) == Some(p.lines[k.item])
  {
    assert [p, q][..1] == [p] && [p][..0] == [];
    assert FirstLine([p], k) == Some(p.lines[k.item]);
  }
}
