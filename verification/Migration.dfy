/**
  The migration of staged aid movements into the transaction table. Duplicates are recognised by
  signature; the table is cut down to the rows of the migrating creator. Quantities are in hundredths;
  a signature built by the import holds a float, one read from the table the stored decimal.
 */
module Migration {
  import opened Common
  import opened Text

  /** A staged movement. The description is in upper case. */
  datatype Record = Record(
    description: string,
    warehouse: string,
    kind: string,
    quantity: int,
    date: Option<string>,
    comments: string,
    sheet: string,
    row: string)

  datatype Lookup = Lookup(items: Option<map<string, int>>, warehouses: Option<map<string, int>>)

  datatype Transaction = Transaction(
    item: Option<int>, kind: string, quantity: int, warehouse: Option<int>, notes: Option<string>)

  /**
    A quantity as it takes part in comparisons. A decimal and a float are equal only if the float has
    exactly the decimal's value; all other floats are told apart by the decimal they are nearest to.
   */
  datatype Amount = Exactly(hundredths: int) | NearestTo(hundredths: int)

  datatype Signature = Signature(item: int, kind: string, quantity: Amount, warehouse: int, notes: string)

  // ----- Floats -----

  function Pow2(e: nat): (p: nat)
    ensures p >= 1
  {
    if e == 0 then 1 else 2 * Pow2(e - 1)
  }

  /** `m` over two to the `e` is a float, and its value is exactly `q` hundredths. */
  predicate FloatIs(q: int, m: int, e: nat)
  {
    -0x20_0000_0000_0000 < m < 0x20_0000_0000_0000 && q * Pow2(e) == 100 * m
  }

  function FloatOf(q: int): Amount
  {
    if q % 25 == 0 then Exactly(q) else NearestTo(q)
  }

  lemma {:induction false} TwoIsNoDivisor(q: int, e: nat)
    requires (q * Pow2(e)) % 25 == 0
    ensures q % 25 == 0
  {
    if e > 0 {
      var h := q * Pow2(e - 1);
      assert q * Pow2(e) == 2 * h;
      assert h % 25 == 0;
      TwoIsNoDivisor(q, e - 1);
    }
  }

  /** Within the column's twelve digits, a float can hold exactly the multiples of a quarter. */
  lemma FloatExactIff(q: int)
    requires -1_000_000_000_000 < q < 1_000_000_000_000
    ensures (exists m, e :: FloatIs(q, m, e)) <==> FloatOf(q) == Exactly(q)
  {
    if q % 25 == 0 {
      assert Pow2(2) == 4;
      assert FloatIs(q, q / 25, 2);
    }
    if m, e :| FloatIs(q, m, e) {
      TwoIsNoDivisor(q, e);
    }
  }

  // ----- Signatures -----

  function Find(ids: Option<map<string, int>>, key: string): Option<int>
  {
    if ids.Some? && key in ids.value then Some(ids.value[key]) else None
  }

  /** An id as the import sees it: absent and zero are the same to it. */
  predicate Truthy(id: Option<int>)
  {
    id.Some? && id.value != 0
  }

  function Build(t: Transaction): Signature
  {
    Signature(
      if Truthy(t.item) then t.item.value else -1, t.kind, FloatOf(t.quantity),
      if Truthy(t.warehouse) then t.warehouse.value else -1,
      if t.notes.Some? then t.notes.value else "")
  }

  /** The signature that the database computes from a stored row. */
  function OfRow(t: Transaction): Signature
  {
    Signature(
      if t.item.Some? then t.item.value else -1, t.kind, Exactly(t.quantity),
      if t.warehouse.Some? then t.warehouse.value else -1,
      if t.notes.Some? then t.notes.value else "")
  }

  function Stored(rows: seq<Transaction>): set<Signature>
  {
    set t | t in rows :: OfRow(t)
  }

  function Built(rows: seq<Transaction>): set<Signature>
  {
    set t | t in rows :: Build(t)
  }

  /** The parts joined by semicolons. */
  function Joined(parts: seq<string>): Option<string>
  {
    if parts == [] then None
    else if |parts| == 1 then Some(parts[0])
    else Some(parts[0] + "; " + Joined(parts[1..]).value)
  }

  function Notes(r: Record): Option<string>
  {
    Joined(
      (if r.date.Some? then ["Date: " + r.date.value] else [])
      + (if r.comments != "" then [r.comments] else [])
      + (if r.sheet != "" then ["Source: " + r.sheet + " Row " + r.row] else []))
  }

  // ----- One record -----

  datatype Resolution = NoItem | NoWarehouse | Ready(transaction: Transaction)

  function Resolve(l: Lookup, r: Record): Resolution
  {
    var item := Find(l.items, Strip(r.description));
    var warehouse := Find(l.warehouses, r.warehouse);
    if !Truthy(item) && l.items.Some? then NoItem
    else if !Truthy(warehouse) && r.warehouse != "UNKNOWN" && l.warehouses.Some? then NoWarehouse
    else Ready(Transaction(item, r.kind, r.quantity, warehouse, Notes(r)))
  }

  // ----- What a record says -----

  /** The date, the comment and the source of a record, those that there are, separated by semicolons. */
  lemma NotesShow(r: Record)
    ensures var source := "Source: " + r.sheet + " Row " + r.row;
      Notes(r) ==
        match r.date {
          case Some(d) =>
            if r.comments != "" && r.sheet != "" then Some("Date: " + d + ("; " + (r.comments + ("; " + source))))
            else if r.comments != "" then Some("Date: " + d + ("; " + r.comments))
            else if r.sheet != "" then Some("Date: " + d + ("; " + source))
            else Some("Date: " + d)
          case None =>
            if r.comments != "" && r.sheet != "" then Some(r.comments + ("; " + source))
            else if r.comments != "" then Some(r.comments)
            else if r.sheet != "" then Some(source)
            else None
        }
  {
    var date := if r.date.Some? then ["Date: " + r.date.value] else [];
    var comment := if r.comments != "" then [r.comments] else [];
    var source := if r.sheet != "" then ["Source: " + r.sheet + " Row " + r.row] else [];
    var parts := date + comment + source;
    JoinedShort(parts);
    assert Notes(r) == Joined(parts);
  }

  lemma JoinedShort(parts: seq<string>)
    requires |parts| <= 3
    ensures Joined(parts) ==
      if |parts| == 0 then None
      else if |parts| == 1 then Some(parts[0])
      else if |parts| == 2 then Some(parts[0] + ("; " + parts[1]))
      else Some(parts[0] + ("; " + (parts[1] + ("; " + parts[2]))))
  {
    if |parts| == 2 {
      assert parts[1..] == [parts[1]];
      assert parts[0] + "; " + parts[1] == parts[0] + ("; " + parts[1]);
    } else if |parts| == 3 {
      JoinedShort(parts[1..]);
      var rest := parts[1] + ("; " + parts[2]);
      assert parts[0] + "; " + rest == parts[0] + ("; " + rest);
    }
  }

  /** The id that a lookup has for a key, if it has one other than zero. */
  predicate Resolves(ids: Option<map<string, int>>, key: string, id: int)
  {
    ids.Some? && key in ids.value && ids.value[key] == id && id != 0
  }

  /**
    A record is skipped exactly if there is an item table without a proper id for its description, or
    else a warehouse table without one for its code, unless the code is UNKNOWN; any other record becomes
    a transaction with its kind and quantity and the ids found.
   */
  lemma ResolveShows(l: Lookup, r: Record)
    ensures var noItem := l.items.Some? && forall id :: !Resolves(l.items, Strip(r.description), id);
      var noWarehouse := l.warehouses.Some? && r.warehouse != "UNKNOWN"
        && forall id :: !Resolves(l.warehouses, r.warehouse, id);
      match Resolve(l, r)
      case NoItem => noItem
      case NoWarehouse => !noItem && noWarehouse
      case Ready(t) =>
        && !noItem && !noWarehouse
        && t.kind == r.kind && t.quantity == r.quantity && t.notes == Notes(r)
        && (l.items.None? ==> t.item == None)
        && (l.items.Some? ==> t.item.Some? && Resolves(l.items, Strip(r.description), t.item.value))
        && (forall id :: Resolves(l.warehouses, r.warehouse, id) ==> t.warehouse == Some(id))
        && (t.warehouse.Some? && t.warehouse.value != 0 ==> Resolves(l.warehouses, r.warehouse, t.warehouse.value))
  {
    var item, warehouse := Find(l.items, Strip(r.description)), Find(l.warehouses, r.warehouse);
    if Truthy(item) {
      assert Resolves(l.items, Strip(r.description), item.value);
    }
    if Truthy(warehouse) {
      assert Resolves(l.warehouses, r.warehouse, warehouse.value);
    }
  }

  // ----- A batch -----

  function Resolved(l: Lookup, records: seq<Record>): seq<Resolution>
  {
    seq(|records|, i requires 0 <= i < |records| => Resolve(l, records[i]))
  }

  /** The transactions of the resolvable records, in order. */
  function Offered(rs: seq<Resolution>): seq<Transaction>
  {
    if rs == [] then []
    else if rs[0].Ready? then [rs[0].transaction] + Offered(rs[1..])
    else Offered(rs[1..])
  }

  function OfferedBy(r: Resolution): seq<Transaction>
  {
    if r.Ready? then [r.transaction] else []
  }

  /** How many records end in a given resolution. */
  function Count(rs: seq<Resolution>, r: Resolution): nat
  {
    if rs == [] then 0 else Count(rs[..|rs| - 1], r) + if rs[|rs| - 1] == r then 1 else 0
  }

  /** The first transaction of each signature that is not known. */
  function Fresh(known: set<Signature>, offered: seq<Transaction>): seq<Transaction>
    decreases |offered|
  {
    if offered == [] then []
    else if Build(offered[0]) in known then Fresh(known, offered[1..])
    else [offered[0]] + Fresh(known + {Build(offered[0])}, offered[1..])
  }

  /** The transactions that a batch adds to a table. */
  function Migrated(l: Lookup, rows: seq<Transaction>, records: seq<Record>): seq<Transaction>
  {
    Fresh(Stored(rows), Offered(Resolved(l, records)))
  }

  lemma BuiltCons(first: Transaction, rest: seq<Transaction>)
    ensures Built([first] + rest) == {Build(first)} + Built(rest)
  {
    assert forall t :: t in [first] + rest <==> t == first || t in rest;
  }

  lemma StoredConcat(a: seq<Transaction>, b: seq<Transaction>)
    ensures Stored(a + b) == Stored(a) + Stored(b)
  {
    assert forall t :: t in a + b <==> t in a || t in b;
  }

  /** Exactly the unknown signatures are added. */
  lemma {:induction false} FreshExactly(known: set<Signature>, offered: seq<Transaction>)
    ensures Built(Fresh(known, offered)) == Built(offered) - known
    decreases |offered|
  {
    if offered != [] {
      var s, rest := Build(offered[0]), offered[1..];
      assert offered == [offered[0]] + rest;
      BuiltCons(offered[0], rest);
      if s in known {
        FreshExactly(known, rest);
        assert Built(offered) - known == Built(rest) - known;
      } else {
        FreshExactly(known + {s}, rest);
        BuiltCons(offered[0], Fresh(known + {s}, rest));
        assert Built(offered) - known == {s} + (Built(rest) - (known + {s}));
      }
    }
  }

  /** Each of them is added by one transaction. */
  lemma {:induction false} FreshOnce(known: set<Signature>, offered: seq<Transaction>)
    ensures |Built(Fresh(known, offered))| == |Fresh(known, offered)|
    decreases |offered|
  {
    if offered != [] {
      var s, rest := Build(offered[0]), offered[1..];
      if s in known {
        FreshOnce(known, rest);
      } else {
        var more := Fresh(known + {s}, rest);
        FreshOnce(known + {s}, rest);
        FreshExactly(known + {s}, rest);
        assert s !in Built(more);
        BuiltCons(offered[0], more);
      }
    }
  }

  /** A batch in two parts: the second part knows what the first one added. */
  lemma {:induction false} FreshConcat(known: set<Signature>, a: seq<Transaction>, b: seq<Transaction>)
    ensures Fresh(known, a + b) == Fresh(known, a) + Fresh(known + Built(Fresh(known, a)), b)
    decreases |a|
  {
    if a == [] {
      assert a + b == b;
      assert known + Built([]) == known;
    } else {
      var s, rest := Build(a[0]), a[1..];
      assert (a + b)[0] == a[0] && (a + b)[1..] == rest + b;
      if s in known {
        FreshConcat(known, rest, b);
      } else {
        var more := Fresh(known + {s}, rest);
        FreshConcat(known + {s}, rest, b);
        BuiltCons(a[0], more);
        assert known + {s} + Built(more) == known + Built([a[0]] + more);
      }
    }
  }

  lemma {:induction false} OfferedConcat(a: seq<Resolution>, b: seq<Resolution>)
    ensures Offered(a + b) == Offered(a) + Offered(b)
  {
    if a == [] {
      assert a + b == b;
    } else {
      var c, rest := a + b, a[1..];
      OfferedConcat(rest, b);
      assert c[0] == a[0] && c[1..] == rest + b;
      var x, y := Offered(rest), Offered(b);
      if a[0].Ready? {
        assert [a[0].transaction] + (x + y) == [a[0].transaction] + x + y;
      }
    }
  }

  lemma ResolvedConcat(l: Lookup, a: seq<Record>, b: seq<Record>)
    ensures Resolved(l, a + b) == Resolved(l, a) + Resolved(l, b)
  {
  }

  // ----- Repeated runs -----

  /** A row that is not found again under the signature it was added with. */
  predicate Forgotten(t: Transaction)
  {
    t.item == Some(0) || t.warehouse == Some(0) || t.quantity % 25 != 0
  }

  predicate UnknownIsZero(l: Lookup)
  {
    Find(l.warehouses, "UNKNOWN") == Some(0)
  }

  /** The same of a record that is still to be imported. */
  predicate Forgettable(l: Lookup, r: Record)
  {
    r.quantity % 25 != 0 || (r.warehouse == "UNKNOWN" && UnknownIsZero(l))
  }

  lemma ForgettableIff(l: Lookup, r: Record)
    requires Resolve(l, r).Ready?
    ensures Forgettable(l, r) <==> Forgotten(Resolve(l, r).transaction)
  {
  }

  /** Record `i` is the first one that resolves to its signature, and the table does not have it yet. */
  ghost predicate FirstOf(rs: seq<Resolution>, known: set<Signature>, i: nat)
    requires i < |rs|
  {
    && rs[i].Ready?
    && Build(rs[i].transaction) !in known
    && forall j :: 0 <= j < i && rs[j].Ready? ==> Build(rs[j].transaction) != Build(rs[i].transaction)
  }

  /** No record that is the first of an unknown signature has a zero warehouse id or an inexact quantity. */
  ghost predicate Recognisable(l: Lookup, rows: seq<Transaction>, records: seq<Record>)
  {
    forall i :: 0 <= i < |records| && FirstOf(Resolved(l, records), Stored(rows), i) ==> !Forgettable(l, records[i])
  }

  lemma {:induction false} OfferedMembers(rs: seq<Resolution>, t: Transaction)
    ensures t in Offered(rs) <==> exists j :: 0 <= j < |rs| && rs[j] == Ready(t)
  {
    if rs != [] {
      OfferedMembers(rs[1..], t);
      if t in Offered(rs[1..]) {
        var j :| 0 <= j < |rs[1..]| && rs[1..][j] == Ready(t);
        assert rs[j + 1] == Ready(t);
      }
      if j :| 0 <= j < |rs| && rs[j] == Ready(t) {
        assert j > 0 ==> rs[1..][j - 1] == Ready(t);
      }
    }
  }

  lemma FirstOfIff(rs: seq<Resolution>, known: set<Signature>, i: nat)
    requires i < |rs|
    ensures FirstOf(rs, known, i) <==>
              rs[i].Ready? && Build(rs[i].transaction) !in known + Built(Fresh(known, Offered(rs[..i])))
  {
    FreshExactly(known, Offered(rs[..i]));
    forall t ensures t in Offered(rs[..i]) <==> exists j :: 0 <= j < i && rs[j] == Ready(t) {
      OfferedMembers(rs[..i], t);
      assert forall j :: 0 <= j < i ==> rs[..i][j] == rs[j];
    }
  }

  /** The transactions of the first records of unknown signatures, in the order of the records. */
  ghost function Firsts(rs: seq<Resolution>, known: set<Signature>, n: nat): seq<Transaction>
    requires n <= |rs|
  {
    if n == 0 then []
    else Firsts(rs, known, n - 1) + if FirstOf(rs, known, n - 1) then [rs[n - 1].transaction] else []
  }

  /** Those are added, in that order. */
  lemma {:induction false} AddedInOrder(rs: seq<Resolution>, known: set<Signature>, n: nat)
    requires n <= |rs|
    ensures Fresh(known, Offered(rs[..n])) == Firsts(rs, known, n)
  {
    if n > 0 {
      AddedInOrder(rs, known, n - 1);
      BatchStep(rs, n - 1, known);
      FirstOfIff(rs, known, n - 1);
    }
  }

  /** The added transactions are those of the first records of unknown signatures. */
  lemma {:induction false} AddedAreFirst(rs: seq<Resolution>, known: set<Signature>, n: nat, t: Transaction)
    requires n <= |rs|
    ensures t in Fresh(known, Offered(rs[..n])) <==>
              exists i :: 0 <= i < n && FirstOf(rs, known, i) && rs[i] == Ready(t)
  {
    if n > 0 {
      AddedAreFirst(rs, known, n - 1, t);
      BatchStep(rs, n - 1, known);
      FirstOfIff(rs, known, n - 1);
    }
  }

  lemma RecognisableIff(l: Lookup, rows: seq<Transaction>, records: seq<Record>)
    ensures Recognisable(l, rows, records) <==> forall t :: t in Migrated(l, rows, records) ==> !Forgotten(t)
  {
    var rs := Resolved(l, records);
    assert rs[..|records|] == rs;
    forall t ensures t in Migrated(l, rows, records) <==>
                     exists i :: 0 <= i < |records| && FirstOf(rs, Stored(rows), i) && rs[i] == Ready(t)
    {
      AddedAreFirst(rs, Stored(rows), |records|, t);
    }
    forall i | 0 <= i < |records| && rs[i].Ready?
      ensures Forgettable(l, records[i]) <==> Forgotten(rs[i].transaction)
    {
      ForgettableIff(l, records[i]);
    }
    forall i | 0 <= i < |records| && FirstOf(rs, Stored(rows), i)
      ensures rs[i].transaction in Migrated(l, rows, records)
    {
      assert rs[i] == Ready(rs[i].transaction);
    }
  }

  lemma BuildIsStored(rows: seq<Transaction>)
    requires forall t :: t in rows ==> !Forgotten(t)
    ensures Stored(rows) == Built(rows)
  {
    forall t | t in rows ensures OfRow(t) == Build(t) {}
  }

  predicate Idle(l: Lookup, rows: seq<Transaction>, records: seq<Record>)
  {
    Migrated(l, rows + Migrated(l, rows, records), records) == []
  }

  /** A run adds nothing exactly if all signatures on offer are known. */
  lemma IdleIffKnown(known: set<Signature>, offered: seq<Transaction>)
    ensures Fresh(known, offered) == [] <==> Built(offered) <= known
  {
    FreshExactly(known, offered);
    FreshOnce(known, offered);
    assert Built(offered) <= known <==> Built(offered) - known == {};
  }

  lemma FoundIfKept(rows: seq<Transaction>, offered: seq<Transaction>)
    requires forall t :: t in Fresh(Stored(rows), offered) ==> !Forgotten(t)
    ensures Stored(rows + Fresh(Stored(rows), offered)) == Stored(rows) + Built(offered)
  {
    var added := Fresh(Stored(rows), offered);
    StoredConcat(rows, added);
    FreshExactly(Stored(rows), offered);
    BuildIsStored(added);
  }

  lemma NotFoundIfForgotten(rows: seq<Transaction>, offered: seq<Transaction>, t: Transaction)
    requires t in Fresh(Stored(rows), offered) && Forgotten(t)
    ensures Build(t) in Built(offered) && Build(t) !in Stored(rows + Fresh(Stored(rows), offered))
  {
    var added := Fresh(Stored(rows), offered);
    StoredConcat(rows, added);
    assert Build(t) in Built(added);
    FreshExactly(Stored(rows), offered);
    ForgottenStays(Stored(rows), offered, t);
  }

  lemma FoundIff(rows: seq<Transaction>, offered: seq<Transaction>)
    ensures var added := Fresh(Stored(rows), offered);
            Built(offered) <= Stored(rows + added) <==> forall t :: t in added ==> !Forgotten(t)
  {
    var added := Fresh(Stored(rows), offered);
    if forall t :: t in added ==> !Forgotten(t) {
      FoundIfKept(rows, offered);
    } else {
      var t :| t in added && Forgotten(t);
      NotFoundIfForgotten(rows, offered, t);
    }
  }

  /**
    A second run over the same records adds nothing exactly if, among the records that are the first of
    a signature new to the table, none has an inexact quantity or the code UNKNOWN mapped to zero.
   */
  lemma SecondRunIdleIff(l: Lookup, rows: seq<Transaction>, records: seq<Record>)
    ensures Idle(l, rows, records) <==> Recognisable(l, rows, records)
  {
    var offered := Offered(Resolved(l, records));
    RecognisableIff(l, rows, records);
    FoundIff(rows, offered);
    IdleIffKnown(Stored(rows + Migrated(l, rows, records)), offered);
  }

  lemma ForgottenStays(known: set<Signature>, offered: seq<Transaction>, t: Transaction)
    requires t in Fresh(known, offered) && Forgotten(t)
    ensures Build(t) !in Stored(Fresh(known, offered))
  {
    forall u | u in Fresh(known, offered) ensures OfRow(u) != Build(t) {
      if OfRow(u) == Build(t) {
        SameSignatureSameRow(known, offered, t, u);
      }
    }
  }

  lemma {:induction false} SameSignatureSameRow(
    known: set<Signature>, offered: seq<Transaction>, t: Transaction, u: Transaction)
    requires t in Fresh(known, offered) && u in Fresh(known, offered) && Build(t) == Build(u)
    ensures t == u
    decreases |offered|
  {
    var s, rest := Build(offered[0]), offered[1..];
    if s in known {
      SameSignatureSameRow(known, rest, t, u);
    } else {
      var more := Fresh(known + {s}, rest);
      FreshExactly(known + {s}, rest);
      assert t in more ==> Build(t) in Built(more);
      assert u in more ==> Build(u) in Built(more);
      if t in more && u in more {
        SameSignatureSameRow(known + {s}, rest, t, u);
      }
    }
  }

  /** Every quantity of the batch is a multiple of a quarter. */
  predicate QuantitiesExact(records: seq<Record>)
  {
    forall r :: r in records ==> r.quantity % 25 == 0
  }

  /** Some description resolves, or there is no item table to resolve it in. */
  ghost predicate SomeItemResolves(l: Lookup)
  {
    l.items.None? || exists d: string :: Truthy(Find(l.items, Strip(d)))
  }

  /**
    For exact quantities, no table and no batch is ever imported twice exactly if the code UNKNOWN does
    not stand for warehouse zero, or nothing can be imported at all.
   */
  lemma AlwaysIdleIff(l: Lookup)
    ensures (forall rows, records :: QuantitiesExact(records) ==> Idle(l, rows, records)) <==>
            !(UnknownIsZero(l) && SomeItemResolves(l))
  {
    if UnknownIsZero(l) && SomeItemResolves(l) {
      var d: string :| l.items.None? || Truthy(Find(l.items, Strip(d)));
      var r := Record(d, "UNKNOWN", "R", 100, None, "", "", "");
      UnknownForgotten(l, r);
      assert QuantitiesExact([r]) && !Idle(l, [], [r]);
    } else {
      forall rows, records | QuantitiesExact(records) ensures Idle(l, rows, records) {
        SecondRunIdleIff(l, rows, records);
        forall i | 0 <= i < |records| && Resolve(l, records[i]).Ready? ensures !Forgettable(l, records[i]) {
          assert records[i] in records;
        }
      }
    }
  }

  lemma UnknownForgotten(l: Lookup, r: Record)
    requires UnknownIsZero(l) && r.warehouse == "UNKNOWN"
    requires l.items.None? || Truthy(Find(l.items, Strip(r.description)))
    ensures !Idle(l, [], [r])
  {
    var rs := Resolved(l, [r]);
    SecondRunIdleIff(l, [], [r]);
    assert rs[0] == Resolve(l, r) && Resolve(l, r).Ready?;
    assert FirstOf(rs, Stored([]), 0);
  }

  /** A resolvable record with an inexact quantity is added by every run, whatever the table holds. */
  lemma InexactAddedAgain(l: Lookup, rows: seq<Transaction>, records: seq<Record>, r: Record)
    requires r in records && Resolve(l, r).Ready? && r.quantity % 25 != 0
    ensures Build(Resolve(l, r).transaction) in Built(Migrated(l, rows, records))
  {
    var rs, t := Resolved(l, records), Resolve(l, r).transaction;
    var i :| 0 <= i < |records| && records[i] == r;
    assert rs[i] == Ready(t);
    OfferedMembers(rs, t);
    FreshExactly(Stored(rows), Offered(rs));
  }

  lemma FreshTwice(rows: seq<Transaction>, a: seq<Transaction>, b: seq<Transaction>)
    requires forall t :: t in Fresh(Stored(rows), a) ==> !Forgotten(t)
    ensures var added := Fresh(Stored(rows), a);
            added + Fresh(Stored(rows + added), b) == Fresh(Stored(rows), a + b)
  {
    var added := Fresh(Stored(rows), a);
    StoredConcat(rows, added);
    BuildIsStored(added);
    FreshConcat(Stored(rows), a, b);
  }

  /** Two runs over the parts of a batch add what one run adds. */
  predicate Splits(l: Lookup, rows: seq<Transaction>, a: seq<Record>, b: seq<Record>)
  {
    var first := Migrated(l, rows, a);
    first + Migrated(l, rows + first, b) == Migrated(l, rows, a + b)
  }

  lemma RunsCompose(l: Lookup, rows: seq<Transaction>, a: seq<Record>, b: seq<Record>)
    requires Recognisable(l, rows, a)
    ensures Splits(l, rows, a, b)
  {
    var x, y := Offered(Resolved(l, a)), Offered(Resolved(l, b));
    RecognisableIff(l, rows, a);
    assert Offered(Resolved(l, a + b)) == x + y by {
      ResolvedConcat(l, a, b);
      OfferedConcat(Resolved(l, a), Resolved(l, b));
    }
    FreshTwice(rows, x, y);
  }

  /** A batch can be cut off and run first, whatever follows, exactly if its first records are recognisable. */
  lemma RunsComposeIff(l: Lookup, rows: seq<Transaction>, a: seq<Record>)
    ensures (forall b :: Splits(l, rows, a, b)) <==> Recognisable(l, rows, a)
  {
    if Recognisable(l, rows, a) {
      forall b ensures Splits(l, rows, a, b) {
        RunsCompose(l, rows, a, b);
      }
    } else {
      SecondRunIdleIff(l, rows, a);
      RepeatAddsNothing(l, rows, a);
      assert !Splits(l, rows, a, a);
    }
  }

  lemma RepeatAddsNothing(l: Lookup, rows: seq<Transaction>, a: seq<Record>)
    ensures Migrated(l, rows, a + a) == Migrated(l, rows, a)
  {
    var known, offered := Stored(rows), Offered(Resolved(l, a));
    ResolvedConcat(l, a, a);
    OfferedConcat(Resolved(l, a), Resolved(l, a));
    FreshConcat(known, offered, offered);
    var more := known + Built(Fresh(known, offered));
    FreshExactly(known, offered);
    FreshExactly(more, offered);
    FreshOnce(more, offered);
    assert Built(offered) - more == {};
  }

  /**
    Every resolvable record is found in the table afterwards exactly if the batch is recognisable; the
    added signatures are then distinct and were not there before.
   */
  lemma MigrationComplete(l: Lookup, rows: seq<Transaction>, records: seq<Record>)
    ensures var added := Migrated(l, rows, records);
            var offered := Built(Offered(Resolved(l, records)));
            && (offered <= Stored(rows + added) <==> Recognisable(l, rows, records))
            && (Recognisable(l, rows, records) ==>
                  && Stored(rows + added) == Stored(rows) + offered
                  && Stored(added) !! Stored(rows)
                  && |Stored(added)| == |added|)
  {
    var added := Migrated(l, rows, records);
    var offered := Offered(Resolved(l, records));
    RecognisableIff(l, rows, records);
    FoundIff(rows, offered);
    if Recognisable(l, rows, records) {
      FoundIfKept(rows, offered);
      FreshExactly(Stored(rows), offered);
      FreshOnce(Stored(rows), offered);
      BuildIsStored(added);
    }
  }

  /** A warehouse with id zero for the code UNKNOWN: the same movement is imported again and again. */
  lemma ImportedTwice(r: Record, item: int)
    requires item != 0 && r.warehouse == "UNKNOWN"
    ensures var l := Lookup(Some(map[Strip(r.description) := item]), Some(map["UNKNOWN" := 0]));
            var t := Transaction(Some(item), r.kind, r.quantity, Some(0), Notes(r));
            Migrated(l, [], [r]) == [t] && Migrated(l, [t], [r]) == [t]
  {
    var l := Lookup(Some(map[Strip(r.description) := item]), Some(map["UNKNOWN" := 0]));
    var t := Transaction(Some(item), r.kind, r.quantity, Some(0), Notes(r));
    assert Resolve(l, r) == Ready(t);
    assert Resolved(l, [r]) == [Ready(t)];
    OfferedOnce(t);
  }

  /** So is a quantity of 0.10, with all ids in order. */
  lemma TenthImportedTwice(r: Record, item: int, warehouse: int)
    requires item != 0 && warehouse != 0 && r.quantity == 10
    ensures var l := Lookup(Some(map[Strip(r.description) := item]), Some(map[r.warehouse := warehouse]));
            var t := Transaction(Some(item), r.kind, 10, Some(warehouse), Notes(r));
            Migrated(l, [], [r]) == [t] && Migrated(l, [t], [r]) == [t]
  {
    var l := Lookup(Some(map[Strip(r.description) := item]), Some(map[r.warehouse := warehouse]));
    var t := Transaction(Some(item), r.kind, 10, Some(warehouse), Notes(r));
    assert Resolve(l, r) == Ready(t);
    assert Resolved(l, [r]) == [Ready(t)];
    OfferedOnce(t);
  }

  lemma OfferedOnce(t: Transaction)
    requires Forgotten(t)
    ensures Fresh(Stored([]), Offered([Ready(t)])) == [t] && Fresh(Stored([t]), Offered([Ready(t)])) == [t]
  {
    assert [Ready(t)][1..] == [];
    assert Offered([Ready(t)]) == [t];
    assert [t][1..] == [];
    assert Stored([t]) == {OfRow(t)};
    assert Stored([]) == {};
  }

  // ----- The program -----

  datatype Statistics = Statistics(
    total: nat, toInsert: nat, inserted: nat, duplicates: nat, noItem: nat, noWarehouse: nat)

  class TransactionTable {
    var rows: seq<Transaction>

    /**
      Migrates a batch of records. On a dry run nothing is written; `accepted` says whether the
      database takes the batch of inserts, which is written as a whole or not at all.
     */
    method MigrateRecords(l: Lookup, records: seq<Record>, dryRun: bool, accepted: bool)
      returns (stats: Statistics)
      modifies this
      ensures rows == old(rows) + if dryRun || !accepted then [] else Migrated(l, old(rows), records)
      ensures stats.toInsert == |Migrated(l, old(rows), records)|
      ensures stats.inserted == |rows| - |old(rows)|
      ensures stats.noItem == Count(Resolved(l, records), NoItem)
      ensures stats.noWarehouse == Count(Resolved(l, records), NoWarehouse)
      ensures stats.total == |records| == stats.toInsert + stats.duplicates + stats.noItem + stats.noWarehouse
    {
      var toInsert, duplicates, noItem, noWarehouse := SortOut(Resolved(l, records), Stored(rows));
      var inserted := 0;
      if !dryRun && accepted {
        rows := rows + toInsert;
        inserted := |toInsert|;
      }
      stats := Statistics(|records|, |toInsert|, inserted, duplicates, noItem, noWarehouse);
    }
  }

  /** The loop over the records, each with its resolution: collects what is to be inserted and counts the rest. */
  method SortOut(rs: seq<Resolution>, known: set<Signature>)
    returns (toInsert: seq<Transaction>, duplicates: nat, noItem: nat, noWarehouse: nat)
    ensures toInsert == Fresh(known, Offered(rs))
    ensures noItem == Count(rs, NoItem) && noWarehouse == Count(rs, NoWarehouse)
    ensures |rs| == |toInsert| + duplicates + noItem + noWarehouse
  {
    var existing := known;
    toInsert, duplicates, noItem, noWarehouse := [], 0, 0, 0;
    for i := 0 to |rs|
      invariant i == |toInsert| + duplicates + noItem + noWarehouse
      invariant noItem == Count(rs[..i], NoItem)
      invariant noWarehouse == Count(rs[..i], NoWarehouse)
      invariant toInsert == Fresh(known, Offered(rs[..i]))
      invariant existing == known + Built(toInsert)
    {
      BatchStep(rs, i, known);
      CountNext(rs, i, NoItem);
      CountNext(rs, i, NoWarehouse);
      match rs[i]
      case NoItem => noItem := noItem + 1;
      case NoWarehouse => noWarehouse := noWarehouse + 1;
      case Ready(t) =>
        var signature := Build(t);
        if signature in existing {
          duplicates := duplicates + 1;
        } else {
          toInsert := toInsert + [t];
          existing := existing + {signature};
        }
    }
    assert rs[..|rs|] == rs;
  }

  lemma BatchStep(rs: seq<Resolution>, i: nat, known: set<Signature>)
    requires i < |rs|
    ensures var before := Fresh(known, Offered(rs[..i]));
            var after := Fresh(known, Offered(rs[..i + 1]));
            if rs[i].Ready? && Build(rs[i].transaction) !in known + Built(before)
            then after == before + [rs[i].transaction] && Built(after) == Built(before) + {Build(rs[i].transaction)}
            else after == before
  {
    assert rs[..i + 1] == rs[..i] + [rs[i]];
    OfferedConcat(rs[..i], [rs[i]]);
    assert [rs[i]][1..] == [];
    assert Offered([rs[i]]) == OfferedBy(rs[i]);
    FreshNext(known, Offered(rs[..i]), rs[i]);
  }

  /** A count is the number of records with that resolution. */
  lemma {:induction false} CountsRecords(rs: seq<Resolution>, r: Resolution)
    ensures Count(rs, r) == |set i | 0 <= i < |rs| && rs[i] == r|
  {
    if rs != [] {
      var n := |rs| - 1;
      var before := set i | 0 <= i < n && rs[..n][i] == r;
      CountsRecords(rs[..n], r);
      assert (set i | 0 <= i < |rs| && rs[i] == r) == before + if rs[n] == r then {n} else {};
    }
  }

  lemma CountNext(rs: seq<Resolution>, i: nat, r: Resolution)
    requires i < |rs|
    ensures Count(rs[..i + 1], r) == Count(rs[..i], r) + if rs[i] == r then 1 else 0
  {
    assert rs[..i + 1][..i] == rs[..i];
  }

  lemma FreshNext(known: set<Signature>, offered: seq<Transaction>, r: Resolution)
    ensures var before := Fresh(known, offered);
            var after := Fresh(known, offered + OfferedBy(r));
            if r.Ready? && Build(r.transaction) !in known + Built(before)
            then after == before + [r.transaction] && Built(after) == Built(before) + {Build(r.transaction)}
            else after == before
  {
    var before := Fresh(known, offered);
    FreshConcat(known, offered, OfferedBy(r));
    if r.Ready? {
      assert [r.transaction][1..] == [];
      assert forall t :: t in before + [r.transaction] <==> t in before || t == r.transaction;
    } else {
      assert offered + [] == offered;
    }
  }
}
