/**
  The creation of all items that an import describes and the item table lacks: ids, codes and names of
  the new rows, and when the table's constraints let the import through. Descriptions arrive in upper
  case.
 */
module ItemImport {
  import opened Common
  import opened Text
  import opened ItemCodes

  // ----- The rows of all missing items -----

  /** A described item that the item table may lack, and its category. */
  datatype Missing = Missing(upper: string, category: Option<int>)

  datatype Item = Item(id: int, code: string, name: string, sku: string, category: Option<int>)

  /** The described items whose trimmed description is not yet a name, each description once. */
  function Chosen(names: set<string>, found: seq<Missing>): seq<Missing>
    decreases |found|
  {
    if found == [] then []
    else if Strip(found[0].upper) in names then Chosen(names, found[1..])
    else [found[0]] + Chosen(names + {Strip(found[0].upper)}, found[1..])
  }

  function NamesOf(items: seq<Missing>): set<string>
  {
    set i | 0 <= i < |items| :: Strip(items[i].upper)
  }

  /** Exactly the absent descriptions are chosen, and none of them twice. */
  lemma {:induction false} ChosenIsExact(names: set<string>, found: seq<Missing>)
    ensures NamesOf(Chosen(names, found)) == NamesOf(found) - names
    ensures |Chosen(names, found)| == |NamesOf(found) - names|
    decreases |found|
  {
    if found != [] {
      var name := Strip(found[0].upper);
      assert NamesOf(found) == {name} + NamesOf(found[1..]) by { NamesOfCons(found[0], found[1..]); }
      if name in names {
        ChosenIsExact(names, found[1..]);
        assert NamesOf(found) - names == NamesOf(found[1..]) - names;
      } else {
        var rest := Chosen(names + {name}, found[1..]);
        ChosenIsExact(names + {name}, found[1..]);
        NamesOfCons(found[0], rest);
        assert NamesOf(found) - names == {name} + (NamesOf(found[1..]) - (names + {name}));
      }
    }
  }

  lemma NamesOfCons(item: Missing, rest: seq<Missing>)
    ensures NamesOf([item] + rest) == {Strip(item.upper)} + NamesOf(rest)
    ensures forall items :: items != [] && items[0] == item && items[1..] == rest ==> items == [item] + rest
  {
    var all := [item] + rest;
    forall name | name in {Strip(item.upper)} + NamesOf(rest) ensures name in NamesOf(all) {
      if name in NamesOf(rest) {
        var i :| 0 <= i < |rest| && name == Strip(rest[i].upper);
        assert all[i + 1] == rest[i];
      } else {
        assert all[0] == item;
      }
    }
  }

  /** The first description of its name that is no name yet. */
  ghost predicate FirstAbsent(names: set<string>, found: seq<Missing>, i: nat)
    requires i < |found|
  {
    Strip(found[i].upper) !in names && forall j :: 0 <= j < i ==> Strip(found[j].upper) != Strip(found[i].upper)
  }

  ghost function FirstAbsents(names: set<string>, found: seq<Missing>, n: nat): seq<Missing>
    requires n <= |found|
  {
    if n == 0 then []
    else FirstAbsents(names, found, n - 1) + if FirstAbsent(names, found, n - 1) then [found[n - 1]] else []
  }

  lemma ChosenCons(names: set<string>, m: Missing, rest: seq<Missing>)
    ensures Chosen(names, [m] + rest) ==
              if Strip(m.upper) in names then Chosen(names, rest) else [m] + Chosen(names + {Strip(m.upper)}, rest)
  {
    assert ([m] + rest)[1..] == rest;
  }

  /** What one more record adds to a choice. */
  function LastChosen(names: set<string>, m: Missing): seq<Missing>
  {
    if Strip(m.upper) in names then [] else [m]
  }

  lemma {:induction false} ChosenNext(names: set<string>, found: seq<Missing>, m: Missing)
    ensures Chosen(names, found + [m]) == Chosen(names, found) + LastChosen(names + NamesOf(found), m)
    decreases |found|, 1
  {
    if found == [] {
      assert found + [m] == [m] + [] && names + NamesOf(found) == names;
      ChosenCons(names, m, []);
    } else {
      ChosenNextCons(names, found[0], found[1..], m);
      assert found == [found[0]] + found[1..];
    }
  }

  lemma ChosenNextCons(names: set<string>, first: Missing, rest: seq<Missing>, m: Missing)
    ensures Chosen(names, [first] + rest + [m]) ==
              Chosen(names, [first] + rest) + LastChosen(names + NamesOf([first] + rest), m)
    decreases |rest| + 1, 0
  {
    var name := Strip(first.upper);
    var seen := if name in names then names else names + {name};
    var x, y := Chosen(seen, rest), LastChosen(seen + NamesOf(rest), m);
    ChosenNext(seen, rest, m);
    assert y == LastChosen(names + NamesOf([first] + rest), m) by {
      NamesOfCons(first, rest);
      assert seen + NamesOf(rest) == names + NamesOf([first] + rest);
    }
    assert [first] + rest + [m] == [first] + (rest + [m]);
    ChosenCons(names, first, rest);
    ChosenCons(names, first, rest + [m]);
    if name !in names {
      assert [first] + (x + y) == [first] + x + y;
    }
  }

  lemma NamesBefore(found: seq<Missing>, n: nat)
    requires n <= |found|
    ensures forall name :: name in NamesOf(found[..n]) <==> exists j :: 0 <= j < n && Strip(found[j].upper) == name
  {
    assert forall j :: 0 <= j < n ==> found[..n][j] == found[j];
  }

  lemma FirstAbsentIff(names: set<string>, found: seq<Missing>, n: nat)
    requires n < |found|
    ensures FirstAbsent(names, found, n) <==> Strip(found[n].upper) !in names + NamesOf(found[..n])
  {
    NamesBefore(found, n);
  }

  lemma ChosenPrefix(names: set<string>, found: seq<Missing>, n: nat)
    requires n < |found|
    ensures Chosen(names, found[..n + 1]) ==
              Chosen(names, found[..n]) + if FirstAbsent(names, found, n) then [found[n]] else []
  {
    FirstAbsentIff(names, found, n);
    ChosenNext(names, found[..n], found[n]);
    assert found[..n + 1] == found[..n] + [found[n]];
  }

  /** Of every absent description the first record is chosen, in order, with its category. */
  lemma {:induction false} ChosenInOrder(names: set<string>, found: seq<Missing>, n: nat)
    requires n <= |found|
    ensures Chosen(names, found[..n]) == FirstAbsents(names, found, n)
  {
    if n > 0 {
      ChosenInOrder(names, found, n - 1);
      ChosenPrefix(names, found, n - 1);
    }
  }

  ghost predicate DistinctNames(items: seq<Missing>)
  {
    forall i, j :: 0 <= i < j < |items| ==> Strip(items[i].upper) != Strip(items[j].upper)
  }

  lemma {:induction false} ChosenDistinct(names: set<string>, found: seq<Missing>)
    ensures DistinctNames(Chosen(names, found))
    ensures forall c :: c in Chosen(names, found) ==> Strip(c.upper) !in names
    decreases |found|
  {
    if found != [] {
      var name := Strip(found[0].upper);
      if name in names {
        ChosenDistinct(names, found[1..]);
      } else {
        var rest := Chosen(names + {name}, found[1..]);
        ChosenDistinct(names + {name}, found[1..]);
        DistinctCons(found[0], rest);
      }
    }
  }

  lemma DistinctCons(item: Missing, rest: seq<Missing>)
    requires DistinctNames(rest) && forall c :: c in rest ==> Strip(c.upper) != Strip(item.upper)
    ensures DistinctNames([item] + rest)
  {
    var all := [item] + rest;
    forall i, j | 0 <= i < j < |all| ensures Strip(all[i].upper) != Strip(all[j].upper) {
      assert all[j] == rest[j - 1] && all[j] in rest;
      assert i > 0 ==> all[i] == rest[i - 1];
    }
  }

  function CodesOf(rows: seq<Item>): set<string>
  {
    set r | r in rows :: r.code
  }

  /** The row written for one description: the given id, the truncated name, the first free code. */
  ghost predicate RowFor(row: Item, item: Missing, id: int, existing: set<string>)
  {
    && row.id == id && row.name == UpTo(item.upper, 60) && row.category == item.category && row.sku == row.code
    && CodeFor(row.code, item.upper, existing)
  }

  /** The rows written for the chosen descriptions one after the other. */
  ghost predicate Created(rows: seq<Item>, chosen: seq<Missing>, top: int, codes: set<string>)
    decreases |rows|
  {
    if rows == [] then chosen == [] else
      var n := |rows| - 1;
      && |chosen| == |rows|
      && RowFor(rows[n], chosen[n], top + |rows|, codes + CodesOf(rows[..n]))
      && Created(rows[..n], chosen[..n], top, codes)
  }

  lemma {:induction false} CreatedAt(rows: seq<Item>, chosen: seq<Missing>, top: int, codes: set<string>, i: nat)
    requires Created(rows, chosen, top, codes) && i < |rows|
    ensures |rows| == |chosen| && RowFor(rows[i], chosen[i], top + 1 + i, codes + CodesOf(rows[..i]))
    decreases |rows|
  {
    var n := |rows| - 1;
    if i == n {
      return;
    } else {
      CreatedAt(rows[..n], chosen[..n], top, codes, i);
      assert rows[..n][..i] == rows[..i];
    }
  }

  lemma CreatedNext(rows: seq<Item>, chosen: seq<Missing>, top: int, codes: set<string>, row: Item, item: Missing)
    requires Created(rows, chosen, top, codes) && |rows| == |chosen|
    requires RowFor(row, item, top + 1 + |rows|, codes + CodesOf(rows))
    ensures Created(rows + [row], chosen + [item], top, codes)
  {
    var r, c := rows + [row], chosen + [item];
    assert r[..|rows|] == rows && c[..|rows|] == chosen;
    assert r[|rows|] == row && c[|rows|] == item;
  }

  lemma CodesOfNext(rows: seq<Item>, row: Item)
    ensures CodesOf(rows + [row]) == CodesOf(rows) + {row.code}
  {
    assert (rows + [row])[|rows|] == row;
    assert forall r :: r in rows ==> r in rows + [row];
  }

  /** Ids are gapless, and all codes, old and new, stay different. */
  lemma CreatedFresh(rows: seq<Item>, chosen: seq<Missing>, top: int, codes: set<string>, i: nat)
    requires Created(rows, chosen, top, codes) && i < |rows|
    ensures rows[i].id == top + 1 + i && 1 <= |rows[i].code| <= 16 && rows[i].code !in codes
    ensures forall j :: 0 <= j < i ==> rows[j].code != rows[i].code
  {
    CreatedAt(rows, chosen, top, codes, i);
    forall j | 0 <= j < i ensures rows[j].code in CodesOf(rows[..i]) {
      assert rows[..i][j] == rows[j];
      assert rows[j] in rows[..i];
    }
    CodeNotTaken(rows[i].code, chosen[i].upper, codes + CodesOf(rows[..i]));
  }

  lemma CodeNotTaken(code: string, upper: string, existing: set<string>)
    requires CodeFor(code, upper, existing)
    ensures code !in existing && code != ""
  {
    var k :| FirstFree(Base(upper), existing, k) && code == Candidate(Base(upper), k);
  }

  /** Names of at most sixty characters are new and stay different. */
  lemma CreatedNames(rows: seq<Item>, found: seq<Missing>, top: int, codes: set<string>, names: set<string>, i: nat)
    requires Created(rows, Chosen(names, found), top, codes) && i < |rows|
    requires forall m :: m in found ==> |m.upper| <= 60
    ensures Strip(rows[i].name) !in names
    ensures forall j :: 0 <= j < i ==> rows[j].name != rows[i].name
  {
    var c := Chosen(names, found);
    ChosenDistinct(names, found);
    ChosenFrom(names, found);
    CreatedAt(rows, c, top, codes, i);
    assert c[i] in c;
    forall j | 0 <= j < i ensures rows[j].name != rows[i].name {
      CreatedAt(rows, c, top, codes, j);
      assert c[j] in c;
    }
  }

  lemma {:induction false} ChosenFrom(names: set<string>, found: seq<Missing>)
    ensures forall m :: m in Chosen(names, found) ==> m in found
    decreases |found|
  {
    if found != [] {
      ChosenFrom(if Strip(found[0].upper) in names then names else names + {Strip(found[0].upper)}, found[1..]);
    }
  }

  /** Two descriptions that differ in their 61st character are cut to the same name. */
  lemma LongNamesClash(top: int, codes: set<string>, rows: seq<Item>)
    requires Created(rows, Chosen({}, [Missing(Long('B'), Some(1)), Missing(Long('C'), Some(1))]), top, codes)
    ensures |rows| == 2 && rows[0].name == rows[1].name
  {
    var b, c := Missing(Long('B'), Some(1)), Missing(Long('C'), Some(1));
    TwoChosen(b, c);
    CreatedLength(rows, [b, c], top, codes);
    CreatedAt(rows, [b, c], top, codes, 0);
    CreatedAt(rows, [b, c], top, codes, 1);
    assert Long('B')[..60] == Long('C')[..60];
  }

  lemma CreatedLength(rows: seq<Item>, chosen: seq<Missing>, top: int, codes: set<string>)
    requires Created(rows, chosen, top, codes)
    ensures |rows| == |chosen|
  {
  }

  lemma TwoChosen(b: Missing, c: Missing)
    requires b.upper == Long('B') && c.upper == Long('C')
    ensures Chosen({}, [b, c]) == [b, c]
  {
    StripFixed(b.upper);
    StripFixed(c.upper);
    assert b.upper[60] != c.upper[60];
    assert [b, c][1..] == [c] && [c][1..] == [];
    var seen := {} + {b.upper};
    assert Chosen(seen + {c.upper}, []) == [];
    assert Chosen(seen, [c]) == [c];
    assert Chosen({}, [b, c]) == [b] + Chosen(seen, [c]);
  }

  /** A description of 61 characters. */
  function Long(last: char): string
  {
    seq(60, _ => 'A') + [last]
  }

  lemma ChosenStep(seen: set<string>, found: seq<Missing>, i: nat)
    requires i < |found|
    ensures var name, rest := Strip(found[i].upper), found[i + 1..];
            Chosen(seen, found[i..]) ==
              if name in seen then Chosen(seen, rest) else [found[i]] + Chosen(seen + {name}, rest)
  {
    assert found[i..][0] == found[i] && found[i..][1..] == found[i + 1..];
  }

  /** Collects the absent descriptions. */
  method ChooseMissing(names: set<string>, found: seq<Missing>) returns (chosen: seq<Missing>)
    ensures chosen == Chosen(names, found) && |chosen| <= |found|
  {
    chosen := [];
    var seen := names;
    for i := 0 to |found|
      invariant |chosen| <= i
      invariant ChoosingOn(names, found, chosen, seen, i)
    {
      var name := Strip(found[i].upper);
      ChoosingNext(names, found, chosen, seen, i);
      if name !in seen {
        chosen := chosen + [found[i]];
        seen := seen + {name};
      }
    }
  }

  /** What is chosen so far, followed by what is still to be chosen, is the whole choice. */
  predicate ChoosingOn(names: set<string>, found: seq<Missing>, chosen: seq<Missing>, seen: set<string>, i: nat)
    requires i <= |found|
  {
    chosen + Chosen(seen, found[i..]) == Chosen(names, found)
  }

  lemma ChoosingNext(names: set<string>, found: seq<Missing>, chosen: seq<Missing>, seen: set<string>, i: nat)
    requires i < |found| && ChoosingOn(names, found, chosen, seen, i)
    ensures var name := Strip(found[i].upper);
            if name in seen then ChoosingOn(names, found, chosen, seen, i + 1)
            else ChoosingOn(names, found, chosen + [found[i]], seen + {name}, i + 1)
  {
    var name := Strip(found[i].upper);
    var rest := Chosen(seen + {name}, found[i + 1..]);
    ChosenStep(seen, found, i);
    assert chosen + ([found[i]] + rest) == chosen + [found[i]] + rest;
  }

  /** The state of the creation loop, as long as codes cannot run out of characters. */
  ghost predicate Creating(
    rows: seq<Item>, done: seq<Missing>, top: int, codes: set<string>, existing: set<string>, total: nat)
  {
    |codes| + total < ROOM && |rows| <= total ==>
      Created(rows, done, top, codes) && |rows| == |done| && existing == codes + CodesOf(rows)
        && |existing| <= |codes| + |rows|
  }

  lemma CreatingNext(
    rows: seq<Item>, done: seq<Missing>, top: int, codes: set<string>, existing: set<string>, total: nat,
    row: Item, item: Missing, taken: set<string>)
    requires Creating(rows, done, top, codes, existing, total)
    requires row.id == top + 1 + |rows| && row.name == UpTo(item.upper, 60) && row.category == item.category
    requires row.sku == row.code
    requires |existing| < ROOM ==> taken == existing + {row.code} && CodeFor(row.code, item.upper, existing)
    ensures Creating(rows + [row], done + [item], top, codes, taken, total)
  {
    if |codes| + total < ROOM && |rows| < total {
      CreatedNext(rows, done, top, codes, row, item);
      CodesOfNext(rows, row);
    }
  }

  /** One round of the creation loop. */
  method CreateOne(
    rows: seq<Item>, ghost done: seq<Missing>, ghost top: int, ghost codes: set<string>, existing: set<string>,
    ghost total: nat, item: Missing, next: int)
    returns (more: seq<Item>, taken: set<string>)
    requires Creating(rows, done, top, codes, existing, total) && next == top + 1 + |rows|
    ensures |more| == |rows| + 1 && Creating(more, done + [item], top, codes, taken, total)
  {
    var code;
    code, taken := GenerateItemCode(item.upper, existing);
    var row := Item(next, code, UpTo(item.upper, 60), code, item.category);
    CreatingNext(rows, done, top, codes, existing, total, row, item, taken);
    more := rows + [row];
  }

  method CreateRows(top: int, codes: set<string>, chosen: seq<Missing>) returns (rows: seq<Item>)
    ensures |rows| == |chosen|
    ensures |codes| + |chosen| < ROOM ==> Created(rows, chosen, top, codes)
  {
    var next := top + 1;
    var existing := codes;
    rows := [];
    for i := 0 to |chosen|
      invariant |rows| == i && next == top + 1 + i
      invariant Creating(rows, chosen[..i], top, codes, existing, |chosen|)
    {
      assert chosen[..i + 1] == chosen[..i] + [chosen[i]];
      rows, existing := CreateOne(rows, chosen[..i], top, codes, existing, |chosen|, chosen[i], next);
      next := next + 1;
    }
    assert chosen[..|chosen|] == chosen;
  }

  // ----- The item table -----

  function TrimSpaces(s: string): string
  {
    if s != "" && s[0] == ' ' then TrimSpaces(s[1..])
    else if s != "" && s[|s| - 1] == ' ' then TrimSpaces(s[..|s| - 1])
    else s
  }

  predicate OnlySpaces(s: string)
  {
    forall c :: c in s ==> c == ' '
  }

  /** Trimming takes off spaces at both ends, and leaves none there. */
  lemma {:induction false} TrimSpacesTrims(s: string) returns (before: string, behind: string)
    ensures s == before + (TrimSpaces(s) + behind) && OnlySpaces(before) && OnlySpaces(behind)
    ensures var t := TrimSpaces(s); t != "" ==> t[0] != ' ' && t[|t| - 1] != ' '
  {
    if s != "" && s[0] == ' ' {
      var b, e := TrimSpacesTrims(s[1..]);
      before, behind := [s[0]] + b, e;
    } else if s != "" && s[|s| - 1] == ' ' {
      var b, e := TrimSpacesTrims(s[..|s| - 1]);
      before, behind := b, e + [s[|s| - 1]];
    } else {
      before, behind := "", "";
    }
  }

  /** The largest id, zero for an empty table. */
  function Top(items: seq<Item>): (top: int)
    ensures forall x :: x in items ==> x.id <= top
    ensures items != [] ==> exists x :: x in items && x.id == top
    ensures items == [] ==> top == 0
  {
    if items == [] then 0
    else if |items| == 1 then items[0].id
    else
      var rest := Top(items[1..]);
      if items[0].id > rest then items[0].id else rest
  }

  function CodesIn(items: seq<Item>): set<string>
  {
    set x | x in items :: x.code
  }

  function SkusIn(items: seq<Item>): set<string>
  {
    set x | x in items :: x.sku
  }

  /** The names as the import compares them, and as the unique constraint does. */
  function NamesIn(items: seq<Item>): set<string>
  {
    set x | x in items :: TrimSpaces(Upper(x.name))
  }

  function RawNamesIn(items: seq<Item>): set<string>
  {
    set x | x in items :: x.name
  }

  /** The constraints that one inserted row has to meet: four unique columns and a category that exists. */
  predicate Fits(items: seq<Item>, row: Item)
  {
    forall x :: x in items ==> x.id != row.id && x.code != row.code && x.name != row.name && x.sku != row.sku
  }

  predicate HasCategory(categories: set<int>, category: Option<int>)
  {
    category.Some? && category.value in categories
  }

  /** All rows can be inserted, one after the other. */
  predicate Insertable(items: seq<Item>, categories: set<int>, rows: seq<Item>)
  {
    forall i :: 0 <= i < |rows| ==> InsertsAt(items, categories, rows, i)
  }

  predicate InsertsAt(items: seq<Item>, categories: set<int>, rows: seq<Item>, i: nat)
    requires i < |rows|
  {
    HasCategory(categories, rows[i].category) && Fits(items + rows[..i], rows[i])
  }

  // ----- When an import commits -----

  lemma {:induction false} LeastFree(base: string, existing: set<string>, n: nat)
    requires Candidate(base, n) !in existing
    ensures exists k :: 0 <= k <= n && FirstFree(base, existing, k)
  {
    if j :| 0 <= j < n && Candidate(base, j) !in existing {
      LeastFree(base, existing, j);
    } else {
      assert FirstFree(base, existing, n);
    }
  }

  /** The first free code of a description. */
  ghost function FirstCode(upper: string, existing: set<string>): string
  {
    assert exists k :: FirstFree(Base(upper), existing, k) by {
      SearchEnds(Base(upper), existing);
      var n: nat :| Candidate(Base(upper), n) !in existing;
      LeastFree(Base(upper), existing, n);
    }
    var k :| FirstFree(Base(upper), existing, k);
    Candidate(Base(upper), k)
  }

  lemma FirstCodeOnly(code: string, upper: string, existing: set<string>)
    requires CodeFor(code, upper, existing)
    ensures code == FirstCode(upper, existing)
  {
    var k :| FirstFree(Base(upper), existing, k) && code == Candidate(Base(upper), k);
    forall j | FirstFree(Base(upper), existing, j) ensures j == k {
      assert j < k ==> Candidate(Base(upper), j) in existing;
    }
  }

  /** The codes that the descriptions get, in turn. */
  ghost function AssignedCodes(chosen: seq<Missing>, codes: set<string>): (given: seq<string>)
    ensures |given| == |chosen|
  {
    if chosen == [] then [] else
      var n := |chosen| - 1;
      var before := AssignedCodes(chosen[..n], codes);
      before + [FirstCode(chosen[n].upper, codes + set c | c in before)]
  }

  lemma AssignedNext(chosen: seq<Missing>, n: nat, codes: set<string>)
    requires n < |chosen|
    ensures var before := AssignedCodes(chosen[..n], codes);
            AssignedCodes(chosen[..n + 1], codes) ==
              before + [FirstCode(chosen[n].upper, codes + set c | c in before)]
  {
    assert chosen[..n + 1][..n] == chosen[..n];
  }

  /** The rows begin with the given codes. */
  predicate CodesMatch(rows: seq<Item>, codes: seq<string>)
  {
    |codes| <= |rows| && forall i :: 0 <= i < |codes| ==> rows[i].code == codes[i]
  }

  lemma SameCodes(rows: seq<Item>, codes: seq<string>)
    requires CodesMatch(rows, codes)
    ensures CodesOf(rows[..|codes|]) == set c | c in codes
  {
    var first := rows[..|codes|];
    forall c | c in codes ensures c in CodesOf(first) {
      var i :| 0 <= i < |codes| && codes[i] == c;
      assert first[i] in first;
    }
  }

  ghost predicate FirstCodeAt(rows: seq<Item>, chosen: seq<Missing>, codes: set<string>, i: nat)
    requires i < |rows| == |chosen|
  {
    rows[i].code == FirstCode(chosen[i].upper, codes + CodesOf(rows[..i]))
  }

  lemma CreatedFirstCode(rows: seq<Item>, chosen: seq<Missing>, top: int, codes: set<string>, i: nat)
    requires Created(rows, chosen, top, codes) && i < |rows| == |chosen|
    ensures FirstCodeAt(rows, chosen, codes, i)
  {
    CreatedAt(rows, chosen, top, codes, i);
    FirstCodeOnly(rows[i].code, chosen[i].upper, codes + CodesOf(rows[..i]));
  }

  lemma MatchNext(rows: seq<Item>, chosen: seq<Missing>, codes: set<string>, n: nat)
    requires n < |rows| == |chosen| && FirstCodeAt(rows, chosen, codes, n)
    requires CodesMatch(rows, AssignedCodes(chosen[..n], codes))
    ensures CodesMatch(rows, AssignedCodes(chosen[..n + 1], codes))
  {
    var before := AssignedCodes(chosen[..n], codes);
    SameCodes(rows, before);
    AssignedNext(chosen, n, codes);
    MatchOneMore(rows, before);
  }

  lemma MatchOneMore(rows: seq<Item>, codes: seq<string>)
    requires CodesMatch(rows, codes) && |codes| < |rows|
    ensures CodesMatch(rows, codes + [rows[|codes|].code])
  {
  }

  lemma {:induction false} MatchAll(rows: seq<Item>, chosen: seq<Missing>, codes: set<string>, n: nat)
    requires n <= |rows| == |chosen| && forall i :: 0 <= i < |rows| ==> FirstCodeAt(rows, chosen, codes, i)
    ensures CodesMatch(rows, AssignedCodes(chosen[..n], codes))
  {
    if n > 0 {
      MatchAll(rows, chosen, codes, n - 1);
      MatchNext(rows, chosen, codes, n - 1);
    }
  }

  lemma CodesAssigned(rows: seq<Item>, chosen: seq<Missing>, top: int, codes: set<string>)
    requires Created(rows, chosen, top, codes)
    ensures |rows| == |chosen| && CodesMatch(rows, AssignedCodes(chosen, codes))
  {
    CreatedLength(rows, chosen, top, codes);
    forall i | 0 <= i < |rows| ensures FirstCodeAt(rows, chosen, codes, i) {
      CreatedFirstCode(rows, chosen, top, codes, i);
    }
    MatchAll(rows, chosen, codes, |rows|);
    assert chosen[..|rows|] == chosen;
  }

  /** The description's first sixty characters are no name in the table and not those of an earlier one. */
  predicate FreshCut(items: seq<Item>, chosen: seq<Missing>, i: nat)
    requires i < |chosen|
  {
    && UpTo(chosen[i].upper, 60) !in RawNamesIn(items)
    && forall j :: 0 <= j < i ==> UpTo(chosen[j].upper, 60) != UpTo(chosen[i].upper, 60)
  }

  /** What the chosen descriptions have to satisfy for an import to go through. */
  ghost predicate CanImport(items: seq<Item>, categories: set<int>, chosen: seq<Missing>)
  {
    forall i :: 0 <= i < |chosen| ==> ImportsAt(items, categories, chosen, i)
  }

  ghost predicate ImportsAt(items: seq<Item>, categories: set<int>, chosen: seq<Missing>, i: nat)
    requires i < |chosen|
  {
    && FreshCut(items, chosen, i)
    && HasCategory(categories, chosen[i].category)
    && AssignedCodes(chosen, CodesIn(items))[i] !in SkusIn(items)
  }

  lemma RowFits(items: seq<Item>, rows: seq<Item>, chosen: seq<Missing>, i: nat)
    requires Created(rows, chosen, Top(items), CodesIn(items)) && i < |rows| == |chosen|
    ensures Fits(items + rows[..i], rows[i]) <==> FreshCut(items, chosen, i) && rows[i].code !in SkusIn(items)
  {
    var codes := CodesIn(items);
    forall j | 0 <= j <= i
      ensures rows[j].id == Top(items) + 1 + j && rows[j].code !in codes && rows[j].sku == rows[j].code
      ensures rows[j].name == UpTo(chosen[j].upper, 60)
    {
      CreatedFresh(rows, chosen, Top(items), codes, j);
      CreatedAt(rows, chosen, Top(items), codes, j);
    }
    CreatedFresh(rows, chosen, Top(items), codes, i);
    var all := items + rows[..i];
    forall x ensures x in all <==> x in items || exists j :: 0 <= j < i && rows[j] == x {
      assert x in rows[..i] <==> exists j :: 0 <= j < i && rows[j] == x;
    }
    forall x | x in items ensures x.id != rows[i].id && x.code != rows[i].code {
      assert x.code in codes;
    }
    FitsByColumns(items, rows, i);
  }

  /** With ids and codes known to be new, names and SKU codes decide. */
  lemma FitsByColumns(items: seq<Item>, rows: seq<Item>, i: nat)
    requires i < |rows|
    requires forall x :: x in items ==> x.id != rows[i].id && x.code != rows[i].code
    requires forall j :: 0 <= j < i ==> rows[j].id != rows[i].id && rows[j].code != rows[i].code
    requires forall j :: 0 <= j <= i ==> rows[j].sku == rows[j].code
    ensures Fits(items + rows[..i], rows[i]) <==>
              && rows[i].name !in RawNamesIn(items) && rows[i].code !in SkusIn(items)
              && forall j :: 0 <= j < i ==> rows[j].name != rows[i].name
  {
    var all := items + rows[..i];
    forall x ensures x in all <==> x in items || x in rows[..i] {
    }
    forall j | 0 <= j < i ensures rows[j] in rows[..i] {
      assert rows[..i][j] == rows[j];
    }
  }

  /**
    An import commits exactly if the cut descriptions are pairwise different and no names yet, every one
    has a category that exists, and no assigned code is the SKU code of another item.
   */
  lemma ImportCommitsIff(items: seq<Item>, categories: set<int>, rows: seq<Item>, chosen: seq<Missing>)
    requires Created(rows, chosen, Top(items), CodesIn(items))
    ensures Insertable(items, categories, rows) <==> CanImport(items, categories, chosen)
  {
    CodesAssigned(rows, chosen, Top(items), CodesIn(items));
    forall i | 0 <= i < |rows| ensures InsertsAt(items, categories, rows, i) <==>
        ImportsAt(items, categories, chosen, i) {
      RowFits(items, rows, chosen, i);
      CreatedAt(rows, chosen, Top(items), CodesIn(items), i);
    }
  }

  /** The query for missing items finds only descriptions that are no names, up to case and spaces. */
  predicate Unmatched(items: seq<Item>, found: seq<Missing>)
  {
    forall m :: m in found ==> TrimSpaces(Upper(m.upper)) !in NamesIn(items)
  }

  lemma KnownName(items: seq<Item>, x: Item)
    requires x in items
    ensures TrimSpaces(Upper(x.name)) in NamesIn(items)
  {
  }

  /** Descriptions of at most sixty characters never stop an import by their names. */
  lemma ShortNamesFresh(items: seq<Item>, found: seq<Missing>, i: nat)
    requires Unmatched(items, found) && forall m :: m in found ==> |m.upper| <= 60
    requires i < |Chosen(NamesIn(items), found)|
    ensures FreshCut(items, Chosen(NamesIn(items), found), i)
  {
    var chosen := Chosen(NamesIn(items), found);
    ChosenFrom(NamesIn(items), found);
    ChosenDistinct(NamesIn(items), found);
    assert forall j :: 0 <= j < |chosen| ==> chosen[j] in found;
    forall x | x in items ensures x.name != chosen[i].upper {
      KnownName(items, x);
    }
  }

  /** A long description whose import has committed blocks every later import that finds it again. */
  lemma LongNameBlocks(items: seq<Item>, categories: set<int>, found: seq<Missing>, rows: seq<Item>, m: Missing,
                       later: seq<Missing>)
    requires Created(rows, Chosen(NamesIn(items), found), Top(items), CodesIn(items))
    requires m in Chosen(NamesIn(items), found) && m in later
    ensures !CanImport(items + rows, categories, later)
  {
    var chosen := Chosen(NamesIn(items), found);
    var i :| 0 <= i < |chosen| && chosen[i] == m;
    CreatedLength(rows, chosen, Top(items), CodesIn(items));
    CreatedAt(rows, chosen, Top(items), CodesIn(items), i);
    assert rows[i] in items + rows;
    assert rows[i].name in RawNamesIn(items + rows);
    var j :| 0 <= j < |later| && later[j] == m;
    assert !ImportsAt(items + rows, categories, later, j);
  }

  /** And it is found again, because its name was cut. */
  lemma LongNameChosenAgain(items: seq<Item>, found: seq<Missing>, rows: seq<Item>, m: Missing)
    requires Created(rows, Chosen(NamesIn(items), found), Top(items), CodesIn(items))
    requires m in Chosen(NamesIn(items), found) && |Strip(m.upper)| > 60
    ensures Chosen(NamesIn(items + rows), [m]) == [m]
  {
    var chosen := Chosen(NamesIn(items), found);
    ChosenDistinct(NamesIn(items), found);
    CreatedLength(rows, chosen, Top(items), CodesIn(items));
    assert [m][1..] == [];
    forall x | x in items + rows ensures TrimSpaces(Upper(x.name)) != Strip(m.upper) {
      if x in items {
        assert TrimSpaces(Upper(x.name)) in NamesIn(items);
      } else {
        var i :| 0 <= i < |rows| && rows[i] == x;
        CreatedAt(rows, chosen, Top(items), CodesIn(items), i);
        TrimShortens(Upper(x.name));
      }
    }
  }

  lemma {:induction false} TrimShortens(s: string)
    ensures |TrimSpaces(s)| <= |s|
  {
    if s != "" && s[0] == ' ' {
      TrimShortens(s[1..]);
    } else if s != "" && s[|s| - 1] == ' ' {
      TrimShortens(s[..|s| - 1]);
    }
  }

  /** Two descriptions that differ only behind their sixtieth character stop the import into an empty table. */
  lemma LongNamesRefused(categories: set<int>, rows: seq<Item>)
    requires Created(rows, Chosen({}, [Missing(Long('B'), Some(1)), Missing(Long('C'), Some(1))]), 0, {})
    ensures |rows| == 2 && !Insertable([], categories, rows)
  {
    LongNamesClash(0, {}, rows);
    assert rows[0] in [] + rows[..1];
    assert !InsertsAt([], categories, rows, 1);
  }

  class ItemTable {
    var items: seq<Item>
    const categories: set<int>

    constructor (items: seq<Item>, categories: set<int>)
      ensures this.items == items && this.categories == categories
    {
      this.items := items;
      this.categories := categories;
    }

    /** Inserts the rows in one transaction: the first one refused undoes all. */
    method InsertAll(rows: seq<Item>) returns (committed: bool)
      modifies this
      ensures committed <==> Insertable(old(items), categories, rows)
      ensures items == if committed then old(items) + rows else old(items)
    {
      var pending := items;
      for i := 0 to |rows|
        invariant pending == items + rows[..i]
        invariant forall j :: 0 <= j < i ==> InsertsAt(items, categories, rows, j)
        invariant items == old(items)
      {
        if !HasCategory(categories, rows[i].category) || !Fits(pending, rows[i]) {
          assert !InsertsAt(items, categories, rows, i);
          return false;
        }
        pending := pending + [rows[i]];
        assert rows[..i + 1] == rows[..i] + [rows[i]];
      }
      assert rows[..|rows|] == rows;
      items := pending;
      return true;
    }

    /**
      Creates a row for every absent description, or no row at all. A dry run writes nothing.
     */
    method CreateMissingItems(found: seq<Missing>, dryRun: bool) returns (created: seq<Item>, committed: bool)
      modifies this
      ensures items == old(items) + created
      ensures !committed ==> created == []
      ensures committed ==> !dryRun && |created| == |NamesOf(found) - NamesIn(old(items))|
      ensures |CodesIn(old(items))| + |found| < ROOM ==>
                var chosen := Chosen(NamesIn(old(items)), found);
                && (committed <==> !dryRun && CanImport(old(items), categories, chosen))
                && (committed ==> Created(created, chosen, Top(old(items)), CodesIn(old(items))))
    {
      var chosen := ChooseMissing(NamesIn(items), found);
      ChosenIsExact(NamesIn(items), found);
      if dryRun {
        return [], false;
      }
      created := CreateRows(Top(items), CodesIn(items), chosen);
      if |CodesIn(items)| + |found| < ROOM {
        ImportCommitsIff(items, categories, created, chosen);
      }
      committed := InsertAll(created);
      if !committed {
        created := [];
      }
    }
  }
}
