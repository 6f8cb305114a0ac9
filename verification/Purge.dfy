/**
  The dump purger: a scan over the lines of a database dump that drops the data lines of COPY blocks
  of tables that are not on the preservation list. The scan itself is studied for any way of telling
  headers and terminators from other lines.
 */
module Purge {
  import opened Common
  import opened Text
  import opened CopyHeaders
  import G = CopyGrammar

  datatype Format = Format(
    header: string -> Option<string>,
    terminates: string -> bool,
    preserves: string -> bool,
    normalize: string -> string)

  const DUMP := Format(Header, IsTerminator, ShouldPreserve, NormalizeTableName)

  // ----- The scan -----

  datatype Mode = Outside | Keeping | Dropping

  function After(f: Format, m: Mode, line: string): Mode
  {
    if m != Outside then (if f.terminates(line) then Outside else m)
    else if f.header(line).None? then Outside
    else if f.preserves(f.header(line).value) then Keeping
    else Dropping
  }

  function Kept(f: Format, m: Mode, line: string): seq<string>
  {
    if m == Dropping && !f.terminates(line) then [] else [line]
  }

  function Scan(f: Format, m: Mode, lines: seq<string>): seq<string>
    decreases |lines|
  {
    if lines == [] then [] else Kept(f, m, lines[0]) + Scan(f, After(f, m, lines[0]), lines[1..])
  }

  function EndMode(f: Format, m: Mode, lines: seq<string>): Mode
    decreases |lines|
  {
    if lines == [] then m else EndMode(f, After(f, m, lines[0]), lines[1..])
  }

  /** The block headers of a dump in order, each with its table and whether its data is kept. */
  function Headers(f: Format, m: Mode, lines: seq<string>): seq<(string, bool)>
    decreases |lines|
  {
    if lines == [] then []
    else
      (if m == Outside && f.header(lines[0]).Some?
       then [(f.normalize(f.header(lines[0]).value), f.preserves(f.header(lines[0]).value))] else [])
      + Headers(f, After(f, m, lines[0]), lines[1..])
  }

  function Tables(headers: seq<(string, bool)>, kept: bool): set<string>
  {
    set h | h in headers && h.1 == kept :: h.0
  }

  lemma {:induction false} ScanConcat(f: Format, m: Mode, a: seq<string>, b: seq<string>)
    ensures Scan(f, m, a + b) == Scan(f, m, a) + Scan(f, EndMode(f, m, a), b)
    decreases |a|
  {
    if a == [] {
      assert a + b == b;
    } else {
      ScanConcat(f, After(f, m, a[0]), a[1..], b);
      assert (a + b)[0] == a[0] && (a + b)[1..] == a[1..] + b;
    }
  }

  lemma {:induction false} HeadersConcat(f: Format, m: Mode, a: seq<string>, b: seq<string>)
    ensures Headers(f, m, a + b) == Headers(f, m, a) + Headers(f, EndMode(f, m, a), b)
    decreases |a|
  {
    if a == [] {
      assert a + b == b;
    } else {
      HeadersConcat(f, After(f, m, a[0]), a[1..], b);
      assert (a + b)[0] == a[0] && (a + b)[1..] == a[1..] + b;
    }
  }

  lemma {:induction false} EndModeConcat(f: Format, m: Mode, a: seq<string>, b: seq<string>)
    ensures EndMode(f, m, a + b) == EndMode(f, EndMode(f, m, a), b)
    decreases |a|
  {
    if a == [] {
      assert a + b == b;
    } else {
      EndModeConcat(f, After(f, m, a[0]), a[1..], b);
      assert (a + b)[0] == a[0] && (a + b)[1..] == a[1..] + b;
    }
  }

  lemma ScanOne(f: Format, m: Mode, a: seq<string>, line: string)
    ensures Scan(f, m, a + [line]) == Scan(f, m, a) + Kept(f, EndMode(f, m, a), line)
    ensures Headers(f, m, a + [line]) == Headers(f, m, a) + Headers(f, EndMode(f, m, a), [line])
    ensures EndMode(f, m, a + [line]) == After(f, EndMode(f, m, a), line)
  {
    ScanConcat(f, m, a, [line]);
    HeadersConcat(f, m, a, [line]);
    EndModeConcat(f, m, a, [line]);
    assert [line][1..] == [];
  }

  lemma ScanPrefix(f: Format, lines: seq<string>, i: nat)
    requires i < |lines|
    ensures var m := EndMode(f, Outside, lines[..i]);
            && EndMode(f, Outside, lines[..i + 1]) == After(f, m, lines[i])
            && Scan(f, Outside, lines[..i + 1]) == Scan(f, Outside, lines[..i]) + Kept(f, m, lines[i])
            && Headers(f, Outside, lines[..i + 1]) == Headers(f, Outside, lines[..i]) + Headers(f, m, [lines[i]])
  {
    ScanOne(f, Outside, lines[..i], lines[i]);
    assert lines[..i + 1] == lines[..i] + [lines[i]];
  }

  /** Purging a purged dump changes nothing. */
  lemma {:induction false} ScanIdempotent(f: Format, m: Mode, lines: seq<string>)
    ensures Scan(f, m, Scan(f, m, lines)) == Scan(f, m, lines)
    decreases |lines|
  {
    if lines != [] {
      ScanIdempotent(f, After(f, m, lines[0]), lines[1..]);
      var rest := Scan(f, After(f, m, lines[0]), lines[1..]);
      if Kept(f, m, lines[0]) != [] {
        assert ([lines[0]] + rest)[1..] == rest;
      } else {
        assert Scan(f, m, lines) == rest;
      }
    }
  }

  /** Its output has the same block headers, in the same order and with the same classification. */
  lemma {:induction false} HeadersSurvive(f: Format, m: Mode, lines: seq<string>)
    ensures Headers(f, m, Scan(f, m, lines)) == Headers(f, m, lines)
    ensures EndMode(f, m, Scan(f, m, lines)) == EndMode(f, m, lines)
    decreases |lines|
  {
    if lines != [] {
      HeadersSurvive(f, After(f, m, lines[0]), lines[1..]);
      var rest := Scan(f, After(f, m, lines[0]), lines[1..]);
      if Kept(f, m, lines[0]) != [] {
        assert ([lines[0]] + rest)[1..] == rest;
      } else {
        assert Scan(f, m, lines) == rest;
      }
    }
  }

  // ----- What is dropped, without the scan -----

  /** No terminator stands strictly between lines `g` and `i`. */
  ghost predicate Open(f: Format, lines: seq<string>, g: nat, i: nat)
    requires i <= |lines|
  {
    forall k :: g < k < i ==> !f.terminates(lines[k])
  }

  /** A line starts a block if it is a header and does not itself lie within a block. */
  ghost predicate StartsBlock(f: Format, lines: seq<string>, i: nat)
    requires i < |lines|
    decreases i
  {
    f.header(lines[i]).Some? && forall g :: 0 <= g < i ==> !(StartsBlock(f, lines, g) && Open(f, lines, g, i))
  }

  /** Line `i` belongs to the block that line `g` starts (its terminator included). */
  ghost predicate InBlock(f: Format, lines: seq<string>, g: nat, i: nat)
    requires g < i <= |lines|
  {
    StartsBlock(f, lines, g) && Open(f, lines, g, i)
  }

  predicate KeepsData(f: Format, header: string)
  {
    f.header(header).Some? && f.preserves(f.header(header).value)
  }

  /** A data line of a block whose table is not preserved. */
  ghost predicate PurgedData(f: Format, lines: seq<string>, i: nat)
    requires i < |lines|
  {
    !f.terminates(lines[i]) &&
    exists g :: 0 <= g < i && InBlock(f, lines, g, i) && !KeepsData(f, lines[g])
  }

  /** The mode the scan is in before line `i` says which block, if any, the line belongs to. */
  ghost predicate ModeMeans(f: Format, lines: seq<string>, i: nat, m: Mode)
    requires i <= |lines|
  {
    if m == Outside then forall g :: 0 <= g < i ==> !InBlock(f, lines, g, i)
    else exists g :: 0 <= g < i && InBlock(f, lines, g, i) && KeepsData(f, lines[g]) == (m == Keeping)
  }

  /** A line within a block starts none. */
  lemma InsideStartsNothing(f: Format, lines: seq<string>, g: nat, h: nat, i: nat)
    requires g < h < i <= |lines| && InBlock(f, lines, g, i)
    ensures !StartsBlock(f, lines, h)
  {
    assert Open(f, lines, g, h);
  }

  /** A line lies in at most one block. */
  lemma OneBlock(f: Format, lines: seq<string>, g: nat, h: nat, i: nat)
    requires g < i <= |lines| && h < i
    requires InBlock(f, lines, g, i) && InBlock(f, lines, h, i)
    ensures g == h
  {
    if g < h {
      InsideStartsNothing(f, lines, g, h, i);
    } else if h < g {
      InsideStartsNothing(f, lines, h, g, i);
    }
  }

  lemma ModeMeansNext(f: Format, lines: seq<string>, i: nat, m: Mode)
    requires i < |lines| && ModeMeans(f, lines, i, m)
    ensures ModeMeans(f, lines, i + 1, After(f, m, lines[i]))
  {
    forall g | 0 <= g < i
      ensures InBlock(f, lines, g, i + 1) <==> InBlock(f, lines, g, i) && !f.terminates(lines[i])
    {
      OpenNext(f, lines, g, i);
    }
    assert InBlock(f, lines, i, i + 1) <==> StartsBlock(f, lines, i);
    if m == Outside {
      StartsOutside(f, lines, i);
      if f.header(lines[i]).Some? {
        var next := After(f, m, lines[i]);
        assert next != Outside && KeepsData(f, lines[i]) == (next == Keeping);
        assert InBlock(f, lines, i, i + 1);
        assert ModeMeans(f, lines, i + 1, next);
      } else {
        var j := i + 1;
        forall g | 0 <= g < j ensures !InBlock(f, lines, g, j) {
          assert g < i ==> !InBlock(f, lines, g, i);
        }
      }
    } else {
      var g :| 0 <= g < i && InBlock(f, lines, g, i) && KeepsData(f, lines[g]) == (m == Keeping);
      if f.terminates(lines[i]) {
        assert !StartsBlock(f, lines, i);
      } else {
        assert InBlock(f, lines, g, i + 1);
      }
    }
  }

  lemma StartsOutside(f: Format, lines: seq<string>, i: nat)
    requires i < |lines| && forall g :: 0 <= g < i ==> !InBlock(f, lines, g, i)
    ensures StartsBlock(f, lines, i) <==> f.header(lines[i]).Some?
  {
    forall g | 0 <= g < i ensures !(StartsBlock(f, lines, g) && Open(f, lines, g, i)) {
      assert !InBlock(f, lines, g, i);
    }
  }

  lemma OpenNext(f: Format, lines: seq<string>, g: nat, i: nat)
    requires g < i < |lines|
    ensures Open(f, lines, g, i + 1) <==> Open(f, lines, g, i) && !f.terminates(lines[i])
  {
  }

  lemma {:induction false} ModeIsMeaning(f: Format, lines: seq<string>, i: nat)
    requires i <= |lines|
    ensures ModeMeans(f, lines, i, EndMode(f, Outside, lines[..i]))
  {
    if i > 0 {
      var before := EndMode(f, Outside, lines[..i - 1]);
      ModeIsMeaning(f, lines, i - 1);
      ModeMeansNext(f, lines, i - 1, before);
      assert EndMode(f, Outside, lines[..i]) == After(f, before, lines[i - 1]) by {
        ScanPrefix(f, lines, i - 1);
      }
    }
  }

  /** The first `n` lines, without the data lines of purged blocks. */
  ghost function Selected(f: Format, lines: seq<string>, n: nat): seq<string>
    requires n <= |lines|
  {
    if n == 0 then [] else Selected(f, lines, n - 1) + if PurgedData(f, lines, n - 1) then [] else [lines[n - 1]]
  }

  /**
    Purging is exact: the output is the input without precisely the data lines of blocks of tables
    that are not preserved; headers, terminators and everything else stay, in order.
   */
  lemma {:induction false} ScanSelects(f: Format, lines: seq<string>, n: nat)
    requires n <= |lines|
    ensures Scan(f, Outside, lines[..n]) == Selected(f, lines, n)
  {
    if n > 0 {
      ScanSelects(f, lines, n - 1);
      ScanPrefix(f, lines, n - 1);
      ModeIsMeaning(f, lines, n - 1);
      ModeSelects(f, lines, n - 1, EndMode(f, Outside, lines[..n - 1]));
    }
  }

  lemma ModeSelects(f: Format, lines: seq<string>, i: nat, m: Mode)
    requires i < |lines| && ModeMeans(f, lines, i, m)
    ensures Kept(f, m, lines[i]) == if PurgedData(f, lines, i) then [] else [lines[i]]
  {
    if m != Outside {
      var g :| 0 <= g < i && InBlock(f, lines, g, i) && KeepsData(f, lines[g]) == (m == Keeping);
      forall h | 0 <= h < i && InBlock(f, lines, h, i) ensures h == g {
        OneBlock(f, lines, g, h, i);
      }
    }
  }

  /** The tables of the lines that start a block, among the first `n`, each with whether it is preserved. */
  ghost function Starts(f: Format, lines: seq<string>, n: nat): seq<(string, bool)>
    requires n <= |lines|
  {
    if n == 0 then []
    else
      Starts(f, lines, n - 1) +
      if StartsBlock(f, lines, n - 1)
      then [(f.normalize(f.header(lines[n - 1]).value), f.preserves(f.header(lines[n - 1]).value))] else []
  }

  lemma StartsIff(f: Format, lines: seq<string>, i: nat, m: Mode)
    requires i < |lines| && ModeMeans(f, lines, i, m)
    ensures StartsBlock(f, lines, i) <==> m == Outside && f.header(lines[i]).Some?
  {
    if m == Outside {
      StartsOutside(f, lines, i);
    } else {
      var g :| 0 <= g < i && InBlock(f, lines, g, i) && KeepsData(f, lines[g]) == (m == Keeping);
      assert Open(f, lines, g, i);
    }
  }

  /** The block headers found are exactly those lines, in order. */
  lemma {:induction false} HeadersAreStarts(f: Format, lines: seq<string>, n: nat)
    requires n <= |lines|
    ensures Headers(f, Outside, lines[..n]) == Starts(f, lines, n)
  {
    if n > 0 {
      var m := EndMode(f, Outside, lines[..n - 1]);
      HeadersAreStarts(f, lines, n - 1);
      ScanPrefix(f, lines, n - 1);
      ModeIsMeaning(f, lines, n - 1);
      StartsIff(f, lines, n - 1, m);
      assert [lines[n - 1]][1..] == [];
    }
  }

  // ----- Concatenation -----

  /** Split at a point where every block is terminated, a dump can be purged piecewise. */
  lemma PurgePiecewise(f: Format, a: seq<string>, b: seq<string>)
    requires EndMode(f, Outside, a) == Outside
    ensures Scan(f, Outside, a + b) == Scan(f, Outside, a) + Scan(f, Outside, b)
  {
    ScanConcat(f, Outside, a, b);
  }

  /** It is exactly the terminated prefixes for which this works whatever follows. */
  lemma PiecewiseIff(a: seq<string>)
    ensures (forall b :: Scan(DUMP, Outside, a + b) == Scan(DUMP, Outside, a) + Scan(DUMP, Outside, b))
       <==> EndMode(DUMP, Outside, a) == Outside
  {
    if EndMode(DUMP, Outside, a) == Outside {
      forall b ensures Scan(DUMP, Outside, a + b) == Scan(DUMP, Outside, a) + Scan(DUMP, Outside, b) {
        PurgePiecewise(DUMP, a, b);
      }
    } else {
      LogIsPurged();
      UnfinishedDiffers(DUMP, a, Written(LOG, "id"), "1");
    }
  }

  lemma UnfinishedDiffers(f: Format, a: seq<string>, header: string, row: string)
    requires EndMode(f, Outside, a) != Outside
    requires f.header(header).Some? && !f.preserves(f.header(header).value)
    requires !f.terminates(header) && !f.terminates(row)
    ensures Scan(f, Outside, a + [header, row]) != Scan(f, Outside, a) + Scan(f, Outside, [header, row])
  {
    ScanConcat(f, Outside, a, [header, row]);
    assert [header, row][1..] == [row] && [row][1..] == [];
    var m := EndMode(f, Outside, a);
    assert Scan(f, Dropping, [row]) == [] && |Scan(f, Keeping, [row])| == 1;
    assert Scan(f, Outside, [header, row]) == [header] + Scan(f, Dropping, [row]);
    assert Scan(f, m, [header, row]) == Kept(f, m, header) + Scan(f, m, [row]);
  }

  // ----- Blocks of tables on the list -----

  /** A block: its header, its data lines, and the terminator. */
  function Block(header: string, data: seq<string>, end: string): seq<string>
  {
    [header] + (data + [end])
  }

  lemma {:induction false} DataScanned(f: Format, m: Mode, data: seq<string>, end: string)
    requires m != Outside && f.terminates(end) && forall d :: d in data ==> !f.terminates(d)
    ensures Scan(f, m, data + [end]) == (if m == Keeping then data else []) + [end]
    ensures EndMode(f, m, data + [end]) == Outside
    decreases |data|
  {
    if data == [] {
      assert data + [end] == [end] && [end][1..] == [];
    } else {
      var rest := data[1..];
      assert data[0] in data && forall d :: d in rest ==> d in data;
      DataScanned(f, m, rest, end);
      assert (data + [end])[0] == data[0] && (data + [end])[1..] == rest + [end];
      assert [data[0]] + (rest + [end]) == data + [end];
    }
  }

  lemma BlockScanned(f: Format, header: string, data: seq<string>, end: string)
    requires f.header(header).Some? && f.terminates(end) && forall d :: d in data ==> !f.terminates(d)
    ensures Scan(f, Outside, Block(header, data, end)) ==
              Block(header, if f.preserves(f.header(header).value) then data else [], end)
    ensures EndMode(f, Outside, Block(header, data, end)) == Outside
  {
    var m := After(f, Outside, header);
    var block := Block(header, data, end);
    assert block[0] == header && block[1..] == data + [end];
    DataScanned(f, m, data, end);
  }

  /** Anywhere outside of other blocks, a block is scanned by itself. */
  lemma BlockInDump(f: Format, a: seq<string>, block: seq<string>, b: seq<string>)
    requires EndMode(f, Outside, a) == Outside && EndMode(f, Outside, block) == Outside
    ensures Scan(f, Outside, a + (block + b)) == Scan(f, Outside, a) + (Scan(f, Outside, block) + Scan(f, Outside, b))
  {
    PurgePiecewise(f, a, block + b);
    PurgePiecewise(f, block, b);
  }

  /**
    In a dump, a block whose header names a table in any letter case, quoted or not, behind any schema
    prefix the header allows, keeps its data lines exactly if the bare name is on the list.
   */
  lemma ListedTableKept(
    a: seq<string>, p: G.Parts, quote: string, cased: string, name: string, data: seq<string>, end: string,
        b: seq<string>)
    requires EndMode(DUMP, Outside, a) == Outside
    requires G.WellFormed(p) && p.table == Spelled("", quote, cased)
    requires IsQuote(quote) && Bare(name) && Lower(cased) == name
    requires IsTerminator(end) && forall d :: d in data ==> !IsTerminator(d)
    ensures var header := G.Assembled(p);
      Scan(DUMP, Outside, a + (Block(header, data, end) + b)) ==
        Scan(DUMP, Outside, a) + (Block(header, if name in PRESERVED then data else [], end) + Scan(DUMP, Outside, b))
  {
    var header := G.Assembled(p);
    G.HeaderComplete(p);
    PreservedIffListed("", quote, cased, name);
    BlockScanned(DUMP, header, data, end);
    BlockInDump(DUMP, a, Block(header, data, end), b);
  }

  /** The users, whose table has to be quoted, stay. */
  lemma UserRowsKept(data: seq<string>)
    requires forall d :: d in data ==> !IsTerminator(d)
    ensures var block := Block(Written("\"user\"", "user_id, email"), data, "\\.");
      Scan(DUMP, Outside, block) == block
  {
    var header := Written("\"user\"", "user_id, email");
    assert "user" in PRESERVED;
    ListedNamesAreBare("user");
    QuotedNameRecognised("user", "user_id, email");
    assert Spelled("", "\"", "user") == "\"user\"";
    StripFixed("\\.");
    BlockScanned(DUMP, header, data, "\\.");
  }

  // ----- The program -----

  /** Processes a dump block by block; the statistics are the tables seen and the number of blocks. */
  method ProcessDump(f: Format, lines: seq<string>)
    returns (output: seq<string>, blocks: nat, preserved: set<string>, purged: set<string>)
    ensures output == Scan(f, Outside, lines)
    ensures blocks == |Headers(f, Outside, lines)|
    ensures preserved == Tables(Headers(f, Outside, lines), true) && purged == Tables(Headers(f, Outside, lines), false)
  {
    output, blocks, preserved, purged := [], 0, {}, {};
    var i := 0;
    while i < |lines|
      invariant 0 <= i <= |lines|
      invariant i < |lines| ==> EndMode(f, Outside, lines[..i]) == Outside
      invariant output == Scan(f, Outside, lines[..i])
      invariant blocks == |Headers(f, Outside, lines[..i])|
      invariant preserved == Tables(Headers(f, Outside, lines[..i]), true)
      invariant purged == Tables(Headers(f, Outside, lines[..i]), false)
    {
      var line := lines[i];
      var table := f.header(line);
      ScanPrefix(f, lines, i);
      HeadersOne(f, Headers(f, Outside, lines[..i]), line);
      if table.Some? {
        blocks := blocks + 1;
        var keep := f.preserves(table.value);
        if keep {
          preserved := preserved + {f.normalize(table.value)};
        } else {
          purged := purged + {f.normalize(table.value)};
        }
        output := output + [line];
        i := i + 1;
        var data;
        i, data := SkipBlock(f, lines, i, keep);
        output := output + data;
      } else {
        output := output + [line];
        i := i + 1;
      }
    }
    assert lines[..|lines|] == lines;
  }

  lemma HeadersOne(f: Format, headers: seq<(string, bool)>, line: string)
    ensures f.header(line).None? ==> Headers(f, Outside, [line]) == [] && headers + [] == headers
    ensures f.header(line).Some? ==>
              var h := (f.normalize(f.header(line).value), f.preserves(f.header(line).value));
              && Headers(f, Outside, [line]) == [h]
              && Tables(headers + [h], h.1) == Tables(headers, h.1) + {h.0}
              && Tables(headers + [h], !h.1) == Tables(headers, !h.1)
  {
    assert [line][1..] == [];
  }

  /** The inner loop: runs to the block's terminator, collecting data lines only for preserved tables. */
  method SkipBlock(f: Format, lines: seq<string>, start: nat, keep: bool) returns (i: nat, data: seq<string>)
    requires start <= |lines| && EndMode(f, Outside, lines[..start]) == if keep then Keeping else Dropping
    ensures start <= i <= |lines|
    ensures Scan(f, Outside, lines[..i]) == Scan(f, Outside, lines[..start]) + data
    ensures Headers(f, Outside, lines[..i]) == Headers(f, Outside, lines[..start])
    ensures i < |lines| ==> EndMode(f, Outside, lines[..i]) == Outside
  {
    i, data := start, [];
    while i < |lines| && !f.terminates(lines[i])
      invariant start <= i <= |lines|
      invariant EndMode(f, Outside, lines[..i]) == if keep then Keeping else Dropping
      invariant Scan(f, Outside, lines[..i]) == Scan(f, Outside, lines[..start]) + data
      invariant Headers(f, Outside, lines[..i]) == Headers(f, Outside, lines[..start])
    {
      ScanPrefix(f, lines, i);
      if keep {
        data := data + [lines[i]];
      }
      i := i + 1;
    }
    if i < |lines| {
      ScanPrefix(f, lines, i);
      data := data + [lines[i]];
      i := i + 1;
    }
  }
}
