/**
  The lines that start a COPY block, by their grammar: the header reader accepts exactly the lines that
  are put together from the right parts, and finds the table's name in them.
 */
module CopyGrammar {
  import opened Common
  import opened Text
  import opened CopyHeaders

  /** The parts of a header, in order. */
  datatype Parts = Parts(
    copy: string, gap: string, schema: string, table: string, indent: string, columns: string,
    gap2: string, from: string, gap3: string, stdin: string, rest: string)

  predicate Spaces(s: string)
  {
    forall c :: c in s ==> IsSpace(c)
  }

  predicate Gap(s: string)
  {
    s != "" && Spaces(s)
  }

  predicate WellFormed(p: Parts)
  {
    && Lower(p.copy) == "copy" && Gap(p.gap)
    && (p.schema == "" || Lower(p.schema) == "public.")
    && p.table != "" && (forall c :: c in p.table ==> IsNameChar(c))
    && Spaces(p.indent) && ')' !in p.columns
    && Gap(p.gap2) && Lower(p.from) == "from" && Gap(p.gap3) && Lower(p.stdin) == "stdin;"
  }

  /** What follows the column list. */
  function Ending(p: Parts): string
  {
    p.gap2 + (p.from + (p.gap3 + (p.stdin + p.rest)))
  }

  /** What follows the schema. */
  function FromTable(p: Parts): string
  {
    p.table + (p.indent + ("(" + (p.columns + (")" + Ending(p)))))
  }

  function Assembled(p: Parts): string
  {
    p.copy + (p.gap + (p.schema + FromTable(p)))
  }

  // ----- Lines with the grammar are read -----

  lemma {:induction false} SkipGap(gap: string, rest: string)
    requires Spaces(gap) && rest != "" && !IsSpace(rest[0])
    ensures LStrip(gap + rest) == rest
    ensures gap != "" ==> SkipSpaces(gap + rest) == Some(rest)
  {
    if gap == "" {
      assert gap + rest == rest;
    } else {
      SkipGap(gap[1..], rest);
      assert gap[0] in gap && (gap + rest)[1..] == gap[1..] + rest;
    }
  }

  lemma WordStarts(written: string, word: string)
    requires Lower(written) == word && word != "" && 'a' <= word[0] <= 'z'
    ensures written != "" && !IsSpace(written[0]) && written[0] != '.'
  {
    assert Lower(written)[0] == word[0];
  }

  lemma ReadEnding(p: Parts)
    requires WellFormed(p)
    ensures EndsLikeHeader(Ending(p))
  {
    var tail := p.stdin + p.rest;
    WordStarts(p.from, "from");
    WordStarts(p.stdin, "stdin;");
    SkipGap(p.gap2, p.from + (p.gap3 + tail));
    SkipWord(p.from, "from", p.gap3 + tail);
    SkipGap(p.gap3, tail);
    SkipWord(p.stdin, "stdin;", p.rest);
  }

  /** A name is not taken for a schema: it has no dot, and none follows it. */
  lemma NoSchema(table: string, rest: string)
    requires table != "" && (forall c :: c in table ==> IsNameChar(c))
    requires rest != "" && !IsNameChar(rest[0]) && rest[0] != '.'
    ensures Skip(table + rest, "public.").None?
  {
    var s, n := table + rest, |table|;
    assert s[n] == rest[0];
    forall i | 0 <= i < n ensures IsNameChar(s[i]) {
      assert s[i] == table[i] && table[i] in table;
    }
    if |s| >= 7 && Lower(s[..7]) == "public." {
      SchemaChars(s[..7]);
    }
  }

  lemma SchemaChars(s: string)
    requires Lower(s) == "public."
    ensures s[6] == '.' && forall i :: 0 <= i < 6 ==> IsNameChar(s[i])
  {
    assert Lower(s)[6] == '.';
    forall i | 0 <= i < 6 ensures IsNameChar(s[i]) {
      assert Lower(s)[i] == "public."[i];
      assert 'a' <= "public."[i] <= 'z';
    }
  }

  lemma ReadSchema(p: Parts)
    requires WellFormed(p)
    ensures var b := p.schema + FromTable(p);
      b != "" && !IsSpace(b[0]) && FromTable(p) == if Skip(b, "public.").Some? then b[7..] else b
  {
    var rest := p.indent + ("(" + (p.columns + (")" + Ending(p))));
    assert p.table[0] in p.table;
    if p.schema == "" {
      assert rest[0] == if p.indent == "" then '(' else p.indent[0];
      assert p.indent != "" ==> p.indent[0] in p.indent;
      NoSchema(p.table, rest);
      assert p.schema + FromTable(p) == FromTable(p);
    } else {
      WordStarts(p.schema, "public.");
      SkipWord(p.schema, "public.", FromTable(p));
    }
  }

  lemma ReadTable(p: Parts)
    requires WellFormed(p)
    ensures var c := FromTable(p);
      && NamePrefix(c) == p.table
      && LStrip(c[|p.table|..]) == "(" + (p.columns + (")" + Ending(p)))
      && SkipParenthesis(p.columns + (")" + Ending(p))) == Some(Ending(p))
  {
    var d := "(" + (p.columns + (")" + Ending(p)));
    var rest := p.indent + d;
    assert rest[0] == if p.indent == "" then '(' else p.indent[0];
    assert p.indent != "" ==> p.indent[0] in p.indent;
    WholeName(p.table, rest);
    assert FromTable(p)[|p.table|..] == rest;
    SkipGap(p.indent, d);
    SkipColumns(p.columns, Ending(p));
  }

  lemma HeaderComplete(p: Parts)
    requires WellFormed(p)
    ensures Header(Assembled(p)) == Some(p.table)
  {
    var b := p.schema + FromTable(p);
    ReadSchema(p);
    ReadTable(p);
    ReadEnding(p);
    SkipWord(p.copy, "copy", p.gap + b);
    SkipGap(p.gap, b);
    var d := "(" + (p.columns + (")" + Ending(p)));
    assert d[1..] == p.columns + (")" + Ending(p));
  }

  // ----- Lines that are read have the grammar -----

  lemma {:induction false} SplitSpaces(s: string) returns (gap: string)
    ensures s == gap + LStrip(s) && Spaces(gap) && (SkipSpaces(s).Some? ==> gap != "")
  {
    if s != "" && IsSpace(s[0]) {
      var g := SplitSpaces(s[1..]);
      gap := [s[0]] + g;
    } else {
      gap := "";
    }
  }

  lemma SplitWord(s: string, word: string) returns (written: string)
    requires Skip(s, word).Some?
    ensures s == written + Skip(s, word).value && Lower(written) == word
  {
    written := s[..|word|];
  }

  lemma {:induction false} SplitColumns(s: string) returns (columns: string)
    requires SkipParenthesis(s).Some?
    ensures s == columns + (")" + SkipParenthesis(s).value) && ')' !in columns
  {
    if s[0] == ')' {
      columns := "";
    } else {
      var c := SplitColumns(s[1..]);
      columns := [s[0]] + c;
    }
  }

  lemma {:induction false} NamePrefixIsPrefix(s: string)
    ensures NamePrefix(s) <= s
  {
    if s != "" && IsNameChar(s[0]) {
      NamePrefixIsPrefix(s[1..]);
    }
  }

  lemma SplitEnding(s: string) returns (gap2: string, from: string, gap3: string, stdin: string, rest: string)
    requires EndsLikeHeader(s)
    ensures s == gap2 + (from + (gap3 + (stdin + rest)))
    ensures Gap(gap2) && Lower(from) == "from" && Gap(gap3) && Lower(stdin) == "stdin;"
  {
    gap2 := SplitSpaces(s);
    var a := SkipSpaces(s).value;
    from := SplitWord(a, "from");
    var b := Skip(a, "from").value;
    gap3 := SplitSpaces(b);
    var c := SkipSpaces(b).value;
    stdin := SplitWord(c, "stdin;");
    rest := Skip(c, "stdin;").value;
  }

  lemma SplitStart(line: string) returns (copy: string, gap: string, b: string)
    requires Header(line).Some?
    ensures line == copy + (gap + b) && Lower(copy) == "copy" && Gap(gap)
    ensures Skip(line, "copy").Some? && SkipSpaces(Skip(line, "copy").value) == Some(b)
  {
    copy := SplitWord(line, "copy");
    var a := Skip(line, "copy").value;
    gap := SplitSpaces(a);
    b := SkipSpaces(a).value;
  }

  lemma SplitSchema(b: string) returns (schema: string, c: string)
    ensures c == if Skip(b, "public.").Some? then b[7..] else b
    ensures b == schema + c && (schema == "" || Lower(schema) == "public.")
  {
    schema, c := "", b;
    if Skip(b, "public.").Some? {
      schema := SplitWord(b, "public.");
      c := b[7..];
    }
  }

  lemma SplitTable(c: string) returns (indent: string, columns: string)
    requires var d := LStrip(c[|NamePrefix(c)|..]); d != "" && d[0] == '(' && SkipParenthesis(d[1..]).Some?
    ensures Spaces(indent) && ')' !in columns
    ensures var d := LStrip(c[|NamePrefix(c)|..]);
      c == NamePrefix(c) + (indent + ("(" + (columns + (")" + SkipParenthesis(d[1..]).value))))
  {
    var table := NamePrefix(c);
    NamePrefixIsPrefix(c);
    indent := SplitSpaces(c[|table|..]);
    var d := LStrip(c[|table|..]);
    columns := SplitColumns(d[1..]);
    assert d == "(" + d[1..];
    assert c == table + c[|table|..];
  }

  lemma HeaderSound(line: string) returns (p: Parts)
    requires Header(line).Some?
    ensures WellFormed(p) && Assembled(p) == line && p.table == Header(line).value
  {
    var copy, gap, b := SplitStart(line);
    var schema, c := SplitSchema(b);
    var indent, columns := SplitTable(c);
    var e := SkipParenthesis(LStrip(c[|NamePrefix(c)|..])[1..]).value;
    var gap2, from, gap3, stdin, rest := SplitEnding(e);
    p := Parts(copy, gap, schema, NamePrefix(c), indent, columns, gap2, from, gap3, stdin, rest);
  }

  /** A line is read as the header of a table exactly if it is put together from the parts of one. */
  lemma HeaderIff(line: string, table: string)
    ensures Header(line) == Some(table) <==> exists p :: WellFormed(p) && Assembled(p) == line && p.table == table
  {
    if Header(line) == Some(table) {
      var p := HeaderSound(line);
    }
    if p :| WellFormed(p) && Assembled(p) == line && p.table == table {
      HeaderComplete(p);
    }
  }

  // ----- Terminators -----

  const END := "\\."

  predicate Padded(line: string, before: string, behind: string)
  {
    Spaces(before) && Spaces(behind) && line == before + (END + behind)
  }

  lemma {:induction false} SplitTail(s: string) returns (gap: string)
    ensures s == RStrip(s) + gap && Spaces(gap)
  {
    if s != "" && IsSpace(s[|s| - 1]) {
      var g := SplitTail(s[..|s| - 1]);
      gap := g + [s[|s| - 1]];
    } else {
      gap := "";
    }
  }

  lemma {:induction false} StripTail(s: string, gap: string)
    requires Spaces(gap) && s != "" && !IsSpace(s[|s| - 1])
    ensures RStrip(s + gap) == s
  {
    if gap == "" {
      assert s + gap == s;
    } else {
      var n := |gap| - 1;
      assert gap[n] in gap;
      assert forall c :: c in gap[..n] ==> c in gap;
      StripTail(s, gap[..n]);
      assert (s + gap)[..|s| + n] == s + gap[..n] && (s + gap)[|s| + n] == gap[n];
    }
  }

  /** A terminator is a backslash and a dot with nothing but spaces around them. */
  lemma TerminatorIff(line: string)
    ensures IsTerminator(line) <==> exists before, behind :: Padded(line, before, behind)
  {
    if IsTerminator(line) {
      var before := SplitSpaces(line);
      var behind := SplitTail(LStrip(line));
      assert Padded(line, before, behind);
    }
    if before, behind :| Padded(line, before, behind) {
      SkipGap(before, END + behind);
      StripTail(END, behind);
    }
  }
}
