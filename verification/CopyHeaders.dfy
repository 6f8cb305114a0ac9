/**
  How the dump purger reads a line: as the header of a COPY block, as a block's terminator, or as
  anything else. Letters and digits are the ASCII ones.
 */
module CopyHeaders {
  import opened Common
  import opened Text

  const PRESERVED := {
    "country", "currency", "hadr_aid_movement_staging", "transaction", "inventory", "itembatch", "item",
    "itemcatg", "parish", "role", "unitofmeasure", "user_warehouse", "user", "user_role",
    "reliefrqstitem_status", "reliefrqst_status", "custodian", "warehouse"}

  // ----- Names and headers -----

  function AfterLastDot(s: string): string
  {
    if s == "" then ""
    else if s[|s| - 1] == '.' then ""
    else AfterLastDot(s[..|s| - 1]) + [s[|s| - 1]]
  }

  function WithoutQuotes(s: string): string
  {
    if s == "" then ""
    else (if s[0] == '"' || s[0] == '\'' then "" else [s[0]]) + WithoutQuotes(s[1..])
  }

  function NormalizeTableName(name: string): string
  {
    Strip(Lower(WithoutQuotes(AfterLastDot(name))))
  }

  predicate ShouldPreserve(table: string)
  {
    NormalizeTableName(table) in PRESERVED
  }

  predicate IsNameChar(c: char)
  {
    c == '"' || c == '_' || IsDigit(c) || 'a' <= c <= 'z' || 'A' <= c <= 'Z'
  }

  /** The longest prefix of characters that may belong to a table name. */
  function NamePrefix(s: string): (n: string)
    ensures |n| <= |s| && forall c :: c in n ==> IsNameChar(c)
  {
    if s != "" && IsNameChar(s[0]) then [s[0]] + NamePrefix(s[1..]) else ""
  }

  /** What follows `word` (given in lower case) at the start of `s`, letter case ignored. */
  function Skip(s: string, word: string): Option<string>
  {
    if |word| <= |s| && Lower(s[..|word|]) == word then Some(s[|word|..]) else None
  }

  /** What follows one or more whitespace characters. */
  function SkipSpaces(s: string): Option<string>
  {
    if s != "" && IsSpace(s[0]) then Some(LStrip(s)) else None
  }

  /** What follows the first closing parenthesis. */
  function SkipParenthesis(s: string): Option<string>
  {
    if s == "" then None else if s[0] == ')' then Some(s[1..]) else SkipParenthesis(s[1..])
  }

  /** `FROM stdin;` behind the column list. */
  predicate EndsLikeHeader(s: string)
  {
    var a := SkipSpaces(s);
    a.Some? &&
    var b := Skip(a.value, "from");
    b.Some? &&
    var c := SkipSpaces(b.value);
    c.Some? && Skip(c.value, "stdin;").Some?
  }

  /** The table name of a line that starts a COPY block. */
  function Header(line: string): Option<string>
  {
    var a := Skip(line, "copy");
    if a.None? then None else
    var b := SkipSpaces(a.value);
    if b.None? then None else
    var c := if Skip(b.value, "public.").Some? then b.value[7..] else b.value;
    var name := NamePrefix(c);
    var d := LStrip(c[|name|..]);
    if name == "" || d == "" || d[0] != '(' then None else
    var e := SkipParenthesis(d[1..]);
    if e.Some? && EndsLikeHeader(e.value) then Some(name) else None
  }

  predicate IsTerminator(line: string)
  {
    Strip(line) == "\\."
  }

  // ----- Every header that a dump tool writes is recognised -----

  const COPY := "COPY"
  const FROM := "FROM"
  const STDIN := "stdin;"

  /** The header of a table with the given column list, as dump tools write it. */
  function Written(table: string, columns: string): string
  {
    COPY + (" " + ("public." + (table + (" " + ("(" + (columns + (")" + (" " + (FROM + (" " + STDIN))))))))))
  }

  lemma SkipWord(written: string, word: string, rest: string)
    requires |written| == |word| && Lower(written) == word
    ensures Skip(written + rest, word) == Some(rest)
  {
    assert (written + rest)[..|word|] == written;
    assert (written + rest)[|word|..] == rest;
  }

  lemma SkipSpace(rest: string)
    requires rest != "" && !IsSpace(rest[0])
    ensures SkipSpaces(" " + rest) == Some(rest)
    ensures LStrip(" " + rest) == rest && LStrip(rest) == rest
  {
    assert (" " + rest)[1..] == rest;
    assert LStrip(rest) == rest;
    assert IsSpace((" " + rest)[0]);
  }

  lemma {:induction false} SkipColumns(columns: string, rest: string)
    requires ')' !in columns
    ensures SkipParenthesis(columns + (")" + rest)) == Some(rest)
  {
    if columns == "" {
      assert columns + (")" + rest) == ")" + rest;
      assert (")" + rest)[1..] == rest;
    } else {
      SkipColumns(columns[1..], rest);
      assert (columns + (")" + rest))[1..] == columns[1..] + (")" + rest);
    }
  }

  lemma {:induction false} WholeName(table: string, rest: string)
    requires forall c :: c in table ==> IsNameChar(c)
    requires rest != "" && !IsNameChar(rest[0])
    ensures NamePrefix(table + rest) == table
  {
    if table == "" {
      assert table + rest == rest;
    } else {
      WholeName(table[1..], rest);
      assert (table + rest)[1..] == table[1..] + rest;
    }
  }

  lemma EndOfHeader()
    ensures EndsLikeHeader(" " + (FROM + (" " + STDIN)))
  {
    var tail := " " + STDIN;
    assert Lower(FROM) == "from";
    assert Lower(STDIN) == "stdin;";
    assert STDIN + "" == STDIN;
    SkipSpace(FROM + tail);
    SkipWord(FROM, "from", tail);
    SkipSpace(STDIN);
    SkipWord(STDIN, "stdin;", "");
  }

  lemma StartOfHeader(rest: string)
    requires rest != "" && !IsSpace(rest[0])
    ensures Skip(COPY + (" " + rest), "copy") == Some(" " + rest)
    ensures SkipSpaces(" " + rest) == Some(rest)
  {
    assert Lower(COPY) == "copy";
    SkipWord(COPY, "copy", " " + rest);
    SkipSpace(rest);
  }

  lemma SchemaOfHeader(rest: string)
    ensures Skip("public." + rest, "public.").Some? && ("public." + rest)[7..] == rest
  {
    assert Lower("public.") == "public.";
    SkipWord("public.", "public.", rest);
  }

  lemma WrittenHeader(table: string, columns: string)
    requires table != "" && forall c :: c in table ==> IsNameChar(c)
    requires ')' !in columns
    ensures Header(Written(table, columns)) == Some(table)
  {
    var e := " " + (FROM + (" " + STDIN));
    var d := "(" + (columns + (")" + e));
    var c := table + (" " + d);
    var b := "public." + c;
    EndOfHeader();
    StartOfHeader(b);
    SchemaOfHeader(c);
    WholeName(table, " " + d);
    assert c[|table|..] == " " + d;
    SkipSpace(d);
    assert d[1..] == columns + (")" + e);
    SkipColumns(columns, e);
  }

  lemma {:induction false} RStripKeepsFirst(s: string)
    requires s != "" && !IsSpace(s[0])
    ensures RStrip(s) != "" && RStrip(s)[0] == s[0]
  {
    if |s| > 1 {
      RStripKeepsFirst(s[..|s| - 1]);
    }
  }

  /** No header is a terminator. */
  lemma HeaderIsNoTerminator(line: string)
    requires Header(line).Some?
    ensures !IsTerminator(line)
  {
    assert Lower(line[..4])[0] == 'c';
    RStripKeepsFirst(line);
  }

  /** A table that is not preserved. */
  const LOG := "t"

  lemma LogNotPreserved()
    ensures !ShouldPreserve(LOG)
  {
    assert LOG[..0] == "" && LOG[1..] == "";
    assert !IsSpace(LOG[0]);
    assert AfterLastDot(LOG) == LOG && WithoutQuotes(LOG) == LOG;
    assert Lower(LOG) == LOG;
    StripFixed(LOG);
    NoShortNames(LOG);
  }

  lemma NoShortNames(name: string)
    requires |name| == 1
    ensures name !in PRESERVED
  {
  }

  lemma LogIsPurged()
    ensures Header(Written(LOG, "id")) == Some(LOG) && !ShouldPreserve(LOG)
    ensures !IsTerminator(Written(LOG, "id")) && !IsTerminator("1")
  {
    LogNotPreserved();
    WrittenHeader(LOG, "id");
    HeaderIsNoTerminator(Written(LOG, "id"));
    StripFixed("1");
  }

  // ----- Which tables are preserved -----

  /** A name in lower case, without quotes, dots and spaces. */
  predicate Bare(name: string)
  {
    name != "" && forall c :: c in name ==> 'a' <= c <= 'z' || c == '_' || IsDigit(c)
  }

  /** A spelling of a table name: any letter case, within quotes or not, behind a schema or not. */
  function Spelled(schema: string, quote: string, name: string): string
  {
    schema + (quote + (name + quote))
  }

  predicate IsSchema(schema: string)
  {
    schema == "" || schema[|schema| - 1] == '.'
  }

  predicate IsQuote(quote: string)
  {
    quote == "" || quote == "\"" || quote == "'"
  }

  lemma {:induction false} UndottedTail(schema: string, rest: string)
    requires IsSchema(schema) && '.' !in rest
    ensures AfterLastDot(schema + rest) == rest
  {
    if rest == "" {
      assert schema + rest == schema;
    } else {
      var n := |rest| - 1;
      UndottedTail(schema, rest[..n]);
      assert (schema + rest)[..|schema| + n] == schema + rest[..n];
      assert (schema + rest)[|schema| + n] == rest[n];
      assert rest[..n] + [rest[n]] == rest;
    }
  }

  predicate IsQuoteChar(c: char)
  {
    c == '"' || c == '\''
  }

  lemma UnquotedCons(c: char, rest: string)
    ensures WithoutQuotes([c] + rest) == (if IsQuoteChar(c) then "" else [c]) + WithoutQuotes(rest)
  {
    assert ([c] + rest)[1..] == rest;
  }

  lemma {:induction false} UnquotedConcat(a: string, b: string)
    ensures WithoutQuotes(a + b) == WithoutQuotes(a) + WithoutQuotes(b)
  {
    if a == "" {
      assert a + b == b;
    } else {
      var c, rest := a[0], a[1..];
      UnquotedConcat(rest, b);
      UnquotedCons(c, rest);
      UnquotedCons(c, rest + b);
      assert a == [c] + rest && a + b == [c] + (rest + b);
    }
  }

  lemma {:induction false} UnquotedName(name: string)
    requires forall c :: c in name ==> !IsQuoteChar(c)
    ensures WithoutQuotes(name) == name
  {
    if name != "" {
      UnquotedName(name[1..]);
      UnquotedCons(name[0], name[1..]);
      assert name == [name[0]] + name[1..] && name[0] in name;
    }
  }

  lemma QuotesGo(quote: string, name: string)
    requires IsQuote(quote) && forall c :: c in name ==> !IsQuoteChar(c)
    ensures WithoutQuotes(quote + (name + quote)) == name
  {
    UnquotedConcat(quote, name + quote);
    UnquotedConcat(name, quote);
    UnquotedName(name);
    QuoteGoes(quote);
  }

  lemma QuoteGoes(quote: string)
    requires IsQuote(quote)
    ensures WithoutQuotes(quote) == ""
  {
    if quote != "" {
      assert quote[1..] == "";
    }
  }

  lemma CasedName(cased: string, name: string)
    requires Bare(name) && Lower(cased) == name
    ensures forall c :: c in cased ==> !IsQuoteChar(c) && c != '.' && !IsSpace(c)
  {
    forall c | c in cased ensures !IsQuoteChar(c) && c != '.' && !IsSpace(c) {
      var i :| 0 <= i < |cased| && cased[i] == c;
      assert Lower(cased)[i] == name[i] && name[i] in name;
    }
  }

  /** Every spelling is reduced to the bare name. */
  lemma SpellingReduced(schema: string, quote: string, cased: string, name: string)
    requires IsSchema(schema) && IsQuote(quote) && Bare(name) && Lower(cased) == name
    ensures NormalizeTableName(Spelled(schema, quote, cased)) == name
  {
    CasedName(cased, name);
    UndottedTail(schema, quote + (cased + quote));
    QuotesGo(quote, cased);
    assert name[0] in name && name[|name| - 1] in name;
    StripFixed(name);
  }

  /** So a table is preserved, however its name is spelled, exactly if the bare name is on the list. */
  lemma PreservedIffListed(schema: string, quote: string, cased: string, name: string)
    requires IsSchema(schema) && IsQuote(quote) && Bare(name) && Lower(cased) == name
    ensures ShouldPreserve(Spelled(schema, quote, cased)) <==> name in PRESERVED
  {
    SpellingReduced(schema, quote, cased, name);
  }

  /** All names on the list are bare, so each of them is preserved in every spelling. */
  lemma ListedNamesAreBare(name: string)
    requires name in PRESERVED
    ensures Bare(name)
  {
    StockTablesAreBare();
    LookupTablesAreBare();
    UserTablesAreBare();
  }

  lemma StockTablesAreBare()
    ensures Bare("hadr_aid_movement_staging") && Bare("transaction") && Bare("inventory") && Bare("itembatch")
    ensures Bare("item") && Bare("itemcatg")
  {
  }

  lemma LookupTablesAreBare()
    ensures Bare("country") && Bare("currency") && Bare("parish") && Bare("unitofmeasure") && Bare("custodian")
    ensures Bare("warehouse")
  {
  }

  lemma UserTablesAreBare()
    ensures Bare("role") && Bare("user_warehouse") && Bare("user") && Bare("user_role")
    ensures Bare("reliefrqstitem_status") && Bare("reliefrqst_status")
  {
  }

  /** The quoted name, as in the header of a table whose name is a keyword. */
  lemma QuotedNameRecognised(name: string, columns: string)
    requires Bare(name) && ')' !in columns
    ensures Header(Written(Spelled("", "\"", name), columns)) == Some(Spelled("", "\"", name))
    ensures ShouldPreserve(Spelled("", "\"", name)) <==> name in PRESERVED
  {
    var table := Spelled("", "\"", name);
    forall c | c in table ensures IsNameChar(c) {
      assert c in name || c == '"';
    }
    WrittenHeader(table, columns);
    assert Lower(name) == name by {
      forall i | 0 <= i < |name| ensures Lower(name)[i] == name[i] {
        assert name[i] in name;
      }
    }
    PreservedIffListed("", "\"", name, name);
  }
}
