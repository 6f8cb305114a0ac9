/** Phone numbers: the format check, the normaliser, and the migration that applies it to a table. */
module Phones {
  import opened Common
  import opened Text

  predicate AllDigits(s: string)
  {
    forall i :: 0 <= i < |s| ==> IsDigit(s[i])
  }

  /** +1 (XXX) XXX-XXXX */
  predicate InFormat(s: string)
  {
    && |s| == 17
    && s[..4] == "+1 (" && AllDigits(s[4..7]) && s[7..9] == ") " && AllDigits(s[9..12])
    && s[12..13] == "-" && AllDigits(s[13..])
  }

  /** A missing number is the empty string. */
  predicate Validate(phone: string)
  {
    phone != "" && InFormat(Strip(phone))
  }

  function Format(digits: string): string
    requires |digits| == 10
  {
    "+1 (" + digits[..3] + ") " + digits[3..6] + "-" + digits[6..]
  }

  /** The digits that are formatted: without the country code, if one is recognised. */
  function National(phone: string): string
  {
    var cleaned := Strip(phone);
    var digits := Digits(cleaned);
    if StartsWith(cleaned, "+1") then if |digits| > 10 then digits[1..] else digits
    else if StartsWith(cleaned, "1") && |digits| == 11 then digits[1..]
    else digits
  }

  function Normalize(phone: string): Option<string>
  {
    if phone == "" || |National(phone)| != 10 then None else Some(Format(National(phone)))
  }

  /** Which numbers can be normalised: ten digits, or eleven behind a recognised country code. */
  lemma NormalizableIff(phone: string)
    ensures Normalize(phone).Some? <==>
              var n := |Digits(phone)|;
              n == 10 || (n == 11 && (StartsWith(Strip(phone), "+1") || StartsWith(Strip(phone), "1")))
  {
    DigitsOfStrip(phone);
    if phone == "" {
      assert Digits(phone) == "";
    }
  }

  lemma NationalIsDigits(phone: string)
    ensures AllDigits(National(phone))
  {
    DigitsAreDigits(Strip(phone));
  }

  lemma FormatInFormat(digits: string)
    requires |digits| == 10 && AllDigits(digits)
    ensures InFormat(Format(digits)) && Strip(Format(digits)) == Format(digits)
  {
    var f := Format(digits);
    assert f[..4] == "+1 (" && f[4..7] == digits[..3] && f[7..9] == ") ";
    assert f[9..12] == digits[3..6] && f[12..13] == "-" && f[13..] == digits[6..];
    assert f[0] == '+' && f[16] == digits[9];
    StripFixed(f);
  }

  /** Every normalised number passes the format check. */
  lemma NormalizedValidates(phone: string)
    requires Normalize(phone).Some?
    ensures Validate(Normalize(phone).value) && Strip(Normalize(phone).value) == Normalize(phone).value
  {
    NationalIsDigits(phone);
    FormatInFormat(National(phone));
  }

  lemma DigitsOfFormat(s: string)
    requires InFormat(s)
    ensures Digits(s) == "1" + s[4..7] + s[9..12] + s[13..]
  {
    var area, prefix, line := s[4..7], s[9..12], s[13..];
    assert s == "+1 (" + (area + (") " + (prefix + ("-" + line))));
    DigitsConcat("+1 (", area + (") " + (prefix + ("-" + line))));
    DigitsConcat(area, ") " + (prefix + ("-" + line)));
    DigitsConcat(") ", prefix + ("-" + line));
    DigitsConcat(prefix, "-" + line);
    DigitsConcat("-", line);
    DigitsOfDigits(area);
    DigitsOfDigits(prefix);
    DigitsOfDigits(line);
    SeparatorDigits();
  }

  lemma SeparatorDigits()
    ensures Digits("+1 (") == "1" && Digits(") ") == "" && Digits("-") == ""
  {
    DigitsConcat("+1", " (");
    DigitsConcat("+", "1");
    DigitsConcat(" ", "(");
    DigitsConcat(")", " ");
    assert "+1" + " (" == "+1 (" && "+" + "1" == "+1" && " " + "(" == " (" && ")" + " " == ") ";
  }

  /** Normalising a number that is valid already returns it, trimmed. */
  lemma NormalizeValidIsTrim(phone: string)
    requires Validate(phone)
    ensures Normalize(phone) == Some(Strip(phone))
  {
    var s := Strip(phone);
    NationalOfFormat(phone, s);
    FormatOfParts(s, s[4..7], s[9..12], s[13..]);
  }

  lemma NationalOfFormat(phone: string, s: string)
    requires s == Strip(phone) && InFormat(s)
    ensures National(phone) == s[4..7] + s[9..12] + s[13..]
  {
    DigitsOfFormat(s);
    assert s[..2] == s[..4][..2] == "+1";
    var national := s[4..7] + s[9..12] + s[13..];
    assert Digits(s) == "1" + national && Digits(s)[1..] == national;
  }

  lemma FormatOfParts(s: string, area: string, prefix: string, line: string)
    requires InFormat(s) && area == s[4..7] && prefix == s[9..12] && line == s[13..]
    ensures Format(area + prefix + line) == s
  {
    var national := area + prefix + line;
    assert national[..3] == area && national[3..6] == prefix && national[6..] == line;
    assert s == s[..4] + area + s[7..9] + prefix + s[12..13] + line;
  }

  lemma FormatDigits(digits: string)
    requires |digits| == 10 && AllDigits(digits)
    ensures Digits(Format(digits)) == "1" + digits
  {
    var f := Format(digits);
    FormatInFormat(digits);
    DigitsOfFormat(f);
    assert f[4..7] == digits[..3] && f[9..12] == digits[3..6] && f[13..] == digits[6..];
  }

  /** The last ten digits of what was given are the number that is formatted. */
  lemma LastTenDigitsKept(phone: string)
    requires Normalize(phone).Some?
    ensures |Digits(phone)| >= 10
    ensures Digits(Normalize(phone).value) == "1" + Digits(phone)[|Digits(phone)| - 10..]
  {
    NationalIsDigits(phone);
    FormatDigits(National(phone));
    NationalIsLastTen(phone);
  }

  lemma NationalIsLastTen(phone: string)
    requires |National(phone)| == 10
    ensures |Digits(phone)| >= 10 && National(phone) == Digits(phone)[|Digits(phone)| - 10..]
  {
    DigitsOfStrip(phone);
  }

  /**
    A number written with the country code keeps its subscriber digits exactly when eleven digits were
    given. With ten, the code itself is taken for the first digit of the area code.
   */
  lemma SubscriberKeptIff(phone: string)
    requires StartsWith(Strip(phone), "+1") && Normalize(phone).Some?
    ensures |Digits(phone)| > 0 && |Digits(Normalize(phone).value)| > 0
    ensures Digits(Normalize(phone).value)[1..] == Digits(phone)[1..] <==> |Digits(phone)| == 11
  {
    LastTenDigitsKept(phone);
    NormalizableIff(phone);
  }

  /**
    A number written with a plus sign, and so with its country code, keeps all its digits exactly when
    there are eleven of them. With ten, whatever the country, another country code is put before them.
   */
  lemma InternationalKeptIff(phone: string)
    requires StartsWith(Strip(phone), "+") && Normalize(phone).Some?
    ensures Digits(Normalize(phone).value) == Digits(phone) <==> |Digits(phone)| == 11
    ensures |Digits(phone)| != 11 ==> Digits(Normalize(phone).value) == "1" + Digits(phone)
  {
    var cleaned, digits := Strip(phone), Digits(phone);
    LastTenDigitsKept(phone);
    NormalizableIff(phone);
    DigitsOfStrip(phone);
    if |digits| == 11 {
      assert cleaned == "+1" + cleaned[2..];
      DigitsConcat("+1", cleaned[2..]);
      PlusOne();
      assert digits == "1" + digits[1..];
    } else {
      assert digits[0..] == digits;
    }
  }

  lemma PlusOne()
    ensures Digits("+1") == "1" && Digits("+") == ""
  {
    DigitsConcat("+", "1");
    assert "+" + "1" == "+1";
  }

  /** A plus sign and ten digits are taken for a number without country code, whatever they begin with. */
  lemma PlusTenDigits(digits: string)
    requires |digits| == 10 && AllDigits(digits)
    ensures Normalize("+" + digits) == Some(Format(digits))
  {
    var phone := "+" + digits;
    DigitsCons('+', digits);
    DigitsOfDigits(digits);
    PlusIsNational(phone, digits);
  }

  lemma PlusIsNational(phone: string, digits: string)
    requires |phone| == 11 && phone[0] == '+' && IsDigit(phone[10]) && Digits(phone) == digits && |digits| == 10
    ensures National(phone) == digits
  {
    StripFixed(phone);
  }

  /** Beginning with the country code, one digit is missing, and none is reported. */
  lemma MissingDigitGoesUnnoticed(digits: string)
    requires |digits| == 10 && AllDigits(digits) && digits[0] == '1'
    ensures Normalize("+" + digits) == Some(Format(digits))
  {
    PlusTenDigits(digits);
  }

  /** Beginning with another country's code, the number becomes one of the home country. */
  lemma ForeignNumberExample()
    ensures Normalize("+" + "4512345678") == Some("+1 (451) 234-5678")
  {
    var d := "4512345678";
    assert d[..3] == "451" && d[3..6] == "234" && d[6..] == "5678";
    assert forall i :: 0 <= i < 10 ==> IsDigit(d[i]);
    PlusTenDigits(d);
    assert Format(d) == "+1 (451) 234-5678";
  }

  lemma MissingDigitExample()
    ensures Normalize("+" + "1876555123") == Some("+1 (187) 655-5123")
  {
    var d := "1876555123";
    assert d[..3] == "187" && d[3..6] == "655" && d[6..] == "5123";
    assert forall i :: 0 <= i < 10 ==> IsDigit(d[i]);
    MissingDigitGoesUnnoticed(d);
    assert Format(d) == "+1 (187) 655-5123";
  }

  /** The format is that of ten digits written out: nothing else has it. */
  lemma InFormatIff(s: string)
    ensures InFormat(s) <==> exists digits :: |digits| == 10 && AllDigits(digits) && s == Format(digits)
  {
    if InFormat(s) {
      var digits := s[4..7] + s[9..12] + s[13..];
      FormatOfParts(s, s[4..7], s[9..12], s[13..]);
      assert |digits| == 10 && AllDigits(digits);
    }
    if digits :| |digits| == 10 && AllDigits(digits) && s == Format(digits) {
      FormatInFormat(digits);
    }
  }

  // ----- The migration -----

  /** Ten digits, or eleven behind the country code 1. */
  predicate Dialable(phone: string)
  {
    var n := |Digits(phone)|;
    n == 10 || (n == 11 && (StartsWith(Strip(phone), "+1") || StartsWith(Strip(phone), "1")))
  }

  /** A number that a pass has to write anew: given, dialable, and not yet in the format. */
  predicate Outdated(phone: string)
  {
    phone != "" && !Validate(phone) && Dialable(phone)
  }

  /** What a pass does to a number: an outdated one gets the format and keeps its last ten digits, others stay. */
  predicate RowMigrated(before: string, after: string)
  {
    if Outdated(before) then
      && after != "" && Validate(after) && Strip(after) == after
      && Digits(after) == "1" + LastTen(before)
    else after == before
  }

  function LastTen(phone: string): string
  {
    var digits := Digits(phone);
    if |digits| >= 10 then digits[|digits| - 10..] else digits
  }

  lemma MigratedMeans(phone: string)
    ensures RowMigrated(phone, Migrated(phone))
    ensures NeedsUpdate(phone) <==> Outdated(phone)
    ensures CannotNormalize(phone) <==> Undialable(phone)
  {
    NormalizableIff(phone);
    if Outdated(phone) {
      NormalizedValidates(phone);
      LastTenDigitsKept(phone);
    }
  }

  /** A number that is given, not in the format, and not dialable either. */
  predicate Undialable(phone: string)
  {
    phone != "" && !Validate(phone) && !Dialable(phone)
  }

  function OutdatedRows(phones: seq<string>): set<nat>
  {
    set i: nat | i < |phones| && Outdated(phones[i])
  }

  lemma OutdatedNext(phones: seq<string>, n: nat)
    requires n + 1 == |phones|
    ensures OutdatedRows(phones) == OutdatedRows(phones[..n]) + if Outdated(phones[n]) then {n} else {}
  {
  }

  /** The number of updates is that of the outdated rows. */
  lemma {:induction false} UpdatesCounted(phones: seq<string>)
    ensures UpdateCount(phones) == |OutdatedRows(phones)|
  {
    if phones != [] {
      var n := |phones| - 1;
      UpdatesCounted(phones[..n]);
      OutdatedNext(phones, n);
      MigratedMeans(phones[n]);
    }
  }

  /** The failures are the rows that are not dialable, in order. */
  lemma {:induction false} FailuresListed(phones: seq<string>)
    ensures forall i :: i in Failures(phones) <==> 0 <= i < |phones| && Undialable(phones[i])
    ensures forall i, j :: 0 <= i < j < |Failures(phones)| ==> Failures(phones)[i] < Failures(phones)[j]
  {
    if phones != [] {
      var n := |phones| - 1;
      FailuresListed(phones[..n]);
      MigratedMeans(phones[n]);
      var before := Failures(phones[..n]);
      assert forall i :: 0 <= i < |before| ==> before[i] in before;
      assert Failures(phones) == before + if Undialable(phones[n]) then [n] else [];
    }
  }

  /** What one row becomes: valid and empty numbers stay, others are normalised if they can be. */
  function Migrated(phone: string): string
  {
    if phone == "" || Validate(phone) || Normalize(phone).None? then phone else Normalize(phone).value
  }

  function MigratedAll(phones: seq<string>): (r: seq<string>)
    ensures |r| == |phones| && forall k :: 0 <= k < |r| ==> r[k] == Migrated(phones[k])
  {
    if phones == [] then [] else MigratedAll(phones[..|phones| - 1]) + [Migrated(phones[|phones| - 1])]
  }

  predicate NeedsUpdate(phone: string)
  {
    phone != "" && !Validate(phone) && Normalize(phone).Some?
  }

  predicate CannotNormalize(phone: string)
  {
    phone != "" && !Validate(phone) && Normalize(phone).None?
  }

  function UpdateCount(phones: seq<string>): nat
  {
    if phones == [] then 0
    else UpdateCount(phones[..|phones| - 1]) + if NeedsUpdate(phones[|phones| - 1]) then 1 else 0
  }

  /** The row numbers that cannot be normalised, in order. */
  function Failures(phones: seq<string>): seq<nat>
  {
    if phones == [] then []
    else
      var n := |phones| - 1;
      Failures(phones[..n]) + if CannotNormalize(phones[n]) then [n] else []
  }

  lemma PassAppend(phones: seq<string>, phone: string)
    ensures UpdateCount(phones + [phone]) == UpdateCount(phones) + if NeedsUpdate(phone) then 1 else 0
    ensures Failures(phones + [phone]) == Failures(phones) + if CannotNormalize(phone) then [|phones|] else []
    ensures MigratedAll(phones + [phone]) == MigratedAll(phones) + [Migrated(phone)]
  {
    assert (phones + [phone])[..|phones|] == phones;
  }

  /** The decision on one row, behind the rows `before` it: skip it, update it, or report it. */
  method MigrateRow(current: string, ghost before: seq<string>) returns (value: string, update: bool, fail: bool)
    ensures MigratedAll(before + [current]) == MigratedAll(before) + [value]
    ensures UpdateCount(before + [current]) == UpdateCount(before) + if update then 1 else 0
    ensures Failures(before + [current]) == Failures(before) + if fail then [|before|] else []
    ensures !update ==> value == current
  {
    PassAppend(before, current);
    value, update, fail := current, false, false;
    if current == "" || Validate(current) {
      return;
    }
    var normalized := Normalize(current);
    if normalized.Some? {
      value, update := normalized.value, true;
    } else {
      fail := true;
    }
  }

  /** One pass over a table's phone column; a dry run counts but does not write. */
  method MigrateTable(phones: array<string>, dryRun: bool) returns (updated: nat, failed: seq<nat>)
    modifies phones
    ensures updated == UpdateCount(old(phones[..])) && failed == Failures(old(phones[..]))
    ensures phones[..] == if dryRun then old(phones[..]) else MigratedAll(old(phones[..]))
    ensures forall k :: 0 <= k < phones.Length ==>
              if dryRun then phones[k] == old(phones[k]) else RowMigrated(old(phones[k]), phones[k])
  {
    updated, failed := 0, [];
    ghost var was := phones[..];
    for k := 0 to phones.Length
      invariant updated == UpdateCount(was[..k]) && failed == Failures(was[..k])
      invariant phones[..k] == if dryRun then was[..k] else MigratedAll(was[..k])
      invariant phones[k..] == was[k..]
    {
      assert was[..k + 1] == was[..k] + [was[k]];
      assert phones[k] == phones[k..][0] == was[k];
      var value, update, fail := MigrateRow(phones[k], was[..k]);
      if update {
        if !dryRun {
          phones[k] := value;
        }
        updated := updated + 1;
      }
      if fail {
        failed := failed + [k];
      }
      assert phones[..k + 1] == phones[..k] + [phones[k]];
      assert was[k..][1..] == was[k + 1..];
    }
    assert was[..phones.Length] == was && phones[..phones.Length] == phones[..];
    RowsMigrated(was, phones[..], dryRun);
  }

  lemma RowsMigrated(before: seq<string>, after: seq<string>, dryRun: bool)
    requires after == if dryRun then before else MigratedAll(before)
    ensures |after| == |before|
    ensures forall k :: 0 <= k < |before| ==> if dryRun then after[k] == before[k] else RowMigrated(before[k], after[k])
  {
    forall k | 0 <= k < |before| ensures RowMigrated(before[k], Migrated(before[k])) {
      MigratedMeans(before[k]);
    }
  }

  /** After one pass every row is empty, valid, or among the reported failures, and stays as it is. */
  lemma OnePassSettles(phone: string)
    ensures phone == "" || Validate(Migrated(phone)) || CannotNormalize(phone)
    ensures phone == "" || CannotNormalize(phone) || Validate(phone) ==> Migrated(phone) == phone
    ensures !NeedsUpdate(Migrated(phone))
    ensures Migrated(Migrated(phone)) == Migrated(phone)
  {
    if NeedsUpdate(phone) {
      NormalizedValidates(phone);
    }
  }

  /** So a second pass updates nothing, changes nothing and reports the same failures. */
  lemma {:induction false} SecondPassIdle(phones: seq<string>)
    ensures UpdateCount(MigratedAll(phones)) == 0
    ensures Failures(MigratedAll(phones)) == Failures(phones)
    ensures MigratedAll(MigratedAll(phones)) == MigratedAll(phones)
  {
    if phones != [] {
      var n := |phones| - 1;
      SecondPassIdle(phones[..n]);
      OnePassSettles(phones[n]);
      FailureStays(phones[n]);
      var after := MigratedAll(phones);
      assert after[..n] == MigratedAll(phones[..n]) && after[n] == Migrated(phones[n]);
    }
  }

  lemma FailureStays(phone: string)
    ensures CannotNormalize(Migrated(phone)) <==> CannotNormalize(phone)
  {
    if NeedsUpdate(phone) {
      NormalizedValidates(phone);
    }
  }
}
