/** The string operations of the scripts: whitespace trimming, ASCII case and digits. */
module Text {

  /** The characters that trimming removes. */
  predicate IsSpace(c: char)
  {
    || '\t' <= c <= '\r' || '\U{1c}' <= c <= ' ' || c == '\U{85}' || c == '\U{a0}' || c == '\U{1680}'
    || '\U{2000}' <= c <= '\U{200a}' || c == '\U{2028}' || c == '\U{2029}' || c == '\U{202f}'
    || c == '\U{205f}' || c == '\U{3000}'
  }

  predicate IsDigit(c: char)
  {
    '0' <= c <= '9'
  }

  function LStrip(s: string): string
  {
    if s != "" && IsSpace(s[0]) then LStrip(s[1..]) else s
  }

  function RStrip(s: string): string
  {
    if s != "" && IsSpace(s[|s| - 1]) then RStrip(s[..|s| - 1]) else s
  }

  function Strip(s: string): string
  {
    RStrip(LStrip(s))
  }

  function Lower(s: string): (r: string)
    ensures |r| == |s|
  {
    seq(|s|, i requires 0 <= i < |s| => if 'A' <= s[i] <= 'Z' then (s[i] as int + 32) as char else s[i])
  }

  function Upper(s: string): (r: string)
    ensures |r| == |s|
  {
    seq(|s|, i requires 0 <= i < |s| => if 'a' <= s[i] <= 'z' then (s[i] as int - 32) as char else s[i])
  }

  /** The digits of a string, everything else dropped. */
  function Digits(s: string): string
  {
    if s == "" then "" else (if IsDigit(s[0]) then [s[0]] else "") + Digits(s[1..])
  }

  predicate StartsWith(s: string, prefix: string)
  {
    |prefix| <= |s| && s[..|prefix|] == prefix
  }

  lemma StripFixed(s: string)
    requires s != "" && !IsSpace(s[0]) && !IsSpace(s[|s| - 1])
    ensures Strip(s) == s
  {
  }

  lemma DigitsCons(c: char, t: string)
    ensures Digits([c] + t) == (if IsDigit(c) then [c] else "") + Digits(t)
  {
    assert ([c] + t)[1..] == t;
  }

  lemma {:induction false} DigitsConcat(s: string, t: string)
    ensures Digits(s + t) == Digits(s) + Digits(t)
  {
    if s == "" {
      assert s + t == t;
    } else {
      var c, rest := s[0], s[1..];
      DigitsConcat(rest, t);
      DigitsCons(c, rest);
      DigitsCons(c, rest + t);
      assert s == [c] + rest && s + t == [c] + (rest + t);
    }
  }

  lemma {:induction false} DigitsOfDigits(s: string)
    requires forall i :: 0 <= i < |s| ==> IsDigit(s[i])
    ensures Digits(s) == s
  {
    if s != "" {
      DigitsOfDigits(s[1..]);
    }
  }

  lemma {:induction false} DigitsAreDigits(s: string)
    ensures forall i :: 0 <= i < |Digits(s)| ==> IsDigit(Digits(s)[i])
  {
    if s != "" {
      DigitsAreDigits(s[1..]);
    }
  }

  lemma {:induction false} DigitsOfLStrip(s: string)
    ensures Digits(LStrip(s)) == Digits(s)
  {
    if s != "" && IsSpace(s[0]) {
      DigitsOfLStrip(s[1..]);
    }
  }

  lemma {:induction false} DigitsOfRStrip(s: string)
    ensures Digits(RStrip(s)) == Digits(s)
  {
    if s != "" && IsSpace(s[|s| - 1]) {
      var n := |s| - 1;
      DigitsOfRStrip(s[..n]);
      DigitsConcat(s[..n], s[n..]);
      assert s == s[..n] + s[n..];
      assert Digits(s[n..]) == "";
    }
  }

  /** Trimming loses no digit. */
  lemma DigitsOfStrip(s: string)
    ensures Digits(Strip(s)) == Digits(s)
  {
    DigitsOfLStrip(s);
    DigitsOfRStrip(LStrip(s));
  }

  predicate AllSpace(s: string)
  {
    forall c :: c in s ==> IsSpace(c)
  }

  lemma {:induction false} LStripSplits(s: string) returns (before: string)
    ensures s == before + LStrip(s) && AllSpace(before)
    ensures LStrip(s) != "" ==> !IsSpace(LStrip(s)[0])
  {
    if s != "" && IsSpace(s[0]) {
      var b := LStripSplits(s[1..]);
      before := [s[0]] + b;
    } else {
      before := "";
    }
  }

  lemma {:induction false} RStripSplits(s: string) returns (behind: string)
    ensures s == RStrip(s) + behind && AllSpace(behind)
    ensures RStrip(s) != "" ==> !IsSpace(RStrip(s)[|RStrip(s)| - 1]) && RStrip(s)[0] == s[0]
  {
    if s != "" && IsSpace(s[|s| - 1]) {
      var b := RStripSplits(s[..|s| - 1]);
      behind := b + [s[|s| - 1]];
    } else {
      behind := "";
    }
  }

  /** Trimming takes off whitespace at both ends and nothing else, and leaves none there. */
  lemma StripTrims(s: string) returns (before: string, behind: string)
    ensures s == before + (Strip(s) + behind) && AllSpace(before) && AllSpace(behind)
    ensures Strip(s) != "" ==> !IsSpace(Strip(s)[0]) && !IsSpace(Strip(s)[|Strip(s)| - 1])
  {
    before := LStripSplits(s);
    behind := RStripSplits(LStrip(s));
  }
}
