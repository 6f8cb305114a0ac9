/**
  Item codes for the items that an import creates: the search for a decimal suffix that makes a code
  new, why it ends, and with what. Descriptions arrive in upper case.
 */
module ItemCodes {
  import opened Common
  import opened Text

  // ----- Decimal numerals -----

  function Digit(d: nat): char
    requires d < 10
  {
    '0' + d as char
  }

  function Decimal(n: nat): (s: string)
    ensures s != ""
  {
    if n < 10 then [Digit(n)] else Decimal(n / 10) + [Digit(n % 10)]
  }

  function ValueOf(s: string): int
  {
    if s == "" then 0 else 10 * ValueOf(s[..|s| - 1]) + (s[|s| - 1] as int - '0' as int)
  }

  function Pow10(k: nat): (p: nat)
    ensures p >= 1
  {
    if k == 0 then 1 else 10 * Pow10(k - 1)
  }

  lemma {:induction false} ReadsBack(n: nat)
    ensures ValueOf(Decimal(n)) == n
  {
    if n < 10 {
      assert [Digit(n)][..0] == "";
    } else {
      ReadsBack(n / 10);
      assert (Decimal(n / 10) + [Digit(n % 10)])[..|Decimal(n / 10)|] == Decimal(n / 10);
    }
  }

  lemma {:induction false} NumeralLength(n: nat, k: nat)
    requires n < Pow10(k) && k > 0
    ensures |Decimal(n)| <= k
    ensures Pow10(k - 1) <= n ==> |Decimal(n)| == k
  {
    if n >= 10 {
      assert k > 1 by { assert Pow10(1) == 10 * Pow10(0); }
      NumeralLength(n / 10, k - 1);
      assert Pow10(k - 1) == 10 * Pow10(k - 2);
    } else if k > 1 {
      TenAtLeast(k - 1);
    }
  }

  lemma TenAtLeast(k: nat)
    requires k > 0
    ensures Pow10(k) >= 10
  {
  }

  lemma TenThousand()
    ensures Pow10(4) == 10000
  {
    assert Pow10(2) == 100;
  }

  // ----- One code -----

  predicate IsCodeChar(c: char)
  {
    IsDigit(c) || 'A' <= c <= 'Z' || 'a' <= c <= 'z'
  }

  function CodeChars(s: string): (r: string)
    ensures forall c :: c in r ==> IsCodeChar(c)
  {
    if s == "" then "" else (if IsCodeChar(s[0]) then [s[0]] else "") + CodeChars(s[1..])
  }

  /** `s[:n]`, where a negative bound counts from the end. */
  function UpTo(s: string, n: int): string
  {
    if n >= |s| then s else if n >= 0 then s[..n] else if |s| + n >= 0 then s[..|s| + n] else ""
  }

  /** What every code for a description starts from. */
  function Base(upper: string): (b: string)
    ensures 1 <= |b| <= 12 && forall c :: c in b ==> IsCodeChar(c)
  {
    var b := UpTo(CodeChars(upper), 12);
    if b == "" then "ITEM" else b
  }

  /** The codes tried in turn: the base, then the base cut to make room for 1, 2, 3, … */
  function Candidate(base: string, k: nat): string
  {
    if k == 0 then base else UpTo(base, 16 - |Decimal(k)|) + Decimal(k)
  }

  lemma CodeCharsCons(c: char, s: string)
    ensures CodeChars([c] + s) == (if IsCodeChar(c) then [c] else "") + CodeChars(s)
  {
    assert ([c] + s)[1..] == s;
  }

  lemma {:induction false} CodeCharsConcat(a: string, b: string)
    ensures CodeChars(a + b) == CodeChars(a) + CodeChars(b)
  {
    if a == "" {
      assert a + b == b;
    } else {
      CodeCharsConcat(a[1..], b);
      assert a == [a[0]] + a[1..];
      ConsConcat(a[0], a[1..], b);
    }
  }

  lemma Assoc(a: string, b: string, c: string)
    ensures a + b + c == a + (b + c)
  {
  }

  lemma ConsConcat(c: char, rest: string, b: string)
    requires CodeChars(rest + b) == CodeChars(rest) + CodeChars(b)
    ensures CodeChars([c] + rest + b) == CodeChars([c] + rest) + CodeChars(b)
  {
    var kept := if IsCodeChar(c) then [c] else "";
    CodeCharsCons(c, rest);
    CodeCharsCons(c, rest + b);
    Assoc([c], rest, b);
    Assoc(kept, CodeChars(rest), CodeChars(b));
  }

  /** Code characters are kept one by one and in order, others are dropped. */
  lemma CodeCharsKept(a: string, c: char, b: string)
    ensures CodeChars(a + ([c] + b)) == CodeChars(a) + ((if IsCodeChar(c) then [c] else "") + CodeChars(b))
    ensures CodeChars("") == ""
  {
    CodeCharsConcat(a, [c] + b);
    CodeCharsCons(c, b);
  }

  lemma CodeCharsExample()
    ensures CodeChars("A-1") == "A1"
  {
    CodeCharsCons('1', "");
    CodeCharsCons('-', "1");
    CodeCharsCons('A', "-1");
    assert "1" == ['1'] + "" && "-1" == ['-'] + "1" && "A-1" == ['A'] + "-1";
  }

  /** A base is made of the first twelve code characters of the description, or of the word ITEM if there are none. */
  lemma BaseShows(upper: string)
    ensures CodeChars(upper) == "" ==> Base(upper) == "ITEM"
    ensures CodeChars(upper) != "" ==>
              Base(upper) <= CodeChars(upper)
                && |Base(upper)| == if |CodeChars(upper)| < 12 then |CodeChars(upper)| else 12
  {
  }

  /**
    Each code tried ends with its number and begins with as much of the base as sixteen characters leave.
   */
  lemma CandidateShows(base: string, k: nat)
    requires |base| <= 12 && |Decimal(k)| <= 16
    ensures Candidate(base, 0) == base
    ensures k > 0 ==>
              var room := 16 - |Decimal(k)|;
              Candidate(base, k) == (if |base| <= room then base else base[..room]) + Decimal(k)
  {
  }

  ghost predicate FirstFree(base: string, existing: set<string>, k: nat)
  {
    Candidate(base, k) !in existing && forall j :: 0 <= j < k ==> Candidate(base, j) in existing
  }

  lemma ShortCandidate(base: string, k: nat)
    requires |base| <= 12 && k < 10000
    ensures Candidate(base, k) == base + (if k == 0 then "" else Decimal(k))
    ensures |Candidate(base, k)| <= 16
  {
    if k > 0 {
      TenThousand();
      NumeralLength(k, 4);
    }
  }

  lemma ShortCandidatesDiffer(base: string, i: nat, j: nat)
    requires i < j < 10000 && |base| <= 12
    ensures Candidate(base, i) != Candidate(base, j)
  {
    ShortCandidate(base, i);
    ShortCandidate(base, j);
    ReadsBack(j);
    assert Candidate(base, j)[|base|..] == Decimal(j);
    if i > 0 {
      ReadsBack(i);
      assert Candidate(base, i)[|base|..] == Decimal(i);
    }
  }

  lemma SameStart(start: string, s: string, t: string)
    requires start + s == start + t
    ensures s == t
  {
    assert s == (start + s)[|start|..];
    assert t == (start + t)[|start|..];
  }

  lemma SameLengthCandidatesDiffer(base: string, i: nat, j: nat)
    requires 0 < i < j && |Decimal(i)| == |Decimal(j)|
    ensures Candidate(base, i) != Candidate(base, j)
  {
    ReadsBack(i);
    ReadsBack(j);
    var start := UpTo(base, 16 - |Decimal(i)|);
    if start + Decimal(i) == start + Decimal(j) {
      SameStart(start, Decimal(i), Decimal(j));
    }
  }

  /** Pigeonhole: `n` different strings need a set of at least `n` elements. */
  lemma {:induction false} Pigeonhole(base: string, from: nat, n: nat, existing: set<string>)
    requires forall i, j :: from <= i < j < from + n ==> Candidate(base, i) != Candidate(base, j)
    requires forall i :: from <= i < from + n ==> Candidate(base, i) in existing
    ensures n <= |existing|
  {
    if n > 0 {
      var last := from + n - 1;
      forall i | from <= i < from + (n - 1) ensures Candidate(base, i) in existing - {Candidate(base, last)} {
        assert Candidate(base, i) != Candidate(base, last);
      }
      Pigeonhole(base, from, n - 1, existing - {Candidate(base, last)});
    }
  }

  /** Not all numerals of `k` digits can be taken when there are more of them than codes. */
  lemma SomeCandidateFree(base: string, existing: set<string>, k: nat)
    requires |base| <= 12 && k > 0 && 9 * Pow10(k - 1) > |existing|
    ensures exists i :: 0 <= i < Pow10(k) && Candidate(base, i) !in existing
  {
    var from, n := Pow10(k - 1), 9 * Pow10(k - 1);
    forall i, j | from <= i < j < from + n ensures Candidate(base, i) != Candidate(base, j) {
      NumeralLength(i, k);
      NumeralLength(j, k);
      SameLengthCandidatesDiffer(base, i, j);
    }
    if forall i :: from <= i < from + n ==> Candidate(base, i) in existing {
      Pigeonhole(base, from, n, existing);
    }
  }

  /** With fewer than 10000 codes about, the search stops within as many numbers as there are codes. */
  lemma FirstFreeBound(base: string, existing: set<string>, k: nat)
    requires |base| <= 12 && FirstFree(base, existing, k) && |existing| < 10000
    ensures k <= |existing| && Candidate(base, k) == base + (if k == 0 then "" else Decimal(k))
  {
    if k > |existing| {
      var n := |existing| + 1;
      forall i, j | 0 <= i < j < 0 + n ensures Candidate(base, i) != Candidate(base, j) {
        ShortCandidatesDiffer(base, i, j);
      }
      Pigeonhole(base, 0, n, existing);
    }
    ShortCandidate(base, if k <= |existing| then k else 0);
  }

  /** The number of codes from which sixteen characters no longer suffice for certain. */
  const ROOM: nat := 9_000_000_000_000_000

  lemma RoomIsFifteenZeros()
    ensures ROOM == 9 * Pow10(15)
  {
    assert Pow10(5) == 100000;
    assert Pow10(10) == 100000 * Pow10(5);
    assert Pow10(15) == 100000 * Pow10(10);
  }

  lemma {:induction false} EnoughDigits(n: nat)
    ensures 9 * Pow10(n) > n
  {
    if n > 0 {
      EnoughDigits(n - 1);
    }
  }

  lemma FirstFreeFits(base: string, existing: set<string>, k: nat)
    requires |base| <= 12 && FirstFree(base, existing, k) && |existing| < ROOM
    ensures |Candidate(base, k)| <= 16
  {
    RoomIsFifteenZeros();
    SomeCandidateFree(base, existing, 16);
    NumeralLength(k, 16);
  }

  /** The code found for a description, and the codes taken once it is found. */
  ghost predicate Generated(upper: string, existing: set<string>, code: string, taken: set<string>)
  {
    exists k :: FirstFree(Base(upper), existing, k)
      && taken == existing + {Candidate(Base(upper), k)} && code == UpTo(Candidate(Base(upper), k), 16)
  }

  /** The first free code of a description, in at most sixteen characters. */
  ghost predicate CodeFor(code: string, upper: string, existing: set<string>)
  {
    |code| <= 16 && exists k :: FirstFree(Base(upper), existing, k) && code == Candidate(Base(upper), k)
  }

  lemma GeneratedFresh(upper: string, existing: set<string>, code: string, taken: set<string>)
    requires Generated(upper, existing, code, taken) && |existing| < ROOM
    ensures code !in existing && taken == existing + {code} && CodeFor(code, upper, existing)
  {
    var k :| FirstFree(Base(upper), existing, k)
      && taken == existing + {Candidate(Base(upper), k)} && code == UpTo(Candidate(Base(upper), k), 16);
    FirstFreeFits(Base(upper), existing, k);
  }

  lemma SearchEnds(base: string, existing: set<string>)
    requires |base| <= 12
    ensures exists i: nat :: Candidate(base, i) !in existing
  {
    EnoughDigits(|existing|);
    SomeCandidateFree(base, existing, |existing| + 1);
  }

  /** Tries the base, then the base with 1, 2, 3, … behind it, until a code is not taken. */
  method SearchCode(clean: string, existing: set<string>) returns (code: string, ghost k: nat)
    requires |clean| <= 12
    ensures FirstFree(clean, existing, k) && code == Candidate(clean, k)
  {
    code := clean;
    var counter := 1;
    SearchEnds(clean, existing);
    ghost var free: nat :| Candidate(clean, free) !in existing;
    while code in existing
      invariant 1 <= counter <= free + 1
      invariant code == Candidate(clean, counter - 1)
      invariant forall j :: 0 <= j < counter - 1 ==> Candidate(clean, j) in existing
      decreases free + 1 - counter
    {
      var suffix := Decimal(counter);
      code := UpTo(clean, 16 - |suffix|) + suffix;
      counter := counter + 1;
    }
    k := counter - 1;
  }

  /** Searches a code that is not taken and takes it. */
  method GenerateItemCode(upper: string, existing: set<string>) returns (code: string, taken: set<string>)
    ensures Generated(upper, existing, code, taken) && code != "" && |code| <= 16
    ensures |existing| < ROOM ==> code !in existing && taken == existing + {code} && CodeFor(code, upper, existing)
  {
    var clean := UpTo(CodeChars(upper), 12);
    if clean == "" {
      clean := "ITEM";
    }
    ghost var k;
    code, k := SearchCode(clean, existing);
    taken := existing + {code};
    code := UpTo(code, 16);
    assert FirstFree(Base(upper), existing, k);
    if |existing| < ROOM {
      GeneratedFresh(upper, existing, code, taken);
    }
  }
}
