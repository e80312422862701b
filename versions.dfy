/**
  Dotted version strings and the update checker's comparator.

  A version string is split on '.', each part is read as a number, and two
  versions are compared part by part from the left, a missing part counting
  as 0.
 */
module Versions {

  type Version = seq<nat>

  /** The pieces of `s` between the dots, as string split on "." gives them. */
  function Split(s: string): (parts: seq<string>)
    ensures |parts| >= 1
    ensures forall k :: 0 <= k < |parts| ==> '.' !in parts[k]
  {
    if s == [] then [[]]
    else if s[0] == '.' then [[]] + Split(s[1..])
    else
      var rest := Split(s[1..]);
      [[s[0]] + rest[0]] + rest[1..]
  }

  /** The pieces glued together again with '.' between neighbours. */
  function Join(parts: seq<string>): string
    requires |parts| >= 1
  {
    if |parts| == 1 then parts[0] else parts[0] + "." + Join(parts[1..])
  }

  /** Splitting loses nothing: joining the pieces gives back the string. */
  lemma {:induction false} JoinSplit(s: string)
    ensures Join(Split(s)) == s
  {
    if s != [] {
      JoinSplit(s[1..]);
      var rest := Split(s[1..]);
      if s[0] != '.' {
        if |rest| == 1 {
          assert Split(s) == [[s[0]] + rest[0]];
        } else {
          assert Split(s)[1..] == rest[1..];
          assert Join(Split(s)) == [s[0]] + rest[0] + "." + Join(rest[1..]);
        }
      }
    }
  }

  /** The number of dots in `s`. */
  function Dots(s: string): nat
  {
    if s == [] then 0 else (if s[0] == '.' then 1 else 0) + Dots(s[1..])
  }

  /** Splitting finds one more piece than there are dots. */
  lemma {:induction false} SplitCount(s: string)
    ensures |Split(s)| == Dots(s) + 1
  {
    if s != [] {
      SplitCount(s[1..]);
    }
  }

  predicate IsDigit(c: char) { '0' <= c <= '9' }

  predicate AllDigits(s: string) { forall k :: 0 <= k < |s| ==> IsDigit(s[k]) }

  /** The decimal value of a string of digits; the most significant digit comes first. */
  function DigitsValue(s: string): (n: nat)
    requires AllDigits(s)
  {
    if s == [] then 0 else DigitsValue(s[..|s| - 1]) * 10 + (s[|s| - 1] as int - '0' as int)
  }

  /**
    One part as `Number(part) || 0` reads it: a string of digits gives its
    value, the empty string gives 0, and anything that is not a number
    (Number gives NaN) becomes 0.
   */
  function ParsePart(s: string): (n: nat)
    ensures !AllDigits(s) ==> n == 0
    ensures s == [] ==> n == 0
  {
    if AllDigits(s) then DigitsValue(s) else 0
  }

  /** A version string read part by part. */
  function ParseVersion(s: string): (v: Version)
    ensures |v| == |Split(s)| == Dots(s) + 1
    ensures forall k :: 0 <= k < |v| ==> v[k] == ParsePart(Split(s)[k])
  {
    SplitCount(s);
    var parts := Split(s);
    seq(|parts|, k requires 0 <= k < |parts| => ParsePart(parts[k]))
  }

  /** A leading zero changes nothing: `Number("01")` is 1, as `Number("1")` is. */
  lemma {:induction false} LeadingZero(s: string)
    requires AllDigits(s)
    ensures ParsePart(['0'] + s) == ParsePart(s)
  {
    var t := ['0'] + s;
    assert AllDigits(t) by {
      forall k | 0 <= k < |t| ensures IsDigit(t[k]) {
        if k > 0 { assert t[k] == s[k - 1]; }
      }
    }
    if s == [] {
      assert t[..0] == [];
    } else {
      var init := s[..|s| - 1];
      assert AllDigits(init) by {
        forall k | 0 <= k < |init| ensures IsDigit(init[k]) { assert init[k] == s[k]; }
      }
      LeadingZero(init);
      assert t[..|t| - 1] == ['0'] + init;
      assert t[|t| - 1] == s[|s| - 1];
      assert AllDigits(['0'] + init);
    }
  }

  /** The digit for 0 <= d < 10. */
  function Digit(d: nat): char
    requires d < 10
  {
    ('0' as int + d) as char
  }

  /** The decimal digits of n, most significant first, without leading zeros. */
  function Decimal(n: nat): string
  {
    if n < 10 then [Digit(n)] else Decimal(n / 10) + [Digit(n % 10)]
  }

  /** A version written out the way version strings are: decimal parts joined by '.'. */
  function Render(v: Version): string
    requires |v| >= 1
  {
    Join(seq(|v|, k requires 0 <= k < |v| => Decimal(v[k])))
  }

  /** A decimal string is non-empty, all digits, free of dots, and reads back as its number. */
  lemma {:induction false} DecimalReadsBack(n: nat)
    ensures Decimal(n) != [] && AllDigits(Decimal(n)) && '.' !in Decimal(n)
    ensures ParsePart(Decimal(n)) == n
  {
    if n >= 10 {
      DecimalReadsBack(n / 10);
      var s := Decimal(n);
      assert s[..|s| - 1] == Decimal(n / 10);
      assert DigitsValue(s) == DigitsValue(Decimal(n / 10)) * 10 + n % 10;
    } else {
      var s := Decimal(n);
      assert s == [Digit(n)] && s[..0] == [];
      assert DigitsValue(s) == n;
    }
  }

  /** Splitting a dot-free prefix extends the first piece only. */
  lemma {:induction false} SplitDotFree(p: string, x: string)
    requires '.' !in p
    ensures Split(p + x) == [p + Split(x)[0]] + Split(x)[1..]
  {
    if p != [] {
      var y := p + x;
      assert p[0] in p;
      assert y[0] == p[0] != '.' && y[1..] == p[1..] + x;
      SplitDotFree(p[1..], x);
      var rest := Split(y[1..]);
      assert Split(y) == [[y[0]] + rest[0]] + rest[1..];
      assert rest[0] == p[1..] + Split(x)[0] && rest[1..] == Split(x)[1..];
      assert [p[0]] + (p[1..] + Split(x)[0]) == p + Split(x)[0];
    } else {
      assert p + x == x && p + Split(x)[0] == Split(x)[0];
      assert Split(x) == [Split(x)[0]] + Split(x)[1..];
    }
  }

  /** Splitting undoes joining, for pieces that hold no dot. */
  lemma {:induction false} SplitJoin(parts: seq<string>)
    requires |parts| >= 1
    requires forall k :: 0 <= k < |parts| ==> '.' !in parts[k]
    ensures Split(Join(parts)) == parts
  {
    if |parts| == 1 {
      SplitDotFree(parts[0], []);
      assert parts[0] + [] == parts[0];
    } else {
      SplitJoin(parts[1..]);
      var rest := Join(parts[1..]);
      assert Join(parts) == parts[0] + ("." + rest);
      SplitDotFree(parts[0], "." + rest);
      var dotted := "." + rest;
      assert dotted[0] == '.' && dotted[1..] == rest;
      assert Split(dotted) == [[]] + Split(rest);
      assert Split(dotted)[0] == [] && Split(dotted)[1..] == parts[1..];
      assert parts[0] + [] == parts[0];
      assert parts == [parts[0]] + parts[1..];
    }
  }

  /** Parsing undoes rendering: every version survives being written out and read back. */
  lemma ParseRender(v: Version)
    requires |v| >= 1
    ensures ParseVersion(Render(v)) == v
  {
    var parts := seq(|v|, k requires 0 <= k < |v| => Decimal(v[k]));
    forall k | 0 <= k < |v| ensures '.' !in parts[k] && ParsePart(parts[k]) == v[k] {
      DecimalReadsBack(v[k]);
    }
    SplitJoin(parts);
  }

  /** The k-th part, 0 past the end (`parts[i] || 0`). */
  function Part(v: Version, k: nat): nat
  {
    if k < |v| then v[k] else 0
  }

  function Max(a: nat, b: nat): nat { if a < b then b else a }

  /** The comparator's loop from index k on. */
  function CompareFrom(a: Version, b: Version, k: nat): (r: int)
    ensures r == -1 || r == 0 || r == 1
    decreases Max(|a|, |b|) - k
  {
    if k >= Max(|a|, |b|) then 0
    else if Part(a, k) > Part(b, k) then 1
    else if Part(a, k) < Part(b, k) then -1
    else CompareFrom(a, b, k + 1)
  }

  /** compareVersions: 1 when a is newer, -1 when b is newer, 0 when they are the same version. */
  function Compare(a: Version, b: Version): (r: int)
    ensures r == -1 || r == 0 || r == 1
  {
    CompareFrom(a, b, 0)
  }

  /** compareVersions on the strings themselves. */
  function CompareStrings(s: string, t: string): (r: int)
    ensures r == -1 || r == 0 || r == 1
  {
    Compare(ParseVersion(s), ParseVersion(t))
  }

  /** The reference ordering: a is newer than b when at the first differing part a's is larger. */
  ghost predicate NewerAt(a: Version, b: Version, k: nat)
  {
    Part(a, k) > Part(b, k) && forall j :: 0 <= j < k ==> Part(a, j) == Part(b, j)
  }

  ghost predicate SameParts(a: Version, b: Version)
  {
    forall j: nat :: Part(a, j) == Part(b, j)
  }

  lemma PartsPastEnd(a: Version, b: Version, j: nat)
    requires j >= Max(|a|, |b|)
    ensures Part(a, j) == 0 && Part(b, j) == 0
  {
  }

  /** The comparator's loop agrees with the reference ordering from index k on. */
  lemma {:induction false} CompareFromSpec(a: Version, b: Version, k: nat)
    requires forall j :: 0 <= j < k ==> Part(a, j) == Part(b, j)
    ensures CompareFrom(a, b, k) == 1 <==> exists i: nat :: NewerAt(a, b, i)
    ensures CompareFrom(a, b, k) == -1 <==> exists i: nat :: NewerAt(b, a, i)
    ensures CompareFrom(a, b, k) == 0 <==> SameParts(a, b)
    decreases Max(|a|, |b|) - k
  {
    if k >= Max(|a|, |b|) {
      forall j: nat ensures Part(a, j) == Part(b, j) {
        if j >= k { PartsPastEnd(a, b, j); }
      }
      forall i: nat ensures !NewerAt(a, b, i) && !NewerAt(b, a, i) {
      }
    } else if Part(a, k) > Part(b, k) {
      assert NewerAt(a, b, k);
      forall i: nat ensures !NewerAt(b, a, i) {
        if i > k { assert Part(a, k) != Part(b, k); }
      }
      assert !SameParts(a, b) by { assert Part(a, k) != Part(b, k); }
    } else if Part(a, k) < Part(b, k) {
      assert NewerAt(b, a, k);
      forall i: nat ensures !NewerAt(a, b, i) {
        if i > k { assert Part(a, k) != Part(b, k); }
      }
      assert !SameParts(a, b) by { assert Part(a, k) != Part(b, k); }
    } else {
      CompareFromSpec(a, b, k + 1);
    }
  }

  /** Compare is exactly the reference ordering, in all three outcomes and both directions. */
  lemma CompareSpec(a: Version, b: Version)
    ensures Compare(a, b) == 1 <==> exists i: nat :: NewerAt(a, b, i)
    ensures Compare(a, b) == -1 <==> exists i: nat :: NewerAt(b, a, i)
    ensures Compare(a, b) == 0 <==> SameParts(a, b)
  {
    CompareFromSpec(a, b, 0);
  }

  /** Every version is the same as itself. */
  lemma CompareReflexive(a: Version)
    ensures Compare(a, a) == 0
  {
    CompareSpec(a, a);
  }

  /** Swapping the arguments negates the answer. */
  lemma CompareAntisymmetric(a: Version, b: Version)
    ensures Compare(a, b) == -Compare(b, a)
  {
    CompareSpec(a, b);
    CompareSpec(b, a);
  }

  /** A trailing zero part changes nothing: "1.0" and "1.0.0" are the same version. */
  lemma TrailingZero(a: Version, b: Version)
    ensures Compare(a + [0], b) == Compare(a, b)
  {
    assert forall j: nat :: Part(a + [0], j) == Part(a, j);
    CompareSpec(a, b);
    CompareSpec(a + [0], b);
    assert forall i: nat :: NewerAt(a + [0], b, i) <==> NewerAt(a, b, i);
    assert forall i: nat :: NewerAt(b, a + [0], i) <==> NewerAt(b, a, i);
  }

  /** Being newer is transitive. */
  lemma CompareTransitive(a: Version, b: Version, c: Version)
    requires Compare(a, b) == 1 && Compare(b, c) == 1
    ensures Compare(a, c) == 1
  {
    CompareSpec(a, b);
    CompareSpec(b, c);
    CompareSpec(a, c);
    var i: nat :| NewerAt(a, b, i);
    var j: nat :| NewerAt(b, c, j);
    var m := if i < j then i else j;
    assert NewerAt(a, c, m);
  }

  lemma SplitSamples()
    ensures Split("1.0") == ["1", "0"]
    ensures Split("1.0.0") == ["1", "0", "0"]
  {
    assert Split("0") == ["0"] by {
      assert "0"[1..] == [] && "0"[0] == '0';
      assert Split([]) == [[]];
      assert ['0'] + [] == "0";
    }
    assert Split(".0") == ["", "0"] by { assert ".0"[1..] == "0"; }
    assert Split("0.0") == ["0", "0"] by { assert "0.0"[1..] == ".0"; }
    assert Split(".0.0") == ["", "0", "0"] by { assert ".0.0"[1..] == "0.0"; }
    assert Split("1.0.0") == ["1", "0", "0"] by {
      assert "1.0.0"[1..] == ".0.0" && "1.0.0"[0] == '1';
      assert ['1'] + [] == "1";
    }
    assert Split("1.0") == ["1", "0"] by {
      assert "1.0"[1..] == ".0" && "1.0"[0] == '1';
      assert ['1'] + [] == "1";
    }
  }

  /** The parts of "1.0" and "1.0.0". */
  lemma ParseSamples()
    ensures ParseVersion("1.0") == [1, 0]
    ensures ParseVersion("1.0.0") == [1, 0, 0]
  {
    SplitSamples();
    assert DigitsValue("1") == 1;
    assert DigitsValue("0") == 0;
  }

  /** A part written with a leading zero is the same part: "1.01" and "1.1" compare equal. */
  lemma LeadingZeroSample()
    ensures CompareStrings("1.01", "1.1") == 0
  {
    var long, short := ["1", "01"], ["1", "1"];
    assert long[1..] == ["01"] && short[1..] == ["1"];
    assert Join(long) == "1.01" && Join(short) == "1.1";
    SplitJoin(long);
    SplitJoin(short);
    assert DigitsValue("1") == 1;
    LeadingZero("1");
    assert ['0'] + "1" == "01";
    assert ParseVersion("1.01") == ParseVersion("1.1");
    CompareReflexive(ParseVersion("1.1"));
  }

  /** "1.0" and "1.0.0" compare equal as strings too. */
  lemma ShortAndLongZeroVersions()
    ensures CompareStrings("1.0", "1.0.0") == 0
  {
    ParseSamples();
    TrailingZero([1, 0], [1, 0, 0]);
    CompareReflexive([1, 0, 0]);
  }
}
