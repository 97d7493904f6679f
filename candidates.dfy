/** The guessed image file names that discovery probes: img/{base}{n}.{ext}. */
module Candidates {
  const Bases: seq<string> := ["justin", "jb", "bieber"]
  const Exts: seq<string> := ["jpg", "jpeg", "png", "webp"]
  /** Numbers run from 1 to MaxNumber. */
  const MaxNumber: nat := 20
  const CandidateCount: nat := 240

  function DigitChar(d: nat): (c: char)
    requires d < 10
    ensures '0' <= c <= '9'
  {
    (('0' as int) + d) as char
  }

  /** The decimal text of n, as a template literal renders a number. */
  function Decimal(n: nat): (r: string)
    ensures |r| >= 1
    ensures n >= 10 ==> |r| >= 2
    ensures r[0] == '0' ==> n == 0
    ensures forall i :: 0 <= i < |r| ==> '0' <= r[i] <= '9'
  {
    if n < 10 then [DigitChar(n)] else Decimal(n / 10) + [DigitChar(n % 10)]
  }

  /** The number a run of decimal digits stands for, read from the most significant digit. */
  function Value(s: string): nat
    requires forall i :: 0 <= i < |s| ==> '0' <= s[i] <= '9'
  {
    if s == [] then 0 else 10 * Value(s[..|s| - 1]) + ((s[|s| - 1] as int) - ('0' as int))
  }

  /** The digits of Decimal(n) stand for n. */
  lemma {:induction false} ValueDecimal(n: nat)
    ensures Value(Decimal(n)) == n
  {
    var d := Decimal(n);
    if n < 10 {
      assert d[..0] == [];
    } else {
      assert d[..|d| - 1] == Decimal(n / 10);
      assert d[|d| - 1] == DigitChar(n % 10);
      ValueDecimal(n / 10);
    }
  }

  /** Different numbers have different decimal texts. */
  lemma DecimalInjective(n: nat, m: nat)
    requires Decimal(n) == Decimal(m)
    ensures n == m
  {
    ValueDecimal(n);
    ValueDecimal(m);
  }

  /** The path pushed for base b, number n and extension e. */
  function Candidate(b: nat, n: nat, e: nat): string
    requires b < |Bases| && e < |Exts|
  {
    "img/" + Bases[b] + Decimal(n) + "." + Exts[e]
  }

  /** A two-digit number is written in full, most significant digit first. */
  lemma CandidateExample()
    ensures Candidate(0, 10, 0) == "img/justin10.jpg"
    ensures Candidate(2, 20, 3) == "img/bieber20.webp"
  {
    assert Decimal(10) == "10" && Decimal(20) == "20";
  }

  /** The k-th entry of the list: base-major, then the number, then the extension. A base spans
      80 = MaxNumber * |Exts| entries and a number 4 = |Exts|; the sizes are literals so that the
      solver sees the index arithmetic as linear. */
  function CandidateAt(k: nat): string
    requires k < CandidateCount
  {
    Candidate(k / 80, k / 4 % 20 + 1, k % 4)
  }

  lemma IndexParts(b: nat, n: nat, e: nat)
    requires b < 3 && 1 <= n <= MaxNumber && e < 4
    ensures 80 * b + 4 * (n - 1) + e < CandidateCount
    ensures CandidateAt(80 * b + 4 * (n - 1) + e) == Candidate(b, n, e)
  {
    var k := 80 * b + 4 * (n - 1) + e;
    assert k / 80 == b;
    assert k / 4 == 20 * b + (n - 1);
    assert k / 4 % 20 == n - 1;
    assert k % 4 == e;
  }

  /** The nested loops over bases, numbers and extensions (script.js lines 111-115). */
  method BuildCandidates() returns (c: seq<string>)
    ensures |c| == CandidateCount
    ensures forall k :: 0 <= k < |c| ==> c[k] == CandidateAt(k)
  {
    c := [];
    for b := 0 to |Bases|
      invariant |c| == 80 * b
      invariant forall k :: 0 <= k < |c| ==> c[k] == CandidateAt(k)
    {
      for n := 1 to MaxNumber + 1
        invariant |c| == 80 * b + 4 * (n - 1)
        invariant forall k :: 0 <= k < |c| ==> c[k] == CandidateAt(k)
      {
        for e := 0 to |Exts|
          invariant |c| == 80 * b + 4 * (n - 1) + e
          invariant forall k :: 0 <= k < |c| ==> c[k] == CandidateAt(k)
        {
          IndexParts(b, n, e);
          c := c + [Candidate(b, n, e)];
        }
      }
    }
  }

  lemma DotLayout(d: string, e: string)
    ensures (d + "." + e)[|d|] == '.'
    ensures forall k :: 0 <= k < |d| ==> (d + "." + e)[k] == d[k]
  {
  }

  /** Splitting at the first dot: a digit string followed by "." determines both halves. */
  lemma SplitAtDot(d1: string, e1: string, d2: string, e2: string)
    requires forall i :: 0 <= i < |d1| ==> d1[i] != '.'
    requires forall i :: 0 <= i < |d2| ==> d2[i] != '.'
    requires d1 + "." + e1 == d2 + "." + e2
    ensures d1 == d2 && e1 == e2
  {
    var s := d1 + "." + e1;
    DotLayout(d1, e1);
    DotLayout(d2, e2);
    if |d1| < |d2| {
      assert false;
    } else if |d2| < |d1| {
      assert false;
    } else {
      assert d1 == s[..|d1|];
      assert d2 == (d2 + "." + e2)[..|d2|];
      assert e1 == s[|d1| + 1..];
      assert e2 == (d2 + "." + e2)[|d2| + 1..];
    }
  }

  /** The two letters after "img/" tell the bases apart, and the rest of the path follows the base. */
  lemma SplitAtBase(b1: nat, t1: string, b2: nat, t2: string)
    requires b1 < 3 && b2 < 3
    requires "img/" + Bases[b1] + t1 == "img/" + Bases[b2] + t2
    ensures b1 == b2 && t1 == t2
  {
    var s1, s2 := "img/" + Bases[b1] + t1, "img/" + Bases[b2] + t2;
    assert s1[4] == Bases[b1][0] && s1[5] == Bases[b1][1];
    assert s2[4] == Bases[b2][0] && s2[5] == Bases[b2][1];
    assert b1 == b2;
    assert t1 == s1[4 + |Bases[b1]|..];
    assert t2 == s2[4 + |Bases[b2]|..];
  }

  /** Different (base, number, extension) triples give different paths. */
  lemma CandidateInjective(b1: nat, n1: nat, e1: nat, b2: nat, n2: nat, e2: nat)
    requires b1 < 3 && e1 < 4 && b2 < 3 && e2 < 4
    requires Candidate(b1, n1, e1) == Candidate(b2, n2, e2)
    ensures b1 == b2 && n1 == n2 && e1 == e2
  {
    var t1 := Decimal(n1) + "." + Exts[e1];
    var t2 := Decimal(n2) + "." + Exts[e2];
    assert Candidate(b1, n1, e1) == "img/" + Bases[b1] + t1;
    assert Candidate(b2, n2, e2) == "img/" + Bases[b2] + t2;
    SplitAtBase(b1, t1, b2, t2);
    DecimalHasNoDot(n1);
    DecimalHasNoDot(n2);
    SplitAtDot(Decimal(n1), Exts[e1], Decimal(n2), Exts[e2]);
    DecimalInjective(n1, n2);
    ExtsDistinct(e1, e2);
  }

  lemma DecimalHasNoDot(n: nat)
    ensures forall i :: 0 <= i < |Decimal(n)| ==> Decimal(n)[i] != '.'
  {
  }

  lemma ExtsDistinct(e1: nat, e2: nat)
    requires e1 < 4 && e2 < 4 && Exts[e1] == Exts[e2]
    ensures e1 == e2
  {
    assert |Exts[1]| == 4 && |Exts[0]| == 3;
    assert Exts[0][0] != Exts[2][0] && Exts[0][0] != Exts[3][0] && Exts[2][0] != Exts[3][0];
  }

  lemma IndexFromParts(k: nat)
    requires k < CandidateCount
    ensures k == 80 * (k / 80) + 4 * (k / 4 % 20) + k % 4
  {
  }

  /** All 240 entries are distinct. */
  lemma CandidatesDistinct(i: nat, j: nat)
    requires i < CandidateCount && j < CandidateCount && i != j
    ensures CandidateAt(i) != CandidateAt(j)
  {
    IndexFromParts(i);
    IndexFromParts(j);
    if CandidateAt(i) == CandidateAt(j) {
      CandidateInjective(i / 80, i / 4 % 20 + 1, i % 4, j / 80, j / 4 % 20 + 1, j % 4);
    }
  }
}
