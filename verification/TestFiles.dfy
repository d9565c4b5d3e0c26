/** ajagent/internal/findtestfiles.go: the padded-decimal test file lookup. */
module TestFiles {
  import opened Text

  /** The names in the testset directory for which `os.Stat` succeeds. */
  type TestDir = set<string>

  datatype Pair = Pair(input: string, output: string)

  const WIDTHS: nat := 6

  /** The k-th spelling tried for index i: %d, %02d, ... , %06d. */
  function Spelling(i: nat, k: nat): string {
    Padded(i, k + 1)
  }

  function PairAt(i: nat, k: nat): Pair {
    Pair(Spelling(i, k) + ".in", Spelling(i, k) + ".out")
  }

  predicate Present(dir: TestDir, p: Pair) {
    p.input in dir && p.output in dir
  }

  function FindFrom(dir: TestDir, i: nat, from: nat): Option<Pair>
    requires from <= WIDTHS
    decreases WIDTHS - from
  {
    if from == WIDTHS then None
    else if Present(dir, PairAt(i, from)) then Some(PairAt(i, from))
    else FindFrom(dir, i, from + 1)
  }

  /** `findTestcaseFiles`: the loop over the six spellings, in order. */
  function FindTestcaseFiles(dir: TestDir, i: nat): Option<Pair> {
    FindFrom(dir, i, 0)
  }

  /** What is found is the first spelling, in the order tried, whose two files both exist. */
  ghost predicate IsFirstFrom(dir: TestDir, i: nat, from: nat, k: nat) {
    from <= k < WIDTHS && Present(dir, PairAt(i, k)) && forall j | from <= j < k :: !Present(dir, PairAt(i, j))
  }

  lemma {:induction false} FindsFirstFrom(dir: TestDir, i: nat, from: nat)
    requires from <= WIDTHS
    ensures forall k | IsFirstFrom(dir, i, from, k) :: FindFrom(dir, i, from) == Some(PairAt(i, k))
    ensures FindFrom(dir, i, from).Some? ==>
              exists k :: IsFirstFrom(dir, i, from, k) && FindFrom(dir, i, from) == Some(PairAt(i, k))
    ensures FindFrom(dir, i, from).None? <==> forall k | from <= k < WIDTHS :: !Present(dir, PairAt(i, k))
    decreases WIDTHS - from
  {
    if from < WIDTHS {
      FindsFirstFrom(dir, i, from + 1);
      if Present(dir, PairAt(i, from)) {
        assert IsFirstFrom(dir, i, from, from);
      } else if FindFrom(dir, i, from).Some? {
        var k :| IsFirstFrom(dir, i, from + 1, k) && FindFrom(dir, i, from + 1) == Some(PairAt(i, k));
        assert IsFirstFrom(dir, i, from, k);
      }
    }
  }

  lemma {:induction false} FindsFirst(dir: TestDir, i: nat)
    ensures forall k | IsFirstFrom(dir, i, 0, k) :: FindTestcaseFiles(dir, i) == Some(PairAt(i, k))
    ensures FindTestcaseFiles(dir, i).None? <==> forall k | 0 <= k < WIDTHS :: !Present(dir, PairAt(i, k))
  {
    FindsFirstFrom(dir, i, 0);
  }

  lemma {:induction false} FoundSpelling(dir: TestDir, i: nat) returns (k: nat)
    requires FindTestcaseFiles(dir, i).Some?
    ensures IsFirstFrom(dir, i, 0, k) && FindTestcaseFiles(dir, i) == Some(PairAt(i, k))
  {
    FindsFirstFrom(dir, i, 0);
    k :| IsFirstFrom(dir, i, 0, k) && FindFrom(dir, i, 0) == Some(PairAt(i, k));
  }

  predicate Exists(dir: TestDir, i: nat) {
    FindTestcaseFiles(dir, i).Some?
  }

  // ---- which names are found, by what they denote ----

  /** The digit strings that are tried for an index: all its numerals of up to six digits, and the one without leading zeros. */
  predicate IsTried(s: string, i: nat) {
    AllDigits(s) && NumberOf(s) == i && (|s| <= 6 || s[0] != '0')
  }

  predicate HasPair(dir: TestDir, s: string) {
    s + ".in" in dir && s + ".out" in dir
  }

  /** s is tried for i, both its files exist, and no shorter numeral tried has both. */
  ghost predicate IsShortest(dir: TestDir, i: nat, s: string) {
    IsTried(s, i) && HasPair(dir, s) && forall t | IsTried(t, i) && HasPair(dir, t) :: |s| <= |t|
  }

  lemma {:induction false} SpellingIsTried(i: nat, k: nat)
    requires i >= 1 && k < WIDTHS
    ensures IsTried(Spelling(i, k), i)
  {
    PaddedDenotes(i, k + 1);
    DecimalLeads(i);
  }

  lemma {:induction false} TriedIsSpelling(s: string, i: nat) returns (k: nat)
    requires i >= 1 && IsTried(s, i)
    ensures k < WIDTHS && s == Spelling(i, k) && |s| >= k + 1
  {
    NumeralIsPadded(s);
    if |s| <= 6 {
      k := |s| - 1;
    } else {
      NumeralIsDecimal(s);
      k := 5;
    }
  }

  lemma {:induction false} LongerSpelling(i: nat, k: nat, l: nat)
    requires k <= l
    ensures |Spelling(i, k)| <= |Spelling(i, l)|
    ensures |Spelling(i, k)| == |Spelling(i, l)| ==> Spelling(i, k) == Spelling(i, l)
  {
  }

  lemma {:induction false} FoundIsShortest(dir: TestDir, i: nat) returns (s: string)
    requires i >= 1 && Exists(dir, i)
    ensures IsShortest(dir, i, s) && FindTestcaseFiles(dir, i) == Some(Pair(s + ".in", s + ".out"))
  {
    var k := FoundSpelling(dir, i);
    s := Spelling(i, k);
    SpellingIsTried(i, k);
    forall t | IsTried(t, i) && HasPair(dir, t)
      ensures |s| <= |t|
    {
      var l := TriedIsSpelling(t, i);
      assert Present(dir, PairAt(i, l));
      LongerSpelling(i, k, if l < k then k else l);
    }
  }

  lemma {:induction false} TriedPairIsFound(dir: TestDir, i: nat, s: string)
    requires i >= 1 && IsTried(s, i) && HasPair(dir, s)
    ensures Exists(dir, i)
  {
    var k := TriedIsSpelling(s, i);
    FindsFirst(dir, i);
    assert Present(dir, PairAt(i, k));
  }

  lemma {:induction false} ShortestIsFound(dir: TestDir, i: nat, s: string)
    requires i >= 1 && IsShortest(dir, i, s)
    ensures FindTestcaseFiles(dir, i) == Some(Pair(s + ".in", s + ".out"))
  {
    TriedPairIsFound(dir, i, s);
    var t := FoundIsShortest(dir, i);
    NumeralIsPadded(s);
    NumeralIsPadded(t);
  }

  /**
   * A test i exists exactly if some numeral of i, of at most six digits or without leading
   * zeros, names an input and an output file; what is found is the shortest such pair.
   */
  lemma {:induction false} FindsShortestNumeral(dir: TestDir, i: nat)
    requires i >= 1
    ensures Exists(dir, i) <==> exists s :: IsTried(s, i) && HasPair(dir, s)
    ensures forall s | IsShortest(dir, i, s) :: FindTestcaseFiles(dir, i) == Some(Pair(s + ".in", s + ".out"))
    ensures Exists(dir, i) ==> exists s :: IsShortest(dir, i, s)
  {
    if Exists(dir, i) {
      var s := FoundIsShortest(dir, i);
    }
    forall s | IsTried(s, i) && HasPair(dir, s)
      ensures Exists(dir, i)
    {
      TriedPairIsFound(dir, i, s);
    }
    forall s | IsShortest(dir, i, s)
      ensures FindTestcaseFiles(dir, i) == Some(Pair(s + ".in", s + ".out"))
    {
      ShortestIsFound(dir, i, s);
    }
  }

  // ---- distinct indices never share a spelling ----

  /** A name of the form <digits>.in */
  predicate IsInput(name: string) {
    HasSuffix(name, ".in")
  }

  /** The index an input name can stand for. */
  function IndexOf(name: string): Option<nat> {
    if IsInput(name) && AllDigits(name[..|name| - 3]) then Some(NumberOf(name[..|name| - 3])) else None
  }

  lemma {:induction false} InputNamesIndex(i: nat, k: nat)
    ensures IsInput(PairAt(i, k).input) && IndexOf(PairAt(i, k).input) == Some(i)
  {
    var name := PairAt(i, k).input;
    PaddedDenotes(i, k + 1);
    assert name[..|name| - 3] == Spelling(i, k);
    assert name[|name| - 3..] == ".in";
  }

  /** No spelling of one index is a spelling of another, for any two indices and any two of the six widths. */
  lemma {:induction false} SpellingsNeverCoincide(i: nat, k: nat, j: nat, l: nat)
    requires i != j
    ensures Spelling(i, k) != Spelling(j, l)
    ensures PairAt(i, k).input != PairAt(j, l).input
  {
    InputNamesIndex(i, k);
    InputNamesIndex(j, l);
  }

  /** A pair found for an index carries that index in its name. */
  lemma {:induction false} FoundNamesIndex(dir: TestDir, i: nat)
    requires Exists(dir, i)
    ensures FindTestcaseFiles(dir, i).value.input in dir
    ensures FindTestcaseFiles(dir, i).value.output in dir
    ensures IsInput(FindTestcaseFiles(dir, i).value.input)
    ensures IndexOf(FindTestcaseFiles(dir, i).value.input) == Some(i)
  {
    var k := FoundSpelling(dir, i);
    InputNamesIndex(i, k);
  }

  // ---- the maximal contiguous run of existing pairs ----

  /** The input files an iteration with index i or later could still use. */
  function Unused(dir: TestDir, i: nat): set<string> {
    set name | name in dir && IndexOf(name).Some? && IndexOf(name).value >= i
  }

  lemma {:induction false} StrictSubsetIsSmaller<T>(a: set<T>, b: set<T>)
    requires a < b
    ensures |a| < |b|
  {
    var d := b - a;
    assert b == a + d && a !! d;
    assert d != {};
  }

  lemma {:induction false} UsingOneShrinks(dir: TestDir, i: nat)
    requires Exists(dir, i)
    ensures Unused(dir, i + 1) < Unused(dir, i)
    ensures |Unused(dir, i + 1)| < |Unused(dir, i)|
  {
    FoundNamesIndex(dir, i);
    var name := FindTestcaseFiles(dir, i).value.input;
    assert name in Unused(dir, i) && name !in Unused(dir, i + 1);
    StrictSubsetIsSmaller(Unused(dir, i + 1), Unused(dir, i));
  }

  /** One past the last index of the contiguous run that starts at i. */
  function RunEnd(dir: TestDir, i: nat): (e: nat)
    ensures i <= e && !Exists(dir, e)
    ensures forall j | i <= j < e :: Exists(dir, j)
    ensures e - i <= |Unused(dir, i)|
    decreases |Unused(dir, i)|
  {
    if Exists(dir, i) then
      UsingOneShrinks(dir, i);
      RunEnd(dir, i + 1)
    else i
  }

  /** n: how many pairs 1, 2, ..., n exist without a gap. */
  function TestCount(dir: TestDir): (n: nat)
    ensures forall j | 1 <= j <= n :: Exists(dir, j)
    ensures !Exists(dir, n + 1)
  {
    RunEnd(dir, 1) - 1
  }

  /** The run is no longer than the number of `.in` names in the directory. */
  lemma {:induction false} RunIsBoundedByInputs(dir: TestDir)
    ensures TestCount(dir) <= |set name | name in dir && IsInput(name)|
  {
    var ins := set name | name in dir && IsInput(name);
    assert Unused(dir, 1) <= ins;
    if Unused(dir, 1) != ins {
      StrictSubsetIsSmaller(Unused(dir, 1), ins);
    }
  }

  lemma {:induction false} EmptyHasNoTests()
    ensures TestCount({}) == 0
  {
    RunIsBoundedByInputs({});
    assert (set name | name in {} && IsInput(name)) == {};
  }
}
