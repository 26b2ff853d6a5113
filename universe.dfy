/**
 The two universe-selection screens: the coarse liquidity/price/market screen and
 the fine value screen with its ranking by return on invested capital.
 */
module Universe {

  /** A security identifier; only its equality matters here. */
  type Symbol = string

  /** `Market.USA`. */
  const USA: string := "usa"
  /** Trailing dollar volume a candidate must exceed. */
  const MinDollarVolume: real := 1000000.0
  /** Price a candidate must exceed. */
  const MinPrice: real := 5.0
  /** PE / five-year-average PE must stay below this. */
  const MaxValueRatio: real := 0.7
  /** How many ranked candidates form the target portfolio. */
  const PortfolioSize: nat := 10

  // ---------------------------------------------------------------- coarse

  /** The fields of a coarse-universe record the screen reads. */
  datatype CoarseFundamental = CoarseFundamental(symbol: Symbol, market: string, dollarVolume: real, price: real)

  predicate PassesCoarse(c: CoarseFundamental) {
    c.market == USA && c.dollarVolume > MinDollarVolume && c.price > MinPrice
  }

  /** `from cf in coarse where PassesCoarse(cf) select cf.Symbol`. */
  function CoarseSelection(coarse: seq<CoarseFundamental>): seq<Symbol> {
    if coarse == [] then []
    else
      var last := coarse[|coarse| - 1];
      CoarseSelection(coarse[..|coarse| - 1]) + (if PassesCoarse(last) then [last.symbol] else [])
  }

  /** The selection of a concatenation is the concatenation of the selections: order is kept. */
  lemma {:induction false} CoarseSelectionAppend(a: seq<CoarseFundamental>, b: seq<CoarseFundamental>)
    ensures CoarseSelection(a + b) == CoarseSelection(a) + CoarseSelection(b)
    decreases |b|
  {
    if b == [] {
      assert a + b == a;
    } else {
      var b' := b[..|b| - 1];
      assert (a + b)[..|a + b| - 1] == a + b';
      CoarseSelectionAppend(a, b');
    }
  }

  /** A symbol is selected exactly when some candidate carrying it passes the screen. */
  lemma {:induction false} CoarseSelectionMembers(coarse: seq<CoarseFundamental>, x: Symbol)
    ensures x in CoarseSelection(coarse) <==> exists i :: 0 <= i < |coarse| && PassesCoarse(coarse[i]) && coarse[i].symbol == x
    decreases |coarse|
  {
    if coarse != [] {
      var init := coarse[..|coarse| - 1];
      CoarseSelectionMembers(init, x);
      if x in CoarseSelection(init) {
        var i :| 0 <= i < |init| && PassesCoarse(init[i]) && init[i].symbol == x;
        assert coarse[i] == init[i];
      }
      if exists i :: 0 <= i < |coarse| && PassesCoarse(coarse[i]) && coarse[i].symbol == x {
        var i :| 0 <= i < |coarse| && PassesCoarse(coarse[i]) && coarse[i].symbol == x;
        if i < |init| {
          assert init[i] == coarse[i];
        }
      }
    }
  }

  /** At most one symbol per candidate. */
  lemma {:induction false} CoarseSelectionLength(coarse: seq<CoarseFundamental>)
    ensures |CoarseSelection(coarse)| <= |coarse|
    decreases |coarse|
  {
    if coarse != [] {
      CoarseSelectionLength(coarse[..|coarse| - 1]);
    }
  }

  // ---------------------------------------------------------------- fine

  /** The fields of a fine-universe (fundamental) record the screen reads. */
  datatype FineFundamental = FineFundamental(symbol: Symbol, peRatio: real, pe5YearAverage: real, roic: real)

  /** The (symbol, ROIC) pair the fine screen collects for each record it admits. */
  datatype Candidate = Candidate(symbol: Symbol, roic: real)

  /** Both ratios positive and the PE at less than 70% of its five-year average. */
  predicate IsCheap(f: FineFundamental) {
    f.pe5YearAverage > 0.0 && f.peRatio > 0.0 && f.peRatio / f.pe5YearAverage < MaxValueRatio
  }

  function CandidateOf(f: FineFundamental): Candidate {
    Candidate(f.symbol, f.roic)
  }

  /** The pairs collected, in input order, from the records that pass the value screen. */
  function Candidates(fine: seq<FineFundamental>): seq<Candidate> {
    if fine == [] then []
    else
      var last := fine[|fine| - 1];
      Candidates(fine[..|fine| - 1]) + (if IsCheap(last) then [CandidateOf(last)] else [])
  }

  /** Some record of `fine` passes the value screen and yields `c`. */
  ghost predicate FromCheapRecord(fine: seq<FineFundamental>, c: Candidate) {
    exists i :: 0 <= i < |fine| && IsCheap(fine[i]) && CandidateOf(fine[i]) == c
  }

  /** A pair is collected exactly when some cheap record yields it. */
  lemma {:induction false} CandidatesMembers(fine: seq<FineFundamental>, c: Candidate)
    ensures c in Candidates(fine) <==> FromCheapRecord(fine, c)
    decreases |fine|
  {
    if fine != [] {
      var init := fine[..|fine| - 1];
      CandidatesMembers(init, c);
      if c in Candidates(init) {
        var i :| 0 <= i < |init| && IsCheap(init[i]) && CandidateOf(init[i]) == c;
        assert fine[i] == init[i];
      }
      if FromCheapRecord(fine, c) {
        var i :| 0 <= i < |fine| && IsCheap(fine[i]) && CandidateOf(fine[i]) == c;
        if i < |init| {
          assert init[i] == fine[i];
        }
      }
    }
  }

  /** The same for a concatenation: collection keeps input order. */
  lemma {:induction false} CandidatesAppend(a: seq<FineFundamental>, b: seq<FineFundamental>)
    ensures Candidates(a + b) == Candidates(a) + Candidates(b)
    decreases |b|
  {
    if b == [] {
      assert a + b == a;
    } else {
      var b' := b[..|b| - 1];
      assert (a + b)[..|a + b| - 1] == a + b';
      CandidatesAppend(a, b');
    }
  }

  // ---------------------------------------------------------------- ranking

  /** ROIC never increases along `s`. */
  predicate NonIncreasing(s: seq<Candidate>) {
    forall i, j :: 0 <= i < j < |s| ==> s[j].roic <= s[i].roic
  }

  /** The elements of `s` whose ROIC is `k`, in order; stability is about these. */
  function WithRoic(s: seq<Candidate>, k: real): seq<Candidate> {
    if s == [] then []
    else (if s[0].roic == k then [s[0]] else []) + WithRoic(s[1..], k)
  }

  /**
   Puts `c` after every element of a larger ROIC and before the rest, so that it
   stays ahead of the elements of equal ROIC that followed it in the input.
   */
  function Insert(c: Candidate, s: seq<Candidate>): seq<Candidate> {
    if s == [] || s[0].roic <= c.roic then [c] + s
    else [s[0]] + Insert(c, s[1..])
  }

  /** `OrderByDescending(roic)`: a stable sort, ROIC descending. */
  function SortByRoic(s: seq<Candidate>): seq<Candidate> {
    if s == [] then [] else Insert(s[0], SortByRoic(s[1..]))
  }

  lemma {:induction false} InsertPermutes(c: Candidate, s: seq<Candidate>)
    ensures multiset(Insert(c, s)) == multiset(s) + multiset{c}
    decreases |s|
  {
    if s != [] && s[0].roic > c.roic {
      InsertPermutes(c, s[1..]);
      assert s == [s[0]] + s[1..];
    }
  }

  lemma {:induction false} InsertSorted(c: Candidate, s: seq<Candidate>)
    requires NonIncreasing(s)
    ensures NonIncreasing(Insert(c, s))
    decreases |s|
  {
    if s != [] && s[0].roic > c.roic {
      var t := s[1..];
      InsertSorted(c, t);
      InsertPermutes(c, t);
      var ins := Insert(c, t);
      var r := [s[0]] + ins;
      assert Insert(c, s) == r;
      forall i, j | 0 <= i < j < |r| ensures r[j].roic <= r[i].roic {
        if i == 0 {
          assert r[j] == ins[j - 1];
          assert r[j] in multiset(ins);
          if r[j] != c {
            assert r[j] in multiset(t);
            var m :| 0 <= m < |t| && t[m] == r[j];
            assert s[m + 1] == t[m];
          }
        } else {
          assert r[i] == ins[i - 1] && r[j] == ins[j - 1];
        }
      }
    }
  }

  lemma {:induction false} InsertStable(c: Candidate, s: seq<Candidate>, k: real)
    ensures WithRoic(Insert(c, s), k) == WithRoic([c] + s, k)
    decreases |s|
  {
    if s == [] || s[0].roic <= c.roic {
    } else {
      var t := s[1..];
      InsertStable(c, t, k);
      var r := [s[0]] + Insert(c, t);
      assert Insert(c, s) == r;
      assert r[1..] == Insert(c, t);
      assert ([c] + s)[1..] == s;
      assert ([c] + t)[1..] == t;
      assert s == [s[0]] + t;
    }
  }

  /** The sort permutes its input, orders it by ROIC descending and keeps input order among equal ROICs. */
  lemma {:induction false} SortByRoicFacts(s: seq<Candidate>)
    ensures multiset(SortByRoic(s)) == multiset(s)
    ensures NonIncreasing(SortByRoic(s))
    ensures forall k :: WithRoic(SortByRoic(s), k) == WithRoic(s, k)
    decreases |s|
  {
    if s != [] {
      SortByRoicFacts(s[1..]);
      InsertPermutes(s[0], SortByRoic(s[1..]));
      InsertSorted(s[0], SortByRoic(s[1..]));
      assert s == [s[0]] + s[1..];
      forall k ensures WithRoic(SortByRoic(s), k) == WithRoic(s, k) {
        InsertStable(s[0], SortByRoic(s[1..]), k);
        var u := [s[0]] + SortByRoic(s[1..]);
        assert u[1..] == SortByRoic(s[1..]);
      }
    }
  }

  function Min(a: int, b: int): int {
    if a < b then a else b
  }

  /** `.OrderByDescending(roic).Take(PortfolioSize)` over the collected pairs. */
  function TopRanked(candidates: seq<Candidate>): seq<Candidate> {
    var sorted := SortByRoic(candidates);
    sorted[..Min(PortfolioSize, |sorted|)]
  }

  /** `.Select(symbol)`. */
  function SymbolsOf(cs: seq<Candidate>): (r: seq<Symbol>)
    ensures |r| == |cs| && forall i :: 0 <= i < |cs| ==> r[i] == cs[i].symbol
  {
    if cs == [] then [] else [cs[0].symbol] + SymbolsOf(cs[1..])
  }

  /** The target portfolio has min(10, #admitted) entries with ROIC non-increasing. */
  lemma TopRankedShape(cs: seq<Candidate>)
    ensures |TopRanked(cs)| == Min(PortfolioSize, |cs|)
    ensures NonIncreasing(TopRanked(cs))
  {
    SortByRoicFacts(cs);
    assert |SortByRoic(cs)| == |cs| by { assert |multiset(SortByRoic(cs))| == |multiset(cs)|; }
  }

  /** Every entry of the target portfolio comes from a record that passes the value screen. */
  lemma TopRankedScreened(fine: seq<FineFundamental>)
    ensures forall i :: 0 <= i < |TopRanked(Candidates(fine))| ==> FromCheapRecord(fine, TopRanked(Candidates(fine))[i])
  {
    var cs := Candidates(fine);
    SortByRoicFacts(cs);
    var sorted := SortByRoic(cs);
    var top := TopRanked(cs);
    forall i | 0 <= i < |top| ensures FromCheapRecord(fine, top[i]) {
      assert top[i] == sorted[i];
      assert top[i] in multiset(cs) by { assert sorted[i] in multiset(sorted); }
      CandidatesMembers(fine, top[i]);
    }
  }

  /** No admitted pair left out of the target portfolio has a larger ROIC than an entry of it. */
  lemma TopRankedIsTop(cs: seq<Candidate>)
    ensures forall c :: c in multiset(cs) - multiset(TopRanked(cs)) ==>
              forall i :: 0 <= i < |TopRanked(cs)| ==> c.roic <= TopRanked(cs)[i].roic
  {
    SortByRoicFacts(cs);
    var sorted := SortByRoic(cs);
    var n := Min(PortfolioSize, |sorted|);
    var top := sorted[..n];
    var rest := sorted[n..];
    assert sorted == top + rest;
    assert multiset(cs) == multiset(top) + multiset(rest);
    forall c | c in multiset(cs) - multiset(top) ensures forall i :: 0 <= i < |top| ==> c.roic <= top[i].roic {
      assert c in multiset(rest);
      var m :| 0 <= m < |rest| && rest[m] == c;
      assert sorted[n + m] == c;
    }
  }
}
