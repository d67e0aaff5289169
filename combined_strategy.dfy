/** The combined fuzzy strategy: rank every registry row by a token-sort score
    of its name, alternate names, postal code and city against the invoice's
    name, postal code and city; keep the strong matches; keep the weak matches
    whose street is close to the invoice's street. */
module CombinedStrategy {
  import opened Wrappers
  import opened Text
  import opened Seqs
  import opened Scoring
  import opened Registry
  import opened Invoices

  /** `fuzzy_search_combined(threshold=90, alternative=60, limit=10)` and
      `refine_results(threshold=80)`. */
  const StrongThreshold := 90
  const WeakThreshold := 60
  const TopLimit: nat := 10
  const StreetThreshold := 80

  // ---------------------------------------------------------------------------
  // The texts that are compared

  /** `combine_name_address(row)`: name, alternate names, postal code and city,
      empty ones left out, repeated tokens dropped. */
  function CombineNameAddress(row: Company): string {
    UniqueWords(JoinNonEmpty([row.name, row.name1, row.name2, row.postalCode, row.city]))
  }

  /** The derived `Combined` column, one entry per registry row. */
  function CombinedColumn(registry: seq<Company>): (column: seq<string>)
    ensures |column| == |registry|
  {
    seq(|registry|, i requires 0 <= i < |registry| => CombineNameAddress(registry[i]))
  }

  /** The initial query before `unique_words`: the case-folded name, postal
      code and city, empty ones left out. */
  function InitialQueryText(companyName: string, components: map<string, string>): string {
    JoinNonEmpty([Lower(companyName),
                  Lower(TextOrEmpty(components, "postalCode")),
                  Lower(TextOrEmpty(components, "city"))])
  }

  /** The refinement query before `unique_words`. It reads the component
      `house`, not `houseNumber`, so in practice only `streetAddress` counts. */
  function RefineQueryText(components: map<string, string>): string {
    JoinNonEmpty([Lower(TextOrEmpty(components, "house")),
                  Lower(TextOrEmpty(components, "streetAddress"))])
  }

  function Tokens5(a: string, b: string, c: string, d: string, e: string): seq<string> {
    Split(a) + Split(b) + Split(c) + Split(d) + Split(e)
  }

  /** The combined text of a row is, token for token, the distinct tokens of
      its five fields in first-occurrence order, separated by single spaces;
      an empty field contributes nothing. */
  lemma CombineNameAddressTokens(row: Company)
    ensures Split(CombineNameAddress(row))
            == Dedup(Tokens5(row.name, row.name1, row.name2, row.postalCode, row.city))
    ensures CombineNameAddress(row) == Join(Split(CombineNameAddress(row)))
  {
    var parts := [row.name, row.name1, row.name2, row.postalCode, row.city];
    JoinNonEmptyTokens(parts);
    TokensOfFive(row.name, row.name1, row.name2, row.postalCode, row.city);
    UniqueWordsTokens(JoinNonEmpty(parts));
  }

  lemma TokensOfFive(a: string, b: string, c: string, d: string, e: string)
    ensures Tokens([a, b, c, d, e]) == Tokens5(a, b, c, d, e)
  {
    var parts := [a, b, c, d, e];
    assert parts[4..] == [e] && parts[3..] == [d, e] && parts[2..] == [c, d, e] && parts[1..] == [b, c, d, e];
    assert Tokens([e]) == Split(e) + Tokens([]);
    assert Tokens([d, e]) == Split(d) + Tokens([e]);
    assert Tokens([c, d, e]) == Split(c) + Tokens([d, e]);
    assert Tokens([b, c, d, e]) == Split(b) + Tokens([c, d, e]);
  }

  /** Only `streetAddress` reaches the refinement query: the house number never does. */
  lemma RefineQueryIgnoresHouseNumber(components: map<string, string>, houseNumber: string)
    ensures RefineQueryText(components["houseNumber" := houseNumber]) == RefineQueryText(components)
    ensures "house" !in components ==>
              Split(UniqueWords(RefineQueryText(components)))
              == Dedup(Split(Lower(TextOrEmpty(components, "streetAddress"))))
  {
    if "house" !in components {
      var street := Lower(TextOrEmpty(components, "streetAddress"));
      var parts := ["", street];
      assert Lower("") == "";
      assert RefineQueryText(components) == JoinNonEmpty(parts);
      JoinNonEmptyTokens(parts);
      assert parts[1..] == [street];
      assert Tokens(parts) == Split("") + Tokens([street]);
      assert Tokens([street]) == Split(street) + Tokens([]);
      assert Split(JoinNonEmpty(parts)) == Split(street);
      UniqueWordsTokens(RefineQueryText(components));
    }
  }

  // ---------------------------------------------------------------------------
  // fuzzy_search_combined

  /** The top-ranked choices split into strong and weak ones, in rank order. */
  datatype Hits = Hits(strong: seq<Scored>, weak: seq<Scored>)

  function IsStrong(threshold: int): Scored -> bool {
    (h: Scored) => h.score >= threshold
  }

  function IsWeak(threshold: int, alternative: int): Scored -> bool {
    (h: Scored) => h.score >= alternative && h.score < threshold
  }

  function SplitHits(top: seq<Scored>, threshold: int, alternative: int): Hits {
    Hits(Filter(top, IsStrong(threshold)), Filter(top, IsWeak(threshold, alternative)))
  }

  /** The `limit` best rows by token-sort score, split into strong and weak. */
  function RankedHits(query: string, combined: seq<string>, sc: Scorers,
                      threshold: int, alternative: int, limit: nat): Hits
  {
    SplitHits(Extract(query, combined, sc.tokenSortRatio, limit), threshold, alternative)
  }

  /** `df.iloc[key]` for each hit. */
  function RowsAt(table: seq<Company>, hits: seq<Scored>): seq<Company>
    requires forall h :: h in hits ==> h.index < |table|
  {
    seq(|hits|, j requires 0 <= j < |hits| => table[hits[j].index])
  }

  /** `fuzzy_search_combined(query, df, threshold, alternative, limit)`: the
      strong rows and the weak rows. */
  function FuzzySearchCombined(query: string, table: seq<Company>, combined: seq<string>, sc: Scorers,
                               threshold: int, alternative: int, limit: nat): (seq<Company>, seq<Company>)
    requires |combined| == |table|
  {
    ExtractFacts(query, combined, sc.tokenSortRatio, limit);
    var hits := RankedHits(query, combined, sc, threshold, alternative, limit);
    (RowsAt(table, hits.strong), RowsAt(table, hits.weak))
  }

  /** Strong and weak hits are scored within their bands (so a score of
      exactly `threshold` is strong), never share a row, and together hold at
      most `limit` rows. */
  lemma RankedHitsPartition(query: string, combined: seq<string>, sc: Scorers,
                            threshold: int, alternative: int, limit: nat)
    ensures var hits := RankedHits(query, combined, sc, threshold, alternative, limit);
            && (forall h :: h in hits.strong ==> h.score >= threshold)
            && (forall h :: h in hits.weak ==> alternative <= h.score < threshold)
            && (forall h, g :: h in hits.strong && g in hits.weak ==> h.index != g.index)
            && |hits.strong| + |hits.weak| <= limit
  {
    var top := Extract(query, combined, sc.tokenSortRatio, limit);
    var hits := RankedHits(query, combined, sc, threshold, alternative, limit);
    ExtractFacts(query, combined, sc.tokenSortRatio, limit);
    FilterExclusiveCount(top, IsStrong(threshold), IsWeak(threshold, alternative));
    forall h, g | h in hits.strong && g in hits.weak
      ensures h.index != g.index
    {
      var a :| 0 <= a < |top| && top[a] == h;
      var b :| 0 <= b < |top| && top[b] == g;
      assert a != b;
    }
  }

  /** Every top-ranked row with a score of at least `threshold` is strong, and
      every one scoring in [alternative, threshold) is weak. */
  lemma RankedHitsComplete(query: string, combined: seq<string>, sc: Scorers,
                           threshold: int, alternative: int, limit: nat)
    ensures var top := Extract(query, combined, sc.tokenSortRatio, limit);
            var hits := RankedHits(query, combined, sc, threshold, alternative, limit);
            && (forall h :: h in top ==> (h in hits.strong <==> h.score >= threshold))
            && (forall h :: h in top ==> (h in hits.weak <==> alternative <= h.score < threshold))
  {
    var top := Extract(query, combined, sc.tokenSortRatio, limit);
    var hits := RankedHits(query, combined, sc, threshold, alternative, limit);
    FilterAtPositions(top, IsStrong(threshold));
    FilterAtPositions(top, IsWeak(threshold, alternative));
    forall h | h in top
      ensures (h in hits.strong <==> h.score >= threshold)
      ensures (h in hits.weak <==> alternative <= h.score < threshold)
    {
      var i :| 0 <= i < |top| && top[i] == h;
      if h.score >= threshold {
        var P := Positions(top, IsStrong(threshold));
        var j :| 0 <= j < |P| && P[j] == i;
        assert hits.strong[j] == h;
      }
      if alternative <= h.score < threshold {
        var P := Positions(top, IsWeak(threshold, alternative));
        var j :| 0 <= j < |P| && P[j] == i;
        assert hits.weak[j] == h;
      }
    }
  }

  /** Every hit is a top-ranked row carrying its own score, and no row left
      out of the top scores more than any hit. */
  lemma RankedHitsAreTopRows(query: string, combined: seq<string>, sc: Scorers,
                             threshold: int, alternative: int, limit: nat)
    ensures var top := Extract(query, combined, sc.tokenSortRatio, limit);
            var hits := RankedHits(query, combined, sc, threshold, alternative, limit);
            && (forall h :: h in hits.strong || h in hits.weak ==>
                  h in top && h.index < |combined| && h.score == sc.tokenSortRatio(query, combined[h.index]))
            && (forall h, i :: (h in hits.strong || h in hits.weak) && 0 <= i < |combined| ==>
                  Scored(i, sc.tokenSortRatio(query, combined[i])) in top
                  || sc.tokenSortRatio(query, combined[i]) <= h.score)
  {
    ExtractFacts(query, combined, sc.tokenSortRatio, limit);
  }

  // ---------------------------------------------------------------------------
  // refine_results and append_final_results_to_matches

  function CloseOn(column: Column, query: string, sc: Scorers, threshold: int): Company -> bool {
    (record: Company) => sc.tokenSetRatio(Cell(record, column), query) >= threshold
  }

  /** `[record for record in initial if token_set_ratio(record[column], query) >= threshold]`. */
  function Refined(initial: seq<Company>, column: Column, query: string, sc: Scorers, threshold: int): seq<Company> {
    Filter(initial, CloseOn(column, query, sc, threshold))
  }

  /** `refine_results`: the loop overwrites its result for every query, so
      only the last one counts; with no query at all the result is unbound. */
  method RefineResults(initial: seq<Company>, addressQueries: seq<(Column, string)>, sc: Scorers, threshold: int)
    returns (r: Option<seq<Company>>)
    ensures addressQueries == [] ==> r == None
    ensures addressQueries != [] ==>
              var (column, query) := addressQueries[|addressQueries| - 1];
              r == Some(Refined(initial, column, query, sc, threshold))
  {
    r := None;
    for i := 0 to |addressQueries|
      invariant i == 0 ==> r == None
      invariant i > 0 ==> r == Some(Refined(initial, addressQueries[i - 1].0, addressQueries[i - 1].1, sc, threshold))
    {
      var (column, query) := addressQueries[i];
      var refinedResults := Refined(initial, column, query, sc, threshold);
      r := Some(refinedResults);
    }
  }

  /** Refining by the street keeps exactly the records whose street has a
      token-set score of at least 80 against the query, in their order. */
  lemma RefinedByStreet(initial: seq<Company>, query: string, sc: Scorers)
    ensures var P := Positions(initial, CloseOn(StreetColumn, query, sc, StreetThreshold));
            var R := Refined(initial, StreetColumn, query, sc, StreetThreshold);
            && |R| == |P| && StrictlyIncreasing(P)
            && (forall j :: 0 <= j < |P| ==> P[j] < |initial| && R[j] == initial[P[j]])
            && (forall i :: 0 <= i < |initial| ==>
                  (i in P <==> sc.tokenSetRatio(initial[i].street, query) >= 80))
  {
    var keep := CloseOn(StreetColumn, query, sc, StreetThreshold);
    FilterAtPositions(initial, keep);
    forall i | 0 <= i < |initial|
      ensures keep(initial[i]) == (sc.tokenSetRatio(initial[i].street, query) >= 80)
    {
      assert Cell(initial[i], StreetColumn) == initial[i].street;
    }
  }

  /** The refined records are a subsequence of the initial ones. */
  lemma RefinedIsSubseq(initial: seq<Company>, column: Column, query: string, sc: Scorers, threshold: int)
    ensures IsSubseq(Refined(initial, column, query, sc, threshold), initial)
  {
    var keep := CloseOn(column, query, sc, threshold);
    FilterMonotone(initial, keep, _ => true);
    FilterKeepAll(initial);
  }

  lemma {:induction false} FilterKeepAll(s: seq<Company>)
    ensures Filter(s, _ => true) == s
    decreases |s|
  {
    if s != [] {
      FilterKeepAll(s[..|s| - 1]);
      assert s == s[..|s| - 1] + [s[|s| - 1]];
    }
  }

  /** `append_final_results_to_matches`: appends one entry per record to the
      list it is given; nothing already there is removed, nothing is merged. */
  method AppendFinalResults(result: seq<Company>, finalResults: seq<MatchResult>)
    returns (r: seq<MatchResult>)
    ensures r == finalResults + ToResults(result)
  {
    r := finalResults;
    for i := 0 to |result|
      invariant r == finalResults + ToResults(result[..i])
    {
      assert ToResults(result[..i + 1]) == ToResults(result[..i]) + [ResultOf(result[i])];
      r := r + [MatchResult(result[i].code, result[i].name)];
    }
    assert result[..|result|] == result;
  }

  // ---------------------------------------------------------------------------
  // execute

  /** The entries `execute` returns: the strong rows, then the weak rows that
      pass the street refinement. */
  function CombinedMatches(registry: seq<Company>, companyName: string, components: map<string, string>,
                           sc: Scorers): seq<MatchResult>
  {
    var (best, alternative) := FuzzySearchCombined(
      UniqueWords(InitialQueryText(companyName, components)), registry, CombinedColumn(registry), sc,
      StrongThreshold, WeakThreshold, TopLimit);
    ToResults(best)
    + ToResults(Refined(alternative, StreetColumn, UniqueWords(RefineQueryText(components)), sc, StreetThreshold))
  }

  /** A strong row: its combined text scores at least 90 against the query. */
  predicate StrongRow(row: Company, query: string, sc: Scorers) {
    sc.tokenSortRatio(query, CombineNameAddress(row)) >= StrongThreshold
  }

  /** A weak row that passes refinement: its combined text scores from 60 up
      to below 90 against the query, and its street scores at least 80
      against the refinement query. */
  predicate RefinedRow(row: Company, query: string, streetQuery: string, sc: Scorers) {
    var score := sc.tokenSortRatio(query, CombineNameAddress(row));
    WeakThreshold <= score < StrongThreshold
    && sc.tokenSetRatio(row.street, streetQuery) >= StreetThreshold
  }

  /** A row's entry is justified when the row is strong or a refined weak row. */
  predicate Justified(row: Company, query: string, streetQuery: string, sc: Scorers) {
    StrongRow(row, query, sc) || RefinedRow(row, query, streetQuery, sc)
  }

  /** An entry belongs to a strong registry row. */
  ghost predicate StrongEntry(registry: seq<Company>, m: MatchResult, query: string, sc: Scorers) {
    exists i :: 0 <= i < |registry| && m == ResultOf(registry[i]) && StrongRow(registry[i], query, sc)
  }

  /** An entry belongs to a weak registry row that passes refinement. */
  ghost predicate RefinedEntry(registry: seq<Company>, m: MatchResult, query: string, streetQuery: string,
                               sc: Scorers) {
    exists i :: 0 <= i < |registry| && m == ResultOf(registry[i]) && RefinedRow(registry[i], query, streetQuery, sc)
  }

  /** An entry belongs to a justified registry row. */
  ghost predicate JustifiedEntry(registry: seq<Company>, m: MatchResult, query: string, streetQuery: string, sc: Scorers) {
    exists i :: 0 <= i < |registry| && m == ResultOf(registry[i]) && Justified(registry[i], query, streetQuery, sc)
  }

  /** A strong hit is a registry row whose combined text scores at least 90. */
  lemma StrongHitJustified(registry: seq<Company>, query: string, sc: Scorers, h: Scored)
    requires h in RankedHits(query, CombinedColumn(registry), sc, StrongThreshold, WeakThreshold, TopLimit).strong
    ensures h.index < |registry| && StrongRow(registry[h.index], query, sc)
  {
    RankedHitsPartition(query, CombinedColumn(registry), sc, StrongThreshold, WeakThreshold, TopLimit);
    RankedHitsAreTopRows(query, CombinedColumn(registry), sc, StrongThreshold, WeakThreshold, TopLimit);
  }

  /** A weak hit whose street passes refinement is a refined weak row. */
  lemma WeakHitJustified(registry: seq<Company>, query: string, streetQuery: string, sc: Scorers, h: Scored)
    requires h in RankedHits(query, CombinedColumn(registry), sc, StrongThreshold, WeakThreshold, TopLimit).weak
    requires h.index < |registry|
    requires sc.tokenSetRatio(registry[h.index].street, streetQuery) >= StreetThreshold
    ensures RefinedRow(registry[h.index], query, streetQuery, sc)
  {
    RankedHitsPartition(query, CombinedColumn(registry), sc, StrongThreshold, WeakThreshold, TopLimit);
    RankedHitsAreTopRows(query, CombinedColumn(registry), sc, StrongThreshold, WeakThreshold, TopLimit);
  }

  /** The strong rows' entries followed by the refined weak rows' entries. */
  function HitEntries(registry: seq<Company>, query: string, streetQuery: string, sc: Scorers): seq<MatchResult> {
    RankedHitsAreTopRows(query, CombinedColumn(registry), sc, StrongThreshold, WeakThreshold, TopLimit);
    var hits := RankedHits(query, CombinedColumn(registry), sc, StrongThreshold, WeakThreshold, TopLimit);
    ToResults(RowsAt(registry, hits.strong))
    + ToResults(Refined(RowsAt(registry, hits.weak), StreetColumn, streetQuery, sc, StreetThreshold))
  }

  /** The entries of `execute` unfolded into the strong rows and the refined
      weak rows. */
  lemma CombinedMatchesParts(registry: seq<Company>, companyName: string,
                             components: map<string, string>, sc: Scorers)
    ensures var query := UniqueWords(InitialQueryText(companyName, components));
            var hits := RankedHits(query, CombinedColumn(registry), sc, StrongThreshold, WeakThreshold, TopLimit);
            && (forall h :: h in hits.strong || h in hits.weak ==> h.index < |registry|)
            && CombinedMatches(registry, companyName, components, sc)
               == ToResults(RowsAt(registry, hits.strong))
                  + ToResults(Refined(RowsAt(registry, hits.weak), StreetColumn,
                                      UniqueWords(RefineQueryText(components)), sc, StreetThreshold))
    ensures CombinedMatches(registry, companyName, components, sc)
            == HitEntries(registry, UniqueWords(InitialQueryText(companyName, components)),
                          UniqueWords(RefineQueryText(components)), sc)
  {
    var query := UniqueWords(InitialQueryText(companyName, components));
    RankedHitsAreTopRows(query, CombinedColumn(registry), sc, StrongThreshold, WeakThreshold, TopLimit);
  }

  /** Each refined weak row is a registry row that is weak and close on its street. */
  lemma RefinedEntryJustified(registry: seq<Company>, query: string, streetQuery: string, sc: Scorers, k: nat)
    requires var hits := RankedHits(query, CombinedColumn(registry), sc, StrongThreshold, WeakThreshold, TopLimit);
             && (forall h :: h in hits.weak ==> h.index < |registry|)
             && k < |Refined(RowsAt(registry, hits.weak), StreetColumn, streetQuery, sc, StreetThreshold)|
    ensures var hits := RankedHits(query, CombinedColumn(registry), sc, StrongThreshold, WeakThreshold, TopLimit);
            var refined := Refined(RowsAt(registry, hits.weak), StreetColumn, streetQuery, sc, StreetThreshold);
            exists i :: 0 <= i < |registry| && refined[k] == registry[i]
                        && RefinedRow(registry[i], query, streetQuery, sc)
  {
    var hits := RankedHits(query, CombinedColumn(registry), sc, StrongThreshold, WeakThreshold, TopLimit);
    var alternative := RowsAt(registry, hits.weak);
    RefinedByStreet(alternative, streetQuery, sc);
    var P := Positions(alternative, CloseOn(StreetColumn, streetQuery, sc, StreetThreshold));
    var j := P[k];
    assert j in P;
    var h := hits.weak[j];
    assert alternative[j] == registry[h.index];
    WeakHitJustified(registry, query, streetQuery, sc, h);
  }

  /** Every strong row's entry belongs to a registry row scoring at least 90. */
  lemma StrongRowsJustified(registry: seq<Company>, query: string, sc: Scorers)
    requires var hits := RankedHits(query, CombinedColumn(registry), sc, StrongThreshold, WeakThreshold, TopLimit);
             forall h :: h in hits.strong ==> h.index < |registry|
    ensures var hits := RankedHits(query, CombinedColumn(registry), sc, StrongThreshold, WeakThreshold, TopLimit);
            var best := RowsAt(registry, hits.strong);
            forall k :: 0 <= k < |best| ==> StrongEntry(registry, ResultOf(best[k]), query, sc)
  {
    var hits := RankedHits(query, CombinedColumn(registry), sc, StrongThreshold, WeakThreshold, TopLimit);
    var best := RowsAt(registry, hits.strong);
    forall k | 0 <= k < |best|
      ensures StrongEntry(registry, ResultOf(best[k]), query, sc)
    {
      var h := hits.strong[k];
      StrongHitJustified(registry, query, sc, h);
      assert best[k] == registry[h.index];
    }
  }

  /** Every refined row's entry belongs to a registry row that is weak and
      close on its street. */
  lemma RefinedRowsJustified(registry: seq<Company>, query: string, streetQuery: string, sc: Scorers)
    requires var hits := RankedHits(query, CombinedColumn(registry), sc, StrongThreshold, WeakThreshold, TopLimit);
             forall h :: h in hits.weak ==> h.index < |registry|
    ensures var hits := RankedHits(query, CombinedColumn(registry), sc, StrongThreshold, WeakThreshold, TopLimit);
            var refined := Refined(RowsAt(registry, hits.weak), StreetColumn, streetQuery, sc, StreetThreshold);
            forall k :: 0 <= k < |refined| ==> RefinedEntry(registry, ResultOf(refined[k]), query, streetQuery, sc)
  {
    var hits := RankedHits(query, CombinedColumn(registry), sc, StrongThreshold, WeakThreshold, TopLimit);
    var refined := Refined(RowsAt(registry, hits.weak), StreetColumn, streetQuery, sc, StreetThreshold);
    forall k | 0 <= k < |refined|
      ensures RefinedEntry(registry, ResultOf(refined[k]), query, streetQuery, sc)
    {
      RefinedEntryJustified(registry, query, streetQuery, sc, k);
      var i :| 0 <= i < |registry| && refined[k] == registry[i] && RefinedRow(registry[i], query, streetQuery, sc);
    }
  }

  /** Strong entries followed by refined entries are all justified. */
  lemma ConcatJustified(registry: seq<Company>, best: seq<Company>, refined: seq<Company>,
                        query: string, streetQuery: string, sc: Scorers)
    requires forall k :: 0 <= k < |best| ==> StrongEntry(registry, ResultOf(best[k]), query, sc)
    requires forall k :: 0 <= k < |refined| ==> RefinedEntry(registry, ResultOf(refined[k]), query, streetQuery, sc)
    ensures var ms := ToResults(best) + ToResults(refined);
            forall k :: 0 <= k < |ms| ==> JustifiedEntry(registry, ms[k], query, streetQuery, sc)
  {
    var ms := ToResults(best) + ToResults(refined);
    forall k | 0 <= k < |ms|
      ensures JustifiedEntry(registry, ms[k], query, streetQuery, sc)
    {
      if k < |best| {
        assert ms[k] == ResultOf(best[k]);
        var i :| 0 <= i < |registry| && ms[k] == ResultOf(registry[i]) && StrongRow(registry[i], query, sc);
        assert Justified(registry[i], query, streetQuery, sc);
      } else {
        assert ms[k] == ResultOf(refined[k - |best|]);
        var i :| 0 <= i < |registry| && ms[k] == ResultOf(registry[i])
                 && RefinedRow(registry[i], query, streetQuery, sc);
        assert Justified(registry[i], query, streetQuery, sc);
      }
    }
  }

  /** The strong rows followed by the refined weak rows: at most ten, each
      one a justified registry row. */
  lemma HitsJustified(registry: seq<Company>, query: string, streetQuery: string, sc: Scorers)
    requires var hits := RankedHits(query, CombinedColumn(registry), sc, StrongThreshold, WeakThreshold, TopLimit);
             forall h :: h in hits.strong || h in hits.weak ==> h.index < |registry|
    ensures var hits := RankedHits(query, CombinedColumn(registry), sc, StrongThreshold, WeakThreshold, TopLimit);
            |ToResults(RowsAt(registry, hits.strong))
             + ToResults(Refined(RowsAt(registry, hits.weak), StreetColumn, streetQuery, sc, StreetThreshold))|
            <= TopLimit
    ensures var hits := RankedHits(query, CombinedColumn(registry), sc, StrongThreshold, WeakThreshold, TopLimit);
            var ms := ToResults(RowsAt(registry, hits.strong))
                      + ToResults(Refined(RowsAt(registry, hits.weak), StreetColumn, streetQuery, sc, StreetThreshold));
            forall k :: 0 <= k < |ms| ==>
                 JustifiedEntry(registry, ms[k], query, streetQuery, sc)
  {
    var hits := RankedHits(query, CombinedColumn(registry), sc, StrongThreshold, WeakThreshold, TopLimit);
    var best := RowsAt(registry, hits.strong);
    var refined := Refined(RowsAt(registry, hits.weak), StreetColumn, streetQuery, sc, StreetThreshold);
    assert |ToResults(best) + ToResults(refined)| <= TopLimit by {
      RankedHitsPartition(query, CombinedColumn(registry), sc, StrongThreshold, WeakThreshold, TopLimit);
    }
    StrongRowsJustified(registry, query, sc);
    RefinedRowsJustified(registry, query, streetQuery, sc);
    ConcatJustified(registry, best, refined, query, streetQuery, sc);
  }

  /** `execute` returns at most ten entries, and each one belongs to a
      registry row that scores at least 90, or from 60 up to below 90 with a
      street scoring at least 80. */
  lemma CombinedMatchesJustified(registry: seq<Company>, companyName: string,
                                 components: map<string, string>, sc: Scorers)
    ensures var query := UniqueWords(InitialQueryText(companyName, components));
            var streetQuery := UniqueWords(RefineQueryText(components));
            var ms := CombinedMatches(registry, companyName, components, sc);
            && |ms| <= TopLimit
            && forall k :: 0 <= k < |ms| ==>
                 JustifiedEntry(registry, ms[k], query, streetQuery, sc)
  {
    CombinedMatchesParts(registry, companyName, components, sc);
    HitsJustified(registry, UniqueWords(InitialQueryText(companyName, components)),
                  UniqueWords(RefineQueryText(components)), sc);
  }

  // ---------------------------------------------------------------------------
  // The entries of execute in rank order

  /** `ms` is the entries of the ranked rows at the positions `S`, in rank
      order, followed by the entries of those at the positions `W`. */
  predicate ListsRanked(ms: seq<MatchResult>, registry: seq<Company>, top: seq<Scored>, S: seq<nat>, W: seq<nat>) {
    && StrictlyIncreasing(S) && StrictlyIncreasing(W) && |ms| == |S| + |W|
    && (forall k :: 0 <= k < |S| ==>
          S[k] < |top| && top[S[k]].index < |registry| && ms[k] == ResultOf(registry[top[S[k]].index]))
    && (forall k :: 0 <= k < |W| ==>
          W[k] < |top| && top[W[k]].index < |registry| && ms[|S| + k] == ResultOf(registry[top[W[k]].index]))
  }

  /** The ten best rows by token-sort score, best first. */
  function TopRows(registry: seq<Company>, query: string, sc: Scorers): seq<Scored> {
    Extract(query, CombinedColumn(registry), sc.tokenSortRatio, TopLimit)
  }

  /** Each ranked entry names a registry row and carries that row's own score. */
  lemma TopRowsScored(registry: seq<Company>, query: string, sc: Scorers)
    ensures var top := TopRows(registry, query, sc);
            forall i :: 0 <= i < |top| ==>
              top[i].index < |registry|
              && top[i].score == sc.tokenSortRatio(query, CombineNameAddress(registry[top[i].index]))
  {
    var top := TopRows(registry, query, sc);
    ExtractFacts(query, CombinedColumn(registry), sc.tokenSortRatio, TopLimit);
    forall i | 0 <= i < |top|
      ensures top[i].index < |registry|
      ensures top[i].score == sc.tokenSortRatio(query, CombineNameAddress(registry[top[i].index]))
    {
      assert top[i] in top;
    }
  }

  /** The ranks of the strong rows. */
  function StrongRanks(registry: seq<Company>, query: string, sc: Scorers): seq<nat> {
    Positions(TopRows(registry, query, sc), IsStrong(StrongThreshold))
  }

  /** The strong rows are the ranked rows scoring at least 90, in rank order. */
  lemma StrongSection(registry: seq<Company>, query: string, sc: Scorers)
    ensures var top := TopRows(registry, query, sc);
            var hits := RankedHits(query, CombinedColumn(registry), sc, StrongThreshold, WeakThreshold, TopLimit);
            var S := StrongRanks(registry, query, sc);
            && StrictlyIncreasing(S) && |hits.strong| == |S|
            && (forall k :: 0 <= k < |S| ==> S[k] < |top| && hits.strong[k] == top[S[k]])
            && (forall i :: 0 <= i < |top| ==> (i in S <==> top[i].score >= StrongThreshold))
  {
    FilterAtPositions(TopRows(registry, query, sc), IsStrong(StrongThreshold));
  }

  /** The weak rows, in rank order. */
  function WeakRows(registry: seq<Company>, query: string, sc: Scorers): seq<Company> {
    RankedHitsAreTopRows(query, CombinedColumn(registry), sc, StrongThreshold, WeakThreshold, TopLimit);
    RowsAt(registry, RankedHits(query, CombinedColumn(registry), sc, StrongThreshold, WeakThreshold, TopLimit).weak)
  }

  /** The ranks of the weak rows that pass the street refinement. */
  function RefinedRanks(registry: seq<Company>, query: string, streetQuery: string, sc: Scorers): seq<nat> {
    Compose(Positions(TopRows(registry, query, sc), IsWeak(StrongThreshold, WeakThreshold)),
            Positions(WeakRows(registry, query, sc), CloseOn(StreetColumn, streetQuery, sc, StreetThreshold)))
  }

  /** The weak rows are the ranked rows at the weak ranks. */
  lemma WeakRanksParts(registry: seq<Company>, query: string, sc: Scorers)
    ensures var top := TopRows(registry, query, sc);
            forall i :: 0 <= i < |top| ==> top[i].index < |registry|
    ensures var top := TopRows(registry, query, sc);
            var PW := Positions(top, IsWeak(StrongThreshold, WeakThreshold));
            var alternative := WeakRows(registry, query, sc);
            && StrictlyIncreasing(PW) && |alternative| == |PW|
            && (forall j :: 0 <= j < |PW| ==> PW[j] < |top| && alternative[j] == registry[top[PW[j]].index])
            && (forall i :: 0 <= i < |top| ==> (i in PW <==> WeakThreshold <= top[i].score < StrongThreshold))
  {
    TopRowsScored(registry, query, sc);
    var top := TopRows(registry, query, sc);
    var hits := RankedHits(query, CombinedColumn(registry), sc, StrongThreshold, WeakThreshold, TopLimit);
    FilterAtPositions(top, IsWeak(StrongThreshold, WeakThreshold));
    var PW := Positions(top, IsWeak(StrongThreshold, WeakThreshold));
    var alternative := WeakRows(registry, query, sc);
    forall j | 0 <= j < |PW|
      ensures alternative[j] == registry[top[PW[j]].index]
    {
      assert hits.weak[j] == top[PW[j]];
    }
  }

  /** The refined weak rows are the weak rows at the street ranks. */
  lemma StreetRanksParts(registry: seq<Company>, query: string, streetQuery: string, sc: Scorers)
    ensures var alternative := WeakRows(registry, query, sc);
            var P2 := Positions(alternative, CloseOn(StreetColumn, streetQuery, sc, StreetThreshold));
            var refined := Refined(alternative, StreetColumn, streetQuery, sc, StreetThreshold);
            && StrictlyIncreasing(P2) && |refined| == |P2|
            && (forall k :: 0 <= k < |P2| ==> P2[k] < |alternative| && refined[k] == alternative[P2[k]])
            && (forall j :: 0 <= j < |alternative| ==>
                  (j in P2 <==> sc.tokenSetRatio(alternative[j].street, streetQuery) >= StreetThreshold))
  {
    RefinedByStreet(WeakRows(registry, query, sc), streetQuery, sc);
  }

  /** The refined weak rows are the ranked rows at the refined ranks, which
      increase. */
  lemma RefinedRanksRows(registry: seq<Company>, query: string, streetQuery: string, sc: Scorers)
    ensures var top := TopRows(registry, query, sc);
            forall i :: 0 <= i < |top| ==> top[i].index < |registry|
    ensures var top := TopRows(registry, query, sc);
            var refined := Refined(WeakRows(registry, query, sc), StreetColumn, streetQuery, sc, StreetThreshold);
            var W := RefinedRanks(registry, query, streetQuery, sc);
            && StrictlyIncreasing(W) && |refined| == |W|
            && (forall k :: 0 <= k < |W| ==> W[k] < |top| && refined[k] == registry[top[W[k]].index])
  {
    WeakRanksParts(registry, query, sc);
    StreetRanksParts(registry, query, streetQuery, sc);
    var top := TopRows(registry, query, sc);
    var PW := Positions(top, IsWeak(StrongThreshold, WeakThreshold));
    var alternative := WeakRows(registry, query, sc);
    var P2 := Positions(alternative, CloseOn(StreetColumn, streetQuery, sc, StreetThreshold));
    ComposeFacts(PW, P2);
  }

  /** A ranked row has a refined rank exactly when it is weak and its street
      scores at least 80. */
  lemma RefinedRanksExactly(registry: seq<Company>, query: string, streetQuery: string, sc: Scorers)
    ensures var top := TopRows(registry, query, sc);
            var W := RefinedRanks(registry, query, streetQuery, sc);
            forall i :: 0 <= i < |top| && top[i].index < |registry| ==>
              (i in W <==> WeakThreshold <= top[i].score < StrongThreshold
                           && sc.tokenSetRatio(registry[top[i].index].street, streetQuery) >= StreetThreshold)
  {
    var top := TopRows(registry, query, sc);
    var W := RefinedRanks(registry, query, streetQuery, sc);
    forall i | 0 <= i < |top| && top[i].index < |registry|
      ensures i in W <==> WeakThreshold <= top[i].score < StrongThreshold
                          && sc.tokenSetRatio(registry[top[i].index].street, streetQuery) >= StreetThreshold
    {
      RefinedRankOf(registry, query, streetQuery, sc, i);
    }
  }

  lemma RefinedRankOf(registry: seq<Company>, query: string, streetQuery: string, sc: Scorers, i: nat)
    requires i < |TopRows(registry, query, sc)|
    requires TopRows(registry, query, sc)[i].index < |registry|
    ensures var top := TopRows(registry, query, sc);
            i in RefinedRanks(registry, query, streetQuery, sc)
            <==> WeakThreshold <= top[i].score < StrongThreshold
                 && sc.tokenSetRatio(registry[top[i].index].street, streetQuery) >= StreetThreshold
  {
    WeakRanksParts(registry, query, sc);
    StreetRanksParts(registry, query, streetQuery, sc);
    var top := TopRows(registry, query, sc);
    var PW := Positions(top, IsWeak(StrongThreshold, WeakThreshold));
    var alternative := WeakRows(registry, query, sc);
    var P2 := Positions(alternative, CloseOn(StreetColumn, streetQuery, sc, StreetThreshold));
    assert RefinedRanks(registry, query, streetQuery, sc) == Compose(PW, P2);
    if i in PW {
      var j :| 0 <= j < |PW| && PW[j] == i;
      ComposeMember(PW, P2, j);
      assert alternative[j] == registry[top[i].index];
    } else {
      ComposeWithin(PW, P2);
    }
  }

  /** Entries of two row lists, each row found at a rank, list those ranks. */
  lemma ConcatRanked(ms: seq<MatchResult>, best: seq<Company>, refined: seq<Company>, registry: seq<Company>,
                     top: seq<Scored>, S: seq<nat>, W: seq<nat>)
    requires ms == ToResults(best) + ToResults(refined)
    requires StrictlyIncreasing(S) && |best| == |S|
    requires forall k :: 0 <= k < |S| ==>
               S[k] < |top| && top[S[k]].index < |registry| && best[k] == registry[top[S[k]].index]
    requires StrictlyIncreasing(W) && |refined| == |W|
    requires forall k :: 0 <= k < |W| ==>
               W[k] < |top| && top[W[k]].index < |registry| && refined[k] == registry[top[W[k]].index]
    ensures ListsRanked(ms, registry, top, S, W)
  {
    forall k | 0 <= k < |S|
      ensures ms[k] == ResultOf(registry[top[S[k]].index])
    {
      assert ms[k] == ResultOf(best[k]);
    }
    forall k | 0 <= k < |W|
      ensures ms[|S| + k] == ResultOf(registry[top[W[k]].index])
    {
      assert ms[|S| + k] == ResultOf(refined[k]);
    }
  }

  /** The strong rows are the registry rows at the strong ranks. */
  lemma StrongRowsRanked(registry: seq<Company>, query: string, sc: Scorers)
    ensures var hits := RankedHits(query, CombinedColumn(registry), sc, StrongThreshold, WeakThreshold, TopLimit);
            forall h :: h in hits.strong ==> h.index < |registry|
    ensures var top := TopRows(registry, query, sc);
            var hits := RankedHits(query, CombinedColumn(registry), sc, StrongThreshold, WeakThreshold, TopLimit);
            var best := RowsAt(registry, hits.strong);
            var S := StrongRanks(registry, query, sc);
            && StrictlyIncreasing(S) && |best| == |S|
            && forall k :: 0 <= k < |S| ==>
                 S[k] < |top| && top[S[k]].index < |registry| && best[k] == registry[top[S[k]].index]
  {
    RankedHitsAreTopRows(query, CombinedColumn(registry), sc, StrongThreshold, WeakThreshold, TopLimit);
    TopRowsScored(registry, query, sc);
    StrongSection(registry, query, sc);
  }

  /** The strong rows' entries followed by the refined weak rows' entries are
      those of the strong ranks followed by those of the refined ranks. */
  lemma HitEntriesListed(registry: seq<Company>, query: string, streetQuery: string, sc: Scorers)
    ensures ListsRanked(HitEntries(registry, query, streetQuery, sc), registry, TopRows(registry, query, sc),
                        StrongRanks(registry, query, sc), RefinedRanks(registry, query, streetQuery, sc))
  {
    var hits := RankedHits(query, CombinedColumn(registry), sc, StrongThreshold, WeakThreshold, TopLimit);
    StrongRowsRanked(registry, query, sc);
    RefinedRanksRows(registry, query, streetQuery, sc);
    var best := RowsAt(registry, hits.strong);
    var refined := Refined(WeakRows(registry, query, sc), StreetColumn, streetQuery, sc, StreetThreshold);
    assert HitEntries(registry, query, streetQuery, sc) == ToResults(best) + ToResults(refined);
    ConcatRanked(HitEntries(registry, query, streetQuery, sc), best, refined, registry,
                 TopRows(registry, query, sc), StrongRanks(registry, query, sc),
                 RefinedRanks(registry, query, streetQuery, sc));
  }

  /** `ms` lists, in rank order, the entries of the ranked rows scoring at
      least 90 (the ranks `S`, and only those), then the entries of the ranked
      rows scoring from 60 up to below 90 whose street scores at least 80
      against `streetQuery` (the ranks `W`, and only those). */
  predicate RankOrder(ms: seq<MatchResult>, registry: seq<Company>, top: seq<Scored>, streetQuery: string,
                      sc: Scorers, S: seq<nat>, W: seq<nat>) {
    && ListsRanked(ms, registry, top, S, W)
    && (forall i :: 0 <= i < |top| ==> (i in S <==> top[i].score >= StrongThreshold))
    && (forall i :: 0 <= i < |top| && top[i].index < |registry| ==>
          (i in W <==> WeakThreshold <= top[i].score < StrongThreshold
                       && sc.tokenSetRatio(registry[top[i].index].street, streetQuery) >= StreetThreshold))
  }

  lemma HitEntriesRanked(registry: seq<Company>, query: string, streetQuery: string, sc: Scorers)
    ensures RankOrder(HitEntries(registry, query, streetQuery, sc), registry, TopRows(registry, query, sc),
                      streetQuery, sc, StrongRanks(registry, query, sc), RefinedRanks(registry, query, streetQuery, sc))
  {
    HitEntriesListed(registry, query, streetQuery, sc);
    StrongSection(registry, query, sc);
    RefinedRanksExactly(registry, query, streetQuery, sc);
  }

  /** What `execute` returns, stated through the ranking alone: among the ten
      best rows by token-sort score (each carrying its own row's score), the
      entries are first those of the rows scoring at least 90, in rank order,
      then those of the rows scoring from 60 up to below 90 whose street
      scores at least 80 against the refinement query, in rank order. */
  lemma CombinedMatchesRanked(registry: seq<Company>, companyName: string,
                              components: map<string, string>, sc: Scorers)
    ensures var query := UniqueWords(InitialQueryText(companyName, components));
            var top := TopRows(registry, query, sc);
            forall i :: 0 <= i < |top| ==>
              top[i].index < |registry|
              && top[i].score == sc.tokenSortRatio(query, CombineNameAddress(registry[top[i].index]))
    ensures var query := UniqueWords(InitialQueryText(companyName, components));
            var streetQuery := UniqueWords(RefineQueryText(components));
            exists S: seq<nat>, W: seq<nat> ::
              RankOrder(CombinedMatches(registry, companyName, components, sc), registry,
                        TopRows(registry, query, sc), streetQuery, sc, S, W)
  {
    var query := UniqueWords(InitialQueryText(companyName, components));
    var streetQuery := UniqueWords(RefineQueryText(components));
    TopRowsScored(registry, query, sc);
    CombinedMatchesParts(registry, companyName, components, sc);
    HitEntriesRanked(registry, query, streetQuery, sc);
    var S := StrongRanks(registry, query, sc);
    var W := RefinedRanks(registry, query, streetQuery, sc);
    assert RankOrder(CombinedMatches(registry, companyName, components, sc), registry,
                     TopRows(registry, query, sc), streetQuery, sc, S, W);
  }

  /** `execute` with the faults it raises, in the order they are met: the two
      dictionary lookups, then building the combined column (which fails on a
      registry without rows), then the two values the queries dereference. */
  function CombinedRun(registry: seq<Company>, e: Extraction, sc: Scorers): Result<seq<MatchResult>, Fault> {
    if e.customerName.None? then Failure(MissingFieldAtExecution("CustomerName"))
    else if e.customerAddress.None? then Failure(MissingFieldAtExecution("CustomerAddress"))
    else if registry == [] then Failure(CombinedColumnOfEmptyRegistry)
    else if e.customerName.value.valueString.None? then Failure(MissingFieldAtExecution("valueString"))
    else if e.customerAddress.value.valueAddress.None? then Failure(MissingFieldAtExecution("valueAddress"))
    else Success(CombinedMatches(registry, e.customerName.value.valueString.value,
                                 e.customerAddress.value.valueAddress.value, sc))
  }

  /** `execute` of the combined strategy. The invoice is only read. */
  method ExecuteCombined(registry: seq<Company>, e: Extraction, sc: Scorers)
    returns (r: Result<seq<MatchResult>, Fault>)
    ensures r == CombinedRun(registry, e, sc)
  {
    if e.customerName.None? {
      return Failure(MissingFieldAtExecution("CustomerName"));
    }
    if e.customerAddress.None? {
      return Failure(MissingFieldAtExecution("CustomerAddress"));
    }
    var companyName := e.customerName.value.valueString;
    var addressComponents := e.customerAddress.value.valueAddress;
    if |registry| == 0 {
      return Failure(CombinedColumnOfEmptyRegistry);
    }
    var combined := CombinedColumn(registry);
    if companyName.None? {
      return Failure(MissingFieldAtExecution("valueString"));
    }
    if addressComponents.None? {
      return Failure(MissingFieldAtExecution("valueAddress"));
    }
    var components := addressComponents.value;
    var initialQuery := UniqueWordsScan(InitialQueryText(companyName.value, components));
    var (bestResults, alternativeResults) := FuzzySearchCombined(
      initialQuery, registry, combined, sc, StrongThreshold, WeakThreshold, TopLimit);
    var matches := AppendFinalResults(bestResults, []);
    assert matches == ToResults(bestResults);
    var refineQuery := UniqueWordsScan(RefineQueryText(components));
    var refineResults := RefineResults(alternativeResults, [(StreetColumn, refineQuery)], sc, StreetThreshold);
    matches := AppendFinalResults(refineResults.value, matches);
    r := Success(matches);
  }

  /** When the gate holds, `execute` raises exactly when the registry has no
      rows, and otherwise returns the combined matches of the invoice's name
      and address components. */
  lemma CombinedGateRulesOutFaults(registry: seq<Company>, e: Extraction, sc: Scorers)
    requires CombinedApplicable(e)
    ensures CombinedRun(registry, e, sc).Success? <==> registry != []
    ensures registry == [] ==> CombinedRun(registry, e, sc) == Failure(CombinedColumnOfEmptyRegistry)
    ensures registry != [] ==>
              CombinedRun(registry, e, sc).value ==
              CombinedMatches(registry, e.customerName.value.valueString.value,
                              e.customerAddress.value.valueAddress.value, sc)
  {
  }
}
