/** The two strategies that scan the whole registry, row by row:
    fuzzy name / fuzzy street / exact city / exact postal code, and
    exact name / fuzzy street / exact city / exact postal code. They differ
    only in how the company name is compared. */
module ScanStrategies {
  import opened Wrappers
  import opened Text
  import opened Seqs
  import opened Scoring
  import opened Registry
  import opened Invoices

  /** How a strategy compares the registry name with the invoice name. */
  datatype NameRule = FuzzyName | ExactName

  /** A ratio must exceed this (strictly) for a name or street to match. */
  const RatioThreshold := 80

  /** What each registry row is compared with, after normalization:
      the customer name, `"{houseNumber} {road}"`, the city, and the postal
      code if the invoice has one. */
  datatype ScanQuery = ScanQuery(name: string, street: string, city: string, postalCode: Option<string>)

  predicate NameMatches(rule: NameRule, row: Company, q: ScanQuery, sc: Scorers) {
    match rule
    case FuzzyName => sc.ratio(Lower(row.name), Lower(q.name)) > RatioThreshold
    case ExactName => Lower(row.name) == Lower(q.name)
  }

  /** The region comparison is switched off: it always succeeds. */
  predicate StateMatches(row: Company, q: ScanQuery) {
    true
  }

  /** The test of one registry row. The street is compared without case
      folding, the city with it, the postal code exactly. */
  predicate Qualifies(rule: NameRule, row: Company, q: ScanQuery, sc: Scorers) {
    && NameMatches(rule, row, q, sc)
    && sc.ratio(row.street, q.street) > RatioThreshold
    && Lower(q.city) == Lower(row.city)
    && StateMatches(row, q)
    && q.postalCode == Some(row.postalCode)
  }

  function QualifyingRow(rule: NameRule, q: ScanQuery, sc: Scorers): Company -> bool {
    (row: Company) => Qualifies(rule, row, q, sc)
  }

  /** The entries the scan emits: one per qualifying row, in registry order. */
  function ScanMatches(rule: NameRule, registry: seq<Company>, q: ScanQuery, sc: Scorers): seq<MatchResult> {
    ToResults(Filter(registry, QualifyingRow(rule, q, sc)))
  }

  /** The loop over `df.iterrows()` that appends each qualifying row. */
  method ScanRegistry(rule: NameRule, registry: seq<Company>, q: ScanQuery, sc: Scorers)
    returns (matches: seq<MatchResult>)
    ensures matches == ScanMatches(rule, registry, q, sc)
  {
    matches := [];
    for i := 0 to |registry|
      invariant matches == ToResults(Filter(registry[..i], QualifyingRow(rule, q, sc)))
    {
      var row := registry[i];
      var nameMatch := match rule
        case FuzzyName => sc.ratio(Lower(row.name), Lower(q.name)) > RatioThreshold
        case ExactName => Lower(row.name) == Lower(q.name);
      var streetMatchRatio := sc.ratio(row.street, q.street);
      var cityMatch := Lower(q.city) == Lower(row.city);
      var stateMatch := true;
      var postalMatch := q.postalCode == Some(row.postalCode);
      assert registry[..i + 1][..i] == registry[..i];
      if nameMatch && streetMatchRatio > RatioThreshold && cityMatch && stateMatch && postalMatch {
        matches := matches + [ResultOf(row)];
      }
    }
    assert registry[..|registry|] == registry;
  }

  /** The query built from the customer name and the normalized components. */
  function QueryOf(companyName: string, components: map<string, string>): ScanQuery
    requires "houseNumber" in components && "road" in components && "city" in components
  {
    ScanQuery(
      companyName,
      components["houseNumber"] + " " + components["road"],
      components["city"],
      if "postalCode" in components then Some(components["postalCode"]) else None)
  }

  /** The scan proper, on the normalized name and components. The component
      lookups happen inside the loop, so an empty registry never reaches them. */
  function ScanResult(rule: NameRule, registry: seq<Company>, companyName: string,
                      components: map<string, string>, sc: Scorers): Result<seq<MatchResult>, Fault>
  {
    if registry == [] then Success([])
    else if "houseNumber" !in components then Failure(MissingFieldAtExecution("houseNumber"))
    else if "road" !in components then Failure(MissingFieldAtExecution("road"))
    else if "city" !in components then Failure(MissingFieldAtExecution("city"))
    else Success(ScanMatches(rule, registry, QueryOf(companyName, components), sc))
  }

  /** `execute` of either strategy: the faults it raises, in the order the
      fields are touched; the normalization of the address components, which
      happens before the scan and persists; and the entries found. */
  function ScanRun(rule: NameRule, registry: seq<Company>, e: Extraction, sc: Scorers): Run {
    if e.customerName.None? then Run(e, Failure(MissingFieldAtExecution("CustomerName")))
    else if e.customerName.value.valueString.None? then Run(e, Failure(MissingFieldAtExecution("valueString")))
    else if e.customerAddress.None? then Run(e, Failure(MissingFieldAtExecution("CustomerAddress")))
    else if e.customerAddress.value.valueAddress.None? then Run(e, Failure(MissingFieldAtExecution("valueAddress")))
    else
      Run(WithNormalizedAddress(e),
          ScanResult(rule, registry, SafeString(e.customerName.value.valueString.value),
                     NormalizeComponents(e.customerAddress.value.valueAddress.value), sc))
  }

  /** `execute`: normalize the invoice's address components in place, then scan. */
  method ExecuteScan(rule: NameRule, registry: seq<Company>, inv: Invoice, sc: Scorers)
    returns (r: Result<seq<MatchResult>, Fault>)
    modifies inv
    ensures Run(inv.Fields(), r) == ScanRun(rule, registry, old(inv.Fields()), sc)
  {
    if inv.customerName.None? {
      return Failure(MissingFieldAtExecution("CustomerName"));
    }
    if inv.customerName.value.valueString.None? {
      return Failure(MissingFieldAtExecution("valueString"));
    }
    var companyName := SafeString(inv.customerName.value.valueString.value);
    if inv.customerAddress.None? {
      return Failure(MissingFieldAtExecution("CustomerAddress"));
    }
    if inv.customerAddress.value.valueAddress.None? {
      return Failure(MissingFieldAtExecution("valueAddress"));
    }
    inv.NormalizeAddressComponents();
    var components := inv.customerAddress.value.valueAddress.value;
    if registry == [] {
      return Success([]);
    }
    if "houseNumber" !in components {
      return Failure(MissingFieldAtExecution("houseNumber"));
    }
    if "road" !in components {
      return Failure(MissingFieldAtExecution("road"));
    }
    if "city" !in components {
      return Failure(MissingFieldAtExecution("city"));
    }
    var matches := ScanRegistry(rule, registry, QueryOf(companyName, components), sc);
    r := Success(matches);
  }

  // ---------------------------------------------------------------------------
  // Properties

  /** A row is reported if and only if its name matches, its street ratio and
      city and postal code match; the entries follow registry order, one per
      qualifying row. */
  lemma ScanSelectsQualifyingRows(rule: NameRule, registry: seq<Company>, q: ScanQuery, sc: Scorers)
    ensures var P := Positions(registry, QualifyingRow(rule, q, sc));
            var M := ScanMatches(rule, registry, q, sc);
            && |M| == |P|
            && StrictlyIncreasing(P)
            && (forall j :: 0 <= j < |P| ==> P[j] < |registry| && M[j] == ResultOf(registry[P[j]]))
            && (forall i :: 0 <= i < |registry| ==>
                  (i in P <==>
                     && NameMatches(rule, registry[i], q, sc)
                     && sc.ratio(registry[i].street, q.street) > 80
                     && Lower(q.city) == Lower(registry[i].city)
                     && q.postalCode == Some(registry[i].postalCode)))
  {
    FilterAtPositions(registry, QualifyingRow(rule, q, sc));
  }

  /** A ratio of exactly 80 is not enough: the thresholds are strict. */
  lemma RatioOfEightyIsRejected(rule: NameRule, row: Company, q: ScanQuery, sc: Scorers)
    requires (rule == FuzzyName && sc.ratio(Lower(row.name), Lower(q.name)) == 80)
             || sc.ratio(row.street, q.street) == 80
    ensures !Qualifies(rule, row, q, sc)
  {
  }

  /** Two rows that differ at most in the letter case of their name and city. */
  predicate SameUpToCase(a: Company, b: Company) {
    && Lower(a.name) == Lower(b.name)
    && Lower(a.city) == Lower(b.city)
    && a.street == b.street
    && a.postalCode == b.postalCode
  }

  /** Changing the letter case of registry names and cities, or of the
      invoice's name and city, changes no decision: the same rows qualify. */
  lemma ScanIgnoresCase(rule: NameRule, registry: seq<Company>, q: ScanQuery,
                        registry': seq<Company>, q': ScanQuery, sc: Scorers)
    requires |registry| == |registry'|
    requires forall i :: 0 <= i < |registry| ==> SameUpToCase(registry[i], registry'[i])
    requires Lower(q.name) == Lower(q'.name) && Lower(q.city) == Lower(q'.city)
    requires q.street == q'.street && q.postalCode == q'.postalCode
    ensures Positions(registry, QualifyingRow(rule, q, sc)) == Positions(registry', QualifyingRow(rule, q', sc))
  {
    PositionsAgree(registry, QualifyingRow(rule, q, sc), registry', QualifyingRow(rule, q', sc));
  }

  /** A one-row registry whose street, city and postal code agree with the
      query: the row is reported exactly when the names match. */
  lemma ScanOfOneRow(rule: NameRule, row: Company, name: string, components: map<string, string>, sc: Scorers)
    requires "houseNumber" in components && "road" in components && "city" in components
    requires "postalCode" in components
    requires sc.ratio(row.street, row.street) == 100
    requires row.street == components["houseNumber"] + " " + components["road"]
    requires Lower(row.city) == Lower(components["city"]) && row.postalCode == components["postalCode"]
    ensures ScanResult(rule, [row], name, components, sc)
            == Success(if NameMatches(rule, row, QueryOf(name, components), sc) then [ResultOf(row)] else [])
  {
    var q := QueryOf(name, components);
    FilterSingleton(row, QualifyingRow(rule, q, sc));
    assert q.street == row.street && q.postalCode == Some(row.postalCode);
    assert Qualifies(rule, row, q, sc) == NameMatches(rule, row, q, sc);
    assert ScanResult(rule, [row], name, components, sc) == Success(ScanMatches(rule, [row], q, sc));
    if NameMatches(rule, row, q, sc) {
      assert ScanMatches(rule, [row], q, sc) == ToResults([row]);
      assert ToResults([row]) == [ResultOf(row)];
    } else {
      var none: seq<Company> := [];
      assert ScanMatches(rule, [row], q, sc) == ToResults(none) == [];
    }
  }

  /** The exact-name scan reports a row whose street, city and postal code
      agree with the invoice when the names agree up to case: "Acme Inc"
      finds the row "Acme Inc". */
  lemma ExactNameFindsRow(row: Company, name: string, components: map<string, string>, sc: Scorers)
    requires ReflexiveRatio(sc)
    requires "houseNumber" in components && "road" in components && "city" in components
    requires "postalCode" in components
    requires row.street == components["houseNumber"] + " " + components["road"]
    requires Lower(row.city) == Lower(components["city"]) && row.postalCode == components["postalCode"]
    requires Lower(row.name) == Lower(name)
    ensures ScanResult(ExactName, [row], name, components, sc) == Success([MatchResult(row.code, row.name)])
  {
    assert sc.ratio(row.street, row.street) == 100;
    ScanOfOneRow(ExactName, row, name, components, sc);
  }

  /** The invoice name "ACME INCORPORATED" against the row "Acme Inc" at the
      invoice's address: the exact-name scan reports nothing, the fuzzy-name
      scan reports the row exactly when the ratio of the case-folded names
      exceeds 80. */
  lemma AcmeIncorporated(row: Company, components: map<string, string>, sc: Scorers)
    requires ReflexiveRatio(sc)
    requires "houseNumber" in components && "road" in components && "city" in components
    requires "postalCode" in components
    requires row.street == components["houseNumber"] + " " + components["road"]
    requires Lower(row.city) == Lower(components["city"]) && row.postalCode == components["postalCode"]
    requires row.name == "Acme Inc"
    ensures ScanResult(ExactName, [row], "ACME INCORPORATED", components, sc) == Success([])
    ensures ScanResult(FuzzyName, [row], "ACME INCORPORATED", components, sc)
            == Success(if sc.ratio("acme inc", "acme incorporated") > 80 then [ResultOf(row)] else [])
  {
    assert sc.ratio(row.street, row.street) == 100;
    AcmeFolded();
    var q := QueryOf("ACME INCORPORATED", components);
    assert ScanResult(ExactName, [row], "ACME INCORPORATED", components, sc) == Success([]) by {
      ScanOfOneRow(ExactName, row, "ACME INCORPORATED", components, sc);
      assert !NameMatches(ExactName, row, q, sc);
    }
    ScanOfOneRow(FuzzyName, row, "ACME INCORPORATED", components, sc);
    assert NameMatches(FuzzyName, row, q, sc) == (sc.ratio("acme inc", "acme incorporated") > 80);
  }

  lemma AcmeFolded()
    ensures Lower("Acme Inc") == "acme inc"
    ensures Lower("ACME INCORPORATED") == "acme incorporated"
  {
  }

  /** With `ratio(s, s) == 100`, every row the exact-name scan reports is also
      reported by the fuzzy-name scan, in the same order. */
  lemma ExactScanWithinFuzzyScan(registry: seq<Company>, q: ScanQuery, sc: Scorers)
    requires ReflexiveRatio(sc)
    ensures IsSubseq(ScanMatches(ExactName, registry, q, sc), ScanMatches(FuzzyName, registry, q, sc))
  {
    forall i | 0 <= i < |registry| && QualifyingRow(ExactName, q, sc)(registry[i])
      ensures QualifyingRow(FuzzyName, q, sc)(registry[i])
    {
      assert sc.ratio(Lower(q.name), Lower(q.name)) == 100;
    }
    FilterMonotone(registry, QualifyingRow(ExactName, q, sc), QualifyingRow(FuzzyName, q, sc));
    ToResultsSubseq(Filter(registry, QualifyingRow(ExactName, q, sc)),
                    Filter(registry, QualifyingRow(FuzzyName, q, sc)));
  }

  /** The two strategies fail alike, leave the invoice alike, and the exact-name
      entries are a subsequence of the fuzzy-name entries. */
  lemma ExactRunWithinFuzzyRun(registry: seq<Company>, e: Extraction, sc: Scorers)
    requires ReflexiveRatio(sc)
    ensures ScanRun(ExactName, registry, e, sc).after == ScanRun(FuzzyName, registry, e, sc).after
    ensures ScanRun(ExactName, registry, e, sc).result.Failure? <==> ScanRun(FuzzyName, registry, e, sc).result.Failure?
    ensures ScanRun(ExactName, registry, e, sc).result.Success? ==>
              IsSubseq(ScanRun(ExactName, registry, e, sc).result.value,
                       ScanRun(FuzzyName, registry, e, sc).result.value)
  {
    if e.customerName.Some? && e.customerName.value.valueString.Some?
       && e.customerAddress.Some? && e.customerAddress.value.valueAddress.Some? {
      ExactResultWithinFuzzyResult(registry, SafeString(e.customerName.value.valueString.value),
                                   NormalizeComponents(e.customerAddress.value.valueAddress.value), sc);
    }
  }

  lemma ExactResultWithinFuzzyResult(registry: seq<Company>, name: string, components: map<string, string>,
                                     sc: Scorers)
    requires ReflexiveRatio(sc)
    ensures ScanResult(ExactName, registry, name, components, sc).Failure?
            <==> ScanResult(FuzzyName, registry, name, components, sc).Failure?
    ensures ScanResult(ExactName, registry, name, components, sc).Success? ==>
              IsSubseq(ScanResult(ExactName, registry, name, components, sc).value,
                       ScanResult(FuzzyName, registry, name, components, sc).value)
  {
    if ScanResult(ExactName, registry, name, components, sc).Success? && registry != [] {
      ExactScanWithinFuzzyScan(registry, QueryOf(name, components), sc);
    }
  }

  /** After a run that got past the name and address lookups, every address
      component holds the `safe_string` of its old value. */
  lemma ScanRunNormalizesComponents(rule: NameRule, registry: seq<Company>, e: Extraction, sc: Scorers)
    requires e.customerName.Some? && e.customerName.value.valueString.Some?
    requires e.customerAddress.Some? && e.customerAddress.value.valueAddress.Some?
    ensures var after := ScanRun(rule, registry, e, sc).after;
            var before := e.customerAddress.value.valueAddress.value;
            && after.customerName == e.customerName
            && after.customerAddress.Some?
            && after.customerAddress.value.confidence == e.customerAddress.value.confidence
            && after.customerAddress.value.valueAddress.Some?
            && after.customerAddress.value.valueAddress.value.Keys == before.Keys
            && forall k :: k in before ==> after.customerAddress.value.valueAddress.value[k] == SafeString(before[k])
  {
  }

  /** Running a strategy a second time on the invoice it has already
      normalized gives the same entries and leaves the invoice as it is. */
  lemma ScanRunTwice(rule: NameRule, registry: seq<Company>, e: Extraction, sc: Scorers)
    ensures var first := ScanRun(rule, registry, e, sc);
            ScanRun(rule, registry, first.after, sc) == first
  {
    if e.customerName.Some? && e.customerName.value.valueString.Some?
       && e.customerAddress.Some? && e.customerAddress.value.valueAddress.Some? {
      var components := e.customerAddress.value.valueAddress.value;
      var after := WithNormalizedAddress(e);
      NormalizeComponentsIdempotent(components);
      assert after.customerAddress.value.valueAddress.value == NormalizeComponents(components);
      assert WithNormalizedAddress(after) == after;
    }
  }

  /** When the gate holds, `execute` raises nothing. */
  lemma ScanGateRulesOutFaults(rule: NameRule, registry: seq<Company>, e: Extraction, sc: Scorers)
    requires ScanApplicable(e)
    ensures ScanRun(rule, registry, e, sc).result.Success?
  {
  }
}
