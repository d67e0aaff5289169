/** The composition root: a matcher holds one strategy and a registry
    snapshot, and hands every invoice to that strategy. */
module Matcher {
  import opened Wrappers
  import opened Text
  import opened Seqs
  import opened Scoring
  import opened Registry
  import opened Invoices
  import opened ScanStrategies
  import opened CombinedStrategy

  /** The four strategies a matcher can be built with. */
  datatype Strategy =
    | ExternalNameLookup
    | CombinedFuzzyRefine
    | FuzzyNameScan
    | ExactNameScan

  /** The external lookup service, seen from the strategy: given the
      normalized customer name it answers with `(code, name)` records, or
      with `None` when the status code is not 200. */
  type Lookup = string -> Option<seq<(string, string)>>

  /** `dict_has_required_fields` of each strategy. */
  predicate Applicable(strategy: Strategy, e: Extraction) {
    match strategy
    case ExternalNameLookup => ExternalLookupApplicable(e)
    case CombinedFuzzyRefine => CombinedApplicable(e)
    case FuzzyNameScan => ScanApplicable(e)
    case ExactNameScan => ScanApplicable(e)
  }

  // ---------------------------------------------------------------------------
  // The external lookup strategy

  /** The entries of a successful answer, one per record, in order. */
  function LookupEntries(records: seq<(string, string)>): seq<MatchResult> {
    seq(|records|, k requires 0 <= k < |records| => MatchResult(records[k].0, records[k].1))
  }

  /** `execute` of the external lookup strategy: the name is dereferenced
      (raising when it is absent), normalized and sent; a failed request
      yields no entries. */
  function ExternalRun(e: Extraction, lookup: Lookup): Result<seq<MatchResult>, Fault> {
    if e.customerName.None? then Failure(MissingFieldAtExecution("CustomerName"))
    else if e.customerName.value.valueString.None? then Failure(MissingFieldAtExecution("valueString"))
    else
      match lookup(SafeString(e.customerName.value.valueString.value))
      case None => Success([])
      case Some(records) => Success(LookupEntries(records))
  }

  /** The loop over the answer that appends one entry per record. */
  method ExecuteExternal(e: Extraction, lookup: Lookup) returns (r: Result<seq<MatchResult>, Fault>)
    ensures r == ExternalRun(e, lookup)
  {
    if e.customerName.None? {
      return Failure(MissingFieldAtExecution("CustomerName"));
    }
    if e.customerName.value.valueString.None? {
      return Failure(MissingFieldAtExecution("valueString"));
    }
    var payload := SafeString(e.customerName.value.valueString.value);
    var response := lookup(payload);
    var matches: seq<MatchResult> := [];
    if response.Some? {
      var data := response.value;
      for i := 0 to |data|
        invariant matches == LookupEntries(data[..i])
      {
        matches := matches + [MatchResult(data[i].0, data[i].1)];
      }
      assert data[..|data|] == data;
    }
    r := Success(matches);
  }

  /** The lookup strategy sends the normalized name and reports every record
      of a successful answer, in order. */
  lemma ExternalRunReportsAnswer(e: Extraction, lookup: Lookup, records: seq<(string, string)>)
    requires e.customerName.Some? && e.customerName.value.valueString.Some?
    requires lookup(SafeString(e.customerName.value.valueString.value)) == Some(records)
    ensures ExternalRun(e, lookup).Success?
    ensures |ExternalRun(e, lookup).value| == |records|
    ensures forall k :: 0 <= k < |records| ==>
              ExternalRun(e, lookup).value[k] == MatchResult(records[k].0, records[k].1)
  {
    var entries := LookupEntries(records);
    assert ExternalRun(e, lookup) == Success(entries);
    forall k | 0 <= k < |records|
      ensures entries[k] == MatchResult(records[k].0, records[k].1)
    {
    }
  }

  /** A failed request is not an error: the lookup strategy reports nothing. */
  lemma ExternalRunFailedRequest(e: Extraction, lookup: Lookup)
    requires e.customerName.Some? && e.customerName.value.valueString.Some?
    requires lookup(SafeString(e.customerName.value.valueString.value)).None?
    ensures ExternalRun(e, lookup) == Success([])
  {
  }

  /** The lookup strategy's gate asks only for the name field, so a name
      field without text passes the gate and `execute` then raises. */
  lemma ExternalGateAdmitsNameWithoutText(lookup: Lookup)
    ensures var e := Extraction(Some(NameField(None, 0.95)), None);
            ExternalLookupApplicable(e)
            && ExternalRun(e, lookup) == Failure(MissingFieldAtExecution("valueString"))
  {
  }

  // ---------------------------------------------------------------------------
  // Dispatch

  /** What `match_companies` does with the chosen strategy: the invoice as
      the strategy leaves it and the entries or the fault. */
  function StrategyRun(strategy: Strategy, registry: seq<Company>, e: Extraction, sc: Scorers,
                       lookup: Lookup): Run
  {
    match strategy
    case ExternalNameLookup => Run(e, ExternalRun(e, lookup))
    case CombinedFuzzyRefine => Run(e, CombinedRun(registry, e, sc))
    case FuzzyNameScan => ScanRun(FuzzyName, registry, e, sc)
    case ExactNameScan => ScanRun(ExactName, registry, e, sc)
  }

  /** `CompanyMatcher`: one strategy, one registry snapshot. */
  class CompanyMatcher {
    const strategy: Strategy
    const companyListing: seq<Company>

    constructor(strategy: Strategy, companyListing: seq<Company>)
      ensures this.strategy == strategy && this.companyListing == companyListing
    {
      this.strategy := strategy;
      this.companyListing := companyListing;
    }

    /** `match_companies`: delegate to the strategy's `execute`. */
    method MatchCompanies(inv: Invoice, sc: Scorers, lookup: Lookup)
      returns (r: Result<seq<MatchResult>, Fault>)
      modifies inv
      ensures Run(inv.Fields(), r) == StrategyRun(strategy, companyListing, old(inv.Fields()), sc, lookup)
    {
      match strategy
      case ExternalNameLookup =>
        r := ExecuteExternal(inv.Fields(), lookup);
      case CombinedFuzzyRefine =>
        r := ExecuteCombined(companyListing, inv.Fields(), sc);
      case FuzzyNameScan =>
        r := ExecuteScan(FuzzyName, companyListing, inv, sc);
      case ExactNameScan =>
        r := ExecuteScan(ExactName, companyListing, inv, sc);
    }
  }

  // ---------------------------------------------------------------------------
  // Properties of a matcher run

  /** When the strategy's gate holds, `execute` raises nothing, except that
      the combined strategy raises on a registry without rows; for the lookup
      strategy the name field must also carry text. */
  lemma ApplicableRunSucceeds(strategy: Strategy, registry: seq<Company>, e: Extraction, sc: Scorers,
                              lookup: Lookup)
    requires Applicable(strategy, e)
    requires strategy == ExternalNameLookup ==> e.customerName.value.valueString.Some?
    ensures StrategyRun(strategy, registry, e, sc, lookup).result.Success? <==>
              (strategy == CombinedFuzzyRefine ==> registry != [])
  {
    match strategy
    case ExternalNameLookup =>
    case CombinedFuzzyRefine => CombinedGateRulesOutFaults(registry, e, sc);
    case FuzzyNameScan => ScanGateRulesOutFaults(FuzzyName, registry, e, sc);
    case ExactNameScan => ScanGateRulesOutFaults(ExactName, registry, e, sc);
  }

  /** Matching the same invoice twice with the same registry gives the same
      outcome, and the second run leaves the invoice as the first left it. */
  lemma MatchTwice(strategy: Strategy, registry: seq<Company>, e: Extraction, sc: Scorers, lookup: Lookup)
    ensures var first := StrategyRun(strategy, registry, e, sc, lookup);
            StrategyRun(strategy, registry, first.after, sc, lookup) == first
  {
    match strategy
    case ExternalNameLookup =>
    case CombinedFuzzyRefine =>
    case FuzzyNameScan => ScanRunTwice(FuzzyName, registry, e, sc);
    case ExactNameScan => ScanRunTwice(ExactName, registry, e, sc);
  }
}
