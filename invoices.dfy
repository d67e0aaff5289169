/** The invoice extraction a strategy reads: the customer name and address
    fields with their confidences, and the outcome of running a strategy. */
module Invoices {
  import opened Wrappers
  import opened Text
  import opened Registry

  /** `CustomerName`: `{'valueString': ..., 'confidence': ...}`. */
  datatype NameField = NameField(valueString: Option<string>, confidence: real)

  /** `CustomerAddress`: `{'confidence': ..., 'valueAddress': {component: text}}`
      with components such as `houseNumber`, `road`, `postalCode`, `city`,
      `state`, `countryRegion`, `streetAddress`. */
  datatype AddressField = AddressField(confidence: real, valueAddress: Option<map<string, string>>)

  /** The invoice dictionary: both keys may be absent. */
  datatype Extraction = Extraction(customerName: Option<NameField>, customerAddress: Option<AddressField>)

  /** What executing a strategy raises: a field it dereferences is absent
      (`field` names the first absent one the strategy touches), or the
      registry has no rows when the combined column is built, so that
      `df.apply(..., axis=1)` hands back a whole frame and assigning it to
      the single column `Combined` fails. */
  datatype Fault =
    | MissingFieldAtExecution(field: string)
    | CombinedColumnOfEmptyRegistry

  /** The extraction as a strategy leaves it, and what the strategy returned. */
  datatype Run = Run(after: Extraction, result: Result<seq<MatchResult>, Fault>)

  /** The confidence gate shared by the strategies that read confidences. */
  const ConfidenceThreshold: real := 0.8

  /** `d.get(key)` is truthy: the component is present and not empty. */
  predicate HasText(components: map<string, string>, key: string) {
    key in components && components[key] != ""
  }

  /** `(d.get(key) or '')`. */
  function TextOrEmpty(components: map<string, string>, key: string): string {
    if key in components then components[key] else ""
  }

  /** `dict_has_required_fields` of the external lookup strategy. */
  predicate ExternalLookupApplicable(e: Extraction) {
    e.customerName.Some?
  }

  /** `dict_has_required_fields` of the combined fuzzy strategy: a name with
      text, an address with a non-empty component block, and both confidences
      strictly above 0.8. */
  predicate CombinedApplicable(e: Extraction) {
    && e.customerName.Some?
    && e.customerAddress.Some?
    && e.customerAddress.value.valueAddress.Some?
    && |e.customerAddress.value.valueAddress.value| > 0
    && e.customerName.value.valueString.Some?
    && e.customerName.value.valueString.value != ""
    && e.customerName.value.confidence > ConfidenceThreshold
    && e.customerAddress.value.confidence > ConfidenceThreshold
  }

  /** `dict_has_required_fields` of the two street-scanning strategies: the
      combined gate plus house number, road, city and postal code present and
      not empty. */
  predicate ScanApplicable(e: Extraction) {
    && CombinedApplicable(e)
    && HasText(e.customerAddress.value.valueAddress.value, "houseNumber")
    && HasText(e.customerAddress.value.valueAddress.value, "road")
    && HasText(e.customerAddress.value.valueAddress.value, "city")
    && HasText(e.customerAddress.value.valueAddress.value, "postalCode")
  }

  /** Every gate fails without a customer name, every confidence-reading
      gate fails when either confidence is 0.8 or less, and the scan gate
      fails when a component it needs is absent or empty. */
  lemma GatesRejectMissingOrDoubtfulFields(e: Extraction)
    ensures e.customerName.None? ==>
              !ExternalLookupApplicable(e) && !CombinedApplicable(e) && !ScanApplicable(e)
    ensures e.customerName.Some? && e.customerName.value.confidence <= ConfidenceThreshold ==>
              !CombinedApplicable(e) && !ScanApplicable(e)
    ensures e.customerAddress.Some? && e.customerAddress.value.confidence <= ConfidenceThreshold ==>
              !CombinedApplicable(e) && !ScanApplicable(e)
    ensures e.customerAddress.Some? && e.customerAddress.value.valueAddress.Some? &&
            (exists key :: key in ["houseNumber", "road", "city", "postalCode"] &&
                           !HasText(e.customerAddress.value.valueAddress.value, key)) ==>
              !ScanApplicable(e)
  {
  }

  /** `for key, val in address_components.items(): address_components[key] = safe_string(val)`. */
  function NormalizeComponents(components: map<string, string>): map<string, string> {
    map k | k in components :: SafeString(components[k])
  }

  /** Normalizing components that are already normalized changes nothing. */
  lemma NormalizeComponentsIdempotent(components: map<string, string>)
    ensures NormalizeComponents(NormalizeComponents(components)) == NormalizeComponents(components)
  {
    var once := NormalizeComponents(components);
    var twice := NormalizeComponents(once);
    forall k | k in once ensures twice[k] == once[k] {
      SafeStringIdempotent(components[k]);
    }
  }

  /** The extraction with its address components normalized. */
  function WithNormalizedAddress(e: Extraction): Extraction
    requires e.customerAddress.Some? && e.customerAddress.value.valueAddress.Some?
  {
    var address := e.customerAddress.value;
    e.(customerAddress := Some(address.(valueAddress := Some(NormalizeComponents(address.valueAddress.value)))))
  }

  /** The invoice dictionary as a mutable object: the street-scanning
      strategies overwrite its address components in place. */
  class Invoice {
    var customerName: Option<NameField>
    var customerAddress: Option<AddressField>

    constructor (e: Extraction)
      ensures Fields() == e
    {
      customerName := e.customerName;
      customerAddress := e.customerAddress;
    }

    function Fields(): Extraction
      reads this
    {
      Extraction(customerName, customerAddress)
    }

    /** Replace every address component by its `safe_string`, one key at a time. */
    method NormalizeAddressComponents()
      requires customerAddress.Some? && customerAddress.value.valueAddress.Some?
      modifies this
      ensures Fields() == WithNormalizedAddress(old(Fields()))
    {
      var address := customerAddress.value;
      var original := address.valueAddress.value;
      var current := original;
      var pending := original.Keys;
      while pending != {}
        invariant pending <= original.Keys && current.Keys == original.Keys
        invariant forall k :: k in pending ==> current[k] == original[k]
        invariant forall k :: k in original && k !in pending ==> current[k] == SafeString(original[k])
        invariant customerName == old(customerName)
        invariant customerAddress == Some(address.(valueAddress := Some(current)))
        decreases pending
      {
        var key :| key in pending;
        current := current[key := SafeString(current[key])];
        customerAddress := Some(address.(valueAddress := Some(current)));
        pending := pending - {key};
      }
      assert current == NormalizeComponents(original);
    }
  }
}
