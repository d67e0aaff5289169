/** The company registry the strategies search, and the match entries they emit. */
module Registry {
  import opened Seqs

  /** One row of the company listing: columns `Code, Name, Name 1, Name 2,
      Street, Postal Code, City, Region`. */
  datatype Company = Company(
    code: string, name: string, name1: string, name2: string,
    street: string, postalCode: string, city: string, region: string)

  /** A column of the listing, for `record[column]`. */
  datatype Column = CodeColumn | NameColumn | Name1Column | Name2Column
                  | StreetColumn | PostalCodeColumn | CityColumn | RegionColumn

  function Cell(row: Company, column: Column): string {
    match column
    case CodeColumn => row.code
    case NameColumn => row.name
    case Name1Column => row.name1
    case Name2Column => row.name2
    case StreetColumn => row.street
    case PostalCodeColumn => row.postalCode
    case CityColumn => row.city
    case RegionColumn => row.region
  }

  /** `{'company_code': ..., 'company_name': ...}`. */
  datatype MatchResult = MatchResult(companyCode: string, companyName: string)

  function ResultOf(row: Company): MatchResult {
    MatchResult(row.code, row.name)
  }

  /** Each row mapped to its match entry, in order. */
  function ToResults(rows: seq<Company>): seq<MatchResult> {
    seq(|rows|, k requires 0 <= k < |rows| => ResultOf(rows[k]))
  }

  /** Mapping rows to entries keeps a subsequence a subsequence. */
  lemma {:induction false} ToResultsSubseq(a: seq<Company>, b: seq<Company>)
    requires IsSubseq(a, b)
    ensures IsSubseq(ToResults(a), ToResults(b))
    decreases |b|
  {
    if a != [] && b != [] {
      var A, B := ToResults(a), ToResults(b);
      assert ToResults(a[..|a| - 1]) == A[..|A| - 1];
      assert ToResults(b[..|b| - 1]) == B[..|B| - 1];
      if a[|a| - 1] == b[|b| - 1] && IsSubseq(a[..|a| - 1], b[..|b| - 1]) {
        ToResultsSubseq(a[..|a| - 1], b[..|b| - 1]);
      } else {
        ToResultsSubseq(a, b[..|b| - 1]);
      }
    }
  }
}
