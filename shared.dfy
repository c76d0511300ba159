/** `src/api/shared.rs`: the pagination types. A `Page<T>` is validated by
    handing its fields to `ValidatePage`, whose garde rules are checked field
    by field; `Limit` and `Skip` wrap a `u64` with a range rule, and default
    to 200 and 0. */
module Shared {
  import opened Wrappers
  import opened Validation

  newtype u64 = x: int | 0 <= x < 0x1_0000_0000_0000_0000

  const DefaultLimit: u64 := 200
  const DefaultSkip: u64 := 0

  /** `Page<T>`: a page of items starting from `skip`, at most `limit` long,
      out of `total` records. */
  datatype Page<T> = Page(skip: u64, limit: u64, total: u64, items: seq<T>)

  /** `ValidatePage`: the same fields, borrowed, carrying the garde rules. */
  datatype ValidatePage<T> = ValidatePage(skip: u64, limit: u64, total: u64, items: seq<T>)

  /** The derived `validate_into` of `ValidatePage`: `range(min = 0)` on
      `skip` and `total`, `range(min = 1)` on `limit`, `dive` into `items`,
      in declaration order. `itemReport` is the elements' own validation. */
  function ValidatePageReport<T>(v: ValidatePage<T>, itemReport: T -> Report): Report {
    Under(Field("skip"), Check(InRange(v.skip as int, Some(0), None), Range))
    + Under(Field("limit"), Check(InRange(v.limit as int, Some(1), None), Range))
    + Under(Field("total"), Check(InRange(v.total as int, Some(0), None), Range))
    + Under(Field("items"), ItemsReport(v.items, itemReport))
  }

  /** `impl Validate for Page<T>`: the fields handed to `ValidatePage`, under
      the same parent path and context. */
  function PageReport<T>(p: Page<T>, itemReport: T -> Report): Report {
    ValidatePageReport(ValidatePage(p.skip, p.limit, p.total, p.items), itemReport)
  }

  /** A page is valid exactly when its limit is at least 1 and every item is
      valid; the other two bounds hold of every `u64`. */
  lemma PageValidIff<T>(p: Page<T>, itemReport: T -> Report)
    ensures PageReport(p, itemReport) == []
        <==> p.limit >= 1 && forall i :: 0 <= i < |p.items| ==> itemReport(p.items[i]) == []
  {
    ItemsReportEmpty(p.items, itemReport);
  }

  /** A zero limit is reported at the path `limit`, as a range violation. */
  lemma ZeroLimitReported<T>(p: Page<T>, itemReport: T -> Report)
    requires p.limit == 0
    ensures Violation([Field("limit")], Range) in PageReport(p, itemReport)
  {
    var r := PageReport(p, itemReport);
    assert r[0] == Violation([Field("limit")], Range);
  }

  /** `Limit`: at least 1 and at most 200. */
  datatype Limit = Limit(n: u64)

  /** `range(min = 1, max = 200)` on the tuple field. */
  function LimitReport(l: Limit): Report {
    Under(Index(0), Check(InRange(l.n as int, Some(1), Some(200)), Range))
  }

  lemma LimitValidIff(l: Limit)
    ensures LimitReport(l) == [] <==> 1 <= l.n <= 200
  {
  }

  /** `Limit::default()`. */
  function DefaultLimitValue(): (l: Limit)
    ensures l.n == 200 && LimitReport(l) == []
  {
    Limit(DefaultLimit)
  }

  /** `Skip`: any number of records. */
  datatype Skip = Skip(n: u64)

  /** `range(min = 0)` on the tuple field. */
  function SkipReport(s: Skip): Report {
    Under(Index(0), Check(InRange(s.n as int, Some(0), None), Range))
  }

  lemma SkipAlwaysValid(s: Skip)
    ensures SkipReport(s) == []
  {
  }

  /** `Skip::default()`. */
  function DefaultSkipValue(): (s: Skip)
    ensures s.n == 0
  {
    Skip(DefaultSkip)
  }
}
