/** `src/util.rs`, with the part of garde the core's types rely on: a
    validation report is the list of broken rules, each under the path of the
    value that broke it, and `validate()` fails exactly when that list is not
    empty. `dive_vec` and `dive_option` validate the elements of a slice or an
    option and hand on the first failing report as the text of an error. */
module Validation {
  import opened Wrappers

  /** A step of a garde `Path`: a struct field, or a list (or tuple) index. */
  datatype PathSegment = Field(name: string) | Index(i: nat)

  /** The garde rules the core's types use. */
  datatype Rule = Range | Pattern | Email | Length

  /** One entry of a garde `Report`: where, and which rule. The messages
      garde attaches are not modelled. */
  datatype Violation = Violation(path: seq<PathSegment>, rule: Rule)

  type Report = seq<Violation>

  /** The violations of a nested value as its parent reports them: every path
      gets `seg` in front. */
  function Under(seg: PathSegment, report: Report): (r: Report)
    ensures |r| == |report|
    ensures forall i :: 0 <= i < |report| ==> r[i] == Violation([seg] + report[i].path, report[i].rule)
  {
    seq(|report|, i requires 0 <= i < |report| => Violation([seg] + report[i].path, report[i].rule))
  }

  /** A rule on the value itself: nothing when it holds, one violation at the
      value's own path otherwise. */
  function Check(holds: bool, rule: Rule): Report {
    if holds then [] else [Violation([], rule)]
  }

  /** garde's `range(min = .., max = ..)`, both bounds inclusive; a bound left
      out is not checked. */
  predicate InRange(x: int, min: Option<int>, max: Option<int>) {
    (min.None? || min.value <= x) && (max.None? || x <= max.value)
  }

  /** `#[garde(dive)]` on an `Option`: the inner value's report, at the same
      path, or nothing for `None`. */
  function OptionReport<T>(opt: Option<T>, report: T -> Report): Report {
    match opt
    case None => []
    case Some(x) => report(x)
  }

  /** `#[garde(dive)]` on a `Vec`: every element is validated, each under its
      index, and the reports follow each other in order. */
  function ItemsReport<T>(items: seq<T>, report: T -> Report): Report {
    if items == [] then []
    else ItemsReport(items[..|items| - 1], report) + Under(Index(|items| - 1), report(items[|items| - 1]))
  }

  /** The list is valid exactly when each element is. */
  lemma {:induction false} ItemsReportEmpty<T>(items: seq<T>, report: T -> Report)
    ensures ItemsReport(items, report) == [] <==> forall i :: 0 <= i < |items| ==> report(items[i]) == []
  {
    if items != [] {
      var n := |items| - 1;
      ItemsReportEmpty(items[..n], report);
      assert forall i :: 0 <= i < n ==> items[..n][i] == items[i];
    }
  }

  /** `validate()`: success on an empty report, otherwise the report rendered
      by garde's `Display` (a foreign function: the model keeps the report). */
  function Verdict(report: Report, render: Report -> string): Outcome<string> {
    if report == [] then Pass else Fail(render(report))
  }

  /** What `dive_vec` answers: the report text of the first element that
      fails, in slice order, or success. */
  function FirstFailure<T>(items: seq<T>, validate: T -> Outcome<string>): Outcome<string> {
    if items == [] then Pass
    else
      match validate(items[0])
      case Fail(text) => Fail(text)
      case Pass => FirstFailure(items[1..], validate)
  }

  /** `dive_vec`: validate the elements in order and return, as the text of a
      garde `Error`, the report of the first one that fails. */
  method DiveVec<T>(items: seq<T>, validate: T -> Outcome<string>) returns (r: Outcome<string>)
    ensures r == FirstFailure(items, validate)
  {
    var i := 0;
    while i < |items|
      invariant 0 <= i <= |items|
      invariant FirstFailure(items[i..], validate) == FirstFailure(items, validate)
    {
      var outcome := validate(items[i]);
      if outcome.Fail? {
        return Fail(outcome.error);
      }
      assert items[i..][1..] == items[i + 1..];
      i := i + 1;
    }
    return Pass;
  }

  /** It succeeds exactly when every element passes. */
  lemma {:induction false} FirstFailurePass<T>(items: seq<T>, validate: T -> Outcome<string>)
    ensures FirstFailure(items, validate).Pass? <==> forall i :: 0 <= i < |items| ==> validate(items[i]).Pass?
  {
    if items != [] {
      FirstFailurePass(items[1..], validate);
      assert forall i :: 1 <= i < |items| ==> items[i] == items[1..][i - 1];
    }
  }

  /** When element `k` is the first to fail, its report is the answer. */
  lemma {:induction false} FirstFailureAt<T>(items: seq<T>, validate: T -> Outcome<string>, k: nat)
    requires k < |items| && validate(items[k]).Fail?
    requires forall j :: 0 <= j < k ==> validate(items[j]).Pass?
    ensures FirstFailure(items, validate) == validate(items[k])
  {
    if k > 0 {
      assert validate(items[0]).Pass?;
      FirstFailureAt(items[1..], validate, k - 1);
    }
  }

  /** Validation stops at the first failure: what follows it is never looked
      at. */
  lemma {:induction false} FirstFailureIgnoresRest<T>(items: seq<T>, more: seq<T>, validate: T -> Outcome<string>)
    requires FirstFailure(items, validate).Fail?
    ensures FirstFailure(items + more, validate) == FirstFailure(items, validate)
  {
    assert items != [];
    assert (items + more)[0] == items[0];
    if validate(items[0]).Pass? {
      assert (items + more)[1..] == items[1..] + more;
      FirstFailureIgnoresRest(items[1..], more, validate);
    }
  }

  /** `dive_option`: nothing to do for `None`, otherwise the element's own
      report text. */
  function DiveOption<T>(opt: Option<T>, validate: T -> Outcome<string>): Outcome<string> {
    match opt
    case None => Pass
    case Some(item) =>
      match validate(item)
      case Fail(text) => Fail(text)
      case Pass => Pass
  }

  lemma DiveOptionSpec<T>(opt: Option<T>, validate: T -> Outcome<string>)
    ensures opt.None? ==> DiveOption(opt, validate) == Pass
    ensures opt.Some? ==> DiveOption(opt, validate) == validate(opt.value)
  {
  }

  function OptionItems<T>(opt: Option<T>): seq<T> {
    match opt
    case None => []
    case Some(x) => [x]
  }

  /** An option is the slice of its at most one element. */
  lemma DiveOptionAsSlice<T>(opt: Option<T>, validate: T -> Outcome<string>)
    ensures DiveOption(opt, validate) == FirstFailure(OptionItems(opt), validate)
  {
    if opt.Some? {
      assert OptionItems(opt)[1..] == [];
    }
  }
}
