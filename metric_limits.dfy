/** The filter-list helpers of metric_limits.h: a filter rule, the test for a
    list whose first rule lets everything through, the reduction of a list whose
    first rule lets nothing through, and the text a rule is logged as. */
module MetricLimits {

  /** metrics_filter: a pattern and whether a metric it matches is included.
      The C++ class is held by value in metrics_filter_vec and copied in and out
      of it, so it is a value here; set_filter and set_included are the updates
      f.(filter := s) and f.(included := b). */
  datatype MetricsFilter = MetricsFilter(filter: string, included: bool)

  /** The default constructor: an empty pattern, included by default. */
  function DefaultFilter(): (r: MetricsFilter)
    ensures r.filter == "" && r.included
  {
    MetricsFilter([], true)
  }

  /** The pattern "*", written as the C++ code tests it: one character, a star. */
  predicate IsStar(f: string)
  {
    |f| == 1 && f[0] == '*'
  }

  /** first_includes_all: the first rule includes, and its pattern is empty or "*". */
  predicate FirstIncludesAll(v: seq<MetricsFilter>)
    ensures FirstIncludesAll(v) <==> v != [] && v[0].included && (v[0].filter == "" || v[0].filter == "*")
  {
    |v| != 0 && v[0].included && (|v[0].filter| == 0 || IsStar(v[0].filter))
  }

  /** The test optimize_exclude_all makes of its first rule: exclude "*". */
  predicate ExcludesAll(f: MetricsFilter)
  {
    !f.included && IsStar(f.filter)
  }

  /** The list optimize_exclude_all leaves: a list of two or more rules whose
      first rule excludes "*" becomes that one rule; any other list is kept. */
  function ExcludeAllOptimized(v: seq<MetricsFilter>): (r: seq<MetricsFilter>)
    ensures |v| > 1 && v[0].filter == "*" && !v[0].included ==> r == [MetricsFilter("*", false)]
    ensures !(|v| > 1 && v[0].filter == "*" && !v[0].included) ==> r == v
  {
    if |v| > 1 && ExcludesAll(v[0]) then [MetricsFilter("*", false)] else v
  }

  /** The reduction keeps what the list lets through: a list and its reduction
      start with the same rule, and neither is longer than the original. */
  lemma ExcludeAllOptimizedKeepsFirst(v: seq<MetricsFilter>)
    ensures |ExcludeAllOptimized(v)| <= |v|
    ensures (ExcludeAllOptimized(v) == []) == (v == [])
    ensures v != [] ==> ExcludeAllOptimized(v)[0] == v[0]
    ensures FirstIncludesAll(ExcludeAllOptimized(v)) == FirstIncludesAll(v)
  {
    if |v| > 1 && ExcludesAll(v[0]) {
      assert v[0] == MetricsFilter("*", false);
    }
  }

  /** After the reduction, no list of two or more rules starts with exclude "*". */
  lemma ExcludeAllOptimizedIsReduced(v: seq<MetricsFilter>)
    ensures var r := ExcludeAllOptimized(v); |r| > 1 ==> !ExcludesAll(r[0])
  {
  }

  /** optimize_exclude_all is idempotent. */
  lemma ExcludeAllOptimizedIdempotent(v: seq<MetricsFilter>)
    ensures ExcludeAllOptimized(ExcludeAllOptimized(v)) == ExcludeAllOptimized(v)
  {
    ExcludeAllOptimizedIsReduced(v);
  }

  /** A filter list the caller passes by reference. */
  class FilterVec {
    var items: seq<MetricsFilter>

    constructor (items: seq<MetricsFilter>)
      ensures this.items == items
    {
      this.items := items;
    }
  }

  /** optimize_exclude_all: reassigns the caller's list when its first rule of
      several excludes "*". */
  method OptimizeExcludeAll(filters: FilterVec)
    modifies filters
    ensures filters.items == ExcludeAllOptimized(old(filters.items))
  {
    if |filters.items| > 1 {
      var f := filters.items[0];
      if !f.included && |f.filter| == 1 && f.filter[0] == '*' {
        filters.items := [MetricsFilter("*", false)];
      }
    }
  }

  /** wrap_filter: "filter: ", the sign of the rule, then the pattern in brackets,
      a blank standing in for an empty pattern. */
  function WrapFilter(filter: string, inc: bool): (r: string)
    ensures |r| >= 11 && r[..8] == "filter: "
    ensures r[8] == (if inc then '+' else '-') && r[9] == '[' && r[|r| - 1] == ']'
    ensures r[10..|r| - 1] == (if filter == "" then " " else filter)
  {
    var ret := "filter: ";
    ret + [if inc then '+' else '-'] + ['['] + (if |filter| == 0 then [' '] else filter) + [']']
  }

  /** The sign and the pattern of a wrapped rule read back from its text. */
  function UnwrapFilter(s: string): (r: (string, bool))
    requires |s| >= 11
  {
    (s[10..|s| - 1], s[8] == '+')
  }

  /** The logged text determines the rule, except that an empty pattern prints
      as a single blank. */
  lemma WrapFilterReadsBack(filter: string, inc: bool)
    ensures UnwrapFilter(WrapFilter(filter, inc)) == (if filter == "" then " " else filter, inc)
  {
  }

  /** Two rules with non-empty patterns log alike only when they are the same rule. */
  lemma WrapFilterInjective(f: string, i: bool, g: string, j: bool)
    requires f != "" && g != "" && WrapFilter(f, i) == WrapFilter(g, j)
    ensures f == g && i == j
  {
    WrapFilterReadsBack(f, i);
    WrapFilterReadsBack(g, j);
  }

  /** The empty pattern and the single blank cannot be told apart in the log. */
  lemma WrapFilterBlank(inc: bool)
    ensures WrapFilter("", inc) == WrapFilter(" ", inc)
  {
  }
}
