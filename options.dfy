/**
 * `required_options_present` of the single-file version: an option is
 * required when its help text starts with `*`; it is missing when its
 * destination holds `None` or the empty string. The missing options are
 * gathered in the order of their option strings.
 */
module RequiredOptions {
  import opened Wrappers
  import opened Paths
  import opened Sequences

  /** What the check reads of an option: `get_opt_string()`, `dest` and `help`. */
  datatype OptionDef = OptionDef(optString: string, dest: Option<string>, help: string)

  /** Python's `<=` on strings: code point by code point, a prefix first. */
  predicate StrLeq(a: string, b: string) {
    a == [] || (b != [] && (a[0] < b[0] || (a[0] == b[0] && StrLeq(a[1..], b[1..]))))
  }

  lemma {:induction false} StrLeqTotal(a: string, b: string)
    ensures StrLeq(a, b) || StrLeq(b, a)
  {
    if a != [] && b != [] && a[0] == b[0] {
      StrLeqTotal(a[1..], b[1..]);
    }
  }

  lemma {:induction false} StrLeqTransitive(a: string, b: string, c: string)
    requires StrLeq(a, b) && StrLeq(b, c)
    ensures StrLeq(a, c)
  {
    if a != [] && a[0] == b[0] && b[0] == c[0] {
      StrLeqTransitive(a[1..], b[1..], c[1..]);
    }
  }

  lemma {:induction false} StrLeqReflexive(a: string)
    ensures StrLeq(a, a)
  {
    if a != [] {
      StrLeqReflexive(a[1..]);
    }
  }

  /** The order of `sorted(options, key=lambda option: option.get_opt_string())`. */
  function OptLeq(a: OptionDef, b: OptionDef): bool {
    StrLeq(a.optString, b.optString)
  }

  lemma OptLeqIsTotalPreorder()
    ensures IsTotalPreorder(OptLeq)
  {
    forall a: OptionDef, b: OptionDef ensures OptLeq(a, b) || OptLeq(b, a) {
      StrLeqTotal(a.optString, b.optString);
    }
    forall a: OptionDef, b: OptionDef, c: OptionDef | OptLeq(a, b) && OptLeq(b, c) ensures OptLeq(a, c) {
      StrLeqTransitive(a.optString, b.optString, c.optString);
    }
    forall a: OptionDef ensures OptLeq(a, a) {
      StrLeqReflexive(a.optString);
    }
  }

  /**
   * `option` has a destination, its help starts with `*`, and the parsed
   * value there is `None` or `''`. `values` gives every destination's value
   * (optparse sets each one, to `None` by default).
   */
  predicate IsMissing(values: string -> Option<string>, option: OptionDef) {
    option.dest.Some? && HasPrefix(option.help, "*") &&
    (values(option.dest.value) == None || values(option.dest.value) == Some(""))
  }

  /** `IsMissing` for the given values, as a test on options. */
  function MissingTest(values: string -> Option<string>): OptionDef -> bool {
    o => IsMissing(values, o)
  }

  /** The missing options, as `required_options_present` reports them. */
  function MissingOptions(options: seq<OptionDef>, values: string -> Option<string>): seq<OptionDef> {
    Filter(SortBy(options, OptLeq), MissingTest(values))
  }

  /**
   * The report lists the missing options, each one as often as it is given,
   * in ascending option-string order; it is empty exactly when no required
   * option is missing.
   */
  lemma MissingOptionsReported(options: seq<OptionDef>, values: string -> Option<string>)
    ensures var missing := MissingOptions(options, values);
      (forall o :: o in missing <==> o in options && IsMissing(values, o)) &&
      multiset(missing) == multiset(Filter(options, MissingTest(values))) &&
      SortedBy(missing, OptLeq) &&
      (missing == [] <==> forall o :: o in options ==> !IsMissing(values, o))
  {
    FilterPermutation(SortBy(options, OptLeq), options, MissingTest(values));
    var sorted := SortBy(options, OptLeq);
    var missing := MissingOptions(options, values);
    assert forall o :: o in sorted <==> o in multiset(sorted);
    assert forall o :: o in options <==> o in multiset(options);
    OptLeqIsTotalPreorder();
    SortBySorted(options, OptLeq);
    FilterSorted(sorted, MissingTest(values), OptLeq);
    if missing != [] {
      assert missing[0] in missing;
    }
  }

  /** `required_options_present`: the loop over the sorted options gathers the report. */
  method RequiredOptionsPresent(options: seq<OptionDef>, values: string -> Option<string>)
    returns (ok: bool, missing: seq<OptionDef>)
    ensures missing == MissingOptions(options, values)
    ensures ok <==> forall o :: o in options ==> !IsMissing(values, o)
  {
    var sorted := SortBy(options, OptLeq);
    missing := [];
    for i := 0 to |sorted|
      invariant missing == Filter(sorted[..i], MissingTest(values))
    {
      FilterSnoc(sorted, i, MissingTest(values));
      if IsMissing(values, sorted[i]) {
        missing := missing + [sorted[i]];
      }
    }
    assert sorted[..|sorted|] == sorted;
    MissingOptionsReported(options, values);
    ok := |missing| == 0;
  }
}
