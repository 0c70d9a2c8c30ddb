/**
 * The query specification built from a filter request. Each criterion names a
 * column, an operation and an array of values; the builder turns the criteria
 * into predicates over a row and the query keeps the rows satisfying all of them.
 *
 * Two copies of the builder exist. The checked one skips a criterion whose column
 * is not a declared field of the entity; the unchecked one resolves the column
 * directly, which fails for an unknown column.
 */
module FilterSpec {
  import opened Wrappers
  import opened Text
  import opened SqlLike

  /** One filter value: column name, values (an element is `None` for null) and operation. */
  datatype Criterion = Criterion(column: Option<string>, values: Option<seq<Option<string>>>, operation: Option<string>)

  /** `Include` is `lower(column) LIKE pattern`; `Equal` is equality with the value. */
  datatype Predicate = LikeLower(column: string, pattern: string) | EqualTo(column: string, value: string)

  /** A stored row: field name to value; an absent field is SQL NULL. */
  type Row = map<string, string>

  /** Why building the specification throws. */
  datatype BuildError =
    | NullValue           // `values[0].toString()` on a null element
    | NullOperation       // `switch` on a null operation
    | UnknownAttribute    // resolving a column the entity does not have

  /** A predicate holds of a row; comparisons with NULL never hold. */
  predicate Holds(p: Predicate, row: Row)
    ensures Holds(p, row) ==> p.column in row
  {
    match p
    case LikeLower(c, pat) => c in row && Like(Lower(row[c]), pat)
    case EqualTo(c, v) => c in row && row[c] == v
  }

  /** The conjunction of the predicates; the empty conjunction holds of every row. */
  predicate Matches(ps: seq<Predicate>, row: Row)
  {
    forall i :: 0 <= i < |ps| ==> Holds(ps[i], row)
  }

  /** The predicate an `Include` with value `v` adds. */
  function IncludePredicate(column: string, v: string): Predicate
  {
    LikeLower(column, "%" + Lower(v) + "%")
  }

  /**
   * A criterion gets past the skips: the declared-field check (checked copy
   * only) and the null-or-empty values check.
   */
  predicate Reaches(c: Criterion, fields: seq<string>, checked: bool)
  {
    (!checked || (c.column.Some? && c.column.value in fields)) && c.values.Some? && c.values.value != []
  }

  /**
   * What one criterion contributes, in the order the builder evaluates it: the
   * declared-field check (checked copy only), the values check, the first value,
   * the operation switch, and finally the column resolution.
   */
  function Step(c: Criterion, fields: seq<string>, checked: bool): (r: Result<Option<Predicate>, BuildError>)
    ensures checked && (c.column.None? || c.column.value !in fields) ==> r == Ok(None)
    ensures c.values.None? || c.values.value == [] ==> r == Ok(None)
    ensures r.Ok? && r.value.Some? ==>
      c.column.Some? && c.column.value in fields && c.values.Some? && c.values.value != []
      && c.values.value[0].Some? && c.operation.Some?
      && (c.operation.value == "Include" || c.operation.value == "Equal")
    ensures r == Err(UnknownAttribute) ==> !checked
    ensures Reaches(c, fields, checked) && c.values.value[0].None? ==> r == Err(NullValue)
    ensures Reaches(c, fields, checked) && c.values.value[0].Some? && c.operation.None? ==> r == Err(NullOperation)
    ensures (Reaches(c, fields, checked) && c.values.value[0].Some? && c.operation.Some?
             && c.operation.value != "Include" && c.operation.value != "Equal")
      ==> r == Ok(None)
    ensures (Reaches(c, fields, checked) && c.values.value[0].Some? && c.operation.Some?
             && (c.operation.value == "Include" || c.operation.value == "Equal") && (c.column.None? || c.column.value !in fields))
      ==> r == Err(UnknownAttribute)
    ensures (Reaches(c, fields, checked) && c.values.value[0].Some? && c.operation == Some("Include")
             && c.column.Some? && c.column.value in fields)
      ==> r == Ok(Some(IncludePredicate(c.column.value, c.values.value[0].value)))
    ensures (Reaches(c, fields, checked) && c.values.value[0].Some? && c.operation == Some("Equal")
             && c.column.Some? && c.column.value in fields)
      ==> r == Ok(Some(EqualTo(c.column.value, c.values.value[0].value)))
  {
    if checked && (c.column.None? || c.column.value !in fields) then Ok(None)
    else if c.values.None? || |c.values.value| == 0 then Ok(None)
    else if c.values.value[0].None? then Err(NullValue)
    else if c.operation.None? then Err(NullOperation)
    else
      var v := c.values.value[0].value;
      var op := c.operation.value;
      if op != "Include" && op != "Equal" then Ok(None)
      else if c.column.None? || c.column.value !in fields then Err(UnknownAttribute)
      else if op == "Include" then Ok(Some(IncludePredicate(c.column.value, v)))
      else Ok(Some(EqualTo(c.column.value, v)))
  }

  /** Adds the contribution of one more criterion; the first failure wins. */
  function Extend(acc: Result<seq<Predicate>, BuildError>, c: Criterion, fields: seq<string>, checked: bool): Result<seq<Predicate>, BuildError>
  {
    if acc.Err? then acc
    else
      var s := Step(c, fields, checked);
      if s.Err? then Err(s.error)
      else if s.value.None? then acc
      else Ok(acc.value + [s.value.value])
  }

  /** The predicates of a list of criteria, processed left to right. */
  function Collect(cs: seq<Criterion>, fields: seq<string>, checked: bool): (r: Result<seq<Predicate>, BuildError>)
    ensures r.Ok? ==> |r.value| <= |cs|
    ensures checked && r.Err? ==> r.error != UnknownAttribute
  {
    if cs == [] then Ok([])
    else Extend(Collect(cs[..|cs| - 1], fields, checked), cs[|cs| - 1], fields, checked)
  }

  /** The specification of a request: null filter values give no predicate at all. */
  function Specification(filterValues: Option<seq<Criterion>>, fields: seq<string>, checked: bool): (r: Result<seq<Predicate>, BuildError>)
    ensures filterValues.None? ==> r == Ok([])
    ensures r.Ok? && filterValues.Some? ==> |r.value| <= |filterValues.value|
    ensures checked && r.Err? ==> r.error != UnknownAttribute
  {
    if filterValues.None? then Ok([]) else Collect(filterValues.value, fields, checked)
  }

  // ---------------------------------------------------------------- the builders

  /**
   * The checked builder: for each criterion, search the declared fields for the
   * column and skip the criterion when it is absent.
   */
  method BuildSpecificationChecked(filterValues: Option<seq<Criterion>>, declaredFields: seq<string>)
    returns (r: Result<seq<Predicate>, BuildError>)
    ensures r == Specification(filterValues, declaredFields, true)
    ensures r.Err? ==> r.error != UnknownAttribute
  {
    var predicates: seq<Predicate> := [];
    if filterValues.None? {
      return Ok(predicates);
    }
    var cs := filterValues.value;
    var i := 0;
    while i < |cs|
      invariant 0 <= i <= |cs|
      invariant Collect(cs[..i], declaredFields, true) == Ok(predicates)
    {
      var filter := cs[i];
      assert cs[..i + 1][..i] == cs[..i];
      assert Collect(cs[..i + 1], declaredFields, true) == Extend(Ok(predicates), filter, declaredFields, true);
      var columnExists := false;
      var j := 0;
      while j < |declaredFields| && !columnExists
        invariant 0 <= j <= |declaredFields|
        invariant columnExists ==> filter.column.Some? && filter.column.value in declaredFields
        invariant !columnExists ==> forall k :: 0 <= k < j ==> filter.column != Some(declaredFields[k])
      {
        if filter.column == Some(declaredFields[j]) {
          columnExists := true;
        }
        j := j + 1;
      }
      if !columnExists {
        i := i + 1;
        continue;
      }
      var values := filter.values;
      if values.Some? && |values.value| > 0 {
        if values.value[0].None? {
          FailsAt(cs, i, declaredFields, true);
          return Err(NullValue);
        }
        var val := values.value[0].value;
        if filter.operation.None? {
          FailsAt(cs, i, declaredFields, true);
          return Err(NullOperation);
        }
        var operation := filter.operation.value;
        if operation == "Include" {
          predicates := predicates + [LikeLower(filter.column.value, "%" + Lower(val) + "%")];
        } else if operation == "Equal" {
          predicates := predicates + [EqualTo(filter.column.value, val)];
        }
      }
      i := i + 1;
    }
    assert cs[..i] == cs;
    return Ok(predicates);
  }

  /**
   * The unchecked builder: the column is resolved directly, so an `Include` or
   * `Equal` on a column the entity lacks fails.
   */
  method BuildSpecificationUnchecked(filterValues: Option<seq<Criterion>>, attributes: seq<string>)
    returns (r: Result<seq<Predicate>, BuildError>)
    ensures r == Specification(filterValues, attributes, false)
  {
    var predicates: seq<Predicate> := [];
    if filterValues.None? {
      return Ok(predicates);
    }
    var cs := filterValues.value;
    var i := 0;
    while i < |cs|
      invariant 0 <= i <= |cs|
      invariant Collect(cs[..i], attributes, false) == Ok(predicates)
    {
      var filter := cs[i];
      assert cs[..i + 1][..i] == cs[..i];
      assert Collect(cs[..i + 1], attributes, false) == Extend(Ok(predicates), filter, attributes, false);
      var values := filter.values;
      if values.Some? && |values.value| > 0 {
        if values.value[0].None? {
          FailsAt(cs, i, attributes, false);
          return Err(NullValue);
        }
        var val := values.value[0].value;
        if filter.operation.None? {
          FailsAt(cs, i, attributes, false);
          return Err(NullOperation);
        }
        var operation := filter.operation.value;
        if operation == "Include" || operation == "Equal" {
          if filter.column.None? || filter.column.value !in attributes {
            FailsAt(cs, i, attributes, false);
            return Err(UnknownAttribute);
          }
          if operation == "Include" {
            predicates := predicates + [LikeLower(filter.column.value, "%" + Lower(val) + "%")];
          } else {
            predicates := predicates + [EqualTo(filter.column.value, val)];
          }
        }
      }
      i := i + 1;
    }
    assert cs[..i] == cs;
    return Ok(predicates);
  }

  // ---------------------------------------------------------------- properties

  /** With no filter values, or none that contribute, every row matches. */
  lemma NoPredicatesMatchEverything(row: Row)
    ensures Specification(None, [], true) == Ok([]) && Matches([], row)
  {
  }

  /** Once building fails, the criteria after the failing one are never looked at. */
  lemma {:induction false} ErrorsPersist(cs: seq<Criterion>, rest: seq<Criterion>, fields: seq<string>, checked: bool)
    requires Collect(cs, fields, checked).Err?
    ensures Collect(cs + rest, fields, checked) == Collect(cs, fields, checked)
    decreases |rest|
  {
    if rest == [] {
      assert cs + rest == cs;
    } else {
      ErrorsPersist(cs, rest[..|rest| - 1], fields, checked);
      assert (cs + rest)[..|cs + rest| - 1] == cs + rest[..|rest| - 1];
    }
  }

  /** The first criterion that fails decides the outcome of the whole list. */
  lemma FailsAt(cs: seq<Criterion>, i: nat, fields: seq<string>, checked: bool)
    requires i < |cs| && Collect(cs[..i], fields, checked).Ok? && Step(cs[i], fields, checked).Err?
    ensures Collect(cs, fields, checked) == Err(Step(cs[i], fields, checked).error)
  {
    assert cs[..i + 1][..i] == cs[..i];
    ErrorsPersist(cs[..i + 1], cs[i + 1..], fields, checked);
    assert cs[..i + 1] + cs[i + 1..] == cs;
  }

  /**
   * A criterion that contributes nothing (an undeclared column in the checked
   * builder, null or empty values, an unrecognised operation) can be removed
   * from anywhere in the list without changing the result.
   */
  lemma {:induction false} SkippedCriterionIsOmitted(pre: seq<Criterion>, c: Criterion, post: seq<Criterion>, fields: seq<string>, checked: bool)
    requires Step(c, fields, checked) == Ok(None)
    ensures Collect(pre + [c] + post, fields, checked) == Collect(pre + post, fields, checked)
    decreases |post|
  {
    if post == [] {
      assert pre + [c] + post == pre + [c];
      assert (pre + [c])[..|pre|] == pre;
      assert pre + post == pre;
      var acc := Collect(pre, fields, checked);
      assert Collect(pre + [c], fields, checked) == Extend(acc, c, fields, checked);
    } else {
      var last := post[|post| - 1];
      var init := post[..|post| - 1];
      SkippedCriterionIsOmitted(pre, c, init, fields, checked);
      assert (pre + [c] + post)[..|pre + [c] + post| - 1] == pre + [c] + init;
      assert (pre + post)[..|pre + post| - 1] == pre + init;
    }
  }

  /** Two lists whose criteria contribute alike build the same specification. */
  lemma {:induction false} CollectCongruent(cs: seq<Criterion>, ds: seq<Criterion>, fields: seq<string>, checked: bool)
    requires |cs| == |ds|
    requires forall i :: 0 <= i < |cs| ==> Step(cs[i], fields, checked) == Step(ds[i], fields, checked)
    ensures Collect(cs, fields, checked) == Collect(ds, fields, checked)
    decreases |cs|
  {
    if cs != [] {
      CollectCongruent(cs[..|cs| - 1], ds[..|ds| - 1], fields, checked);
    }
  }

  /** Only the first value of a criterion is read: later values never matter. */
  lemma OnlyFirstValueMatters(c: Criterion, d: Criterion, fields: seq<string>, checked: bool)
    requires c.column == d.column && c.operation == d.operation
    requires c.values.Some? && d.values.Some? && c.values.value != [] && d.values.value != []
    requires c.values.value[0] == d.values.value[0]
    ensures Step(c, fields, checked) == Step(d, fields, checked)
  {
  }

  /**
   * Replacing the values of one criterion by values with the same first element
   * leaves the whole specification unchanged.
   */
  lemma LaterValuesIgnored(pre: seq<Criterion>, c: Criterion, d: Criterion, post: seq<Criterion>, fields: seq<string>, checked: bool)
    requires c.column == d.column && c.operation == d.operation
    requires c.values.Some? && d.values.Some? && c.values.value != [] && d.values.value != []
    requires c.values.value[0] == d.values.value[0]
    ensures Collect(pre + [c] + post, fields, checked) == Collect(pre + [d] + post, fields, checked)
  {
    var cs, ds := pre + [c] + post, pre + [d] + post;
    forall i | 0 <= i < |cs| ensures Step(cs[i], fields, checked) == Step(ds[i], fields, checked) {
      if i == |pre| {
        OnlyFirstValueMatters(c, d, fields, checked);
      } else {
        assert cs[i] == ds[i];
      }
    }
    CollectCongruent(cs, ds, fields, checked);
  }

  /**
   * `Include` is a case-insensitive `LIKE '%v%'`: for a value free of `%`, `_`
   * and `\` it holds exactly when the lower-cased value occurs in the lower-cased field.
   */
  lemma IncludeIsCaseInsensitiveSubstring(column: string, v: string, row: Row)
    requires Literal(v)
    ensures Holds(IncludePredicate(column, v), row)
        <==> column in row && Contains(Lower(row[column]), Lower(v))
  {
    assert Literal(Lower(v));
    if column in row {
      SurroundedLiteral(Lower(row[column]), Lower(v));
    }
  }

  /** The pattern of an `Include` ends in `%`, so the database never sees a lone trailing escape. */
  lemma IncludePatternClosed(column: string, v: string)
    ensures EscapesClosed(IncludePredicate(column, v).pattern)
  {
    var p := IncludePredicate(column, v).pattern;
    assert p[|p| - 1] == '%';
    ClosedUnlessEndsInEscape(p);
  }

  /**
   * A `\` in an `Include` value is the database's escape character: the value
   * "a\b" selects a field containing "ab" and not the field "a\b" itself.
   */
  lemma IncludeBackslashEscapes(column: string)
    ensures Holds(IncludePredicate(column, "a\\b"), map[column := "ab"])
    ensures !Holds(IncludePredicate(column, "a\\b"), map[column := "a\\b"])
  {
    assert Lower("a\\b") == "a\\b";
    assert Lower("ab") == "ab";
    var p := "%" + "a\\b" + "%";
    assert p == ['%'] + ("a\\b" + "%");
    LeadingPercent("ab", "a\\b" + "%");
    LeadingPercent("a\\b", "a\\b" + "%");
    var q := "a\\b" + "%";
    assert q == ['a'] + (['\\', 'b'] + "%");
    EscapedCharacter("b", 'b', "%");
    PercentMatchesAll("");
    assert "ab"[0..] == "ab" && "ab"[1..] == "b";
    forall k | 0 <= k <= 3
      ensures !Like("a\\b"[k..], q)
    {
      var s := "a\\b"[k..];
      if s != [] && s[0] == 'a' {
        assert k == 0 && s[1..] == "\\b";
        EscapedCharacter("\\b", 'b', "%");
      }
    }
  }

  /** "tx1" selects the row whose transformer number is "TX100". */
  lemma IncludeExample()
    ensures Holds(IncludePredicate("transformerNo", "tx1"), map["transformerNo" := "TX100"])
    ensures !Holds(EqualTo("transformerNo", "tx100"), map["transformerNo" := "TX100"])
  {
    var row := map["transformerNo" := "TX100"];
    assert Lower("tx1") == "tx1";
    assert Lower("TX100") == "tx100";
    IncludeIsCaseInsensitiveSubstring("transformerNo", "tx1", row);
    assert OccursAt("tx100", "tx1", 0);
  }

  /** `%` and `_` in an `Include` value are not escaped: `_` selects every non-empty field. */
  lemma IncludeWildcardsUnescaped(column: string, row: Row)
    requires column in row && row[column] != ""
    ensures Holds(IncludePredicate(column, "_"), row)
  {
    var s := Lower(row[column]);
    assert Lower("_") == "_";
    var p := "%" + "_" + "%";
    assert p == ['%'] + ("_" + "%");
    PercentMatchesAll(s[1..]);
    assert ("_" + "%")[1..] == "%";
    assert Like(s, "_" + "%");
    assert s[0..] == s;
    LeadingPercent(s, "_" + "%");
  }

  /** `Equal` is exact, case-sensitive equality with the first value. */
  lemma EqualIsExact(column: string, v: string, row: Row)
    ensures Holds(EqualTo(column, v), row) <==> column in row && row[column] == v
  {
  }

  /** Appending a criterion never enlarges the set of matching rows. */
  lemma {:induction false} AppendNarrows(cs: seq<Criterion>, c: Criterion, fields: seq<string>, checked: bool, row: Row)
    requires Collect(cs + [c], fields, checked).Ok?
    ensures Collect(cs, fields, checked).Ok?
    ensures Matches(Collect(cs + [c], fields, checked).value, row) ==> Matches(Collect(cs, fields, checked).value, row)
  {
    assert (cs + [c])[..|cs|] == cs;
    var ps := Collect(cs, fields, checked).value;
    var qs := Collect(cs + [c], fields, checked).value;
    assert qs[..|ps|] == ps;
  }

  /**
   * When every column is a field of the entity the two builders agree; when a
   * column is missing, the unchecked one fails on a criterion the checked one skips.
   */
  lemma {:induction false} BuildersAgreeOnKnownColumns(cs: seq<Criterion>, fields: seq<string>)
    requires forall i :: 0 <= i < |cs| ==> cs[i].column.Some? && cs[i].column.value in fields
    ensures Collect(cs, fields, true) == Collect(cs, fields, false)
  {
    CollectCongruentFlags(cs, fields);
  }

  lemma {:induction false} CollectCongruentFlags(cs: seq<Criterion>, fields: seq<string>)
    requires forall i :: 0 <= i < |cs| ==> cs[i].column.Some? && cs[i].column.value in fields
    ensures Collect(cs, fields, true) == Collect(cs, fields, false)
    decreases |cs|
  {
    if cs != [] {
      CollectCongruentFlags(cs[..|cs| - 1], fields);
    }
  }

  lemma UnknownColumnFailsUnchecked(c: Criterion, fields: seq<string>)
    requires c.column.Some? && c.column.value !in fields
    requires c.values.Some? && c.values.value != [] && c.values.value[0].Some?
    requires c.operation == Some("Include") || c.operation == Some("Equal")
    ensures Collect([c], fields, false) == Err(UnknownAttribute)
    ensures Collect([c], fields, true) == Ok([])
  {
    assert [c][..0] == [];
  }
}
