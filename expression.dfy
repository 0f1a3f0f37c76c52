/**
 * Assembly of the calculated-measure expression (src/components/AutoMLComponent.tsx,
 * the final-expression effect): the data-type code, the field clause, the connection
 * name and the `endpoints.ScriptEvalEx(...)` template.
 */
module Expression {
  import opened Wrappers
  import opened Text
  import opened Types
  import Helper

  // ---------------------------------------------------------------------------
  // Data-type code

  function TypeChar(f: Feature): char {
    if f.kind == Categorical then 'S' else 'N'
  }

  /** `features.map(f => f.type === "Categorical" ? "S" : "N").join("")`. */
  function DataTypeCode(features: seq<Feature>): (code: string)
    ensures |code| == |features|
    ensures forall i :: 0 <= i < |features| ==>
              (code[i] == 'S' <==> features[i].kind == Categorical) && (code[i] == 'S' || code[i] == 'N')
  {
    if features == [] then "" else [TypeChar(features[0])] + DataTypeCode(features[1..])
  }

  /** Features built from a model schema get `N` exactly for the `numeric` columns. */
  lemma DataTypeCodeOfColumns(columns: seq<Helper.FeatureRequest>)
    ensures |DataTypeCode(Helper.FeaturesFromColumns(columns))| == |columns|
    ensures forall i :: 0 <= i < |columns| ==>
              (DataTypeCode(Helper.FeaturesFromColumns(columns))[i] == 'N' <==> columns[i].dtype == "numeric")
  {
  }

  // ---------------------------------------------------------------------------
  // Field clause

  /** `e.charAt(0) === "=" ? e.slice(1) : e`. */
  function StripLeadingEquals(e: string): string {
    if |e| > 0 && e[0] == '=' then e[1..] else e
  }

  /** One feature's entry in the field clause. */
  function FeatureClause(f: Feature): (r: string)
    ensures f.expression == f.name ==> r == f.name
    ensures f.expression != f.name ==>
              |r| >= |f.name| + 6 && r[|r| - |f.name| - 6..] == " as [" + f.name + "]"
  {
    if f.expression == f.name then f.expression
    else StripLeadingEquals(f.expression) + " as [" + f.name + "]"
  }

  /**
   * A feature whose expression is its bare name is emitted verbatim; any other is its
   * expression with at most one leading `=` removed, aliased as `[name]`.
   */
  lemma FeatureClauseShape(f: Feature)
    ensures f.expression == f.name ==> FeatureClause(f) == f.name
    ensures f.expression != f.name ==>
      exists body :: FeatureClause(f) == body + " as [" + f.name + "]"
                  && (f.expression == body || f.expression == "=" + body)
                  && (f.expression == body ==> |body| == 0 || body[0] != '=')
  {
    if f.expression != f.name {
      var body := StripLeadingEquals(f.expression);
      if |f.expression| > 0 && f.expression[0] == '=' {
        assert f.expression == "=" + body;
      }
      assert FeatureClause(f) == body + " as [" + f.name + "]";
    }
  }

  function Clauses(features: seq<Feature>): (cl: seq<string>)
    ensures |cl| == |features|
  {
    seq(|features|, i requires 0 <= i < |features| => FeatureClause(features[i]))
  }

  const Separator: string := ",\n"

  /** The clauses joined by `,\n`. */
  function FieldClause(features: seq<Feature>): string {
    Join(Separator, Clauses(features))
  }

  /**
   * n clauses are separated by exactly n - 1 separators, and the last clause ends the
   * field clause with no separator after it.
   */
  lemma FieldClauseSeparators(features: seq<Feature>, f: Feature)
    ensures |FieldClause(features + [f])| == Text.TotalLength(Clauses(features + [f])) + |features| * |Separator|
    ensures features != [] ==> FieldClause(features + [f]) == FieldClause(features) + Separator + FeatureClause(f)
    ensures features == [] ==> FieldClause(features + [f]) == FeatureClause(f)
  {
    JoinLength(Separator, Clauses(features + [f]));
    assert Clauses(features + [f]) == Clauses(features) + [FeatureClause(f)];
    if features != [] {
      JoinSnoc(Separator, Clauses(features), FeatureClause(f));
    }
  }

  /** The `forEach` of the effect: append each clause, and `,\n` after all but the last. */
  method BuildFieldClause(features: seq<Feature>) returns (fields: string)
    ensures fields == FieldClause(features)
  {
    fields := "";
    var n := |features|;
    var i := 0;
    while i < n
      invariant 0 <= i <= n
      invariant i == 0 ==> fields == ""
      invariant 0 < i < n ==> fields == Join(Separator, Clauses(features[..i])) + Separator
      invariant i == n && n > 0 ==> fields == Join(Separator, Clauses(features[..i]))
    {
      var f := features[i];
      assert Clauses(features[..i + 1]) == Clauses(features[..i]) + [FeatureClause(f)];
      if i > 0 {
        JoinSnoc(Separator, Clauses(features[..i]), FeatureClause(f));
      }
      fields := fields + FeatureClause(f);
      if i != n - 1 {
        fields := fields + Separator;
      }
      i := i + 1;
    }
    assert features[..n] == features;
  }

  // ---------------------------------------------------------------------------
  // Connection name and template

  /** The connection's own name, prefixed by `<spaceName>:` when it lives in another space. */
  function ConnectionName(c: AutoMLConnection, appSpaceId: string, spaceName: string): (r: string)
    ensures r == c.name <==> c.spaceId == appSpaceId
    ensures |r| >= |c.name| && r[|r| - |c.name|..] == c.name
    ensures c.spaceId != appSpaceId ==> r == spaceName + ":" + c.name
  {
    if c.spaceId != appSpaceId then spaceName + ":" + c.name else c.name
  }

  const TemplateHead: string := "endpoints.ScriptEvalEx('"

  /** The template after the data-type code's closing quote: the request JSON and the field clause. */
  function TemplateTail(connectionName: string, column: string, fields: string): string {
    ",'{\"RequestType\":\"endpoint\", \"endpoint\":{\"connectionname\":\"" + connectionName
    + "\", \"column\": \"" + column + "\"}}', \n " + fields + "\n)"
  }

  /** The fixed call-expression template with its four holes filled in, unescaped. */
  function ScriptEvalEx(dataTypes: string, connectionName: string, column: string, fields: string): (exp: string)
    ensures |exp| > |TemplateHead| + |dataTypes| + |fields| + 2
    ensures exp[..|TemplateHead| + |dataTypes| + 1] == TemplateHead + dataTypes + "'"
    ensures exp[|exp| - |fields| - 2..] == fields + "\n)"
  {
    var tail := TemplateTail(connectionName, column, fields);
    var exp := TemplateHead + dataTypes + "'" + tail;
    assert exp == (TemplateHead + dataTypes + "'") + tail;
    assert tail[|tail| - |fields| - 2..] == fields + "\n)";
    exp
  }

  /** The characters before the first `'`, or None when there is none. */
  function UntilQuote(s: string): Option<string> {
    if s == [] then None
    else if s[0] == '\'' then Some("")
    else match UntilQuote(s[1..])
      case None => None
      case Some(t) => Some([s[0]] + t)
  }

  /** Reads the data-type code back out of an assembled expression. */
  function DataTypesOf(exp: string): Option<string> {
    if |exp| >= |TemplateHead| && exp[..|TemplateHead|] == TemplateHead then UntilQuote(exp[|TemplateHead|..])
    else None
  }

  lemma {:induction false} UntilQuoteAppend(t: string, rest: string)
    requires '\'' !in t
    ensures UntilQuote(t + "'" + rest) == Some(t)
  {
    if t != [] {
      assert (t + "'" + rest)[0] == t[0];
      assert (t + "'" + rest)[1..] == t[1..] + "'" + rest;
      UntilQuoteAppend(t[1..], rest);
      assert [t[0]] + t[1..] == t;
    }
  }

  /** The data-type code can be recovered from the expression it was placed in. */
  lemma DataTypesRoundTrip(dataTypes: string, connectionName: string, column: string, fields: string)
    requires '\'' !in dataTypes
    ensures DataTypesOf(ScriptEvalEx(dataTypes, connectionName, column, fields)) == Some(dataTypes)
  {
    var exp := ScriptEvalEx(dataTypes, connectionName, column, fields);
    var rest := TemplateTail(connectionName, column, fields);
    assert exp == TemplateHead + (dataTypes + "'" + rest);
    assert exp[|TemplateHead|..] == dataTypes + "'" + rest;
    UntilQuoteAppend(dataTypes, rest);
  }

  // ---------------------------------------------------------------------------
  // The final-expression effect

  /** All inputs of the effect are present: connection, return field, app space and features. */
  predicate Ready(features: seq<Feature>, connection: Option<AutoMLConnection>, returnField: JsString,
                  appSpaceId: Option<string>)
  {
    connection.Some? && |features| > 0 && returnField != Null && appSpaceId.Some?
  }

  /**
   * The expression the effect stores, or None when it leaves `finalExpression` as it was:
   * when an input is missing, or when the space-name lookup it needs throws.
   */
  function FinalExpression(features: seq<Feature>, connection: Option<AutoMLConnection>, returnField: JsString,
                           appSpaceId: Option<string>, spaceNames: map<string, string>): (r: Option<string>)
    ensures r.Some? ==> Ready(features, connection, returnField, appSpaceId)
    ensures Ready(features, connection, returnField, appSpaceId) ==>
              (r.Some? <==> connection.value.spaceId == appSpaceId.value || connection.value.spaceId in spaceNames)
    ensures r.Some? ==> DataTypesOf(r.value) == Some(DataTypeCode(features))
    ensures r.Some? ==>
              var c := connection.value;
              var spaceName := if c.spaceId in spaceNames then spaceNames[c.spaceId] else "";
              r.value == ScriptEvalEx(DataTypeCode(features), ConnectionName(c, appSpaceId.value, spaceName),
                                      returnField.Interpolated(), FieldClause(features))
  {
    if !Ready(features, connection, returnField, appSpaceId) then None
    else
      var c := connection.value;
      if c.spaceId != appSpaceId.value && c.spaceId !in spaceNames then None
      else
        var spaceName := if c.spaceId in spaceNames then spaceNames[c.spaceId] else "";
        var dataTypes := DataTypeCode(features);
        assert '\'' !in dataTypes;
        DataTypesRoundTrip(dataTypes, ConnectionName(c, appSpaceId.value, spaceName),
                           returnField.Interpolated(), FieldClause(features));
        Some(ScriptEvalEx(dataTypes, ConnectionName(c, appSpaceId.value, spaceName),
                          returnField.Interpolated(), FieldClause(features)))
  }

  /** Without a chosen return field no expression is produced, whatever the target type. */
  lemma NoReturnFieldNoExpression(features: seq<Feature>, connection: Option<AutoMLConnection>,
                                  appSpaceId: Option<string>, spaceNames: map<string, string>)
    ensures FinalExpression(features, connection, Null, appSpaceId, spaceNames).None?
  {
  }

  /** An empty return-field list leaves `undefined` in the slot, and it is interpolated as such. */
  lemma UndefinedReturnFieldInterpolated(features: seq<Feature>, c: AutoMLConnection, appSpaceId: string)
    requires |features| > 0 && c.spaceId == appSpaceId
    ensures FinalExpression(features, Some(c), First([]), Some(appSpaceId), map[])
         == Some(ScriptEvalEx(DataTypeCode(features), c.name, "undefined", FieldClause(features)))
  {
    assert First([]) == Undefined && Undefined.Interpolated() == "undefined";
    assert Ready(features, Some(c), Undefined, Some(appSpaceId));
    assert ConnectionName(c, appSpaceId, "") == c.name;
  }
}
