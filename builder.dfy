/**
 * The expression builder's state (src/components/AutoMLComponent.tsx): the React state
 * variables become the fields of `ExpressionBuilder`, each handler or effect a method.
 * Fetch results come from a `Helper.Backend` snapshot and from the host engine's answer
 * to the field-list evaluation.
 */
module Builder {
  import opened Wrappers
  import opened Text
  import opened Types
  import opened Helper
  import opened Expression

  /** The host engine's answer to `Concat(distinct $Field, ',')`. */
  datatype FieldEvaluation = NoApp | Throws | Returns(result: Option<EvalResult>)

  // ---------------------------------------------------------------------------
  // mapFeatures

  function MapFeature(f: Feature, fields: seq<string>): Feature {
    if f.name in fields then f.(expression := "[" + f.name + "]") else f
  }

  /** Defaulting by host fields: `[name]` for a feature whose name is a host field. */
  function MappedFeatures(features: seq<Feature>, fields: seq<string>): (r: seq<Feature>)
    ensures |r| == |features|
    ensures forall i :: 0 <= i < |r| ==> r[i].name == features[i].name && r[i].kind == features[i].kind
    ensures forall i :: 0 <= i < |r| ==>
              r[i].expression == if features[i].name in fields then "[" + features[i].name + "]" else features[i].expression
  {
    seq(|features|, i requires 0 <= i < |features| => MapFeature(features[i], fields))
  }

  /** Mapping twice changes nothing more than mapping once. */
  lemma MappedFeaturesIdempotent(features: seq<Feature>, fields: seq<string>)
    ensures MappedFeatures(MappedFeatures(features, fields), fields) == MappedFeatures(features, fields)
  {
  }

  /** A defaulted feature is never emitted verbatim: its clause is `[name] as [name]`. */
  lemma DefaultedFeatureIsAliased(f: Feature, fields: seq<string>)
    requires f.name in fields
    ensures FeatureClause(MapFeature(f, fields)) == "[" + f.name + "]" + " as [" + f.name + "]"
  {
    var e := "[" + f.name + "]";
    assert |e| != |f.name|;
    assert e[0] == '[';
  }

  /**
   * The features after mapFeatures(tmp): unchanged for an empty list or a failing field
   * fetch, `tmp` as it is without an app, and `tmp` defaulted by the host fields otherwise.
   */
  function MapFeaturesOutcome(current: seq<Feature>, tmp: seq<Feature>, host: FieldEvaluation): seq<Feature> {
    if |tmp| == 0 then current
    else match host
      case NoApp => tmp
      case Throws => current
      case Returns(r) => MappedFeatures(tmp, GetFields(r))
  }

  // ---------------------------------------------------------------------------
  // The fetch cascade

  predicate IsValidType(kind: string) {
    kind == "binary" || kind == "multiclass"
  }

  /** handleReturnFields: the classification return fields, or None when none are fetched. */
  function ReturnFieldsFor(backend: Backend, c: AutoMLConnection, t: Target): (r: Option<seq<string>>)
    ensures r.Some? ==> IsValidType(t.kind)
    ensures t.kind == "binary" ==>
              r == if c.deploymentId in backend.binaryCategories
                   then Some(ReturnFields(t.field, backend.binaryCategories[c.deploymentId])) else None
    ensures t.kind == "multiclass" ==>
              r == if c.deploymentId in backend.multiclassClassNames
                   then Some(ReturnFields(t.field, backend.multiclassClassNames[c.deploymentId])) else None
  {
    if t.kind == "binary" then GetBinaryReturnFields(backend, c.deploymentId, t.field)
    else if t.kind == "multiclass" then GetMultiClassReturnFields(backend, c.deploymentId, t.field)
    else None
  }

  /** The target the cascade fetches for `c`, by the experiment version of its model. */
  function CascadeTarget(backend: Backend, c: AutoMLConnection): Option<Target> {
    match GetFeatures(backend, c.deploymentId)
    case None => None
    case Some(f) => GetTarget(backend, f.experimentVersionId)
  }

  /** The return fields the cascade installs: only after a binary or multiclass target. */
  function CascadeReturnFields(backend: Backend, c: AutoMLConnection): Option<seq<string>> {
    match CascadeTarget(backend, c)
    case None => None
    case Some(t) => if IsValidType(t.kind) then ReturnFieldsFor(backend, c, t) else None
  }

  /**
   * Return fields are installed only for a binary or multiclass target, and then they are
   * the de-duplicated `<target>_<label>` names of that model's chart.
   */
  lemma CascadeReturnFieldsSpec(backend: Backend, c: AutoMLConnection)
    ensures CascadeReturnFields(backend, c).Some? ==>
              CascadeTarget(backend, c).Some? && IsValidType(CascadeTarget(backend, c).value.kind)
    ensures CascadeTarget(backend, c).Some? && CascadeTarget(backend, c).value.kind == "regression" ==>
              CascadeReturnFields(backend, c).None?
    ensures CascadeTarget(backend, c).Some? && CascadeTarget(backend, c).value.kind == "binary" ==>
              CascadeReturnFields(backend, c) ==
                if c.deploymentId in backend.binaryCategories
                then Some(ReturnFields(CascadeTarget(backend, c).value.field, backend.binaryCategories[c.deploymentId]))
                else None
    ensures CascadeTarget(backend, c).Some? && CascadeTarget(backend, c).value.kind == "multiclass" ==>
              CascadeReturnFields(backend, c) ==
                if c.deploymentId in backend.multiclassClassNames
                then Some(ReturnFields(CascadeTarget(backend, c).value.field, backend.multiclassClassNames[c.deploymentId]))
                else None
  {
  }

  // ---------------------------------------------------------------------------
  // Saving and loading a master item

  /** The `autoMlExpressionHelper` payload stored with the measure. */
  datatype Payload = Payload(features: seq<Feature>, connection: Option<AutoMLConnection>, returnField: JsString,
                             target: Target, returnFields: seq<string>)

  datatype MeasureDef = MeasureDef(qType: string, qLabel: string, qDef: string, title: string, description: string,
                                   helper: Payload)

  /** What `getLayout` returns for a stored measure. */
  datatype MeasureLayout = MeasureLayout(qLabel: string, qDef: string, helper: Option<Payload>)

  /** The host stores the definition and gives back its label, definition and payload. */
  function StoredLayout(d: MeasureDef): MeasureLayout {
    MeasureLayout(d.qLabel, d.qDef, Some(d.helper))
  }

  datatype HostWrite = NoWrite | CreateMeasure(def: MeasureDef) | UpdateMeasure(qId: string, def: MeasureDef)

  // ---------------------------------------------------------------------------
  // The Create-button guard

  /** The Create button is enabled: every expression filled, a non-blank name, not busy. */
  function CanCreate(features: seq<Feature>, masterItemName: string, isCreating: bool): (r: bool)
    ensures r <==>
              && (forall i :: 0 <= i < |features| ==> features[i].expression != "")
              && (exists k :: 0 <= k < |masterItemName| && !IsJsWhitespace(masterItemName[k]))
              && !isCreating
  {
    TrimEmptyIffBlank(masterItemName);
    !(exists i | 0 <= i < |features| :: features[i].expression == "") && Trim(masterItemName) != "" && !isCreating
  }

  const CreateTitle: string := "Create AutoML expression"
  const EditTitle: string := "Edit AutoML expression"

  function TitleFor(mode: Mode): string {
    if mode == Create then CreateTitle else EditTitle
  }

  // ---------------------------------------------------------------------------
  // The state

  class ExpressionBuilder {
    var open: bool
    var features: seq<Feature>
    var connections: seq<AutoMLConnection>
    var connection: Option<AutoMLConnection>
    var returnField: JsString
    var returnFields: seq<string>
    var target: Target
    var appSpaceId: Option<string>
    var finalExpression: string
    var masterItemName: string
    var mode: Mode
    var selectedMasterItem: Option<MasterItem>
    var dialogTitle: string
    /** The host's field names, offered by the per-feature menus. */
    var fields: seq<string>

    constructor (open: bool)
      ensures this.open == open
      ensures features == [] && connections == [] && connection == None && returnField == Null
      ensures returnFields == [] && target == Target("regression", "") && appSpaceId == None
      ensures finalExpression == "" && masterItemName == "" && mode == Create && selectedMasterItem == None
      ensures dialogTitle == CreateTitle && fields == []
    {
      this.open := open;
      features, connections, connection, returnField := [], [], None, Null;
      returnFields, target, appSpaceId := [], Target("regression", ""), None;
      finalExpression, masterItemName, mode, selectedMasterItem := "", "", Create, None;
      dialogTitle, fields := CreateTitle, [];
    }

    /** The setup effect: the AutoML connections, kept as they were if the fetch throws. */
    method LoadConnections(backend: Backend)
      modifies this`connections
      ensures var r := if backend.dataConnections.None? then None
                       else ConnectionsOf(DataConnections(backend.dataConnections.value), backend.deploymentItems);
              connections == if r.Some? then r.value else old(connections)
    {
      var r := GetConnections(backend);
      if r.Some? {
        connections := r.value;
      }
    }

    /** The app-space effect: with an app, the app's space id or `personal`. */
    method FetchAppSpaceId(hasApp: bool, spaceIdAttribute: Option<Option<string>>)
      modifies this`appSpaceId
      ensures appSpaceId == if hasApp && spaceIdAttribute.Some? then Some(AppSpaceId(spaceIdAttribute.value))
                            else old(appSpaceId)
    {
      if hasApp && spaceIdAttribute.Some? {
        appSpaceId := Some(AppSpaceId(spaceIdAttribute.value));
      }
    }

    /** The field-list effect. */
    method FetchFields(host: FieldEvaluation)
      modifies this`fields
      ensures fields == if host.Returns? then GetFields(host.result) else old(fields)
    {
      if host.Returns? {
        fields := GetFields(host.result);
      }
    }

    method SelectConnection(c: Option<AutoMLConnection>)
      modifies this`connection
      ensures connection == c
    {
      connection := c;
    }

    method SelectReturnField(v: Option<string>)
      modifies this`returnField
      ensures returnField == if v.Some? then Str(v.value) else Null
    {
      returnField := if v.Some? then Str(v.value) else Null;
    }

    method SetMasterItemName(name: string)
      modifies this`masterItemName
      ensures masterItemName == name
    {
      masterItemName := name;
    }

    method HandleClickOpen()
      modifies this`open
      ensures open
    {
      open := true;
    }

    method HandleClose()
      modifies this`open
      ensures !open
    {
      open := false;
    }

    /**
     * mapFeatures: for each host field, in order, every feature of that name gets the
     * expression `[field]`, written back into `tmp` slot by slot.
     */
    method MapFeatures(tmp: array<Feature>, host: FieldEvaluation)
      modifies this`features, tmp
      ensures features == MapFeaturesOutcome(old(features), old(tmp[..]), host)
      ensures tmp[..] == if tmp.Length > 0 && host.Returns? then MappedFeatures(old(tmp[..]), GetFields(host.result))
                         else old(tmp[..])
    {
      if tmp.Length == 0 {
        return;
      }
      match host
      case NoApp =>
        features := tmp[..];
      case Throws =>
        return;
      case Returns(result) =>
        var hostFields := GetFields(result);
        ghost var original := tmp[..];
        var i := 0;
        while i < |hostFields|
          invariant 0 <= i <= |hostFields|
          invariant forall k :: 0 <= k < tmp.Length ==> tmp[k] == MapFeature(original[k], hostFields[..i])
        {
          var field := hostFields[i];
          assert hostFields[..i + 1] == hostFields[..i] + [field];
          var j := 0;
          while j < tmp.Length
            invariant 0 <= j <= tmp.Length
            invariant forall k :: 0 <= k < j ==> tmp[k] == MapFeature(original[k], hostFields[..i + 1])
            invariant forall k :: j <= k < tmp.Length ==> tmp[k] == MapFeature(original[k], hostFields[..i])
          {
            var feat := tmp[j];
            if feat.name == field {
              feat := feat.(expression := "[" + field + "]");
              tmp[j] := feat;
            }
            j := j + 1;
          }
          i := i + 1;
        }
        assert hostFields[..i] == hostFields;
        assert tmp[..] == MappedFeatures(original, hostFields);
        features := tmp[..];
    }

    /**
     * The fetch-cascade effect: in create mode with a connection, fetch the features (and
     * map them), then the target by the model's experiment version, then, for a binary or
     * multiclass target, the return fields, selecting the first. A throwing stage ends the
     * cascade and keeps what earlier stages set.
     */
    method RunFetchCascade(backend: Backend, host: FieldEvaluation)
      modifies this`features, this`target, this`returnFields, this`returnField
      ensures !(mode == Create && connection.Some?) ==>
                features == old(features) && target == old(target)
                && returnFields == old(returnFields) && returnField == old(returnField)
      ensures mode == Create && connection.Some? ==>
                var c := connection.value;
                var f := GetFeatures(backend, c.deploymentId);
                var t := CascadeTarget(backend, c);
                var rfs := CascadeReturnFields(backend, c);
                && features == (if f.Some? then MapFeaturesOutcome(old(features), f.value.features, host) else old(features))
                && target == (if t.Some? then t.value else old(target))
                && returnFields == (if rfs.Some? then rfs.value else old(returnFields))
                && returnField == (if rfs.Some? then First(rfs.value) else old(returnField))
    {
      if mode == Create && connection.Some? {
        var c := connection.value;
        var f := GetFeatures(backend, c.deploymentId);
        if f.None? {
          return;
        }
        var fs := f.value.features;
        var tmp := new Feature[|fs|](i requires 0 <= i < |fs| => fs[i]);
        assert tmp[..] == fs;
        MapFeatures(tmp, host);
        var t := GetTarget(backend, f.value.experimentVersionId);
        if t.None? {
          return;
        }
        target := t.value;
        if IsValidType(t.value.kind) {
          var rfs := ReturnFieldsFor(backend, c, t.value);
          if rfs.Some? {
            returnFields := rfs.value;
            returnField := First(rfs.value);
          }
        }
      }
    }

    /** The final-expression effect: rewrite `finalExpression` when every input is present. */
    method UpdateFinalExpression(spaceNames: map<string, string>)
      modifies this`finalExpression
      ensures var e := FinalExpression(features, connection, returnField, appSpaceId, spaceNames);
              finalExpression == if open && e.Some? then e.value else old(finalExpression)
    {
      if open && Ready(features, connection, returnField, appSpaceId) {
        var dataTypes := DataTypeCode(features);
        var clause := BuildFieldClause(features);
        var c := connection.value;
        var connectionName := c.name;
        if c.spaceId != appSpaceId.value {
          if c.spaceId !in spaceNames {
            return;
          }
          connectionName := spaceNames[c.spaceId] + ":" + connectionName;
        }
        finalExpression := ScriptEvalEx(dataTypes, connectionName, returnField.Interpolated(), clause);
      }
    }

    /** handleFeatureChange: set one feature's expression; an index outside the list throws. */
    method HandleFeatureChange(expression: string, index: int)
      modifies this`features
      ensures 0 <= index < |old(features)| ==>
                features == old(features)[index := old(features)[index].(expression := expression)]
      ensures !(0 <= index < |old(features)|) ==> features == old(features)
    {
      if 0 <= index < |features| {
        var newFeatures := features;
        newFeatures := newFeatures[index := newFeatures[index].(expression := expression)];
        features := newFeatures;
      }
    }

    /** resetForm: clears the selection; the target and the return-field list stay. */
    method ResetForm()
      modifies this`masterItemName, this`finalExpression, this`features, this`connection,
               this`returnField, this`selectedMasterItem
      ensures masterItemName == "" && finalExpression == "" && features == [] && connection == None
      ensures returnField == Null && selectedMasterItem == None
      ensures target == old(target) && returnFields == old(returnFields)
    {
      masterItemName := "";
      finalExpression := "";
      features := [];
      connection := None;
      returnField := Null;
      selectedMasterItem := None;
    }

    /** handleModeChange: switch mode and title; switching to create also resets the form. */
    method HandleModeChange(newMode: Mode)
      modifies this`mode, this`dialogTitle, this`masterItemName, this`finalExpression, this`features,
               this`connection, this`returnField, this`selectedMasterItem
      ensures mode == newMode && dialogTitle == TitleFor(newMode)
      ensures newMode == Create ==>
                masterItemName == "" && finalExpression == "" && features == [] && connection == None
                && returnField == Null && selectedMasterItem == None
      ensures newMode == Edit ==>
                masterItemName == old(masterItemName) && finalExpression == old(finalExpression)
                && features == old(features) && connection == old(connection)
                && returnField == old(returnField) && selectedMasterItem == old(selectedMasterItem)
    {
      mode := newMode;
      dialogTitle := TitleFor(newMode);
      if newMode == Create {
        ResetForm();
      }
    }

    /** The Create button's enablement, given whether a save is in flight. */
    function CreateButtonEnabled(isCreating: bool): (r: bool)
      reads this
      ensures r <==>
                && (forall i :: 0 <= i < |features| ==> features[i].expression != "")
                && (exists k :: 0 <= k < |masterItemName| && !IsJsWhitespace(masterItemName[k]))
                && !isCreating
    {
      CanCreate(features, masterItemName, isCreating)
    }

    /** The measure definition handleCreateMasterItem sends to the host. */
    function MeasureDefinition(): (d: MeasureDef)
      reads this
      ensures d.qType == "measure" && d.qLabel == masterItemName && d.title == masterItemName
      ensures d.qDef == finalExpression && d.description == ""
      ensures d.helper == Payload(features, connection, returnField, target, returnFields)
    {
      MeasureDef("measure", masterItemName, finalExpression, masterItemName, "",
                 Payload(features, connection, returnField, target, returnFields))
    }

    /**
     * handleCreateMasterItem: with an app, a name and an expression, create the measure
     * (create mode) or update the selected one (edit mode), then close the dialog. A host
     * call that throws leaves the dialog open.
     */
    method HandleCreateMasterItem(hasApp: bool, hostSucceeds: bool) returns (write: HostWrite)
      modifies this`open
      ensures !(hasApp && masterItemName != "" && finalExpression != "") ==> write == NoWrite && open == old(open)
      ensures hasApp && masterItemName != "" && finalExpression != "" ==>
                && write == (if mode == Create then CreateMeasure(MeasureDefinition())
                             else if selectedMasterItem.Some? then UpdateMeasure(selectedMasterItem.value.qId, MeasureDefinition())
                             else NoWrite)
                && open == (if hostSucceeds || write == NoWrite then false else old(open))
    {
      write := NoWrite;
      if hasApp && masterItemName != "" && finalExpression != "" {
        var def := MeasureDefinition();
        if mode == Create {
          write := CreateMeasure(def);
        } else if selectedMasterItem.Some? {
          write := UpdateMeasure(selectedMasterItem.value.qId, def);
        }
        if hostSucceeds || write == NoWrite {
          HandleClose();
        }
      }
    }

    /** loadMasterItem: restore the name and expression, and the payload when there is one. */
    method LoadMasterItem(hasApp: bool, layout: Option<MeasureLayout>)
      modifies this`masterItemName, this`finalExpression, this`features, this`connection,
               this`returnField, this`target, this`returnFields
      ensures !(hasApp && layout.Some?) ==>
                masterItemName == old(masterItemName) && finalExpression == old(finalExpression)
      ensures hasApp && layout.Some? ==>
                masterItemName == layout.value.qLabel && finalExpression == layout.value.qDef
      ensures hasApp && layout.Some? && layout.value.helper.Some? ==>
                Payload(features, connection, returnField, target, returnFields) == layout.value.helper.value
      ensures !(hasApp && layout.Some? && layout.value.helper.Some?) ==>
                features == old(features) && connection == old(connection) && returnField == old(returnField)
                && target == old(target) && returnFields == old(returnFields)
    {
      if hasApp && layout.Some? {
        masterItemName := layout.value.qLabel;
        finalExpression := layout.value.qDef;
        if layout.value.helper.Some? {
          var p := layout.value.helper.value;
          features := p.features;
          connection := p.connection;
          returnField := p.returnField;
          target := p.target;
          returnFields := p.returnFields;
        }
      }
    }

    /** The master-item picker: remember the choice and load it when there is one. */
    method SelectMasterItem(item: Option<MasterItem>, hasApp: bool, layout: Option<MeasureLayout>)
      modifies this`selectedMasterItem, this`masterItemName, this`finalExpression, this`features,
               this`connection, this`returnField, this`target, this`returnFields
      ensures selectedMasterItem == item
      ensures item.Some? && hasApp && layout.Some? ==>
                masterItemName == layout.value.qLabel && finalExpression == layout.value.qDef
      ensures item.Some? && hasApp && layout.Some? && layout.value.helper.Some? ==>
                Payload(features, connection, returnField, target, returnFields) == layout.value.helper.value
      ensures !(item.Some? && hasApp && layout.Some?) ==>
                masterItemName == old(masterItemName) && finalExpression == old(finalExpression)
                && features == old(features) && connection == old(connection) && returnField == old(returnField)
                && target == old(target) && returnFields == old(returnFields)
    {
      selectedMasterItem := item;
      if item.Some? {
        LoadMasterItem(hasApp, layout);
      }
    }
  }

  /**
   * Saving a builder's state and loading the stored measure into a fresh builder restores
   * the name, the expression and every payload field.
   */
  method SaveThenLoad(b: ExpressionBuilder) returns (c: ExpressionBuilder)
    ensures fresh(c)
    ensures c.masterItemName == b.masterItemName && c.finalExpression == b.finalExpression
    ensures c.features == b.features && c.connection == b.connection && c.returnField == b.returnField
    ensures c.target == b.target && c.returnFields == b.returnFields
  {
    var stored := StoredLayout(b.MeasureDefinition());
    c := new ExpressionBuilder(true);
    c.LoadMasterItem(true, Some(stored));
  }
}
