/**
 * The response-shaping helpers of src/helper.ts. Each REST or GraphQL call is replaced
 * by a lookup in `Backend`, a snapshot of what the server would answer; a missing key
 * stands for a request or JSON access that throws.
 */
module Helper {
  import opened Wrappers
  import opened Text
  import opened Seqs
  import opened Types

  // ---------------------------------------------------------------------------
  // Decoded JSON records and the backend snapshot

  /** One entry of `GET data-connections`; `space` is absent or a string. */
  datatype DataConnectionRequest = DataConnectionRequest(
    id: string, datasourceID: string, qConnectStatement: string, qName: string, space: Option<string>)

  /** The intermediate record built from an AutoML data connection. */
  datatype DataConnection = DataConnection(
    deploymentId: Option<string>, connectionId: string, connectionName: string, spaceId: string)

  /** One entry of `GET items?resourceType=automl-deployment`. */
  datatype DeploymentItem = DeploymentItem(name: string, modelId: string)

  /** One column of a model's schema. */
  datatype FeatureRequest = FeatureRequest(name: string, dtype: string)

  datatype ModelInfo = ModelInfo(columns: seq<FeatureRequest>, experimentVersionId: string)

  datatype ExperimentVersionInfo = ExperimentVersionInfo(target: string, experimentType: string)

  datatype FeaturesResult = FeaturesResult(features: seq<Feature>, experimentVersionId: string)

  /** The result of `evaluateEx`: a `qText` that may be absent. */
  datatype EvalResult = EvalResult(qText: Option<string>)

  datatype Backend = Backend(
    dataConnections: Option<seq<DataConnectionRequest>>,
    /** keyed by the `resourceId` the items request carries (`null` when no id was parsed) */
    deploymentItems: map<Option<string>, seq<DeploymentItem>>,
    /**
     * model schema by the connection's `deploymentId`, which getConnections takes from
     * the deployment item's `resourceAttributes.modelId`, not from the parsed `deploymentId=`
     */
    models: map<string, ModelInfo>,
    /** experiment version info by experiment version id */
    experimentVersions: map<string, ExperimentVersionInfo>,
    /** `categoryBinResults[].category`, keyed like `models` */
    binaryCategories: map<string, seq<string>>,
    /** `importanceDictClass[].className`, keyed like `models` */
    multiclassClassNames: map<string, seq<string>>,
    /** space name by space id */
    spaceNames: map<string, string>)

  // ---------------------------------------------------------------------------
  // parseDeploymentId: /deploymentId=([a-f\d-]+)/

  const IdKey: string := "deploymentId="

  predicate IsIdChar(c: char) {
    ('a' <= c <= 'f') || ('0' <= c <= '9') || c == '-'
  }

  /** The regular expression matches starting at position `i`. */
  predicate MatchesAt(s: string, i: nat) {
    i + |IdKey| < |s| && s[i..i + |IdKey|] == IdKey && IsIdChar(s[i + |IdKey|])
  }

  /** The greedy run of id characters starting at `j`. */
  function IdRun(s: string, j: nat): (r: string)
    requires j <= |s|
    ensures j + |r| <= |s|
    decreases |s| - j
  {
    if j < |s| && IsIdChar(s[j]) then [s[j]] + IdRun(s, j + 1) else ""
  }

  /** `exec` scans left to right for the first position where the pattern matches. */
  function FindFrom(s: string, i: nat): (r: Option<string>)
    ensures r.Some? ==> r.value != "" && AllIdChars(r.value)
    decreases |s| - i
  {
    if i >= |s| then None
    else if MatchesAt(s, i) then IdRunMaximal(s, i + |IdKey|); Some(IdRun(s, i + |IdKey|))
    else FindFrom(s, i + 1)
  }

  /** The captured id is a non-empty run of id characters, and null means no match at all. */
  function ParseDeploymentId(s: string): (r: Option<string>)
    ensures r.Some? ==> r.value != "" && AllIdChars(r.value)
    ensures r.None? <==> forall j :: 0 <= j <= |s| ==> !MatchesAt(s, j)
  {
    FindFromNone(s, 0);
    FindFrom(s, 0)
  }

  predicate AllIdChars(id: string) {
    forall k :: 0 <= k < |id| ==> IsIdChar(id[k])
  }

  /** The run is a maximal block of id characters copied from `s` at `j`. */
  lemma {:induction false} IdRunMaximal(s: string, j: nat)
    requires j <= |s|
    ensures j + |IdRun(s, j)| <= |s| && s[j..j + |IdRun(s, j)|] == IdRun(s, j)
    ensures AllIdChars(IdRun(s, j))
    ensures j + |IdRun(s, j)| == |s| || !IsIdChar(s[j + |IdRun(s, j)|])
    decreases |s| - j
  {
    if j < |s| && IsIdChar(s[j]) {
      IdRunMaximal(s, j + 1);
      var r := IdRun(s, j + 1);
      assert s[j..j + 1 + |r|] == [s[j]] + s[j + 1..j + 1 + |r|];
    }
  }

  lemma {:induction false} FindFromFirst(s: string, i: nat, m: nat)
    requires i <= m <= |s| && MatchesAt(s, m)
    requires forall j :: i <= j < m ==> !MatchesAt(s, j)
    ensures FindFrom(s, i) == Some(IdRun(s, m + |IdKey|))
    decreases m - i
  {
    if i < m {
      FindFromFirst(s, i + 1, m);
    }
  }

  lemma {:induction false} FindFromNone(s: string, i: nat)
    ensures FindFrom(s, i).None? <==> forall j :: i <= j <= |s| ==> !MatchesAt(s, j)
    decreases |s| - i
  {
    if i < |s| {
      FindFromNone(s, i + 1);
    }
  }

  /**
   * parseDeploymentId finds the leftmost position where `deploymentId=` is followed by
   * an id character and returns the maximal run of id characters after the key; it
   * returns null exactly when there is no such position.
   */
  lemma ParseDeploymentIdSpec(s: string, m: nat)
    requires m <= |s| && MatchesAt(s, m)
    requires forall j :: 0 <= j < m ==> !MatchesAt(s, j)
    ensures ParseDeploymentId(s) == Some(IdRun(s, m + |IdKey|))
    ensures IdRun(s, m + |IdKey|) != ""
    ensures s[m + |IdKey|..m + |IdKey| + |IdRun(s, m + |IdKey|)|] == IdRun(s, m + |IdKey|)
    ensures AllIdChars(IdRun(s, m + |IdKey|))
  {
    FindFromFirst(s, 0, m);
    IdRunMaximal(s, m + |IdKey|);
  }

  // ---------------------------------------------------------------------------
  // getAppSpaceId

  /** `attributes.spaceId` when truthy, otherwise the personal space. */
  function AppSpaceId(spaceId: Option<string>): (r: string)
    ensures r != ""
    ensures Truthy(spaceId) ==> r == spaceId.value
    ensures !Truthy(spaceId) ==> r == "personal"
  {
    if Truthy(spaceId) then spaceId.value else "personal"
  }

  // ---------------------------------------------------------------------------
  // getConnections

  function ToDataConnection(c: DataConnectionRequest): DataConnection {
    DataConnection(ParseDeploymentId(c.qConnectStatement), c.id, c.qName,
                   if Truthy(c.space) then c.space.value else "personal")
  }

  /**
   * `data.filter(c => c.datasourceID === "mlautoml")`: the AutoML entries, in input
   * order, each as often as it occurs in `data`.
   */
  function AutoMLEntries(data: seq<DataConnectionRequest>): (r: seq<DataConnectionRequest>)
    ensures |r| <= |data|
    ensures IsSubsequence(r, data)
    ensures forall x :: multiset(r)[x] == if x.datasourceID == "mlautoml" then multiset(data)[x] else 0
  {
    if data == [] then []
    else
      var rest := AutoMLEntries(data[1..]);
      assert data == [data[0]] + data[1..];
      if data[0].datasourceID == "mlautoml" then
        var r := [data[0]] + rest;
        assert r[1..] == rest;
        r
      else
        DropHead(rest, data);
        rest
  }

  /** The AutoML entries, each shaped into the intermediate record, in input order. */
  function DataConnections(data: seq<DataConnectionRequest>): (r: seq<DataConnection>)
    ensures |r| == |AutoMLEntries(data)| <= |data|
    ensures forall k :: 0 <= k < |r| ==> r[k] == ToDataConnection(AutoMLEntries(data)[k])
    ensures forall k :: 0 <= k < |r| ==> r[k].spaceId != ""
  {
    var e := AutoMLEntries(data);
    seq(|e|, k requires 0 <= k < |e| => ToDataConnection(e[k]))
  }

  /** Each kept record comes from an AutoML entry. */
  lemma DataConnectionsSound(data: seq<DataConnectionRequest>)
    ensures forall k :: 0 <= k < |DataConnections(data)| ==>
              exists i :: 0 <= i < |data| && data[i].datasourceID == "mlautoml"
                          && DataConnections(data)[k] == ToDataConnection(data[i])
  {
    var e := AutoMLEntries(data);
    var r := DataConnections(data);
    forall k | 0 <= k < |r|
      ensures exists i :: 0 <= i < |data| && data[i].datasourceID == "mlautoml" && r[k] == ToDataConnection(data[i])
    {
      var x := e[k];
      assert x in multiset(e);
      assert x.datasourceID == "mlautoml" && x in multiset(data);
      var i :| 0 <= i < |data| && data[i] == x;
      assert r[k] == ToDataConnection(data[i]);
    }
  }

  /** Every AutoML entry is kept. */
  lemma DataConnectionsComplete(data: seq<DataConnectionRequest>)
    ensures forall i :: 0 <= i < |data| && data[i].datasourceID == "mlautoml" ==>
              ToDataConnection(data[i]) in DataConnections(data)
  {
    var e := AutoMLEntries(data);
    var r := DataConnections(data);
    forall i | 0 <= i < |data| && data[i].datasourceID == "mlautoml"
      ensures ToDataConnection(data[i]) in r
    {
      assert data[i] in multiset(data);
      assert data[i] in multiset(e);
      var k :| 0 <= k < |e| && e[k] == data[i];
      assert r[k] == ToDataConnection(data[i]);
    }
  }

  /** The lookup for `dc` returned at least one deployment item. */
  predicate Found(dc: DataConnection, items: map<Option<string>, seq<DeploymentItem>>) {
    dc.deploymentId in items && |items[dc.deploymentId]| > 0
  }

  /** The connection pushed for `dc`: ids from the data connection, deployment from the first item. */
  function Emit(dc: DataConnection, item: DeploymentItem): AutoMLConnection {
    AutoMLConnection(dc.connectionId, dc.connectionName, item.modelId, item.name, dc.spaceId)
  }

  /**
   * What the loop of getConnections has pushed after the entries `dcs`; None when one
   * of their item lookups throws, which aborts the whole call.
   */
  function ConnectionsOf(dcs: seq<DataConnection>, items: map<Option<string>, seq<DeploymentItem>>)
    : Option<seq<AutoMLConnection>>
  {
    if dcs == [] then Some([])
    else
      var last := dcs[|dcs| - 1];
      match ConnectionsOf(dcs[..|dcs| - 1], items)
      case None => None
      case Some(prev) =>
        if last.deploymentId !in items then None
        else if |items[last.deploymentId]| > 0 then Some(prev + [Emit(last, items[last.deploymentId][0])])
        else Some(prev)
  }

  lemma {:induction false} ConnectionsOfAbort(dcs: seq<DataConnection>, items: map<Option<string>, seq<DeploymentItem>>, k: nat)
    requires k <= |dcs| && ConnectionsOf(dcs[..k], items).None?
    ensures ConnectionsOf(dcs, items).None?
  {
    if k < |dcs| {
      var p := dcs[..|dcs| - 1];
      assert p[..k] == dcs[..k];
      ConnectionsOfAbort(p, items, k);
    } else {
      assert dcs[..k] == dcs;
    }
  }

  /** The whole call succeeds exactly when every item lookup succeeds. */
  lemma {:induction false} ConnectionsOfDefined(dcs: seq<DataConnection>, items: map<Option<string>, seq<DeploymentItem>>)
    ensures ConnectionsOf(dcs, items).Some? <==> forall i :: 0 <= i < |dcs| ==> dcs[i].deploymentId in items
  {
    if dcs != [] {
      var p := dcs[..|dcs| - 1];
      ConnectionsOfDefined(p, items);
      assert forall i :: 0 <= i < |p| ==> p[i] == dcs[i];
    }
  }

  /** Every pushed connection is the one emitted for a data connection whose lookup found items. */
  lemma {:induction false} ConnectionsOfSound(dcs: seq<DataConnection>, items: map<Option<string>, seq<DeploymentItem>>)
    requires ConnectionsOf(dcs, items).Some?
    ensures |ConnectionsOf(dcs, items).value| <= |dcs|
    ensures forall k :: 0 <= k < |ConnectionsOf(dcs, items).value| ==>
              exists i :: 0 <= i < |dcs| && Found(dcs[i], items)
                       && ConnectionsOf(dcs, items).value[k] == Emit(dcs[i], items[dcs[i].deploymentId][0])
  {
    if dcs != [] {
      var p := dcs[..|dcs| - 1];
      var last := dcs[|dcs| - 1];
      assert ConnectionsOf(p, items).Some?;
      ConnectionsOfSound(p, items);
      var prev := ConnectionsOf(p, items).value;
      var r := ConnectionsOf(dcs, items).value;
      assert r == prev || (Found(last, items) && r == prev + [Emit(last, items[last.deploymentId][0])]);
      forall k | 0 <= k < |r|
        ensures exists i :: 0 <= i < |dcs| && Found(dcs[i], items) && r[k] == Emit(dcs[i], items[dcs[i].deploymentId][0])
      {
        if k < |prev| {
          assert ConnectionsOf(p, items).value[k] == prev[k];
          var i :| 0 <= i < |p| && Found(p[i], items) && prev[k] == Emit(p[i], items[p[i].deploymentId][0]);
          assert p[i] == dcs[i];
          assert r[k] == prev[k];
        } else {
          assert r[k] == Emit(dcs[|dcs| - 1], items[dcs[|dcs| - 1].deploymentId][0]);
        }
      }
    }
  }

  /** Every data connection whose lookup found items has its connection pushed. */
  lemma {:induction false} ConnectionsOfComplete(dcs: seq<DataConnection>, items: map<Option<string>, seq<DeploymentItem>>)
    requires ConnectionsOf(dcs, items).Some?
    ensures forall i :: 0 <= i < |dcs| && Found(dcs[i], items) ==>
              Emit(dcs[i], items[dcs[i].deploymentId][0]) in ConnectionsOf(dcs, items).value
  {
    if dcs != [] {
      var p := dcs[..|dcs| - 1];
      assert ConnectionsOf(p, items).Some?;
      ConnectionsOfComplete(p, items);
      var prev := ConnectionsOf(p, items).value;
      var r := ConnectionsOf(dcs, items).value;
      assert forall x :: x in prev ==> x in r;
      forall i | 0 <= i < |dcs| && Found(dcs[i], items)
        ensures Emit(dcs[i], items[dcs[i].deploymentId][0]) in r
      {
        if i < |p| {
          assert p[i] == dcs[i];
        }
      }
    }
  }

  /** Reference definition: the emitted connection of each data connection that found items, in order. */
  function ConnectionsRef(dcs: seq<DataConnection>, items: map<Option<string>, seq<DeploymentItem>>)
    : seq<AutoMLConnection>
  {
    if dcs == [] then []
    else (if Found(dcs[0], items) then [Emit(dcs[0], items[dcs[0].deploymentId][0])] else [])
         + ConnectionsRef(dcs[1..], items)
  }

  lemma {:induction false} ConnectionsRefSnoc(dcs: seq<DataConnection>, dc: DataConnection,
                                              items: map<Option<string>, seq<DeploymentItem>>)
    ensures ConnectionsRef(dcs + [dc], items)
         == ConnectionsRef(dcs, items) + (if Found(dc, items) then [Emit(dc, items[dc.deploymentId][0])] else [])
  {
    if dcs == [] {
      assert [dc][1..] == [];
    } else {
      assert (dcs + [dc])[1..] == dcs[1..] + [dc];
      ConnectionsRefSnoc(dcs[1..], dc, items);
    }
  }

  /** The push loop's output is the in-order filter-and-map of the data connections. */
  lemma {:induction false} ConnectionsOfInOrder(dcs: seq<DataConnection>, items: map<Option<string>, seq<DeploymentItem>>)
    requires ConnectionsOf(dcs, items).Some?
    ensures ConnectionsOf(dcs, items).value == ConnectionsRef(dcs, items)
  {
    if dcs != [] {
      var p := dcs[..|dcs| - 1];
      var last := dcs[|dcs| - 1];
      assert ConnectionsOf(p, items).Some?;
      ConnectionsOfInOrder(p, items);
      assert p + [last] == dcs;
      ConnectionsRefSnoc(p, last, items);
    }
  }

  /**
   * getConnections: the filter/map step, then one item lookup per AutoML connection in
   * order, pushing a connection when the lookup returned items.
   */
  method GetConnections(backend: Backend) returns (r: Option<seq<AutoMLConnection>>)
    ensures backend.dataConnections.None? ==> r.None?
    ensures backend.dataConnections.Some? ==>
              r == ConnectionsOf(DataConnections(backend.dataConnections.value), backend.deploymentItems)
  {
    if backend.dataConnections.None? {
      return None;
    }
    r := PushConnections(DataConnections(backend.dataConnections.value), backend.deploymentItems);
  }

  /** The `for` loop of getConnections over the shaped data connections. */
  method PushConnections(dataConnections: seq<DataConnection>, items: map<Option<string>, seq<DeploymentItem>>)
    returns (r: Option<seq<AutoMLConnection>>)
    ensures r == ConnectionsOf(dataConnections, items)
  {
    var connections: seq<AutoMLConnection> := [];
    var i := 0;
    while i < |dataConnections|
      invariant 0 <= i <= |dataConnections|
      invariant ConnectionsOf(dataConnections[..i], items) == Some(connections)
    {
      var dc := dataConnections[i];
      assert dataConnections[..i + 1][..i] == dataConnections[..i];
      assert dataConnections[..i + 1][i] == dc;
      if dc.deploymentId !in items {
        ConnectionsOfAbort(dataConnections, items, i + 1);
        return None;
      }
      var data := items[dc.deploymentId];
      if |data| > 0 {
        connections := connections + [Emit(dc, data[0])];
      }
      i := i + 1;
    }
    assert dataConnections[..i] == dataConnections;
    r := Some(connections);
  }

  // ---------------------------------------------------------------------------
  // Request headers

  /** `Content-Type: application/json`, plus the CSRF token when it is truthy. */
  function RequestHeaders(csrfToken: Option<string>): (h: map<string, string>)
    ensures "Content-Type" in h && h["Content-Type"] == "application/json"
    ensures "qlik-csrf-token" in h <==> Truthy(csrfToken)
    ensures "qlik-csrf-token" in h ==> h["qlik-csrf-token"] == csrfToken.value
    ensures forall k :: k in h ==> k == "Content-Type" || k == "qlik-csrf-token"
  {
    var base := map["Content-Type" := "application/json"];
    if Truthy(csrfToken) then base["qlik-csrf-token" := csrfToken.value] else base
  }

  // ---------------------------------------------------------------------------
  // getFeatures and getTarget

  function ToFeature(c: FeatureRequest): Feature {
    Feature(c.name, "", if c.dtype == "numeric" then Numeric else Categorical)
  }

  /** The schema columns as features: one per column, in order, with an empty expression. */
  function FeaturesFromColumns(columns: seq<FeatureRequest>): (fs: seq<Feature>)
    ensures |fs| == |columns|
    ensures forall i :: 0 <= i < |fs| ==>
              && fs[i].name == columns[i].name
              && fs[i].expression == ""
              && (fs[i].kind == Numeric <==> columns[i].dtype == "numeric")
              && (fs[i].kind == Numeric || fs[i].kind == Categorical)
  {
    seq(|columns|, i requires 0 <= i < |columns| => ToFeature(columns[i]))
  }

  /**
   * getFeatures: the model's schema columns as features and its experiment version id;
   * None (the request throws) when the deployment has no model.
   */
  function GetFeatures(backend: Backend, deploymentId: string): (r: Option<FeaturesResult>)
    ensures r.Some? <==> deploymentId in backend.models
    ensures r.Some? ==>
              && r.value.experimentVersionId == backend.models[deploymentId].experimentVersionId
              && |r.value.features| == |backend.models[deploymentId].columns|
              && forall i :: 0 <= i < |r.value.features| ==>
                   r.value.features[i] == ToFeature(backend.models[deploymentId].columns[i])
  {
    if deploymentId in backend.models then
      var m := backend.models[deploymentId];
      Some(FeaturesResult(FeaturesFromColumns(m.columns), m.experimentVersionId))
    else None
  }

  /** getTarget: the experiment version's target field and experiment type. */
  function TargetOf(info: ExperimentVersionInfo): (t: Target)
    ensures t.field == info.target && t.kind == info.experimentType
  {
    Target(info.experimentType, info.target)
  }

  function GetTarget(backend: Backend, experimentVersionId: string): (r: Option<Target>)
    ensures r.Some? <==> experimentVersionId in backend.experimentVersions
    ensures r.Some? ==>
              && r.value.field == backend.experimentVersions[experimentVersionId].target
              && r.value.kind == backend.experimentVersions[experimentVersionId].experimentType
  {
    if experimentVersionId in backend.experimentVersions then
      Some(TargetOf(backend.experimentVersions[experimentVersionId]))
    else None
  }

  // ---------------------------------------------------------------------------
  // getBinaryReturnFields and getMultiClassReturnFields

  /** `${target}_${label}` for each label, in order. */
  function ReturnFieldNames(target: string, labels: seq<string>): (r: seq<string>)
    ensures |r| == |labels|
    ensures forall k :: 0 <= k < |r| ==> r[k] == target + "_" + labels[k]
  {
    if labels == [] then [] else [target + "_" + labels[0]] + ReturnFieldNames(target, labels[1..])
  }

  lemma ReturnFieldNameInjective(target: string, a: string, b: string)
    requires target + "_" + a == target + "_" + b
    ensures a == b
  {
    assert a == (target + "_" + a)[|target| + 1..];
    assert b == (target + "_" + b)[|target| + 1..];
  }

  function NameSet(target: string, seen: set<string>): set<string> {
    set x | x in seen :: target + "_" + x
  }

  /** Naming commutes with de-duplication, because the `target_` prefix is injective. */
  lemma {:induction false} DedupNames(target: string, labels: seq<string>, seen: set<string>)
    ensures DedupFrom(ReturnFieldNames(target, labels), NameSet(target, seen))
         == ReturnFieldNames(target, DedupFrom(labels, seen))
  {
    if labels != [] {
      var n := target + "_" + labels[0];
      assert ReturnFieldNames(target, labels)[1..] == ReturnFieldNames(target, labels[1..]);
      assert n in NameSet(target, seen) <==> labels[0] in seen by {
        if n in NameSet(target, seen) {
          var x :| x in seen && target + "_" + x == n;
          ReturnFieldNameInjective(target, x, labels[0]);
        }
      }
      assert NameSet(target, seen) + {n} == NameSet(target, seen + {labels[0]});
      DedupNames(target, labels[1..], seen);
      DedupNames(target, labels[1..], seen + {labels[0]});
    }
  }

  /** The de-duplicated `${target}_${label}` names, in order of first occurrence. */
  function ReturnFields(target: string, labels: seq<string>): (r: seq<string>)
    ensures r == ReturnFieldNames(target, Dedup(labels))
    ensures NoDuplicates(r)
    ensures forall x :: x in r <==> x in ReturnFieldNames(target, labels)
    ensures forall x :: x in r <==> exists i :: 0 <= i < |labels| && x == target + "_" + labels[i]
    ensures forall i, j :: 0 <= i < j < |r| ==>
              FirstIndex(ReturnFieldNames(target, labels), r[i]) < FirstIndex(ReturnFieldNames(target, labels), r[j])
  {
    var names := ReturnFieldNames(target, labels);
    DedupNames(target, labels, {});
    assert NameSet(target, {}) == {};
    DedupSpec(names);
    NamedLabels(target, labels);
    Dedup(names)
  }

  /** A name occurs exactly when it is `${target}_` followed by some label. */
  lemma NamedLabels(target: string, labels: seq<string>)
    ensures forall x :: x in ReturnFieldNames(target, labels) <==>
              exists i :: 0 <= i < |labels| && x == target + "_" + labels[i]
  {
    var names := ReturnFieldNames(target, labels);
    forall x ensures x in names <==> exists i :: 0 <= i < |labels| && x == target + "_" + labels[i] {
      if x in names {
        var k :| 0 <= k < |names| && names[k] == x;
      }
      if exists i :: 0 <= i < |labels| && x == target + "_" + labels[i] {
        var i :| 0 <= i < |labels| && x == target + "_" + labels[i];
        assert names[i] == x;
      }
    }
  }

  /** getBinaryReturnFields: the distinct `${target}_${category}` names of the binary model. */
  function GetBinaryReturnFields(backend: Backend, deploymentId: string, target: string): (r: Option<seq<string>>)
    ensures r.Some? <==> deploymentId in backend.binaryCategories
    ensures r.Some? ==> NoDuplicates(r.value)
    ensures r.Some? ==> forall x :: x in r.value <==>
              exists i :: 0 <= i < |backend.binaryCategories[deploymentId]|
                       && x == target + "_" + backend.binaryCategories[deploymentId][i]
  {
    if deploymentId in backend.binaryCategories then
      Some(ReturnFields(target, backend.binaryCategories[deploymentId]))
    else None
  }

  /** getMultiClassReturnFields: the distinct `${target}_${className}` names of the multiclass model. */
  function GetMultiClassReturnFields(backend: Backend, deploymentId: string, target: string): (r: Option<seq<string>>)
    ensures r.Some? <==> deploymentId in backend.multiclassClassNames
    ensures r.Some? ==> NoDuplicates(r.value)
    ensures r.Some? ==> forall x :: x in r.value <==>
              exists i :: 0 <= i < |backend.multiclassClassNames[deploymentId]|
                       && x == target + "_" + backend.multiclassClassNames[deploymentId][i]
  {
    if deploymentId in backend.multiclassClassNames then
      Some(ReturnFields(target, backend.multiclassClassNames[deploymentId]))
    else None
  }

  // ---------------------------------------------------------------------------
  // getFields

  /** `qText.split(',')` when there is a non-empty `qText`, otherwise no fields. */
  function GetFields(result: Option<EvalResult>): (r: seq<string>)
    ensures !(result.Some? && Truthy(result.value.qText)) ==> r == []
    ensures result.Some? && Truthy(result.value.qText) ==>
              |r| >= 1 && Join(",", r) == result.value.qText.value
    ensures forall k :: 0 <= k < |r| ==> ',' !in r[k]
  {
    if result.Some? && Truthy(result.value.qText) then
      SplitJoin(result.value.qText.value, ',');
      Split(result.value.qText.value, ',')
    else []
  }
}
