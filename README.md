# AutoML expression helper — a Dafny model

This project models the logic that the AutoML expression helper uses to build a calculated measure
for a deployed AutoML model. The helper is a Qlik Sense extension written as a React component.

- **Response shaping** (module `Helper`, src/helper.ts). This covers:
  - pulling a deployment id out of a connect statement (`parseDeploymentId`);
  - the app-space default;
  - filtering the data connections down to AutoML ones and resolving their deployments (`getConnections`);
  - turning a model schema into features (`getFeatures`);
  - projecting the experiment target (`getTarget`);
  - naming and de-duplicating the classification return fields;
  - splitting the host's field list (`getFields`);
  - the CSRF request headers.

  Every REST or GraphQL request is replaced by a lookup in a `Backend` snapshot of decoded server answers. A missing key stands for a request, or a JSON access, that throws.
- **Expression assembly** (module `Expression`, the final-expression effect of src/components/AutoMLComponent.tsx). This covers:
  - the `S`/`N` data-type code;
  - the field clause, whose `,\n`-joining loop is a method proved against a specification function;
  - the space-prefixed connection name;
  - the `endpoints.ScriptEvalEx(...)` template.

  A parser partner, `DataTypesOf`, reads the data-type code back out of an assembled expression.
- **Builder state** (module `Builder`, class `ExpressionBuilder`). The component's React state variables are its fields, and each handler or effect is a method:
  - `mapFeatures`: in-place defaulting of a feature array by host fields, in nested loops;
  - the fetch cascade from features to target to return fields;
  - `handleFeatureChange`;
  - `resetForm` and `handleModeChange`;
  - saving a master item as `measureDef` and restoring it with `loadMasterItem`;
  - the Create-button guard.
- **Search menu** (module `SearchMenu`, src/components/SearchableMenuButton.tsx). This gives the case-insensitive substring filter over variable names, and the menu's open, anchor and search-text state as class `MenuButton`.

Shared pieces:
- `Text` holds lower-casing, substring search, `split`/`join` and the ECMAScript `trim`.
- `Seqs` holds subsequences and `Array.from(new Set(xs))`, which keeps first occurrences in insertion order.
- `Types` holds the entities.

A JavaScript string slot that may also be `null` or `undefined` is the datatype `Types.JsString`. This matters for the return field: `rfs[0]` of an empty list is `undefined`. That value passes the `!== null` guard of the final-expression effect and is interpolated as the text `undefined`.

Two consequences of the code are worth stating:
- **Regression targets.** A regression target gets no expression in a fresh builder. The final-expression effect requires `returnField !== null` (src/components/AutoMLComponent.tsx:241), and the fetch cascade sets the return field only for a binary or multiclass target (`Expression.NoReturnFieldNoExpression`).
- **Deployment id.** `parseDeploymentId` uses the regular expression `/deploymentId=([a-f\d-]+)/`. It matches at the leftmost `deploymentId=` that is followed by at least one id character.

## Model

| member | source | states |
|---|---|---|
| Types.First | src/components/AutoMLComponent.tsx:172-175 | `rfs[0]` is never `null`: it is the first element of a non-empty list, and `undefined` exactly when the list is empty |
| Text.SplitJoin | src/helper.ts:199 | joining the pieces of `split(',')` with `,` gives back the original text |
| Text.SplitCount | src/helper.ts:199 | `split` yields one piece more than there are separators in the text |
| Text.TrimEmptyIffBlank | src/components/AutoMLComponent.tsx:692 | `trim()` yields the empty string exactly when every character is ECMAScript white space or a line terminator |
| Seqs.DedupSpec | src/helper.ts:161-165 | `Array.from(new Set(s))` holds exactly the elements of `s`, each once, as a subsequence of `s` in the order of their first occurrence, and it is `s` itself when `s` has no repeats |
| Seqs.DedupIdempotent | src/helper.ts:161-165 | de-duplicating twice gives the same list as de-duplicating once |
| Helper.ParseDeploymentIdSpec | src/helper.ts:24-28 | at the leftmost position where `deploymentId=` is followed by an id character, the result is the maximal non-empty run of `[a-f0-9-]` after the key, copied from the input |
| Helper.ParseDeploymentId | src/helper.ts:24-28 | a captured id is a non-empty run of `[a-f0-9-]` characters, and the result is `null` exactly when no position matches |
| Helper.AppSpaceId | src/helper.ts:33-36 | the space id when it is truthy, otherwise `personal`; never empty |
| Helper.AutoMLEntries | src/helper.ts:48-49 | the filter keeps an order-preserving subsequence of the entries, holding every `mlautoml` entry as often as in the input and nothing else |
| Helper.DataConnections | src/helper.ts:48-55 | one record per kept AutoML entry, in the same order, each its shaped form; every record has a non-empty space id |
| Helper.DataConnectionsSound | src/helper.ts:48-55 | every kept record is the shaped form (parsed deployment id, id, name, and space with a missing or empty `space` as `personal`) of an entry whose `datasourceID` is `mlautoml` |
| Helper.DataConnectionsComplete | src/helper.ts:48-55 | every `mlautoml` entry is kept in shaped form |
| Helper.ConnectionsOfAbort | src/helper.ts:57-63 | an items lookup that throws anywhere makes the whole call throw |
| Helper.ConnectionsOfDefined | src/helper.ts:57-64 | the call returns exactly when every item lookup succeeds |
| Helper.ConnectionsOfSound | src/helper.ts:64-71 | never more connections than data connections, and each one takes id, name and space from a data connection whose lookup returned an entry, and deployment id and deployment name from the first entry |
| Helper.ConnectionsOfComplete | src/helper.ts:64-71 | every data connection whose lookup returned an entry has its connection pushed |
| Helper.ConnectionsOfInOrder | src/helper.ts:56-74 | the pushed list is the in-order filter-and-map of the data connections whose lookup returned an entry |
| Helper.GetConnections | src/helper.ts:45-75 | throws when the list request throws; otherwise the specified connection list of the shaped AutoML entries, or a throw when any lookup throws |
| Helper.PushConnections | src/helper.ts:56-74 | the push loop produces exactly the specified connection list, or throws when any item lookup throws |
| Helper.RequestHeaders | src/helper.ts:83-89 | `Content-Type: application/json` always, `qlik-csrf-token` exactly when the token is truthy and then with its value, and no other header |
| Helper.FeaturesFromColumns | src/helper.ts:103-107 | one feature per column, in order, with the column's name, an empty expression, and type `Numeric` exactly when the dtype is `numeric` (otherwise `Categorical`) |
| Helper.GetFeatures | src/helper.ts:82-112 | succeeds exactly when the deployment has a model; then one feature per schema column, in order, each shaped from its column, and the model's experiment version id |
| Helper.TargetOf | src/helper.ts:135-138 | the target's field is the experiment's `target` and its type is the `experimentType` |
| Helper.GetTarget | src/helper.ts:114-139 | succeeds exactly when the experiment version exists; then its `target` as field and its `experimentType` as type |
| Helper.ReturnFieldNames | src/helper.ts:163 | one name per label, in order, and the name at position k is `<target>_` followed by the k-th label |
| Helper.NamedLabels | src/helper.ts:163 | a name occurs in the mapped list exactly when it is `<target>_` followed by some label |
| Helper.DedupNames | src/helper.ts:161-165 | naming and then de-duplicating equals de-duplicating the labels and then naming them, because the `<target>_` prefix is injective |
| Helper.ReturnFields | src/helper.ts:188-194 | the return fields are the `<target>_<label>` names without repeats: exactly one name per distinct label, in order of first occurrence |
| Helper.GetBinaryReturnFields | src/helper.ts:141-166 | succeeds exactly when the model has binary chart data; then names without repeats, exactly the `<target>_<category>` names of its category bins |
| Helper.GetMultiClassReturnFields | src/helper.ts:168-195 | succeeds exactly when the model has multiclass chart data; then names without repeats, exactly the `<target>_<className>` names of its importance classes |
| Helper.GetFields | src/helper.ts:197-199 | `[]` without a truthy `qText`; otherwise at least one piece, none containing `,`, that join back to `qText` |
| Expression.DataTypeCode | src/components/AutoMLComponent.tsx:244-246 | one character per feature, in order: `S` exactly for a Categorical feature, `N` for every other type |
| Expression.DataTypeCodeOfColumns | src/helper.ts:104 | for features built from a model schema, the code has `N` exactly at the numeric columns |
| Expression.FeatureClause | src/components/AutoMLComponent.tsx:248-256 | a feature whose expression is its name gives just the name; any other clause ends in ` as [<name>]` |
| Expression.FeatureClauseShape | src/components/AutoMLComponent.tsx:248-256 | a feature whose expression is its name is emitted verbatim; any other is emitted as its expression with at most one leading `=` removed, followed by ` as [<name>]` |
| Expression.FieldClauseSeparators | src/components/AutoMLComponent.tsx:257-259 | n clauses carry exactly n − 1 separators `,\n`, and the last clause ends the text |
| Expression.BuildFieldClause | src/components/AutoMLComponent.tsx:247-260 | the `forEach` accumulation equals the clauses joined by `,\n` |
| Expression.ConnectionName | src/components/AutoMLComponent.tsx:262-266 | the bare connection name exactly when the connection's space is the app's space, otherwise `<spaceName>:<name>` |
| Expression.ScriptEvalEx | src/components/AutoMLComponent.tsx:268 | the expression opens with `endpoints.ScriptEvalEx('`, the data-type code and its closing quote, and ends with the field clause and `\n)` |
| Expression.DataTypesRoundTrip | src/components/AutoMLComponent.tsx:268 | the data-type code can be read back from the template it was placed in |
| Expression.FinalExpression | src/components/AutoMLComponent.tsx:235-274 | an expression is produced only when connection, return field and app space are present and there is a feature; it is then produced exactly when the space-name lookup it needs succeeds, and it is then exactly the template filled with the data-type code, the (space-prefixed) connection name, the interpolated return field and the field clause, from which the data-type code reads back |
| Expression.NoReturnFieldNoExpression | src/components/AutoMLComponent.tsx:238-243 | with a `null` return field no expression is produced, whatever the target type |
| Expression.UndefinedReturnFieldInterpolated | src/components/AutoMLComponent.tsx:268 | an empty return-field list leaves `undefined` as the `column` of the expression |
| Builder.MappedFeatures | src/components/AutoMLComponent.tsx:130-139 | order, length, names and types are kept; the expression becomes `[name]` exactly for the features whose name is a host field, and the rest are untouched |
| Builder.MappedFeaturesIdempotent | src/components/AutoMLComponent.tsx:130-139 | mapping by the same fields a second time changes nothing |
| Builder.DefaultedFeatureIsAliased | src/components/AutoMLComponent.tsx:250-256 | a defaulted feature is never emitted verbatim: its clause is `[name] as [name]` |
| Builder.IsValidType | src/components/AutoMLComponent.tsx:154-156 | exactly the `binary` and `multiclass` experiment types are classification types |
| Builder.ReturnFieldsFor | src/components/AutoMLComponent.tsx:164-176 | fields are fetched only for a binary or multiclass target; a binary target gets the de-duplicated category names and a multiclass target the de-duplicated class names, and a failing fetch gives none |
| Builder.CascadeReturnFieldsSpec | src/components/AutoMLComponent.tsx:154-193 | return fields are installed only after a binary or multiclass target, never for regression, and they are that model's de-duplicated category or class names |
| Builder.CanCreate | src/components/AutoMLComponent.tsx:692 | Create is enabled exactly when every expression is non-empty, the name has a non-white-space character, and no save is in flight |
| Builder.ExpressionBuilder.CreateButtonEnabled | src/components/AutoMLComponent.tsx:692 | on the builder's state: Create is enabled exactly when every feature's expression is non-empty, the master-item name has a non-white-space character, and no save is in flight |
| Builder.ExpressionBuilder.constructor | src/components/AutoMLComponent.tsx:93-118 | the initial state, with a `regression` target and the create-mode title |
| Builder.ExpressionBuilder.LoadConnections | src/components/AutoMLComponent.tsx:146-152 | the connections become the `getConnections` result, and stay as they were when it throws |
| Builder.ExpressionBuilder.FetchAppSpaceId | src/components/AutoMLComponent.tsx:224-233 | with an app, and when the app request succeeds, the app space id becomes its defaulted value |
| Builder.ExpressionBuilder.FetchFields | src/components/AutoMLComponent.tsx:467-475 | with an app, the host field list becomes the split `qText` |
| Builder.ExpressionBuilder.SelectConnection | src/components/AutoMLComponent.tsx:533-535 | the chosen connection, or none, is stored |
| Builder.ExpressionBuilder.SelectReturnField | src/components/AutoMLComponent.tsx:613-615 | the chosen return field, or `null` when it is cleared, is stored |
| Builder.ExpressionBuilder.SetMasterItemName | src/components/AutoMLComponent.tsx:630 | the typed name is stored |
| Builder.ExpressionBuilder.HandleClickOpen | src/components/AutoMLComponent.tsx:276-278 | the dialog is open |
| Builder.ExpressionBuilder.HandleClose | src/components/AutoMLComponent.tsx:280-282 | the dialog is closed |
| Builder.ExpressionBuilder.MapFeatures | src/components/AutoMLComponent.tsx:120-144 | the nested loops rewrite the array to the defaulted features; an empty list or a failing field fetch leaves `features` unchanged; without an app the list is stored as it is |
| Builder.ExpressionBuilder.RunFetchCascade | src/components/AutoMLComponent.tsx:184-202 | only in create mode with a connection: the features are mapped, then the target is fetched by the model's experiment version, then the return fields (for binary or multiclass) are fetched with the first one selected; each stage keeps what earlier stages set when a later one throws |
| Builder.ExpressionBuilder.UpdateFinalExpression | src/components/AutoMLComponent.tsx:235-274 | while the dialog is open, `finalExpression` becomes the specified expression when there is one, and is left unchanged otherwise |
| Builder.ExpressionBuilder.HandleFeatureChange | src/components/AutoMLComponent.tsx:284-288 | exactly the indexed feature gets the new expression; an index outside the list changes nothing |
| Builder.ExpressionBuilder.ResetForm | src/components/AutoMLComponent.tsx:452-459 | name, expression, features, connection, return field and selected item are cleared; the target and the return-field list are kept |
| Builder.ExpressionBuilder.HandleModeChange | src/components/AutoMLComponent.tsx:443-450 | the mode and the matching dialog title are set; switching to create resets the form, and switching to edit leaves it alone |
| Builder.ExpressionBuilder.MeasureDefinition | src/components/AutoMLComponent.tsx:315-334 | a `measure` whose label and title are the name, whose definition is the final expression, with an empty description, carrying features, connection, return field, target and return fields |
| Builder.ExpressionBuilder.HandleCreateMasterItem | src/components/AutoMLComponent.tsx:311-352 | with an app, a name and an expression: create in create mode, update the selected item in edit mode, and close unless the host call throws; otherwise nothing happens |
| Builder.ExpressionBuilder.LoadMasterItem | src/components/AutoMLComponent.tsx:412-441 | name and expression come from the stored measure, plus all five payload fields when a payload is stored; nothing changes when the host call throws |
| Builder.ExpressionBuilder.SelectMasterItem | src/components/AutoMLComponent.tsx:552-557 | the selection is stored, and a chosen item is loaded |
| Builder.SaveThenLoad | src/components/AutoMLComponent.tsx:418-436 | loading the measure that was saved restores the name, the expression and every payload field in a fresh builder |
| SearchMenu.Matches | src/components/SearchableMenuButton.tsx:42 | an empty search text matches every option |
| SearchMenu.Filter | src/components/SearchableMenuButton.tsx:42 | the filtered options are an order-preserving subsequence of the options, holding exactly the matching ones, each as often as in the options |
| SearchMenu.FilterEmptySearch | src/components/SearchableMenuButton.tsx:42 | an empty search text lists every option |
| SearchMenu.FirstMatch | src/components/SearchableMenuButton.tsx:42-47 | the position of the earliest matching option: no option before it matches, and it matches when it lies inside the list |
| SearchMenu.FilterHead | src/components/SearchableMenuButton.tsx:42-47 | the filtered list is non-empty exactly when some option matches, and then its head is the first matching option |
| SearchMenu.EnterReportAsWritten | src/components/SearchableMenuButton.tsx:44-50 | Enter passes on the first matching option when there is one, and `undefined` when there is none |
| SearchMenu.EnterWithNoMatchReportsUndefined | src/components/SearchableMenuButton.tsx:47 | options `["a"]` with search `z`: Enter reports `undefined` |
| SearchMenu.EnterReport | src/components/SearchableMenuButton.tsx:44-50 | Enter reports the first matching option, and nothing at all when no option matches |
| SearchMenu.MenuButton.constructor | src/components/SearchableMenuButton.tsx:16-20 | closed, unanchored, with an empty search |
| SearchMenu.MenuButton.HandleClick | src/components/SearchableMenuButton.tsx:22-25 | open and anchored at the clicked element |
| SearchMenu.MenuButton.HandleClose | src/components/SearchableMenuButton.tsx:27-31 | closed, unanchored, empty search, so every option is listed again |
| SearchMenu.MenuButton.HandleSearchChange | src/components/SearchableMenuButton.tsx:38-40 | the typed text is the search |
| SearchMenu.MenuButton.HandleMenuSelect | src/components/SearchableMenuButton.tsx:33-36 | reports exactly that option with this button's index, then closes |
| SearchMenu.MenuButton.HandleEnter | src/components/SearchableMenuButton.tsx:44-50 | any key but Enter changes nothing; Enter closes, reports the first matching option with this button's index when one matches, which agrees with the code as written, and reports nothing when none matches (the corrected behaviour) |

## Left out

- The network. REST and GraphQL requests, their query strings, the CSRF-token request and JSON decoding are replaced by the `Backend` snapshot and by method parameters. A missing entry stands for a throw.
- A missing space does not return `undefined`. The space-name request for a space that does not exist counts as throwing. An answer without a `name` that would interpolate as `undefined` is not modelled.
- Host engine calls are reduced to their outcomes. `evaluateEx`, `createMeasure`, `getMeasure`, `setProperties` and `getLayout` are reduced to a present/absent app flag, the field evaluation's answer, a success flag and the stored layout.
- The master-item list and the variable list are not modelled. The `createSessionObject` master-item listing (src/components/AutoMLComponent.tsx:361-410) and the variable-list loading with its `qIsConfig`/`qIsScriptCreated` filter are host queries.
- Asynchrony is not modelled: effect scheduling, promise ordering and the stale-fetch race. Each effect is a method run to completion. `mapFeatures` is not awaited in `fetchFeaturesData`. The model applies it before the target fetch, and the two write disjoint state.
- Timers, the clipboard, the copy message and the success toast are browser timing and UI. The one-second delay before closing is left out too.
- The `loading` and `isCreatingMasterItem` flags are not fields. They only drive rendering. The Create guard takes the latter as a parameter.
- The connection/mode effect (src/components/AutoMLComponent.tsx:461-465) sets `mode` to the value it already has, so it changes nothing.
- All JSX rendering, MUI styling and dialogs are UI.
- CreateDataConnection.tsx, the hooks, the host adapters and the configuration files are not part of this model.
- JSON escaping is not modelled. The template interpolates the connection name and the return field raw, and the model concatenates them as plain text.
- `toLowerCase` is modelled as ASCII lower-casing. Unicode case folding is not modelled.
- Builder.ExpressionBuilder.HandleFeatureChange: an index outside the feature list makes the source throw a `TypeError` before any state is set; the model keeps the features unchanged and does not raise.
- SearchMenu.MenuButton.HandleEnter: implements the corrected Enter from "## Findings". When no option matches, the code as written calls `handleFeatureChange(undefined, index)` (`SearchMenu.EnterReportAsWritten`); the method reports nothing instead.
- Builder.ExpressionBuilder.MapFeatures: the source mutates the feature objects it was handed. Those objects are fresh from the model fetch, so the model copies the list into a new array and does not model any aliasing of them.

## Findings

| source | as written | input that shows it | evidently intended | confidence | as-written member | corrected member |
|---|---|---|---|---|---|---|
| src/components/SearchableMenuButton.tsx:47 | Enter passes `filteredOptions[0]` to `handleFeatureChange` even when the filter is empty, so the feature's expression becomes `undefined`. The final-expression effect then calls `charAt` on it. | options `["a"]`, search text `z`, key Enter | report nothing when no option matches, and only close the menu | medium, not executed | SearchMenu.EnterReportAsWritten | SearchMenu.EnterReport |
