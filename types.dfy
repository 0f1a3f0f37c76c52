/** The entities the expression builder works with (src/types.ts and the component's state). */
module Types {
  import opened Wrappers

  /**
   * A feature's semantic type. The model-schema mapping produces `Numeric`; the declared
   * type in src/types.ts names the numeric case `Number`; both count as numeric.
   */
  datatype FeatureType = Categorical | Numeric | Number

  /** A model input column and the expression mapped to it (the source's `type` is `kind`). */
  datatype Feature = Feature(name: string, expression: string, kind: FeatureType)

  /** A saved link to a deployed model (the source spells the fifth field `deplyomentName`). */
  datatype AutoMLConnection = AutoMLConnection(
    id: string, name: string, deploymentId: string, deploymentName: string, spaceId: string)

  /** The model's prediction objective; `kind` is the experiment type as the server sends it. */
  datatype Target = Target(kind: string, field: string)

  /** A JavaScript string-typed slot that may also hold `null` or `undefined`. */
  datatype JsString = Null | Undefined | Str(value: string) {
    /** The text a template literal `${...}` produces for this value. */
    function Interpolated(): string {
      match this
      case Null => "null"
      case Undefined => "undefined"
      case Str(s) => s
    }
  }

  /** `rfs[0]`: the first element, or `undefined` for an empty array. */
  function First(rfs: seq<string>): (r: JsString)
    ensures r != Null
    ensures r.Str? <==> |rfs| > 0
    ensures r.Str? ==> r.value == rfs[0]
  {
    if |rfs| > 0 then Str(rfs[0]) else Undefined
  }

  datatype Mode = Create | Edit

  datatype MasterItem = MasterItem(qId: string, title: string)
}
