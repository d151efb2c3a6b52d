/** The upload guard of src/index.js lines 46-51: an upload happens only when
    the `custom` settings have the key `swaggerDestinations` and that object
    has both `s3BucketName` and `s3KeyName`. The test is on key presence; the
    values are forwarded as they are, whatever they are. */
module Destinations {
  import opened JsValue

  const SwaggerDestinationsKey: string := "swaggerDestinations"
  const BucketNameKey: string := "s3BucketName"
  const KeyNameKey: string := "s3KeyName"

  /** Where the exported document goes, or that it goes nowhere. */
  datatype Destination = Complete(bucket: Value, key: Value) | Incomplete

  /** The guard runs without a TypeError: `custom` is an object, and so is
      its `swaggerDestinations` entry when that key is present. */
  predicate GuardDefined(custom: Value) {
    && custom.Obj?
    && (SwaggerDestinationsKey in Keys(custom) ==> Get(custom, SwaggerDestinationsKey).Obj?)
  }

  /** The keys present in the `swaggerDestinations` object, or none when
      there is no such entry. */
  function DestinationKeys(custom: Value): set<string>
    requires GuardDefined(custom)
  {
    if SwaggerDestinationsKey in Keys(custom) then Keys(Get(custom, SwaggerDestinationsKey)) else {}
  }

  /** The two nested `in` checks of lines 47-51, returning the values the
      upload sends as `Bucket` and `Key`. */
  function DestinationOf(custom: Value): (d: Destination)
    requires GuardDefined(custom)
    ensures d.Complete? <==> BucketNameKey in DestinationKeys(custom) && KeyNameKey in DestinationKeys(custom)
    ensures d.Complete? ==>
      var dest := Get(custom, SwaggerDestinationsKey);
      d.bucket == Get(dest, BucketNameKey) && d.key == Get(dest, KeyNameKey)
  {
    if SwaggerDestinationsKey in Keys(custom) then
      var dest := Get(custom, SwaggerDestinationsKey);
      if BucketNameKey in Keys(dest) && KeyNameKey in Keys(dest) then
        Complete(Get(dest, BucketNameKey), Get(dest, KeyNameKey))
      else Incomplete
    else Incomplete
  }

  /** The guard looks at presence, not at values: two settings with the same
      keys in `swaggerDestinations` are both complete or both incomplete,
      however their values differ (empty, `undefined`, `null`, ...). */
  lemma PresenceNotValue(custom1: Value, custom2: Value)
    requires GuardDefined(custom1) && GuardDefined(custom2)
    requires DestinationKeys(custom1) == DestinationKeys(custom2)
    ensures DestinationOf(custom1).Complete? == DestinationOf(custom2).Complete?
  {
  }

  /** The namespace alone is not enough: an empty `swaggerDestinations`
      object, or one lacking either key, gives no destination. */
  lemma NamespaceAloneInsufficient(custom: Value)
    requires GuardDefined(custom)
    requires SwaggerDestinationsKey in Keys(custom)
    requires BucketNameKey !in Keys(Get(custom, SwaggerDestinationsKey))
      || KeyNameKey !in Keys(Get(custom, SwaggerDestinationsKey))
    ensures DestinationOf(custom) == Incomplete
  {
  }

  /** Falsy values still pass the guard and are forwarded unchanged. */
  lemma FalsyValuesPass()
    ensures DestinationOf(Obj(map[SwaggerDestinationsKey :=
      Obj(map[BucketNameKey := Undefined, KeyNameKey := Str("")])]))
      == Complete(Undefined, Str(""))
  {
  }
}
