/** JSON documents. Object keys that the data-flow format uses are enumerated;
    every other key is an `Other`. Integers and floats are told apart, as the
    format's integer readers reject floats. */
module Json {
  datatype Key =
    | KVersion | KName | KNextId | KViewport | KNodes | KEdges
    | KId | KPos | KType | KRaw
    | KTopic | KInstance | KField | KValue | KMultiplier | KOffset
    | KConversion | KMode | KFilter | KUpper | KInclusive
    | KFields | KUnit | KInputs | KOutputs | KCode
    | KFrom | KFromPort | KTo | KToPort | KZoom
    | Other(name: string)

  datatype Json =
    | JNull
    | JBool(b: bool)
    | JInt(n: int)
    | JFloat(r: real)
    | JStr(s: string)
    | JArr(items: seq<Json>)
    | JObj(entries: map<Key, Json>)
}
