/** Decoded JSON values. Strings are byte sequences; numbers are exact. */
module Json {

  datatype Json =
    | JNull
    | JBool(b: bool)
    | JNum(r: real)
    | JStr(s: string)
    | JArr(elems: seq<Json>)
    | JObj(fields: map<string, Json>)
}
