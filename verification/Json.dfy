/** JSON values, as claims of tokens and request objects carry them. */
module Json {
  datatype Value =
    | Null
    | Bool(b: bool)
    | Number(n: real)
    | Str(s: string)
    | Arr(items: seq<Value>)
    | Obj(members: map<string, Value>)

  type Claims = map<string, Value>

  /** `claims.get(name)` when it is a string, `""` otherwise. */
  function StringClaim(claims: Claims, name: string): string {
    if name in claims && claims[name].Str? then claims[name].s else ""
  }
}
