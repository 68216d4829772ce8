/**
 An abstract JSON tree with the behaviour of the JSON library's value type that the campaign
 configuration relies on. Objects are maps: the library's default object type is an ordered map,
 so member order carries no information and a key occurs at most once.
 */
module Json {
  import opened Wrappers

  /** A floating-point number, carried and compared but never computed with. */
  datatype Float = Float(bits: int)

  datatype Json =
    | JNull
    | JBool(b: bool)
    | JInt(i: int)
    | JFloat(f: Float)
    | JString(s: string)
    | JArray(items: seq<Json>)
    | JObject(members: map<string, Json>)

  /** The member `key` of an object; any other value has no members. */
  function Member(j: Json, key: string): (r: Option<Json>)
    ensures r.Some? <==> j.JObject? && key in j.members
    ensures r.Some? ==> r.value == j.members[key]
  {
    if j.JObject? && key in j.members then Some(j.members[key]) else None
  }

  /** The members of an object, and none for any other value. */
  function MembersOf(j: Json): map<string, Json> {
    if j.JObject? then j.members else map[]
  }

  /** The value has a member `key` (JsonUtils::has). */
  predicate Has(j: Json, key: string) {
    Member(j, key).Some?
  }

  /** The value has a member `key` holding an array (JsonUtils::hasArray). */
  predicate HasArray(j: Json, key: string) {
    Member(j, key).Some? && Member(j, key).value.JArray?
  }

  /** `push_back` on a value that is null or an array: null first becomes an empty array. */
  function PushBack(j: Json, v: Json): (r: Json)
    requires j.JNull? || j.JArray?
    ensures r.JArray? && |r.items| >= 1 && r.items[|r.items| - 1] == v
    ensures j.JArray? ==> r.items[..|r.items| - 1] == j.items
    ensures j.JNull? ==> r.items == [v]
  {
    match j
    case JArray(items) => JArray(items + [v])
    case JNull => JArray([v])
  }

  /** Repeated `push_back` of every value of `vs`, in order, starting from `j`. */
  function PushAll(j: Json, vs: seq<Json>): (r: Json)
    requires j.JNull? || j.JArray?
    ensures r.JNull? || r.JArray?
    ensures vs == [] ==> r == j
    ensures vs != [] ==> r.JArray? && r.items == (if j.JArray? then j.items else []) + vs
    decreases |vs|
  {
    if vs == [] then j
    else
      var r := PushAll(PushBack(j, vs[0]), vs[1..]);
      assert (if j.JArray? then j.items else []) + [vs[0]] + vs[1..]
          == (if j.JArray? then j.items else []) + vs;
      r
  }
}
