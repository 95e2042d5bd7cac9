/** The document tree of eabase/rapidjson/document.h: an object is a list of members, looked up
    from the front. Numbers are integers. */
module JsonTree {

  datatype Value =
    | Null
    | Bool(b: bool)
    | Number(n: int)
    | Str(s: seq<bv8>)
    | Arr(elems: seq<Value>)
    | Obj(members: seq<Member>)

  datatype Member = Member(name: seq<bv8>, value: Value)

  /** The array index that a token of a pointer stands for, if it is one. */
  datatype Index = At(n: nat) | NoIndex

  /** FindMember: the first member of that name, or the number of members. */
  function Find(members: seq<Member>, name: seq<bv8>): (k: nat)
    ensures k <= |members| && (k < |members| ==> members[k].name == name)
    ensures forall j :: 0 <= j < k ==> members[j].name != name
  {
    if members == [] then 0 else if members[0].name == name then 0 else 1 + Find(members[1..], name)
  }
}
