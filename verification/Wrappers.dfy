/** Optional values, and maps from names in which several names are bound at once. */
module Wrappers {

  datatype Option<+T> = None | Some(value: T)

  function BindEach<V>(env: map<string, V>, names: seq<string>, v: V): (r: map<string, V>)
    ensures forall x :: x in r <==> x in env || x in names
    ensures forall x :: x in r ==> r[x] == if x in names then v else env[x]
    decreases |names|
  {
    if names == [] then env else BindEach(env[names[0] := v], names[1..], v)
  }
}
