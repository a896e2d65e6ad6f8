/** An insertion-ordered dictionary, as Python's `dict`: a finite map that also remembers
    the order in which its keys were first inserted, which is the order `for key in d` visits them. */
module PyDict {

  datatype Dict<K(==, !new), V> = Dict(keys: seq<K>, values: map<K, V>)
  {
    /** The keys in iteration order are exactly the keys of the map, each once. */
    ghost predicate Valid()
    {
      && (forall key :: key in values <==> key in keys)
      && (forall a, b :: 0 <= a < b < |keys| ==> keys[a] != keys[b])
    }

    /** `d[key] = value`: a new key goes to the end of the iteration order, an existing key keeps its place. */
    function Put(key: K, value: V): (d: Dict<K, V>)
      requires Valid()
      ensures d.Valid()
      ensures d.keys == if key in values then keys else keys + [key]
      ensures d.values == values[key := value]
      ensures key in d.values && d.values[key] == value
      ensures forall other :: other != key ==> (other in d.values <==> other in values)
      ensures forall other :: other != key && other in values ==> d.values[other] == values[other]
    {
      if key in values then Dict(keys, values[key := value])
      else Dict(keys + [key], values[key := value])
    }

    /** Replaces the value of a key already present, as mutating `d[key]` in place does:
        the keys and their order stay as they are. */
    function Update(key: K, value: V): (d: Dict<K, V>)
      requires Valid() && key in values
      ensures d.Valid() && d.keys == keys
      ensures d.values == values[key := value]
    {
      Dict(keys, values[key := value])
    }
  }
}
