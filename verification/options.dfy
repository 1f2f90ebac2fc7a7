/** Optional values and the one Python dictionary operation the model needs. */
module Options {

  /** Some/None: a present value, or Python's None / a missing dictionary key. */
  datatype Option<+T> = None | Some(value: T) {

    /** The encapsulated value, or `default` when None. */
    function GetOr(default: T): T {
      match this
      case Some(v) => v
      case None => default
    }
  }

  /** Python's `d.get(key, default)`: the stored value when `key` is present. */
  function DictGet<K, V>(m: map<K, V>, key: K, default: V): V {
    if key in m then m[key] else default
  }
}
