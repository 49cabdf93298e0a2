/** Vocabulary shared by every component of the flow-engine model. */
module Base {

  datatype Option<+T> = None | Some(value: T)

  datatype Result<+T> = Ok(value: T) | Err(error: string)

  /** `dict.get(key)` of Python. */
  function Lookup<K, V>(m: map<K, V>, k: K): Option<V> {
    if k in m then Some(m[k]) else None
  }

  /** The ids of account rows and templates: the canonical text of a UUID, never empty. */
  type AccountId = s: string | s != "" witness "0"
}
