/** The absent-or-present value used for lookups that may come back empty
    (a storage read that returns null, a `data-lang` attribute that is missing). */
module Wrappers {

  datatype Option<+T> = None | Some(value: T)

  /** Reads `key` from a string map the way `localStorage.getItem` does:
      `None` stands for the `null` it returns when nothing is stored. */
  function Lookup(m: map<string, string>, key: string): (r: Option<string>)
    ensures r.Some? <==> key in m
    ensures r.Some? ==> r.value == m[key]
  {
    if key in m then Some(m[key]) else None
  }
}
