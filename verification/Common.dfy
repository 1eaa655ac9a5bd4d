/** An optional value. */
module Common {

  datatype Option<+T> = None | Some(value: T)
}

/** Searching in strings. */
module Strings {

  predicate ContainsAt(s: string, t: string, k: nat) {
    k + |t| <= |s| && s[k..k + |t|] == t
  }

  /** strings.Contains */
  predicate Contains(s: string, t: string) {
    exists k: nat :: k <= |s| && ContainsAt(s, t, k)
  }
}
