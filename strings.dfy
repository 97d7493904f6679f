/** Text helpers shared by the escaping and the path code. */
module Strings {
  /** Does s begin with p? */
  predicate StartsWith(s: string, p: string) {
    |p| <= |s| && s[..|p|] == p
  }
}
