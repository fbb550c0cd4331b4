/** Slashes at the ends of a path, as mux.go asks about them. */
module Paths {
  predicate EndsInSlash(s: string) {
    s != "" && s[|s| - 1] == '/'
  }

  predicate StartsWithSlash(s: string) {
    s != "" && s[0] == '/'
  }
}
