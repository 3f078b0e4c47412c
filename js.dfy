/** The few JavaScript value semantics the handlers depend on. A request
    field or an environment variable that may be absent is an
    `Option<string>`; `None` is `undefined`. */
module Js {
  import opened Wrappers

  /** `!!x` for a string-valued field: `undefined` and `""` are falsy. */
  predicate Truthy(x: Option<string>) {
    x.Some? && x.value != ""
  }

  /** `x || d` for a string-valued field. */
  function OrElse(x: Option<string>, d: string): (r: string)
    ensures Truthy(x) ==> r == x.value
    ensures !Truthy(x) ==> r == d
  {
    if Truthy(x) then x.value else d
  }

  /** What `"..." + x` inserts for `x`: the string itself, or the text
      `"undefined"` when the value is absent. */
  function JsString(x: Option<string>): (r: string)
    ensures x.Some? ==> r == x.value
    ensures x.None? ==> r == "undefined"
  {
    match x
    case Some(s) => s
    case None => "undefined"
  }

  /** `s.startsWith(prefix)`. */
  predicate StartsWith(s: string, prefix: string) {
    |prefix| <= |s| && s[..|prefix|] == prefix
  }

  lemma {:induction false} StartsWithTransitive(s: string, p: string, q: string)
    requires StartsWith(s, p) && StartsWith(p, q)
    ensures StartsWith(s, q)
  {
    assert s[..|q|] == s[..|p|][..|q|];
  }
}
