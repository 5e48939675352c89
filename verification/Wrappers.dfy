/** What the models share: the optional value, and two notions about it and about sequences. */
module Wrappers {
  datatype Option<+T> = None | Some(value: T)

  /** JavaScript truthiness of an optional string. */
  predicate Truthy(s: Option<string>) {
    s.Some? && s.value != ""
  }

  ghost function SetOf<T>(s: seq<T>): set<T> {
    set e | e in s
  }
}
