/** Optional values and the JavaScript truthiness of an optional string,
    shared by every screen. */
module Optional {
  datatype Option<+T> = None | Some(value: T)

  /** JavaScript truthiness of an optional string: present and non-empty. */
  predicate Filled(s: Option<string>)
  {
    s.Some? && s.value != ""
  }

  /** `s || fallback` for an optional string. */
  function OrElse(s: Option<string>, fallback: string): string
  {
    if Filled(s) then s.value else fallback
  }
}
