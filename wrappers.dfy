/** Optional values, standing for Python's `None`-or-value parameters. */
module Wrappers {

  datatype Option<+T> = None | Some(value: T)

  /** Python truthiness of an optional string: present and not empty. */
  predicate Provided(o: Option<string>) {
    o.Some? && o.value != ""
  }

  /** What a tool returns: an error text produced before any script runs, or the script it runs. */
  datatype Outcome<+S> = Refused(message: string) | Run(script: S)
}
