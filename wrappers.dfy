/** The optional value the page script gets back from host lookups
    (`localStorage.getItem`, `getAttribute`, `document.querySelector`),
    any of which may yield `null`. */
module Wrappers {
  datatype Option<+T> = None | Some(value: T)
}
