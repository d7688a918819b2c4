/** The optional value used wherever the scraper works with Python's `None`:
    a selector that matched nothing, a fetch that failed, a number that did
    not parse. */
module Options {
  datatype Option<+T> = None | Some(value: T)
}
