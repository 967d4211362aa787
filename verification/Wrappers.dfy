/** Results shared by the models. */
module Wrappers {
  datatype Option<+T> = None | Some(value: T)

  datatype Result<+T, +E> = Ok(value: T) | Err(error: E)

  /** What is left and what is done make up the whole. */
  ghost predicate Split<T>(all: set<T>, left: set<T>, done: set<T>) { left + done == all && left !! done }

  lemma {:induction false} SplitOne<T>(all: set<T>, left: set<T>, done: set<T>, x: T)
    requires Split(all, left, done) && x in left
    ensures x in all && x !in done && Split(all, left - {x}, done + {x})
  {
  }

  lemma {:induction false} SplitAll<T>(all: set<T>, done: set<T>)
    requires Split(all, {}, done)
    ensures done == all
  {
  }
}
