/** Optional values: a missing group on a post, a missing page parameter, an
    anonymous request user, a form that was not submitted. */
module Wrappers {

  datatype Option<+T> = None | Some(value: T)
}
