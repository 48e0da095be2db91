/** The problem record the client works with, as the catalogue files hold
    it once a fetch function has tagged it with its source.  A field the
    record lacks, or holds as `null`, is `None`; a missing or empty
    difficulty is the empty string. */
module Catalogue {
  import opened Wrappers

  datatype Problem = Problem(
    id: int,
    title: string,
    slug: Option<string>,
    code: Option<string>,
    difficulty: string,
    tags: Option<seq<string>>,
    points: Option<int>,
    source: Option<string>,
    url: Option<string>)
}
