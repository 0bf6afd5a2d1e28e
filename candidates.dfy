/** A search result as the pipeline stores it in `combined_results.json`
    and `ready_candidates.json`: the identity hash, the title (`name`), the
    link, the description and, once a document was analysed, its result. */
module Candidates {
  import opened Wrappers

  datatype Candidate = Candidate(hash: string, name: string, url: string, description: string,
                                 result: Option<string>)
}
