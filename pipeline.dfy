/** The weekly pipeline entry point `run_full_pipeline` as its callers see
    it (`src/07_run_weekly.py`): a call that either raises or returns a
    value. What the pipeline does inside is not part of this model; only
    its keyword parameters are, because Python raises `TypeError` before
    running a function that is passed a keyword it does not declare. */
module Pipeline {

  /** The keyword parameters `run_full_pipeline` declares. */
  const Parameters: seq<string> := ["query", "country", "limit", "headless", "image_only", "skip_r2"]

  /** How a call ended: it raised, or it returned a value whose Python
      truthiness is `truthy`. */
  datatype Outcome = Raised | Returned(truthy: bool)

  /** A call passing `kwargs` by name is accepted only if every name is a
      declared parameter. */
  predicate Accepts(kwargs: seq<string>) {
    forall k :: 0 <= k < |kwargs| ==> kwargs[k] in Parameters
  }

  /** The outcome of calling the pipeline with `kwargs`, where `body` is
      what the pipeline itself would do once entered. */
  function Call(kwargs: seq<string>, body: Outcome): (r: Outcome)
    ensures !Accepts(kwargs) ==> r == Raised
    ensures Accepts(kwargs) ==> r == body
  {
    if Accepts(kwargs) then body else Raised
  }
}
