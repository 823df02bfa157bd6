/** The record kept for one request, shared by the workers that produce records
    and by the profiler that consumes them. */
module RequestRecords {

  /** Times are in nanoseconds. `nullLast` is has_null_last_response_: it is set
      by any empty response and never cleared. */
  datatype RequestRecord = RequestRecord(
    start: int,
    responses: seq<int>,
    sequenceEnd: bool,
    delayed: bool,
    nullLast: bool)
}
