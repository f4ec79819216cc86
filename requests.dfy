/** One entry of the request log. */
module Requests {

  /** A request arrives at `timestamp`, names an opaque `resource` and keeps
      its server busy for `processingTime` once processing starts. Both
      integers are already decoded: the loader's `int(...)` conversion is
      outside the engine. No range is enforced on either. */
  datatype Request = Request(timestamp: int, resource: string, processingTime: int)

  /** Every request in `rs` has a non-negative processing time. The engine
      does not check this; it is the assumption under which a server's
      clock never runs backwards. */
  ghost predicate NonNegativeProcessing(rs: seq<Request>) {
    forall j :: 0 <= j < |rs| ==> rs[j].processingTime >= 0
  }
}
