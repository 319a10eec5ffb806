/** Normalisation of a JSON API payload into job listings (`process_api_response`). */
module Api {
  import opened Jobs

  /** One listing object of the payload: its string-valued fields. */
  type Record = map<string, string>

  /** The decoded payload: an object holding listing arrays under keys, or a bare array. */
  datatype Payload =
    | Wrapped(fields: map<string, seq<Record>>)
    | Bare(items: seq<Record>)

  /** The field mapping of one API target. `link` is "" when the configured link field name is falsy. */
  datatype Params = Params(key: string, title: string, location: string, link: string)

  /** The payload's listings hold every field the mapping reads; otherwise the source raises `KeyError`. */
  predicate WellFormed(data: Payload, params: Params)
  {
    (data.Wrapped? ==> params.key in data.fields) &&
    forall rec :: rec in Listings(data, params) ==>
      params.title in rec && params.location in rec && (params.link != "" ==> params.link in rec)
  }

  /** The listing array: the value under the configured key of an object, or the array itself. */
  function Listings(data: Payload, params: Params): seq<Record>
    requires data.Wrapped? ==> params.key in data.fields
  {
    match data
    case Wrapped(fields) => fields[params.key]
    case Bare(items) => items
  }

  /** The normalised listing for one record. */
  function ToJob(rec: Record, firm: string, params: Params): Job
    requires params.title in rec && params.location in rec
    requires params.link != "" ==> params.link in rec
  {
    Job(firm, rec[params.title], rec[params.location], if params.link != "" then rec[params.link] else "")
  }

  /** Specification of the normalisation: one listing per record, in order. */
  function Normalized(data: Payload, firm: string, params: Params): (r: seq<Job>)
    requires WellFormed(data, params)
    ensures |r| == |Listings(data, params)|
  {
    var recs := Listings(data, params);
    seq(|recs|, i requires 0 <= i < |recs| => ToJob(recs[i], firm, params))
  }

  /** Builds the listings of one API payload, one per element of its listing array. */
  method ProcessApiResponse(data: Payload, firm: string, params: Params) returns (jobs: seq<Job>)
    requires WellFormed(data, params)
    ensures data.Wrapped? ==> |jobs| == |data.fields[params.key]|
    ensures data.Bare? ==> |jobs| == |data.items|
    ensures forall i :: 0 <= i < |jobs| ==>
      var rec := Listings(data, params)[i];
      && jobs[i].firm == firm
      && jobs[i].title == rec[params.title]
      && jobs[i].location == rec[params.location]
      && jobs[i].link == (if params.link == "" then "" else rec[params.link])
    ensures jobs == Normalized(data, firm, params)
  {
    var recs := Listings(data, params);
    jobs := [];
    for i := 0 to |recs|
      invariant |jobs| == i
      invariant forall k :: 0 <= k < i ==> jobs[k] == ToJob(recs[k], firm, params)
    {
      var rec := recs[i];
      var link := if params.link != "" then rec[params.link] else "";
      jobs := jobs + [Job(firm, rec[params.title], rec[params.location], link)];
    }
  }
}
