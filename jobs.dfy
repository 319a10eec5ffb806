/** Job listings and the two pure list transformations of the monitor:
    keyword/location filtering (`filter_jobs`) and the difference against the
    previously seen listings (`identify_new_jobs`). */
module Jobs {
  import opened Seqs
  import opened Text

  /** One normalised listing. Equality is structural, as for the source's dictionaries. */
  datatype Job = Job(firm: string, title: string, location: string, link: string)

  /** Some needle, lower-cased, occurs in the lower-cased text (Python's `any(...)`). */
  predicate AnyMatch(needles: seq<string>, text: string)
  {
    exists k :: 0 <= k < |needles| && Contains(ToLower(text), ToLower(needles[k]))
  }

  /** The filter's condition on one listing. */
  predicate Matches(job: Job, keywords: seq<string>, locations: seq<string>)
  {
    AnyMatch(keywords, job.title) && AnyMatch(locations, job.location)
  }

  /** The filter's condition as a value, so that every use names the same predicate. */
  function Keep(keywords: seq<string>, locations: seq<string>): Job -> bool
  {
    job => Matches(job, keywords, locations)
  }

  /** The listings whose title matches a keyword and whose location matches a location. */
  function FilterJobs(jobs: seq<Job>, keywords: seq<string>, locations: seq<string>): seq<Job>
  {
    Where(jobs, Keep(keywords, locations))
  }

  /** The difference's condition as a value: not among the seen listings. */
  function Unseen(seen: seq<Job>): Job -> bool
  {
    job => job !in seen
  }

  /** The listings of `jobs` that are not in `seen`, in order, duplicates kept. */
  function IdentifyNewJobs(jobs: seq<Job>, seen: seq<Job>): seq<Job>
  {
    Where(jobs, Unseen(seen))
  }

  /** The exact selection criterion, with case folding and substring written out. */
  ghost predicate Selected(job: Job, keywords: seq<string>, locations: seq<string>)
  {
    (exists k :: 0 <= k < |keywords| && IsSubstring(ToLower(keywords[k]), ToLower(job.title))) &&
    (exists l :: 0 <= l < |locations| && IsSubstring(ToLower(locations[l]), ToLower(job.location)))
  }

  lemma MatchesIsSelected(job: Job, keywords: seq<string>, locations: seq<string>)
    ensures Matches(job, keywords, locations) <==> Selected(job, keywords, locations)
  {
    forall k | 0 <= k < |keywords| {
      ContainsIsSubstring(ToLower(job.title), ToLower(keywords[k]));
    }
    forall l | 0 <= l < |locations| {
      ContainsIsSubstring(ToLower(job.location), ToLower(locations[l]));
    }
  }

  /** A listing is kept iff it is an input listing that meets the selection criterion. */
  lemma FilterJobsMembership(jobs: seq<Job>, keywords: seq<string>, locations: seq<string>, x: Job)
    ensures x in FilterJobs(jobs, keywords, locations) <==> x in jobs && Selected(x, keywords, locations)
  {
    WhereMembership(jobs, Keep(keywords, locations), x);
    MatchesIsSelected(x, keywords, locations);
  }

  /** The output keeps the input order, and every kept listing keeps all its occurrences. */
  lemma FilterJobsOrder(jobs: seq<Job>, keywords: seq<string>, locations: seq<string>, x: Job)
    ensures SubsequenceOf(FilterJobs(jobs, keywords, locations), jobs)
    ensures multiset(FilterJobs(jobs, keywords, locations))[x] ==
            if Selected(x, keywords, locations) then multiset(jobs)[x] else 0
  {
    WhereSubsequence(jobs, Keep(keywords, locations));
    WhereCount(jobs, Keep(keywords, locations), x);
    MatchesIsSelected(x, keywords, locations);
  }

  /** With no keywords, or with no locations, nothing is kept. */
  lemma FilterJobsEmptyCriteria(jobs: seq<Job>, keywords: seq<string>, locations: seq<string>)
    requires keywords == [] || locations == []
    ensures FilterJobs(jobs, keywords, locations) == []
  {
    WhereKeepsNone(jobs, Keep(keywords, locations));
  }

  /** Filtering the filtered listings again with the same criteria changes nothing. */
  lemma FilterJobsIdempotent(jobs: seq<Job>, keywords: seq<string>, locations: seq<string>)
    ensures FilterJobs(FilterJobs(jobs, keywords, locations), keywords, locations) ==
            FilterJobs(jobs, keywords, locations)
  {
    WhereIdempotent(jobs, Keep(keywords, locations));
  }

  /** Filtering two lists one after the other is filtering their concatenation. */
  lemma FilterJobsAppend(a: seq<Job>, b: seq<Job>, keywords: seq<string>, locations: seq<string>)
    ensures FilterJobs(a + b, keywords, locations) ==
            FilterJobs(a, keywords, locations) + FilterJobs(b, keywords, locations)
  {
    WhereAppend(a, b, Keep(keywords, locations));
  }

  /** Case of the keywords and locations does not matter. */
  lemma FilterJobsCaseInsensitive(jobs: seq<Job>, keywords: seq<string>, locations: seq<string>)
    ensures FilterJobs(jobs, LowerAll(keywords), LowerAll(locations)) ==
            FilterJobs(jobs, keywords, locations)
  {
    forall k | 0 <= k < |keywords| {
      ToLowerIdempotent(keywords[k]);
    }
    forall l | 0 <= l < |locations| {
      ToLowerIdempotent(locations[l]);
    }
    WhereCongruent(jobs, Keep(LowerAll(keywords), LowerAll(locations)), Keep(keywords, locations));
  }

  /** Every string of the list, lower-cased. */
  function LowerAll(strings: seq<string>): (r: seq<string>)
    ensures |r| == |strings|
    ensures forall k :: 0 <= k < |strings| ==> r[k] == ToLower(strings[k])
  {
    seq(|strings|, k requires 0 <= k < |strings| => ToLower(strings[k]))
  }

  /** A listing is new iff it is a current listing that is not among the seen ones. */
  lemma IdentifyNewJobsMembership(jobs: seq<Job>, seen: seq<Job>, x: Job)
    ensures x in IdentifyNewJobs(jobs, seen) <==> x in jobs && x !in seen
  {
    WhereMembership(jobs, Unseen(seen), x);
  }

  /** The new listings keep the input order, and an unseen listing is not deduplicated. */
  lemma IdentifyNewJobsOrder(jobs: seq<Job>, seen: seq<Job>, x: Job)
    ensures SubsequenceOf(IdentifyNewJobs(jobs, seen), jobs)
    ensures multiset(IdentifyNewJobs(jobs, seen))[x] == if x in seen then 0 else multiset(jobs)[x]
  {
    WhereSubsequence(jobs, Unseen(seen));
    WhereCount(jobs, Unseen(seen), x);
  }

  /** Against an empty seen list every listing is new. */
  lemma IdentifyNewJobsNothingSeen(jobs: seq<Job>)
    ensures IdentifyNewJobs(jobs, []) == jobs
  {
    WhereKeepsAll(jobs, Unseen([]));
  }

  /** Against itself no listing is new. */
  lemma IdentifyNewJobsAllSeen(jobs: seq<Job>)
    ensures IdentifyNewJobs(jobs, jobs) == []
  {
    WhereKeepsNone(jobs, Unseen(jobs));
  }

  /** Once the new listings are appended to the seen list, the same listings are not new again. */
  lemma IdentifyNewJobsAfterMerge(jobs: seq<Job>, seen: seq<Job>)
    ensures IdentifyNewJobs(jobs, seen + IdentifyNewJobs(jobs, seen)) == []
  {
    var merged := seen + IdentifyNewJobs(jobs, seen);
    forall i | 0 <= i < |jobs|
      ensures jobs[i] in merged
    {
      IdentifyNewJobsMembership(jobs, seen, jobs[i]);
    }
    WhereKeepsNone(jobs, Unseen(merged));
  }
}
