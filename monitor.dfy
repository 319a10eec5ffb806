/** One run of the monitor: filter every target's listings in configuration
    order, find the listings not seen before, build the notification, and
    extend the seen list. Fetching, scraping, mailing and file access are
    outside the model: their results are the inputs and outputs here. */
module Monitor {
  import opened Wrappers
  import opened Seqs
  import opened Jobs
  import opened Api
  import opened Notify

  /** A configured API target with its already-fetched payload. */
  datatype ApiTarget = ApiTarget(firm: string, params: Params, payload: Payload)

  /** Every API target's payload holds the fields its mapping reads. */
  predicate AllWellFormed(targets: seq<ApiTarget>)
  {
    forall i :: 0 <= i < |targets| ==> WellFormed(targets[i].payload, targets[i].params)
  }

  /** The normalised listings of each API target, in order. */
  function NormalizedEach(targets: seq<ApiTarget>): (r: seq<seq<Job>>)
    requires AllWellFormed(targets)
    ensures |r| == |targets|
  {
    if targets == [] then []
    else
      var n := |targets| - 1;
      NormalizedEach(targets[..n]) + [Normalized(targets[n].payload, targets[n].firm, targets[n].params)]
  }

  /** The filtered listings of each group, concatenated in order. */
  function FilterEach(groups: seq<seq<Job>>, keywords: seq<string>, locations: seq<string>): seq<Job>
  {
    if groups == [] then []
    else
      var n := |groups| - 1;
      FilterEach(groups[..n], keywords, locations) + FilterJobs(groups[n], keywords, locations)
  }

  /** Filtering target by target is filtering all the targets' listings at once. */
  lemma {:induction false} FilterEachIsFilterOfAll(groups: seq<seq<Job>>, keywords: seq<string>, locations: seq<string>)
    ensures FilterEach(groups, keywords, locations) == FilterJobs(Flatten(groups), keywords, locations)
  {
    if groups != [] {
      var n := |groups| - 1;
      FilterEachIsFilterOfAll(groups[..n], keywords, locations);
      FilterJobsAppend(Flatten(groups[..n]), groups[n], keywords, locations);
    }
  }

  /** A listing is collected iff some target produced it and it meets the selection criterion. */
  lemma FilterEachMembership(groups: seq<seq<Job>>, keywords: seq<string>, locations: seq<string>, x: Job)
    ensures x in FilterEach(groups, keywords, locations) <==>
            (exists g :: 0 <= g < |groups| && x in groups[g]) && Selected(x, keywords, locations)
  {
    FilterEachIsFilterOfAll(groups, keywords, locations);
    FilterJobsMembership(Flatten(groups), keywords, locations, x);
    FlattenMembership(groups, x);
  }

  /** Filtering one more group appends its filtered listings. */
  lemma FilterEachSnoc(groups: seq<seq<Job>>, g: seq<Job>, keywords: seq<string>, locations: seq<string>)
    ensures FilterEach(groups + [g], keywords, locations) ==
            FilterEach(groups, keywords, locations) + FilterJobs(g, keywords, locations)
  {
  }

  /** Normalising one more target appends its listings as one more group. */
  lemma NormalizedEachSnoc(targets: seq<ApiTarget>, i: nat)
    requires AllWellFormed(targets) && i < |targets|
    ensures AllWellFormed(targets[..i]) && AllWellFormed(targets[..i + 1])
    ensures NormalizedEach(targets[..i + 1]) ==
            NormalizedEach(targets[..i]) + [Normalized(targets[i].payload, targets[i].firm, targets[i].params)]
  {
    assert targets[..i + 1][..i] == targets[..i];
  }

  /** Collects the filtered listings of every target: the HTML targets first, then the API targets. */
  method CollectJobs(keywords: seq<string>, locations: seq<string>, soupJobs: seq<seq<Job>>,
                     apiTargets: seq<ApiTarget>)
    returns (allJobs: seq<Job>)
    requires AllWellFormed(apiTargets)
    ensures allJobs == FilterEach(soupJobs + NormalizedEach(apiTargets), keywords, locations)
  {
    allJobs := [];
    for i := 0 to |soupJobs|
      invariant allJobs == FilterEach(soupJobs[..i], keywords, locations)
    {
      var jobs := FilterJobs(soupJobs[i], keywords, locations);
      assert soupJobs[..i + 1] == soupJobs[..i] + [soupJobs[i]];
      FilterEachSnoc(soupJobs[..i], soupJobs[i], keywords, locations);
      allJobs := allJobs + jobs;
    }
    assert soupJobs[..|soupJobs|] == soupJobs;
    assert soupJobs + NormalizedEach(apiTargets[..0]) == soupJobs;
    for i := 0 to |apiTargets|
      invariant AllWellFormed(apiTargets[..i])
      invariant allJobs == FilterEach(soupJobs + NormalizedEach(apiTargets[..i]), keywords, locations)
    {
      var t := apiTargets[i];
      var jobs := ProcessApiResponse(t.payload, t.firm, t.params);
      jobs := FilterJobs(jobs, keywords, locations);
      NormalizedEachSnoc(apiTargets, i);
      var before := soupJobs + NormalizedEach(apiTargets[..i]);
      assert soupJobs + NormalizedEach(apiTargets[..i + 1]) ==
             before + [Normalized(t.payload, t.firm, t.params)];
      FilterEachSnoc(before, Normalized(t.payload, t.firm, t.params), keywords, locations);
      allJobs := allJobs + jobs;
    }
    assert apiTargets[..|apiTargets|] == apiTargets;
  }

  /** One run: collect, find the new listings, build the notification, extend the seen list.
      `sent` is the outcome of the mail transport: false when sending raises. A failed send
      ends the run before the save, so the store keeps the previous listings. */
  method Run(keywords: seq<string>, locations: seq<string>, soupJobs: seq<seq<Job>>,
             apiTargets: seq<ApiTarget>, previous: seq<Job>, sent: bool)
    returns (allJobs: seq<Job>, newJobs: seq<Job>, notice: Option<Message>, saved: seq<Job>)
    requires AllWellFormed(apiTargets)
    ensures allJobs == FilterEach(soupJobs + NormalizedEach(apiTargets), keywords, locations)
    ensures newJobs == IdentifyNewJobs(allJobs, previous)
    ensures notice == Notification(newJobs)
    ensures notice.None? <==> newJobs == []
    ensures saved == if newJobs != [] && !sent then previous else previous + newJobs
    ensures newJobs == [] || sent ==>
      |saved| == |previous| + |newJobs| && saved[..|previous|] == previous &&
      forall x :: x in allJobs ==> x in saved
    ensures newJobs != [] && !sent ==> IdentifyNewJobs(allJobs, saved) == newJobs
  {
    allJobs := CollectJobs(keywords, locations, soupJobs, apiTargets);
    newJobs := IdentifyNewJobs(allJobs, previous);
    if newJobs != [] {
      notice := Notification(newJobs);
      if !sent {
        saved := previous;
        return;
      }
    } else {
      notice := None;
    }
    saved := previous + newJobs;
    forall x | x in allJobs ensures x in saved {
      IdentifyNewJobsMembership(allJobs, previous, x);
    }
  }
}
