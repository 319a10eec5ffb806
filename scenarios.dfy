/** Worked examples of the monitor's behaviour, stated on the model. */
module Scenarios {
  import opened Text
  import opened Jobs
  import opened Api

  /** "engineer" occurs in "Software Engineer" once case is folded. */
  lemma EngineerMatches()
    ensures Matches(Job("A", "Software Engineer", "Remote, US", ""), ["engineer"], ["remote"])
  {
    assert ToLower("Software Engineer") == "software engineer";
    assert ToLower("engineer") == "engineer";
    assert OccursAt("engineer", "software engineer", 9);
    ContainsIsSubstring("software engineer", "engineer");
    assert ToLower("Remote, US") == "remote, us";
    assert ToLower("remote") == "remote";
    assert OccursAt("remote", "remote, us", 0);
    ContainsIsSubstring("remote, us", "remote");
    var keywords: seq<string> := ["engineer"];
    var locations: seq<string> := ["remote"];
    assert Contains(ToLower("Software Engineer"), ToLower(keywords[0]));
    assert Contains(ToLower("Remote, US"), ToLower(locations[0]));
  }

  /** "engineer" does not occur in "Sales Rep". */
  lemma SalesRejected()
    ensures !Matches(Job("A", "Sales Rep", "Remote", ""), ["engineer"], ["remote"])
  {
    assert ToLower("Sales Rep") == "sales rep";
    assert ToLower("engineer") == "engineer";
    assert "sales rep"[..8][0] != "engineer"[0];
    assert "sales rep"[1..] == "ales rep";
    assert "ales rep"[..8][0] != "engineer"[0];
    assert "ales rep"[1..] == "les rep";
    assert !Contains("sales rep", "engineer");
    var keywords: seq<string> := ["engineer"];
    assert forall k :: 0 <= k < |keywords| ==> keywords[k] == "engineer";
  }

  /** Keyword "engineer", location "remote": the engineering listing is kept, the sales one is not. */
  lemma FilterScenario()
    ensures FilterJobs([Job("A", "Software Engineer", "Remote, US", ""), Job("A", "Sales Rep", "Remote", "")],
                       ["engineer"], ["remote"])
            == [Job("A", "Software Engineer", "Remote, US", "")]
  {
    var jobs := [Job("A", "Software Engineer", "Remote, US", ""), Job("A", "Sales Rep", "Remote", "")];
    EngineerMatches();
    SalesRejected();
    assert jobs[1..] == [jobs[1]];
    assert jobs[1..][1..] == [];
  }

  /** A seen store of one listing and a scrape of that listing plus another: one is new, two are stored. */
  lemma DiffScenario()
    ensures var stored := Job("A", "X", "Y", "Z");
            var other := Job("B", "X", "Y", "Z");
            var found := IdentifyNewJobs([stored, other], [stored]);
            found == [other] && [stored] + found == [stored, other]
  {
  }

  /** An object payload is read through its configured key, giving the same listings as the bare array. */
  lemma ApiScenario(recs: seq<Record>, firm: string, params: Params)
    requires params.key == "results"
    requires WellFormed(Bare(recs), params)
    ensures WellFormed(Wrapped(map["results" := recs]), params)
    ensures Normalized(Wrapped(map["results" := recs]), firm, params) == Normalized(Bare(recs), firm, params)
  {
  }
}
