/** The periodic link poll, which reports the medium only when it has changed. */
module LinkMonitor {

  type Medium = nat

  const NONE: Medium := 2     // MEDIUM_INDEX_NONE
  const UNDEF: Medium := 42   // MEDIUM_INDEX_UNDEF

  /** What one poll finds: the medium of the link, or no link. */
  datatype Sample = Up(medium: Medium) | Down
  {
    function Index(): Medium { if Up? then medium else NONE }
  }

  /** The samples without those that repeat their predecessor, the first one's being `last`. */
  function Changes(last: Medium, samples: seq<Medium>): (c: seq<Medium>)
    ensures |c| <= |samples|
    decreases |samples|
  {
    if samples == [] then []
    else (if samples[0] != last then [samples[0]] else []) + Changes(samples[0], samples[1..])
  }

  function Indices(samples: seq<Sample>): seq<Medium> {
    seq(|samples|, i requires 0 <= i < |samples| => samples[i].Index())
  }

  lemma {:induction false} ChangesSnoc(last: Medium, samples: seq<Medium>, m: Medium)
    ensures Changes(last, samples + [m]) ==
            Changes(last, samples) + if m != ([last] + samples)[|samples|] then [m] else []
    decreases |samples|
  {
    if samples != [] {
      assert (samples + [m])[1..] == samples[1..] + [m];
      ChangesSnoc(samples[0], samples[1..], m);
      assert ([last] + samples)[|samples|] == ([samples[0]] + samples[1..])[|samples| - 1];
    }
  }

  predicate Differs(c: seq<Medium>, i: nat)
    requires 0 < i < |c|
  {
    c[i] != c[i - 1]
  }

  ghost predicate Differing(c: seq<Medium>) {
    forall i | 0 < i < |c| :: Differs(c, i)
  }

  lemma DifferingCons(m: Medium, c: seq<Medium>)
    requires Differing(c) && c != [] && m != c[0]
    ensures Differing([m] + c)
  {
    forall i | 0 < i < |[m] + c|
      ensures Differs([m] + c, i)
    {
      assert i > 1 ==> Differs(c, i - 1);
    }
  }

  /** Neighbouring reports differ, and the first differs from what was reported last. */
  lemma {:induction false} ChangesDiffer(last: Medium, samples: seq<Medium>)
    ensures Differing([last] + Changes(last, samples))
    decreases |samples|
  {
    if samples != [] {
      var d := [samples[0]] + Changes(samples[0], samples[1..]);
      ChangesDiffer(samples[0], samples[1..]);
      if samples[0] != last {
        DifferingCons(last, d);
        assert [last] + Changes(last, samples) == [last] + d;
      } else {
        assert [last] + Changes(last, samples) == d;
      }
    }
  }

  /** Where the reports end is what was sampled last. */
  lemma {:induction false} ChangesEnd(last: Medium, samples: seq<Medium>)
    ensures ([last] + Changes(last, samples))[|Changes(last, samples)|] == ([last] + samples)[|samples|]
    decreases |samples|
  {
    if samples != [] {
      ChangesEnd(samples[0], samples[1..]);
    }
  }

  class Monitor {
    var mediumIndexLastReported: Medium

    // What the upper layers have been told.
    var reports: seq<Medium>

    constructor ()
      ensures reports == [] && mediumIndexLastReported == UNDEF
    {
      reports, mediumIndexLastReported := [], UNDEF;
    }

    /** `phyReportLinkStatus`. */
    method ReportLinkStatus(sample: Sample, forceStatusReport: bool)
      modifies this
      ensures mediumIndexLastReported == sample.Index()
      ensures reports == old(reports) +
        if forceStatusReport || sample.Index() != old(mediumIndexLastReported) then [sample.Index()] else []
    {
      if sample.Up? {
        if forceStatusReport || sample.medium != mediumIndexLastReported {
          reports := reports + [sample.medium];
        }
        mediumIndexLastReported := sample.medium;
      } else if forceStatusReport || mediumIndexLastReported != NONE {
        reports := reports + [NONE];
        mediumIndexLastReported := NONE;
      }
    }

    /** Polls that are not forced report exactly the changes. */
    method Poll(samples: seq<Sample>)
      modifies this
      ensures reports == old(reports) + Changes(old(mediumIndexLastReported), Indices(samples))
    {
      ghost var last, all := mediumIndexLastReported, Indices(samples);
      for i := 0 to |samples|
        invariant mediumIndexLastReported == ([last] + all)[i]
        invariant reports == old(reports) + Changes(last, all[..i])
      {
        assert all[..i + 1] == all[..i] + [all[i]];
        assert ([last] + all)[i] == ([last] + all[..i])[i];
        ChangesSnoc(last, all[..i], all[i]);
        ReportLinkStatus(samples[i], false);
      }
      assert all[..|samples|] == all;
    }
  }
}
