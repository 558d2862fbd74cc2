/** The promises of the passkey queue, each for every legal run from the start. */
module PasskeyTheorems {
  import opened Wrappers
  import opened PasskeyProtocol
  import opened PasskeyTrails
  import opened PasskeySafety

  predicate Reached(cfg: Config, ops: seq<Op>, s: State) {
    LegalRun(cfg, Start, ops) && s == After(cfg, Start, ops)
  }

  lemma ReachedInv(cfg: Config, ops: seq<Op>, s: State)
    requires Reached(cfg, ops, s)
    ensures Inv(cfg, s)
  {
    RunKeepsInv(cfg, Start, ops);
  }

  // ---- one ceremony at a time ----------------------------------------------

  predicate InCeremony(p: Phase) { p == Ready || p == Prepared || p == Offered }

  /** After the first live job every job is queued or failed; so at most one job is
      being worked on. The queue holds at most eight jobs with distinct ids. */
  lemma OneCeremony(cfg: Config, ops: seq<Op>, s: State)
    requires Reached(cfg, ops, s)
    ensures forall k :: Active(s.jobs) < k < |s.jobs| ==> QueuedOrFailed(s.jobs[k].phase)
    ensures forall i, j :: 0 <= i < j < |s.jobs| && InCeremony(s.jobs[i].phase) ==> !InCeremony(s.jobs[j].phase)
    ensures |s.jobs| <= CAPACITY
    ensures forall i, j :: 0 <= i < j < |AllJobs(s)| ==> AllJobs(s)[i].id != AllJobs(s)[j].id
  {
    ReachedInv(cfg, ops, s);
  }

  lemma RequestNeverNotActive(cfg: Config, s: State, t2: real, op: PageOp, req: PageRequest,
                              cookie: string, page: string, draw: string, write: WriteOutcome)
    requires Ordered(s.jobs)
    ensures PageRequested(cfg, s, t2, op, req, cookie, page, draw, write).1 != NotActive
  {
    var i := OwnedOffer(s.jobs, req, page);
    if i < |s.jobs| { OfferedIsActive(s.jobs, i); }
  }

  /** The "not the active operation" refusal is dead code. */
  lemma NeverNotActive(cfg: Config, ops: seq<Op>, s: State, o: Op)
    requires Reached(cfg, ops, s)
    ensures Apply(cfg, s, o).1 != NotActive
  {
    ReachedInv(cfg, ops, s);
    if o.DoPage? {
      ExpireKeepsInv(cfg, s, o.t1, o.t2);
      RequestNeverNotActive(cfg, Expire(s, o.t1, o.t2), o.t2, o.op, o.preq, o.pcookie, o.ppage, o.draw, o.write);
    }
  }

  // ---- what a taken job went through ---------------------------------------

  /** No job is taken twice, pruned or not. */
  lemma TakenAtMostOnce(cfg: Config, ops: seq<Op>, s: State, k: nat)
    requires Reached(cfg, ops, s) && k < |AllJobs(s)|
    ensures Occurrences(AllJobs(s)[k].trail, EvTaken) == (if AllJobs(s)[k].phase == Taken then 1 else 0)
  {
    ReachedInv(cfg, ops, s);
    var j := AllJobs(s)[k];
    assert Good(cfg.origin, s.files, j);
    TakenCount(cfg.origin, j.kind, j.trail);
  }

  /** A taken assertion was enqueued, claimed, published once, offered, completed
      once under its latest offer, and taken; its file holds the result, which
      carries the published intent and names the published credential. */
  lemma TakenAssertion(cfg: Config, ops: seq<Op>, s: State, k: nat)
    requires Reached(cfg, ops, s) && k < |AllJobs(s)|
    requires AllJobs(s)[k].phase == Taken && AllJobs(s)[k].kind == Assertion
    ensures var j := AllJobs(s)[k];
            exists doc, result ::
              && TakenWord(cfg.origin, j.trail, doc, result)
              && j.id in s.files && s.files[j.id] == Whole(result)
              && result.Get("intent") == doc.Get("intent")
              && result.At("proof", "credential_id") == doc.At("root", "credential_id")
  {
    ReachedInv(cfg, ops, s);
    var j := AllJobs(s)[k];
    assert Good(cfg.origin, s.files, j);
    AssertionTrail(cfg.origin, j.trail);
    var st := Track(cfg.origin, Assertion, j.trail).value;
    assert TakenWord(cfg.origin, j.trail, st.doc.value, st.result.value);
  }

  /** A signed or taken registration was completed once, and its file holds that result, for this origin. */
  lemma SignedRegistration(cfg: Config, ops: seq<Op>, s: State, k: nat)
    requires Reached(cfg, ops, s) && k < |AllJobs(s)|
    requires AllJobs(s)[k].phase == Taken || AllJobs(s)[k].phase == Signed
    requires AllJobs(s)[k].kind == Registration
    ensures var j := AllJobs(s)[k];
            && j.id in s.files && s.files[j.id].Whole?
            && RegistrationAcceptable(cfg.origin, s.files[j.id].result)
            && (exists m :: 0 <= m < |j.trail| && j.trail[m].EvCompleted? && j.trail[m].result == s.files[j.id].result)
            && (forall m, n :: 0 <= m < |j.trail| && 0 <= n < |j.trail| && j.trail[m].EvCompleted? && j.trail[n].EvCompleted? ==> m == n)
  {
    ReachedInv(cfg, ops, s);
    var j := AllJobs(s)[k];
    assert Good(cfg.origin, s.files, j);
    ResultTrail(cfg.origin, j.kind, j.trail);
  }

  // ---- offers --------------------------------------------------------------

  predicate UsesOffer(op: PageOp) { op in {PgRenew, PgFail, PgComplete, PgRelease} }

  /** The request had an effect beyond expiry, or was answered. */
  predicate Accepted(r: (State, Reply), expired: State) { r.0 != expired || r.1 != Refused }

  /** An accepted renewal, failure, completion or release names the latest offer of
      its job, held by that page, still standing and unexpired. */
  lemma AcceptedOfferIsLatest(cfg: Config, ops: seq<Op>, s: State, o: Op)
    requires Reached(cfg, ops, s) && o.DoPage? && UsesOffer(o.op)
    requires Accepted(Apply(cfg, s, o), Expire(s, o.t1, o.t2))
    ensures exists i, f :: && 0 <= i < |s.jobs|
                           && o.preq.id == Some(s.jobs[i].id)
                           && LatestOffer(s.jobs[i].trail, f)
                           && f.page == o.ppage
                           && f.id == (if o.preq.offer.Some? then o.preq.offer.value else "")
                           && o.t1 < f.deadline && o.t1 < s.jobs[i].deadline
  {
    ReachedInv(cfg, ops, s);
    NeverNotActive(cfg, ops, s, o);
    var e := Expire(s, o.t1, o.t2);
    var i := OwnedOffer(e.jobs, o.preq, o.ppage);
    assert i < |e.jobs|;
    var j := s.jobs[i];
    assert e.jobs[i] == ExpireJob(j, o.t1) && e.jobs[i].phase == Offered;
    assert Good(cfg.origin, s.files, j);
    assert j == e.jobs[i];
    OfferedIsLatest(cfg.origin, j.kind, j.trail);
    assert LatestOffer(s.jobs[i].trail, j.offer.value);
  }

  lemma OnlyRenewedSince(minted: set<string>, j: Job, f: Offer, k: nat)
    requires OwnTokens(minted, j) && LatestOffer(j.trail, f)
    requires k < |j.trail| && j.trail[k].EvOffered? && j.trail[k].offer.id == f.id
    ensures forall m :: k < m < |j.trail| ==> j.trail[m].EvRenewed?
  {
    var n :| 0 <= n < |j.trail| && StandsSince(j.trail, n, f);
    assert !(n < k);
    assert !(k < n);
  }

  /** So once an offer has been released, has lapsed or has been followed by another,
      no page request naming it is accepted. */
  lemma AcceptedOfferNeverGivenUp(cfg: Config, ops: seq<Op>, s: State, o: Op, i: nat, k: nat)
    requires Reached(cfg, ops, s) && o.DoPage? && UsesOffer(o.op)
    requires Accepted(Apply(cfg, s, o), Expire(s, o.t1, o.t2))
    requires i < |s.jobs| && o.preq.id == Some(s.jobs[i].id)
    requires k < |s.jobs[i].trail| && s.jobs[i].trail[k].EvOffered?
    requires o.preq.offer == Some(s.jobs[i].trail[k].offer.id)
    ensures forall m :: k < m < |s.jobs[i].trail| ==> s.jobs[i].trail[m].EvRenewed?
  {
    ReachedInv(cfg, ops, s);
    AcceptedOfferIsLatest(cfg, ops, s, o);
    var i2, f :| 0 <= i2 < |s.jobs| && o.preq.id == Some(s.jobs[i2].id) && LatestOffer(s.jobs[i2].trail, f)
                 && f.id == o.preq.offer.value;
    assert DistinctIds(s.jobs);
    assert i2 == i;
    OnlyRenewedSince(s.minted, s.jobs[i], f, k);
  }

  // ---- pages ---------------------------------------------------------------

  /** After a later authentication an earlier page is refused everything, except that
      it may release an offer it holds. */
  lemma EarlierPageFenced(cfg: Config, ops: seq<Op>, s: State, o: Op, k: nat)
    requires Reached(cfg, ops, s) && o.DoPage?
    requires k < |s.sessions| - 1 && o.ppage == s.sessions[k].page
    ensures Accepted(Apply(cfg, s, o), Expire(s, o.t1, o.t2)) ==>
              && o.op == PgRelease
              && exists i :: 0 <= i < |s.jobs| && o.preq.id == Some(s.jobs[i].id)
                             && s.jobs[i].phase == Offered && s.jobs[i].offer.Some?
                             && s.jobs[i].offer.value.page == o.ppage
  {
    ReachedInv(cfg, ops, s);
    var e := Expire(s, o.t1, o.t2);
    var last := s.sessions[|s.sessions| - 1];
    assert s.sessions[k].page != last.page;
    if o.op == PgRelease {
      var i := OwnedOffer(e.jobs, o.preq, o.ppage);
      if i < |e.jobs| {
        assert e.jobs[i] == ExpireJob(s.jobs[i], o.t1) && e.jobs[i].phase == Offered;
        assert s.jobs[i] == e.jobs[i];
      }
    }
  }

  /** A page token authenticates once. */
  lemma TokenUsedOnce(cfg: Config, ops: seq<Op>, s: State, k: nat, t: real, cookie: string, page: string)
    requires Reached(cfg, ops, s) && k < |s.sessions|
    ensures Authenticate(s, t, Some(s.sessions[k].token), cookie, page).1 == Refused
    ensures forall a, b :: 0 <= a < b < |s.sessions| ==> s.sessions[a].token != s.sessions[b].token
  {
    ReachedInv(cfg, ops, s);
  }

  /** Once its lease is over, the offered job is still the active one, and free. */
  lemma LapsedIsActive(jobs: seq<Job>, t: real, i: nat)
    requires Ordered(jobs) && i < |jobs| && jobs[i].phase == Offered && jobs[i].offer.Some?
    requires jobs[i].offer.value.deadline <= t < jobs[i].deadline
    ensures |ExpireJobs(jobs, t)| == |jobs| && ExpireJobs(jobs, t)[i] == jobs[i].Release(EvLapsed)
    ensures Active(ExpireJobs(jobs, t)) == i
  {
    OfferedIsActive(jobs, i);
    var after := ExpireJobs(jobs, t);
    forall k | 0 <= k < i ensures !Live(after[k].phase) {
      assert after[k] == ExpireJob(jobs[k], t);
    }
  }

  lemma ReleasedIsOffered(s: State, page: string, draw: string, t2: real, i: nat, j: Job)
    requires i < |s.jobs| && Active(s.jobs) == i && s.jobs[i] == j.Release(EvLapsed)
    ensures var r := NextOp(s, page, draw, t2).1;
            r.JobReply? && r.view.id == j.id && r.view.phase == Offered && r.view.offer == Some(draw)
  {
  }

  /** A silent page does not block the queue: once its lease is over, the current page's
      next request is given the same job under a new offer. */
  lemma LapsedOfferIsReplaced(cfg: Config, ops: seq<Op>, s: State, o: Op, i: nat)
    requires Reached(cfg, ops, s) && o.DoPage? && o.op == PgNext
    requires s.session == Some((o.pcookie, o.ppage))
    requires i < |s.jobs| && s.jobs[i].phase == Offered && s.jobs[i].offer.Some?
    requires s.jobs[i].offer.value.deadline <= o.t1 < s.jobs[i].deadline
    ensures var r := Apply(cfg, s, o).1;
            && r.JobReply? && r.view.id == s.jobs[i].id && r.view.phase == Offered && r.view.offer == Some(o.draw)
  {
    ReachedInv(cfg, ops, s);
    LapsedIsActive(s.jobs, o.t1, i);
    ReleasedIsOffered(Expire(s, o.t1, o.t2), o.ppage, o.draw, o.t2, i, s.jobs[i]);
  }

  // ---- time ----------------------------------------------------------------

  /** The job without the offer a failed job may still carry. */
  function Settled(j: Job): Job { if j.phase == Failed then j.(offer := None, trail := []) else j.(trail := []) }

  /** For every queue: expiring early changes nothing that a later expiry would not have done. */
  lemma ExpireTwice(jobs: seq<Job>, t1: real, t2: real)
    requires t1 <= t2
    ensures |ExpireJobs(ExpireJobs(jobs, t1), t2)| == |ExpireJobs(jobs, t2)| == |jobs|
    ensures forall k :: 0 <= k < |jobs| ==>
              && ExpireJobs(ExpireJobs(jobs, t1), t2)[k].phase == ExpireJobs(jobs, t2)[k].phase
              && Settled(ExpireJobs(ExpireJobs(jobs, t1), t2)[k]) == Settled(ExpireJobs(jobs, t2)[k])
    ensures Active(ExpireJobs(ExpireJobs(jobs, t1), t2)) == Active(ExpireJobs(jobs, t2))
  {
    var twice, once := ExpireJobs(ExpireJobs(jobs, t1), t2), ExpireJobs(jobs, t2);
    forall k | 0 <= k < |jobs| ensures twice[k].phase == once[k].phase && Settled(twice[k]) == Settled(once[k]) {
      assert twice[k] == ExpireJob(ExpireJob(jobs[k], t1), t2);
    }
    SameActive(twice, once);
  }

  lemma SameActive(a: seq<Job>, b: seq<Job>)
    requires |a| == |b| && forall k :: 0 <= k < |a| ==> a[k].phase == b[k].phase
    ensures Active(a) == Active(b)
  {
    var i, j := Active(a), Active(b);
    assert i < |a| ==> Live(b[i].phase);
    assert j < |b| ==> Live(a[j].phase);
  }

  /** No job of this id is live or signed. */
  predicate Gone(s: State, id: string) {
    forall k :: 0 <= k < |s.jobs| && s.jobs[k].id == id ==> Done(s.jobs[k].phase)
  }

  /** Every job of `s2` is new, or continues a job of `s` and is done if that one was. */
  ghost predicate Continues(s: State, s2: State) {
    forall k :: 0 <= k < |s2.jobs| ==>
      s2.jobs[k].id !in s.minted || (exists m :: 0 <= m < |s.jobs| && Continued(s.jobs[m], s2.jobs[k]))
  }

  predicate Continued(j: Job, j2: Job) { j2.id == j.id && (Done(j.phase) ==> Done(j2.phase)) }

  lemma ReplaceContinues(s: State, s2: State, i: nat, j2: Job)
    requires i < |s.jobs| && s2.jobs == s.jobs[i := j2] && Continued(s.jobs[i], j2)
    ensures Continues(s, s2)
  {
    forall k | 0 <= k < |s2.jobs|
      ensures exists m :: 0 <= m < |s.jobs| && Continued(s.jobs[m], s2.jobs[k])
    {
      assert Continued(s.jobs[k], s2.jobs[k]);
    }
  }

  lemma SameJobsContinue(s: State, s2: State)
    requires s2.jobs == s.jobs
    ensures Continues(s, s2)
  {
    forall k | 0 <= k < |s2.jobs|
      ensures exists m :: 0 <= m < |s.jobs| && Continued(s.jobs[m], s2.jobs[k])
    {
      assert Continued(s.jobs[k], s2.jobs[k]);
    }
  }

  lemma EnqueueContinues(cfg: Config, s: State, t2: real, req: CliRequest, draw: string)
    requires Inv(cfg, s) && draw !in s.minted
    ensures Continues(s, Enqueue(s, t2, req, draw).0)
  {
    var p := Prune(s);
    var s2 := Enqueue(s, t2, req, draw).0;
    PruneKeepsInv(cfg, s);
    forall k | 0 <= k < |s2.jobs|
      ensures s2.jobs[k].id !in s.minted || exists m :: 0 <= m < |s.jobs| && Continued(s.jobs[m], s2.jobs[k])
    {
      if k < |p.jobs| && s2.jobs[k] == p.jobs[k] {
        var m := UnfinishedMember(s.jobs, k);
        assert Continued(s.jobs[m], s2.jobs[k]);
      }
    }
  }

  lemma CommandContinues(cfg: Config, s: State, t2: real, req: CliRequest, draw: string)
    requires Inv(cfg, s) && draw !in s.minted
    ensures Continues(s, Command(cfg, s, t2, req, draw).0)
  {
    var s2 := Command(cfg, s, t2, req, draw).0;
    if req.op == OpEnqueue {
      EnqueueContinues(cfg, s, t2, req, draw);
    } else if s2.jobs == s.jobs {
      SameJobsContinue(s, s2);
    } else {
      var i := Find(s.jobs, req.id.value);
      ReplaceContinues(s, s2, i, s2.jobs[i]);
    }
  }

  lemma PageContinues(cfg: Config, s: State, t2: real, op: PageOp, req: PageRequest,
                      cookie: string, page: string, draw: string, write: WriteOutcome)
    ensures Continues(s, PageRequested(cfg, s, t2, op, req, cookie, page, draw, write).0)
  {
    var s2 := PageRequested(cfg, s, t2, op, req, cookie, page, draw, write).0;
    if s2.jobs == s.jobs {
      SameJobsContinue(s, s2);
    } else if op == PgNext {
      var a := Active(s.jobs);
      ReplaceContinues(s, s2, a, s2.jobs[a]);
    } else {
      var i := OwnedOffer(s.jobs, req, page);
      ReplaceContinues(s, s2, i, s2.jobs[i]);
    }
  }

  lemma GoneContinues(s: State, s2: State, id: string)
    requires Gone(s, id) && id in s.minted && Continues(s, s2)
    ensures Gone(s2, id)
  {
    forall k | 0 <= k < |s2.jobs| && s2.jobs[k].id == id
      ensures Done(s2.jobs[k].phase)
    {
      var m :| 0 <= m < |s.jobs| && Continued(s.jobs[m], s2.jobs[k]);
    }
  }

  lemma MintedGrows(cfg: Config, s: State, o: Op)
    ensures s.minted <= Apply(cfg, s, o).0.minted
  {
  }

  lemma GoneStep(cfg: Config, s: State, o: Op, id: string)
    requires Inv(cfg, s) && Legal(s, o) && Gone(s, id) && id in s.minted
    ensures Gone(Apply(cfg, s, o).0, id) && id in Apply(cfg, s, o).0.minted
  {
    MintedGrows(cfg, s, o);
    var s2 := Apply(cfg, s, o).0;
    match o {
      case DoCli(t1, t2, req, draw) =>
        ExpireKeepsInv(cfg, s, t1, t2);
        assert Gone(Expire(s, t1, t2), id);
        CommandContinues(cfg, Expire(s, t1, t2), t2, req, draw);
        GoneContinues(Expire(s, t1, t2), s2, id);
      case DoPage(t1, t2, op, req, cookie, page, draw, write) =>
        assert Gone(Expire(s, t1, t2), id);
        PageContinues(cfg, Expire(s, t1, t2), t2, op, req, cookie, page, draw, write);
        GoneContinues(Expire(s, t1, t2), s2, id);
      case _ =>
        assert s2.jobs == s.jobs;
    }
  }

  lemma {:induction false} GoneForever(cfg: Config, s: State, ops: seq<Op>, id: string)
    requires Inv(cfg, s) && LegalRun(cfg, s, ops) && Gone(s, id) && id in s.minted
    ensures Gone(After(cfg, s, ops), id)
    decreases |ops|
  {
    if ops != [] {
      ApplyKeepsInv(cfg, s, ops[0]);
      GoneStep(cfg, s, ops[0], id);
      GoneForever(cfg, Apply(cfg, s, ops[0]).0, ops[1..], id);
    }
  }

  /** Once a command or page request runs at or past a job's deadline, the job is
      failed, taken or pruned, and stays so in every continuation. */
  lemma DeadlineIsFinal(cfg: Config, ops: seq<Op>, s: State, i: nat, o: Op, more: seq<Op>)
    requires Reached(cfg, ops, s) && i < |s.jobs|
    requires Legal(s, o) && (o.DoCli? || o.DoPage?) && o.t1 >= s.jobs[i].deadline
    requires LegalRun(cfg, Apply(cfg, s, o).0, more)
    ensures Gone(After(cfg, Apply(cfg, s, o).0, more), s.jobs[i].id)
  {
    ReachedInv(cfg, ops, s);
    ApplyKeepsInv(cfg, s, o);
    var id := s.jobs[i].id;
    var e, s2 := Expire(s, o.t1, o.t2), Apply(cfg, s, o).0;
    ExpireKeepsInv(cfg, s, o.t1, o.t2);
    assert e.jobs[i] == ExpireJob(s.jobs[i], o.t1);
    assert forall k :: 0 <= k < |e.jobs| && e.jobs[k].id == id ==> k == i;
    assert Gone(e, id);
    assert OwnTokens(s.minted, s.jobs[i]);
    if o.DoCli? {
      CommandContinues(cfg, e, o.t2, o.req, o.draw);
    } else {
      PageContinues(cfg, e, o.t2, o.op, o.preq, o.pcookie, o.ppage, o.draw, o.write);
    }
    GoneContinues(e, s2, id);
    MintedGrows(cfg, s, o);
    GoneForever(cfg, s2, more, id);
  }
}
