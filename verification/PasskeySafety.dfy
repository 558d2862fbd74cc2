/** Invariants of every legal run of the passkey queue, and what follows from them. */
module PasskeySafety {
  import opened Wrappers
  import opened PasskeyProtocol
  import opened PasskeyTrails

  // ---- the invariant -------------------------------------------------------

  predicate QueuedOrFailed(p: Phase) { p == Queued || p == Failed }

  /** In insertion order, every job after a live one is queued or failed. */
  predicate Ordered(jobs: seq<Job>) {
    forall i, j :: 0 <= i < j < |jobs| && Live(jobs[i].phase) ==> QueuedOrFailed(jobs[j].phase)
  }

  predicate DistinctIds(jobs: seq<Job>) {
    forall i, j :: 0 <= i < j < |jobs| ==> jobs[i].id != jobs[j].id
  }

  predicate Apart(xs: seq<Job>, ys: seq<Job>) {
    forall i, j :: 0 <= i < |xs| && 0 <= j < |ys| ==> xs[i].id != ys[j].id
  }

  /** A job agrees with its trail, and a signed or taken job with its file. */
  predicate Good(origin: string, files: map<string, File>, j: Job) {
    var st := Track(origin, j.kind, j.trail);
    && st.Some?
    && st.value.phase == j.phase
    && st.value.doc == j.prepared
    && (j.phase == Offered ==> j.offer.Some? && st.value.offer == j.offer)
    && (Live(j.phase) && j.phase != Offered ==> j.offer.None? && st.value.offer.None?)
    && (j.phase == Signed || j.phase == Taken ==>
          st.value.result.Some? && j.id in files && files[j.id] == Whole(st.value.result.value))
  }

  /** The job's own tokens have been drawn, and no two of its offers share an id. */
  predicate OwnTokens(minted: set<string>, j: Job) {
    && j.id in minted
    && (forall k :: 0 <= k < |j.trail| && j.trail[k].EvOffered? ==> j.trail[k].offer.id in minted)
    && (forall k, m :: 0 <= k < m < |j.trail| && j.trail[k].EvOffered? && j.trail[m].EvOffered? ==>
          j.trail[k].offer.id != j.trail[m].offer.id)
  }

  predicate SessionInv(s: State) {
    && (s.sessions == [] ==> s.session.None?)
    && (s.sessions != [] ==>
          s.session == Some((s.sessions[|s.sessions| - 1].cookie, s.sessions[|s.sessions| - 1].page)))
    && (forall k :: 0 <= k < |s.sessions| ==> s.sessions[k].token in s.minted && s.sessions[k].page in s.minted)
    && (forall k, m :: 0 <= k < m < |s.sessions| ==>
          s.sessions[k].token != s.sessions[m].token && s.sessions[k].page != s.sessions[m].page)
    && (s.pageToken.Some? ==> s.pageToken.value in s.minted)
    && (forall k :: 0 <= k < |s.sessions| ==> s.pageToken != Some(s.sessions[k].token))
  }

  predicate JobsInv(cfg: Config, s: State) {
    && (forall k :: 0 <= k < |s.jobs| ==> Good(cfg.origin, s.files, s.jobs[k]) && OwnTokens(s.minted, s.jobs[k]))
    && (forall k :: 0 <= k < |s.retired| ==>
          && Done(s.retired[k].phase)
          && Good(cfg.origin, s.files, s.retired[k])
          && OwnTokens(s.minted, s.retired[k]))
  }

  predicate Inv(cfg: Config, s: State) {
    && Ordered(s.jobs)
    && DistinctIds(s.jobs)
    && DistinctIds(s.retired)
    && Apart(s.retired, s.jobs)
    && |s.jobs| <= CAPACITY
    && JobsInv(cfg, s)
    && SessionInv(s)
  }

  // ---- changes to one job --------------------------------------------------

  lemma AppendOther(minted: set<string>, j: Job, j2: Job, e: JobEvent)
    requires OwnTokens(minted, j)
    requires j2.id == j.id && j2.trail == j.trail + [e] && !e.EvOffered?
    ensures OwnTokens(minted, j2)
  {
    forall k | 0 <= k < |j2.trail| && j2.trail[k].EvOffered?
      ensures k < |j.trail| && j2.trail[k] == j.trail[k]
    {
    }
  }

  lemma AppendOffer(minted: set<string>, j: Job, j2: Job, o: Offer)
    requires OwnTokens(minted, j) && o.id !in minted
    requires j2.id == j.id && j2.trail == j.trail + [EvOffered(o)]
    ensures OwnTokens(minted + {o.id}, j2)
  {
    forall k | 0 <= k < |j2.trail| && j2.trail[k].EvOffered?
      ensures k == |j.trail| || j2.trail[k] == j.trail[k]
    {
    }
  }

  lemma ReplaceKeepsOrder(jobs: seq<Job>, i: nat, j2: Job)
    requires Ordered(jobs) && i < |jobs|
    requires Live(j2.phase) ==> Live(jobs[i].phase)
    requires !QueuedOrFailed(j2.phase) ==> forall k :: 0 <= k < i ==> !Live(jobs[k].phase)
    ensures Ordered(jobs[i := j2])
  {
  }

  /** Replacing one job, with tokens and files that only grow. */
  lemma Replace(cfg: Config, s: State, i: nat, j2: Job, minted: set<string>, files: map<string, File>)
    requires Inv(cfg, s) && i < |s.jobs|
    requires j2.id == s.jobs[i].id
    requires Live(j2.phase) ==> Live(s.jobs[i].phase)
    requires !QueuedOrFailed(j2.phase) ==> forall k :: 0 <= k < i ==> !Live(s.jobs[k].phase)
    requires s.minted <= minted
    requires forall f :: f in s.files ==> f in files && files[f] == s.files[f]
    requires Good(cfg.origin, files, j2) && OwnTokens(minted, j2)
    ensures Inv(cfg, s.(jobs := s.jobs[i := j2], minted := minted, files := files))
  {
    ReplaceKeepsOrder(s.jobs, i, j2);
    var s2 := s.(jobs := s.jobs[i := j2], minted := minted, files := files);
  }

  // ---- expire --------------------------------------------------------------

  lemma ExpireJobGood(origin: string, files: map<string, File>, minted: set<string>, j: Job, t: real)
    requires Good(origin, files, j) && OwnTokens(minted, j)
    ensures Good(origin, files, ExpireJob(j, t)) && OwnTokens(minted, ExpireJob(j, t))
    ensures ExpireJob(j, t).id == j.id
    ensures Live(ExpireJob(j, t).phase) ==> Live(j.phase)
    ensures QueuedOrFailed(j.phase) ==> QueuedOrFailed(ExpireJob(j, t).phase)
  {
    var j2 := ExpireJob(j, t);
    if j2 != j {
      var e := j2.trail[|j2.trail| - 1];
      TrackNote(origin, j.kind, j.trail, e);
      AppendOther(minted, j, j2, e);
    }
  }

  lemma ExpireKeepsInv(cfg: Config, s: State, t1: real, t2: real)
    requires Inv(cfg, s)
    ensures Inv(cfg, Expire(s, t1, t2))
  {
    var s2 := Expire(s, t1, t2);
    forall k | 0 <= k < |s.jobs|
      ensures Good(cfg.origin, s.files, s2.jobs[k]) && OwnTokens(s.minted, s2.jobs[k])
      ensures s2.jobs[k].id == s.jobs[k].id
      ensures Live(s2.jobs[k].phase) ==> Live(s.jobs[k].phase)
      ensures QueuedOrFailed(s.jobs[k].phase) ==> QueuedOrFailed(s2.jobs[k].phase)
    {
      ExpireJobGood(cfg.origin, s.files, s.minted, s.jobs[k], t1);
    }
  }

  // ---- enqueue -------------------------------------------------------------

  /** `sub` is `jobs` with some entries left out. */
  lemma {:induction false} UnfinishedIndex(jobs: seq<Job>, i: nat, j: nat) returns (a: nat, b: nat)
    requires i < j < |Unfinished(jobs)|
    ensures a < b < |jobs| && Unfinished(jobs)[i] == jobs[a] && Unfinished(jobs)[j] == jobs[b]
    decreases jobs
  {
    var rest := jobs[1..];
    if Done(jobs[0].phase) {
      a, b := UnfinishedIndex(rest, i, j);
      a, b := a + 1, b + 1;
    } else if i == 0 {
      b := UnfinishedMember(rest, j - 1);
      a, b := 0, b + 1;
    } else {
      a, b := UnfinishedIndex(rest, i - 1, j - 1);
      a, b := a + 1, b + 1;
    }
  }

  lemma {:induction false} UnfinishedMember(jobs: seq<Job>, i: nat) returns (a: nat)
    requires i < |Unfinished(jobs)|
    ensures a < |jobs| && Unfinished(jobs)[i] == jobs[a] && !Done(jobs[a].phase)
    decreases jobs
  {
    var rest := jobs[1..];
    if Done(jobs[0].phase) {
      a := UnfinishedMember(rest, i);
      a := a + 1;
    } else if i == 0 {
      a := 0;
    } else {
      a := UnfinishedMember(rest, i - 1);
      a := a + 1;
    }
  }

  lemma {:induction false} FinishedMember(jobs: seq<Job>, i: nat) returns (a: nat)
    requires i < |Finished(jobs)|
    ensures a < |jobs| && Finished(jobs)[i] == jobs[a] && Done(jobs[a].phase)
    decreases jobs
  {
    var rest := jobs[1..];
    if !Done(jobs[0].phase) {
      a := FinishedMember(rest, i);
      a := a + 1;
    } else if i == 0 {
      a := 0;
    } else {
      a := FinishedMember(rest, i - 1);
      a := a + 1;
    }
  }

  lemma {:induction false} FinishedIndex(jobs: seq<Job>, i: nat, j: nat) returns (a: nat, b: nat)
    requires i < j < |Finished(jobs)|
    ensures a < b < |jobs| && Finished(jobs)[i] == jobs[a] && Finished(jobs)[j] == jobs[b]
    decreases jobs
  {
    var rest := jobs[1..];
    if !Done(jobs[0].phase) {
      a, b := FinishedIndex(rest, i, j);
      a, b := a + 1, b + 1;
    } else if i == 0 {
      b := FinishedMember(rest, j - 1);
      a, b := 0, b + 1;
    } else {
      a, b := FinishedIndex(rest, i - 1, j - 1);
      a, b := a + 1, b + 1;
    }
  }

  lemma {:induction false} PruneSizes(jobs: seq<Job>)
    ensures |Unfinished(jobs)| + |Finished(jobs)| == |jobs|
    decreases jobs
  {
    if jobs != [] { PruneSizes(jobs[1..]); }
  }

  /** Distinct ids survive pruning, whichever side the two jobs end up on. */
  lemma PruneDistinct(jobs: seq<Job>)
    requires DistinctIds(jobs)
    ensures DistinctIds(Unfinished(jobs)) && DistinctIds(Finished(jobs))
    ensures Apart(Finished(jobs), Unfinished(jobs))
  {
    forall i, j | 0 <= i < j < |Unfinished(jobs)|
      ensures Unfinished(jobs)[i].id != Unfinished(jobs)[j].id
    {
      var a, b := UnfinishedIndex(jobs, i, j);
    }
    forall i, j | 0 <= i < j < |Finished(jobs)|
      ensures Finished(jobs)[i].id != Finished(jobs)[j].id
    {
      var a, b := FinishedIndex(jobs, i, j);
    }
    forall i, j | 0 <= i < |Finished(jobs)| && 0 <= j < |Unfinished(jobs)|
      ensures Finished(jobs)[i].id != Unfinished(jobs)[j].id
    {
      var a := FinishedMember(jobs, i);
      var b := UnfinishedMember(jobs, j);
    }
  }

  lemma PruneApart(retired: seq<Job>, jobs: seq<Job>)
    requires DistinctIds(jobs) && DistinctIds(retired) && Apart(retired, jobs)
    ensures DistinctIds(retired + Finished(jobs))
    ensures Apart(retired + Finished(jobs), Unfinished(jobs))
  {
    PruneDistinct(jobs);
    forall i, j | 0 <= i < |retired| && 0 <= j < |Finished(jobs)|
      ensures retired[i].id != Finished(jobs)[j].id
    {
      var a := FinishedMember(jobs, j);
    }
    forall i, j | 0 <= i < |retired| && 0 <= j < |Unfinished(jobs)|
      ensures retired[i].id != Unfinished(jobs)[j].id
    {
      var a := UnfinishedMember(jobs, j);
    }
  }

  lemma PruneKeepsInv(cfg: Config, s: State)
    requires Inv(cfg, s)
    ensures Inv(cfg, Prune(s))
  {
    var p := Prune(s);
    PruneSizes(s.jobs);
    PruneDistinct(s.jobs);
    PruneApart(s.retired, s.jobs);
    forall i, j | 0 <= i < j < |p.jobs| && Live(p.jobs[i].phase)
      ensures QueuedOrFailed(p.jobs[j].phase)
    {
      var a, b := UnfinishedIndex(s.jobs, i, j);
    }
    forall k | 0 <= k < |p.jobs|
      ensures Good(cfg.origin, s.files, p.jobs[k]) && OwnTokens(s.minted, p.jobs[k])
    {
      var a := UnfinishedMember(s.jobs, k);
    }
    forall k | |s.retired| <= k < |p.retired|
      ensures Done(p.retired[k].phase) && Good(cfg.origin, s.files, p.retired[k]) && OwnTokens(s.minted, p.retired[k])
    {
      var a := FinishedMember(s.jobs, k - |s.retired|);
    }
  }

  lemma AddKeepsInv(cfg: Config, s: State, j: Job)
    requires Inv(cfg, s) && |s.jobs| < CAPACITY
    requires j.id !in s.minted && j.phase == Queued && j.prepared.None? && j.offer.None? && j.trail == [EvEnqueued]
    ensures Inv(cfg, s.(jobs := Put(s.jobs, j), minted := s.minted + {j.id}))
    ensures Put(s.jobs, j) == s.jobs + [j]
  {
    var s2 := s.(jobs := Put(s.jobs, j), minted := s.minted + {j.id});
    assert Find(s.jobs, j.id) == |s.jobs|;
    assert Good(cfg.origin, s.files, j);
  }

  // ---- commands ------------------------------------------------------------

  lemma CliOnJobKeepsInv(cfg: Config, s: State, i: nat, req: CliRequest)
    requires Inv(cfg, s) && i < |s.jobs|
    ensures var r := CliOnJob(cfg, s.jobs[i], req);
            r.Some? ==> Inv(cfg, s.(jobs := s.jobs[i := r.value.0]))
  {
    var j, r := s.jobs[i], CliOnJob(cfg, s.jobs[i], req);
    if r.Some? && r.value.0 != j {
      var j2 := r.value.0;
      var e := j2.trail[|j2.trail| - 1];
      TrackNote(cfg.origin, j.kind, j.trail, e);
      AppendOther(s.minted, j, j2, e);
      Replace(cfg, s, i, j2, s.minted, s.files);
    } else {
      assert s.jobs[i := j] == s.jobs;
    }
  }

  lemma EnqueueKeepsInv(cfg: Config, s: State, t2: real, req: CliRequest, draw: string)
    requires Inv(cfg, s) && draw !in s.minted
    ensures Inv(cfg, Enqueue(s, t2, req, draw).0)
  {
    PruneKeepsInv(cfg, s);
    var p := Prune(s);
    if |p.jobs| < CAPACITY && ParseKind(req.kind).Some? && ParseName(req.name).Some? {
      var j := Job(draw, ParseKind(req.kind).value, ParseName(req.name).value, t2 + JOB_SECONDS,
                   Queued, None, None, [EvEnqueued]);
      AddKeepsInv(cfg, p, j);
    }
  }

  lemma OpenKeepsInv(cfg: Config, s: State, draw: string, until: real)
    requires Inv(cfg, s) && draw !in s.minted
    ensures Inv(cfg, s.(pageToken := Some(draw), tokenDeadline := until, minted := s.minted + {draw}))
  {
  }

  lemma CliKeepsInv(cfg: Config, s0: State, t1: real, t2: real, req: CliRequest, draw: string)
    requires Inv(cfg, s0) && draw !in s0.minted
    ensures Inv(cfg, Cli(cfg, s0, t1, t2, req, draw).0)
  {
    ExpireKeepsInv(cfg, s0, t1, t2);
    var s := Expire(s0, t1, t2);
    if req.op == OpOpen {
      OpenKeepsInv(cfg, s, draw, t2 + TOKEN_SECONDS);
    } else if req.op == OpEnqueue {
      EnqueueKeepsInv(cfg, s, t2, req, draw);
    } else if req.id.Some? {
      var i := Find(s.jobs, req.id.value);
      if i < |s.jobs| { CliOnJobKeepsInv(cfg, s, i, req); }
    }
  }

  // ---- pages ---------------------------------------------------------------

  /** An offered job has no live job before it, so it is the active one. */
  lemma OfferedIsActive(jobs: seq<Job>, i: nat)
    requires Ordered(jobs) && i < |jobs| && jobs[i].phase == Offered
    ensures Active(jobs) == i
    ensures forall k :: 0 <= k < i ==> !Live(jobs[k].phase)
  {
    var a := Active(jobs);
    assert a <= i;
    assert a < i ==> QueuedOrFailed(jobs[i].phase);
  }

  lemma NextKeepsInv(cfg: Config, s: State, page: string, draw: string, t2: real)
    requires Inv(cfg, s) && draw !in s.minted
    ensures Inv(cfg, NextOp(s, page, draw, t2).0)
  {
    var a := Active(s.jobs);
    if a < |s.jobs| && s.jobs[a].phase != Offered {
      var j := s.jobs[a];
      var claimed := if j.phase == Queued then j.(phase := Ready).Note(EvClaimed(page)) else j;
      if j.phase == Queued {
        TrackNote(cfg.origin, j.kind, j.trail, EvClaimed(page));
        AppendOther(s.minted, j, claimed, EvClaimed(page));
      }
      assert OwnTokens(s.minted, claimed);
      RegistrationNotReady(cfg.origin, j.trail);
      if NextMints(j) {
        var o := Offer(draw, page, t2 + OFFER_LEASE_SECONDS);
        var j2 := Next(j, page, draw, t2);
        TrackNote(cfg.origin, j.kind, claimed.trail, EvOffered(o));
        AppendOffer(s.minted, claimed, j2, o);
        Replace(cfg, s, a, j2, s.minted + {draw}, s.files);
      } else {
        Replace(cfg, s, a, claimed, s.minted, s.files);
      }
    }
  }

  /** A registration is never `Prepared`: only assertions are published. */
  lemma {:induction false} RegistrationNotReady(origin: string, trail: seq<JobEvent>)
    ensures var st := Track(origin, Registration, trail); st.Some? ==> st.value.phase != Prepared
  {
    if |trail| > 1 { RegistrationNotReady(origin, trail[..|trail| - 1]); }
  }

  lemma FailedGood(origin: string, files: map<string, File>, minted: set<string>, j: Job, cause: FailureCause)
    requires Good(origin, files, j) && OwnTokens(minted, j) && !Done(j.phase)
    ensures Good(origin, files, j.Fail(cause)) && OwnTokens(minted, j.Fail(cause))
  {
    TrackNote(origin, j.kind, j.trail, EvFailed(cause));
    AppendOther(minted, j, j.Fail(cause), EvFailed(cause));
  }

  lemma CompletedGood(origin: string, files: map<string, File>, minted: set<string>, j: Job, result: Json)
    requires Good(origin, files, j) && OwnTokens(minted, j) && j.phase == Offered
    requires ResultAcceptable(origin, j.kind, j.prepared, result)
    ensures var d := j.(phase := Signed).Note(EvCompleted(j.offer.value.id, result));
            Good(origin, files[j.id := Whole(result)], d) && OwnTokens(minted, d)
  {
    var e := EvCompleted(j.offer.value.id, result);
    TrackNote(origin, j.kind, j.trail, e);
    AppendOther(minted, j, j.(phase := Signed).Note(e), e);
  }

  lemma CompleteKeepsInv(cfg: Config, s: State, i: nat, req: PageRequest, write: WriteOutcome)
    requires Inv(cfg, s) && i < |s.jobs| && s.jobs[i].phase == Offered
    ensures s.jobs[i].offer.Some?
    ensures Inv(cfg, Complete(cfg, s, i, req, write).0)
  {
    var j := s.jobs[i];
    var r := Complete(cfg, s, i, req, write);
    if r.0 != s {
      OfferedIsActive(s.jobs, i);
      FailedGood(cfg.origin, s.files, s.minted, j, WriteFailed);
      if r.1 == Refused {
        Replace(cfg, s, i, j.Fail(WriteFailed), s.minted, r.0.files);
      } else {
        CompletedGood(cfg.origin, s.files, s.minted, j, req.result.value);
        Replace(cfg, s, i, r.0.jobs[i], s.minted, r.0.files);
      }
    }
  }

  lemma OnOfferKeepsInv(cfg: Config, s: State, i: nat, op: PageOp, req: PageRequest, t2: real, write: WriteOutcome)
    requires Inv(cfg, s) && i < |s.jobs| && s.jobs[i].phase == Offered
    ensures s.jobs[i].offer.Some?
    ensures Inv(cfg, OnOffer(cfg, s, i, op, req, t2, write).0)
  {
    OfferedIsActive(s.jobs, i);
    if op == PgComplete {
      CompleteKeepsInv(cfg, s, i, req, write);
    } else if op == PgRenew || op == PgFail {
      var j := s.jobs[i];
      var j2 := OnOffer(cfg, s, i, op, req, t2, write).0.jobs[i];
      var e := j2.trail[|j2.trail| - 1];
      TrackNote(cfg.origin, j.kind, j.trail, e);
      AppendOther(s.minted, j, j2, e);
      Replace(cfg, s, i, j2, s.minted, s.files);
    }
  }

  lemma ReleaseKeepsInv(cfg: Config, s: State, i: nat)
    requires Inv(cfg, s) && i < |s.jobs| && s.jobs[i].phase == Offered
    ensures Inv(cfg, s.(jobs := s.jobs[i := s.jobs[i].Release(EvReleased)]))
  {
    OfferedIsActive(s.jobs, i);
    var j := s.jobs[i];
    TrackNote(cfg.origin, j.kind, j.trail, EvReleased);
    AppendOther(s.minted, j, j.Release(EvReleased), EvReleased);
    Replace(cfg, s, i, j.Release(EvReleased), s.minted, s.files);
  }

  lemma OwnedKeepsInv(cfg: Config, s: State, t2: real, op: PageOp, req: PageRequest,
                      cookie: string, page: string, draw: string, write: WriteOutcome)
    requires Inv(cfg, s) && op != PgNext
    ensures Inv(cfg, PageRequested(cfg, s, t2, op, req, cookie, page, draw, write).0)
  {
    var i := OwnedOffer(s.jobs, req, page);
    if i < |s.jobs| {
      if op == PgRelease {
        ReleaseKeepsInv(cfg, s, i);
      } else {
        OnOfferKeepsInv(cfg, s, i, op, req, t2, write);
      }
    }
  }

  lemma PageKeepsInv(cfg: Config, s0: State, t1: real, t2: real, op: PageOp, req: PageRequest,
                     cookie: string, page: string, draw: string, write: WriteOutcome)
    requires Inv(cfg, s0) && draw !in s0.minted
    ensures Inv(cfg, Page(cfg, s0, t1, t2, op, req, cookie, page, draw, write).0)
  {
    ExpireKeepsInv(cfg, s0, t1, t2);
    if op == PgNext {
      NextKeepsInv(cfg, Expire(s0, t1, t2), page, draw, t2);
    } else {
      OwnedKeepsInv(cfg, Expire(s0, t1, t2), t2, op, req, cookie, page, draw, write);
    }
  }

  lemma AuthenticateKeepsInv(cfg: Config, s: State, t: real, token: Option<string>, cookie: string, page: string)
    requires Inv(cfg, s) && cookie !in s.minted && page !in s.minted
    ensures Inv(cfg, Authenticate(s, t, token, cookie, page).0)
  {
  }

  lemma ApplyKeepsInv(cfg: Config, s: State, o: Op)
    requires Inv(cfg, s) && Legal(s, o)
    ensures Inv(cfg, Apply(cfg, s, o).0)
  {
    match o {
      case DoCli(t1, t2, req, draw) => CliKeepsInv(cfg, s, t1, t2, req, draw);
      case DoAuthenticate(t, token, cookie, page) => AuthenticateKeepsInv(cfg, s, t, token, cookie, page);
      case DoPage(t1, t2, op, req, cookie, page, draw, write) =>
        PageKeepsInv(cfg, s, t1, t2, op, req, cookie, page, draw, write);
      case DoForeignCreate(name) =>
    }
  }

  lemma {:induction false} RunKeepsInv(cfg: Config, s: State, ops: seq<Op>)
    requires Inv(cfg, s) && LegalRun(cfg, s, ops)
    ensures Inv(cfg, After(cfg, s, ops))
    decreases |ops|
  {
    if ops != [] {
      ApplyKeepsInv(cfg, s, ops[0]);
      RunKeepsInv(cfg, Apply(cfg, s, ops[0]).0, ops[1..]);
    }
  }
}
