/**
 Who is answered, and with what: each operation of the passkey queue in terms of the
 operations before it, the jobs it meets and the documents it is given.
 */
module PasskeyAnswers {
  import opened Wrappers
  import opened PasskeyProtocol
  import opened PasskeyTrails
  import opened PasskeySafety
  import opened PasskeyTheorems

  // ---- tokens and sessions, read off the operations -------------------------

  /** The page token that may still be used, and until when: the last one opened, unless it
      has authenticated a page. */
  function TokenInForce(ops: seq<Op>): Option<(string, real)> {
    if ops == [] then None
    else
      var init, last := ops[..|ops| - 1], ops[|ops| - 1];
      if last.DoCli? && last.req.op == OpOpen then Some((last.draw, last.t2 + 120.0))
      else if last.DoAuthenticate? && Presents(TokenInForce(init), last.token, last.t) then None
      else TokenInForce(init)
  }

  /** The token is the one in force, in time. */
  predicate Presents(inForce: Option<(string, real)>, token: Option<string>, t: real) {
    inForce.Some? && token == Some(inForce.value.0) && t < inForce.value.1
  }

  /** The cookie and page of the last authentication that presented the token in force. */
  function SessionInForce(ops: seq<Op>): Option<(string, string)> {
    if ops == [] then None
    else
      var init, last := ops[..|ops| - 1], ops[|ops| - 1];
      if last.DoAuthenticate? && Presents(TokenInForce(init), last.token, last.t) then Some((last.cookie, last.page))
      else SessionInForce(init)
  }

  lemma {:induction false} AfterLast(cfg: Config, s: State, ops: seq<Op>, o: Op)
    ensures After(cfg, s, ops + [o]) == Apply(cfg, After(cfg, s, ops), o).0
    decreases |ops|
  {
    var all := ops + [o];
    if ops == [] {
      assert all[1..] == [];
    } else {
      assert all[0] == ops[0] && all[1..] == ops[1..] + [o];
      AfterLast(cfg, Apply(cfg, s, ops[0]).0, ops[1..], o);
    }
  }

  predicate TokenShown(s: State, inForce: Option<(string, real)>) {
    s.pageToken.Some? == inForce.Some? && (inForce.Some? ==> inForce.value == (s.pageToken.value, s.tokenDeadline))
  }

  lemma OtherKeepsToken(cfg: Config, s: State, o: Op)
    requires !o.DoAuthenticate? && !(o.DoCli? && o.req.op == OpOpen)
    ensures var s2 := Apply(cfg, s, o).0;
            s2.pageToken == s.pageToken && s2.tokenDeadline == s.tokenDeadline && s2.session == s.session
  {
  }

  /** The broker holds exactly what the operations say, whatever they were. */
  lemma {:induction false} HoldsInForce(cfg: Config, ops: seq<Op>)
    ensures TokenShown(After(cfg, Start, ops), TokenInForce(ops))
    ensures After(cfg, Start, ops).session == SessionInForce(ops)
    decreases |ops|
  {
    if ops != [] {
      var init, last := ops[..|ops| - 1], ops[|ops| - 1];
      assert ops == init + [last];
      HoldsInForce(cfg, init);
      AfterLast(cfg, Start, init, last);
      if !last.DoAuthenticate? && !(last.DoCli? && last.req.op == OpOpen) {
        OtherKeepsToken(cfg, After(cfg, Start, init), last);
      }
    }
  }

  /** A page is authenticated exactly with the last token opened, unused, within two minutes. */
  lemma AuthenticatedIff(cfg: Config, ops: seq<Op>, s: State, o: Op)
    requires s == After(cfg, Start, ops) && o.DoAuthenticate?
    ensures Apply(cfg, s, o).1 ==
            if Presents(TokenInForce(ops), o.token, o.t) then SessionReply(o.cookie, o.page) else Refused
    ensures Apply(cfg, s, o).0.jobs == s.jobs && Apply(cfg, s, o).0.files == s.files
  {
    HoldsInForce(cfg, ops);
  }

  /** Opening answers with the address that carries the new token, and changes no job. */
  lemma OpenAnswers(cfg: Config, s: State, o: Op)
    requires o.DoCli? && o.req.op == OpOpen
    ensures Apply(cfg, s, o).1 == Url(cfg.origin + "/#" + o.draw)
    ensures Apply(cfg, s, o).0.jobs == ExpireJobs(s.jobs, o.t1) && Apply(cfg, s, o).0.files == s.files
  {
  }

  /** Whatever a page asks but for a release is refused without the cookie and page of the session in force. */
  lemma OnlyTheSession(cfg: Config, ops: seq<Op>, s: State, o: Op)
    requires s == After(cfg, Start, ops) && o.DoPage? && o.op != PgRelease
    requires SessionInForce(ops) != Some((o.pcookie, o.ppage))
    ensures Apply(cfg, s, o) == (Expire(s, o.t1, o.t2), Refused)
  {
    HoldsInForce(cfg, ops);
  }

  /** An accepted request other than a release carries the cookie and page of the last session. */
  lemma AcceptedIsAuthenticated(cfg: Config, ops: seq<Op>, s: State, o: Op)
    requires Reached(cfg, ops, s) && o.DoPage? && o.op != PgRelease
    requires Accepted(Apply(cfg, s, o), Expire(s, o.t1, o.t2))
    ensures s.sessions != []
    ensures var last := s.sessions[|s.sessions| - 1]; o.pcookie == last.cookie && o.ppage == last.page
    ensures SessionInForce(ops) == Some((o.pcookie, o.ppage))
  {
    ReachedInv(cfg, ops, s);
    HoldsInForce(cfg, ops);
    if SessionInForce(ops) != Some((o.pcookie, o.ppage)) { OnlyTheSession(cfg, ops, s, o); }
  }

  // ---- what a job looks like from outside -----------------------------------

  /** The view shows the job as it is, and of its offer the id alone. */
  lemma ViewShows(j: Job)
    ensures var v := j.View();
            && v.id == j.id && v.kind == j.kind && v.name == j.name && v.phase == j.phase && v.prepared == j.prepared
            && (v.offer.Some? <==> j.offer.Some?) && (j.offer.Some? ==> v.offer.value == j.offer.value.id)
  {
  }

  // ---- expiry --------------------------------------------------------------

  predicate IsOver(p: Phase) { p == Taken || p == Failed }

  /** A job that is over its deadline fails; an offer over its lease is taken back; nothing else changes. */
  lemma ExpiryMeans(j: Job, t: real)
    ensures var e := ExpireJob(j, t);
            && e.id == j.id && e.kind == j.kind && e.name == j.name && e.deadline == j.deadline && e.prepared == j.prepared
            && (IsOver(j.phase) ==> e == j)
            && (t < j.deadline && (j.phase == Offered ==> j.offer.Some? && t < j.offer.value.deadline) ==> e == j)
            && (!IsOver(j.phase) && t >= j.deadline ==> e.phase == Failed)
            && (j.phase == Offered && j.offer.Some? && j.offer.value.deadline <= t < j.deadline ==>
                  e.offer.None? && e.phase == if j.kind == Registration then Queued else Prepared)
  {
  }

  // ---- commands ------------------------------------------------------------

  /** A name that may be given, or the one that stands for none. */
  predicate Named(given: Option<Json>, name: string) {
    (given == None && name == "Doug") || (given == Some(JString(name)) && 1 <= |name| <= 64)
  }

  predicate OfKind(given: Option<Json>, kind: Kind) {
    given == Some(JString(if kind == Registration then "registration" else "assertion"))
  }

  lemma {:induction false} UnfinishedMeans(jobs: seq<Job>, j: Job)
    ensures j in Unfinished(jobs) <==> j in jobs && !IsOver(j.phase)
  {
    if jobs != [] {
      UnfinishedMeans(jobs[1..], j);
      assert jobs == [jobs[0]] + jobs[1..];
    }
  }

  /** What a new job looks like. */
  predicate Fresh(j: Job, id: string, kind: Kind, name: string, t: real) {
    && j.id == id && j.kind == kind && j.name == name && j.deadline == t + 3600.0
    && j.phase == Queued && j.prepared.None? && j.offer.None?
  }

  lemma NameIs(given: Option<Json>, name: string)
    ensures ParseName(given) == Some(name) <==> Named(given, name)
  {
  }

  lemma KindIs(given: Option<Json>, kind: Kind)
    ensures ParseKind(given) == Some(kind) <==> OfKind(given, kind)
  {
    assert "registration"[0] != "assertion"[0];
  }

  /** A job is enqueued exactly when fewer than eight are unfinished and kind and name are good;
      it goes last, after the unfinished ones in their order, and lives for an hour. */
  lemma EnqueuedIff(cfg: Config, ops: seq<Op>, s: State, o: Op)
    requires Reached(cfg, ops, s) && Legal(s, o) && o.DoCli? && o.req.op == OpEnqueue
    ensures var kept := Unfinished(ExpireJobs(s.jobs, o.t1));
            var (s2, reply) := Apply(cfg, s, o);
            && (reply == Refused <==>
                  !(|kept| < 8 && exists kind, name :: OfKind(o.req.kind, kind) && Named(o.req.name, name)))
            && (reply == Refused ==> s2.jobs == kept)
            && (reply != Refused ==>
                  exists j, kind, name :: && OfKind(o.req.kind, kind) && Named(o.req.name, name)
                                          && Fresh(j, o.draw, kind, name, o.t2)
                                          && s2.jobs == kept + [j] && reply == JobReply(j.View()))
  {
    ReachedInv(cfg, ops, s);
    ExpireKeepsInv(cfg, s, o.t1, o.t2);
    GoesLast(cfg, Expire(s, o.t1, o.t2), o.t2, o.req, o.draw);
    var kind, name := ParseKind(o.req.kind), ParseName(o.req.name);
    if kind.Some? { KindIs(o.req.kind, kind.value); }
    if name.Some? { NameIs(o.req.name, name.value); }
    forall k, n | OfKind(o.req.kind, k) && Named(o.req.name, n) ensures kind.Some? && name.Some? {
      KindIs(o.req.kind, k);
      NameIs(o.req.name, n);
    }
  }

  lemma GoesLast(cfg: Config, e: State, t2: real, req: CliRequest, draw: string)
    requires Inv(cfg, e) && draw !in e.minted
    ensures var kept, kind, name := Unfinished(e.jobs), ParseKind(req.kind), ParseName(req.name);
            var (s2, reply) := Enqueue(e, t2, req, draw);
            if |kept| < 8 && kind.Some? && name.Some? then
              exists j :: Fresh(j, draw, kind.value, name.value, t2) && s2.jobs == kept + [j] && reply == JobReply(j.View())
            else s2.jobs == kept && reply == Refused
  {
    PruneKeepsInv(cfg, e);
    var kind, name := ParseKind(req.kind), ParseName(req.name);
    if |Unfinished(e.jobs)| < 8 && kind.Some? && name.Some? {
      var j := Job(draw, kind.value, name.value, t2 + JOB_SECONDS, Queued, None, None, [EvEnqueued]);
      AddKeepsInv(cfg, Prune(e), j);
      assert Fresh(j, draw, kind.value, name.value, t2);
    }
  }

  /** The job a request names. */
  predicate Meets(s: State, id: Option<string>, i: nat) {
    && i < |s.jobs| && id == Some(s.jobs[i].id)
    && forall k :: 0 <= k < i ==> s.jobs[k].id != s.jobs[i].id
  }

  lemma MeetsIsFind(s: State, t: real, id: Option<string>, i: nat)
    requires Meets(s, id, i)
    ensures |ExpireJobs(s.jobs, t)| == |s.jobs| && Find(ExpireJobs(s.jobs, t), id.value) == i
  {
    var e := ExpireJobs(s.jobs, t);
    forall k | 0 <= k < |s.jobs| ensures e[k].id == s.jobs[k].id { ExpiryMeans(s.jobs[k], t); }
    var n := Find(e, id.value);
    assert n <= i;
  }

  /** A root of this origin and relying party, and one of the three actions. */
  predicate GoodDocument(origin: string, doc: Json) {
    && doc.At("root", "origin") == Some(JString(origin))
    && doc.At("root", "rp_id") == Some(JString("mct.localhost"))
    && doc.Get("intent").Some?
    && (|| doc.Get("intent").value.At("action", "action") == Some(JString("bootstrap"))
        || doc.Get("intent").value.At("action", "action") == Some(JString("issue_day_key"))
        || doc.Get("intent").value.At("action", "action") == Some(JString("revoke_day_key")))
  }

  lemma DocumentIs(origin: string, doc: Json)
    ensures DocAcceptable(origin, doc) <==> GoodDocument(origin, doc)
  {
  }

  /** When a command on a job is carried out. */
  predicate Carried(cfg: Config, j: Job, req: CliRequest) {
    match req.op
    case OpStatus => true
    case OpCancel => !IsOver(j.phase)
    case OpPublish =>
      && j.kind == Assertion && j.phase == Ready && req.prepared.Some?
      && cfg.fits(req.prepared.value) && GoodDocument(cfg.origin, req.prepared.value)
      && cfg.fitsReply(j.(phase := Prepared, prepared := req.prepared).View())
    case OpTake => j.phase == Signed
    case _ => false
  }

  /** The job afterwards. */
  predicate Becomes(j: Job, j2: Job, req: CliRequest) {
    && j2.id == j.id && j2.kind == j.kind && j2.name == j.name && j2.deadline == j.deadline && j2.offer == j.offer
    && j2.phase == (match req.op case OpCancel => Failed case OpPublish => Prepared case OpTake => Taken case _ => j.phase)
    && j2.prepared == if req.op == OpPublish then req.prepared else j.prepared
  }

  /** A command on a job is carried out exactly when it may be, changes that job alone, and answers
      with the job, or with the place of its result when it is taken. */
  lemma CommandIff(cfg: Config, s: State, o: Op, i: nat)
    requires o.DoCli? && o.req.op != OpOpen && o.req.op != OpEnqueue && Meets(s, o.req.id, i)
    ensures var e := ExpireJobs(s.jobs, o.t1);
            var (s2, reply) := Apply(cfg, s, o);
            && |s2.jobs| == |e| && s2.files == s.files
            && (forall k :: 0 <= k < |e| && k != i ==> s2.jobs[k] == e[k])
            && (if Carried(cfg, e[i], o.req) then
                  && Becomes(e[i], s2.jobs[i], o.req)
                  && reply == (if o.req.op == OpTake then ResultPath(e[i].id) else JobReply(s2.jobs[i].View()))
                else s2.jobs[i] == e[i] && reply == Refused)
  {
    MeetsIsFind(s, o.t1, o.req.id, i);
    if o.req.prepared.Some? { DocumentIs(cfg.origin, o.req.prepared.value); }
  }

  /** A command that names no job of the queue is refused. */
  lemma UnknownJob(cfg: Config, s: State, o: Op)
    requires o.DoCli? && o.req.op != OpOpen && o.req.op != OpEnqueue
    requires forall k :: 0 <= k < |s.jobs| ==> o.req.id != Some(s.jobs[k].id)
    ensures Apply(cfg, s, o) == (Expire(s, o.t1, o.t2), Refused)
  {
    var e := ExpireJobs(s.jobs, o.t1);
    forall k | 0 <= k < |e| ensures e[k].id == s.jobs[k].id { ExpiryMeans(s.jobs[k], o.t1); }
  }

  // ---- page requests -------------------------------------------------------

  predicate IsOpen(p: Phase) { p == Queued || p == Ready || p == Prepared || p == Offered }

  /** The first job in insertion order that is neither signed nor over. */
  predicate FirstOpen(jobs: seq<Job>, a: nat) {
    a < |jobs| && IsOpen(jobs[a].phase) && forall k :: 0 <= k < a ==> !IsOpen(jobs[k].phase)
  }

  lemma FirstOpenIsActive(jobs: seq<Job>, a: nat)
    ensures FirstOpen(jobs, a) ==> Active(jobs) == a
    ensures (forall k :: 0 <= k < |jobs| ==> !IsOpen(jobs[k].phase)) ==> Active(jobs) == |jobs|
  {
    var n := Active(jobs);
    assert n < |jobs| ==> IsOpen(jobs[n].phase);
    if FirstOpen(jobs, a) { assert Live(jobs[a].phase); }
  }

  /** Whole milliseconds of what is left of the lease. */
  predicate Left(ms: int, deadline: real, t: real) {
    if deadline <= t then ms == 0 else ms as real <= (deadline - t) * 1000.0 < (ms + 1) as real
  }

  /** What `next` makes of a job that is not offered: an offer for half a minute if there is
      something to sign, and otherwise a claim. */
  predicate Advances(j: Job, j2: Job, page: string, draw: string, t: real) {
    && j2.id == j.id && j2.kind == j.kind && j2.name == j.name && j2.deadline == j.deadline && j2.prepared == j.prepared
    && (if j.kind == Registration || j.phase == Prepared
        then j2.phase == Offered && j2.offer == Some(Offer(draw, page, t + 30.0))
        else j2.phase == Ready && j2.offer == j.offer)
  }

  /** With no open job there is no work; an offered one is waited for; any other advances, alone. */
  lemma NextAnswers(cfg: Config, s: State, o: Op, a: nat)
    requires o.DoPage? && o.op == PgNext && s.session == Some((o.pcookie, o.ppage))
    ensures var e := ExpireJobs(s.jobs, o.t1);
            var (s2, reply) := Apply(cfg, s, o);
            && s2.files == s.files
            && ((forall k :: 0 <= k < |e| ==> !IsOpen(e[k].phase)) ==> reply == NoWork && s2.jobs == e)
            && (FirstOpen(e, a) && e[a].phase == Offered && e[a].offer.Some? ==>
                  reply.Waiting? && s2.jobs == e && Left(reply.milliseconds, e[a].offer.value.deadline, o.t2))
            && (FirstOpen(e, a) && e[a].phase != Offered ==>
                  && |s2.jobs| == |e| && (forall k :: 0 <= k < |e| && k != a ==> s2.jobs[k] == e[k])
                  && Advances(e[a], s2.jobs[a], o.ppage, o.draw, o.t2) && reply == JobReply(s2.jobs[a].View()))
  {
    FirstOpenIsActive(ExpireJobs(s.jobs, o.t1), a);
  }

  /** The current session's `next` is never refused. */
  lemma NextIsAnswered(cfg: Config, ops: seq<Op>, s: State, o: Op)
    requires s == After(cfg, Start, ops) && o.DoPage? && o.op == PgNext
    ensures Apply(cfg, s, o).1 != Refused <==> SessionInForce(ops) == Some((o.pcookie, o.ppage))
  {
    HoldsInForce(cfg, ops);
  }

  /** The job is offered to this page under the offer that the request names. */
  predicate Owns(jobs: seq<Job>, req: PageRequest, page: string, i: nat) {
    && i < |jobs| && req.id == Some(jobs[i].id)
    && (forall k :: 0 <= k < i ==> jobs[k].id != jobs[i].id)
    && jobs[i].phase == Offered && jobs[i].offer.Some?
    && jobs[i].offer.value.page == page
    && jobs[i].offer.value.id == (if req.offer.Some? then req.offer.value else "")
  }

  lemma OwnsIs(jobs: seq<Job>, req: PageRequest, page: string, i: nat)
    requires i < |jobs|
    ensures OwnedOffer(jobs, req, page) == i <==> Owns(jobs, req, page, i)
  {
    if Owns(jobs, req, page, i) {
      var n := Find(jobs, jobs[i].id);
      assert n <= i;
    }
  }

  /** A registration for this origin, or the published intent proved with the published credential. */
  predicate GoodResult(origin: string, j: Job, result: Json) {
    && result.JObject?
    && (if j.kind == Registration then
          && result.fields.Keys == {"rp_id", "origin", "credential_id", "public_key_sec1"}
          && result.fields["origin"] == JString(origin) && result.fields["rp_id"] == JString("mct.localhost")
        else
          && result.fields.Keys == {"intent", "proof"} && j.prepared.Some?
          && j.prepared.value.Get("intent") == Some(result.fields["intent"])
          && result.fields["proof"].Get("scheme") == Some(JString("webauthn-p256-day-key/v1"))
          && result.fields["proof"].Get("credential_id").Some?
          && result.fields["proof"].Get("credential_id") == j.prepared.value.At("root", "credential_id"))
  }

  lemma ResultIs(origin: string, j: Job, result: Json)
    ensures ResultAcceptable(origin, j.kind, j.prepared, result) <==> GoodResult(origin, j, result)
  {
  }

  /** Everything but phase and offer is as it was. */
  predicate Alike(j: Job, j2: Job) {
    j2.id == j.id && j2.kind == j.kind && j2.name == j.name && j2.deadline == j.deadline && j2.prepared == j.prepared
  }

  /** Whether a completion gets as far as its file. */
  predicate Offers(cfg: Config, j: Job, req: PageRequest, write: WriteOutcome) {
    req.result.Some? && cfg.fits(req.result.value) && GoodResult(cfg.origin, j, req.result.value) && write != DirectoryUntrusted
  }

  /** What each request does to the job it owns, to the files, and what it answers. */
  predicate Served(cfg: Config, o: Op, j: Job, j2: Job, files: map<string, File>, files2: map<string, File>, reply: Reply)
    requires o.DoPage?
  {
    match o.op
    case PgRelease =>
      && Alike(j, j2) && j2.offer.None? && j2.phase == (if j.kind == Registration then Queued else Prepared)
      && files2 == files && reply == JobReply(j2.View())
    case PgRenew =>
      && Alike(j, j2) && j2.phase == Offered && j.offer.Some?
      && j2.offer == Some(j.offer.value.(deadline := o.t2 + 30.0)) && files2 == files && reply == Leased
    case PgFail => Alike(j, j2) && j2.phase == Failed && files2 == files && reply == JobReply(j2.View())
    case PgComplete =>
      if !Offers(cfg, j, o.preq, o.write) then j2 == j && files2 == files && reply == Refused
      else if j.id in files || o.write == OsErrorBeforeCreate then
        Alike(j, j2) && j2.phase == Failed && files2 == files && reply == Refused
      else if o.write == OsErrorAfterCreate then
        Alike(j, j2) && j2.phase == Failed && files2 == files[j.id := Foreign] && reply == Refused
      else
        && Alike(j, j2) && j2.phase == Signed && files2 == files[j.id := Whole(o.preq.result.value)]
        && reply == JobReply(j2.View())
    case _ => j2 == j && files2 == files && reply == Refused
  }

  /** A request by its owner, in the session in force or for a release, is served and touches no other job. */
  lemma OwnerIsServed(cfg: Config, ops: seq<Op>, s: State, o: Op, i: nat)
    requires Reached(cfg, ops, s) && o.DoPage? && o.op != PgNext
    requires o.op == PgRelease || SessionInForce(ops) == Some((o.pcookie, o.ppage))
    requires Owns(ExpireJobs(s.jobs, o.t1), o.preq, o.ppage, i)
    ensures var e := ExpireJobs(s.jobs, o.t1);
            var (s2, reply) := Apply(cfg, s, o);
            && |s2.jobs| == |e| && (forall k :: 0 <= k < |e| && k != i ==> s2.jobs[k] == e[k])
            && Served(cfg, o, e[i], s2.jobs[i], s.files, s2.files, reply)
  {
    ReachedInv(cfg, ops, s);
    HoldsInForce(cfg, ops);
    var e := Expire(s, o.t1, o.t2);
    ExpireKeepsInv(cfg, s, o.t1, o.t2);
    OwnsIs(e.jobs, o.preq, o.ppage, i);
    OfferedIsActive(e.jobs, i);
    if o.op != PgRelease { OfferServes(cfg, e, o, i); }
  }

  lemma OfferServes(cfg: Config, e: State, o: Op, i: nat)
    requires o.DoPage? && o.op != PgNext && o.op != PgRelease
    requires i < |e.jobs| && e.jobs[i].phase == Offered && e.jobs[i].offer.Some?
    ensures var (s2, reply) := OnOffer(cfg, e, i, o.op, o.preq, o.t2, o.write);
            && |s2.jobs| == |e.jobs| && (forall k :: 0 <= k < |e.jobs| && k != i ==> s2.jobs[k] == e.jobs[k])
            && Served(cfg, o, e.jobs[i], s2.jobs[i], e.files, s2.files, reply)
  {
    if o.preq.result.Some? { ResultIs(cfg.origin, e.jobs[i], o.preq.result.value); }
  }

  /** A request that owns no offer is refused. */
  lemma StrangerIsRefused(cfg: Config, s: State, o: Op)
    requires o.DoPage? && o.op != PgNext
    requires forall i :: 0 <= i < |s.jobs| ==> !Owns(ExpireJobs(s.jobs, o.t1), o.preq, o.ppage, i)
    ensures Apply(cfg, s, o) == (Expire(s, o.t1, o.t2), Refused)
  {
    var e := ExpireJobs(s.jobs, o.t1);
    var n := OwnedOffer(e, o.preq, o.ppage);
    if n < |e| { OwnsIs(e, o.preq, o.ppage, n); }
  }

  // ---- files ---------------------------------------------------------------

  predicate FilesKept(s: State, s2: State) { forall f :: f in s.files ==> f in s2.files && s2.files[f] == s.files[f] }

  /** No file of the session directory is ever written over. */
  lemma {:induction false} FilesNeverChange(cfg: Config, s: State, ops: seq<Op>)
    ensures FilesKept(s, After(cfg, s, ops))
    decreases |ops|
  {
    if ops != [] {
      StepKeepsFiles(cfg, s, ops[0]);
      FilesNeverChange(cfg, Apply(cfg, s, ops[0]).0, ops[1..]);
    }
  }

  lemma StepKeepsFiles(cfg: Config, s: State, o: Op)
    ensures FilesKept(s, Apply(cfg, s, o).0)
  {
  }
}
