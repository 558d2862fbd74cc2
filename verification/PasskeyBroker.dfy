/**
 The broker object of scripts/passkey_queue.py: job objects updated in place behind
 one lock. The ghost field `model` is the protocol state the object stands for, and
 every method is proved to move it exactly as `PasskeyProtocol` says.
 */
module PasskeyBroker {
  import opened Wrappers
  import opened PasskeyProtocol

  class JobCell {
    const id: string
    const kind: Kind
    const name: string
    const deadline: real
    var phase: Phase
    var prepared: Option<Json>
    var offer: Option<Offer>

    ghost predicate Shows(j: Job)
      reads this
    {
      && id == j.id && kind == j.kind && name == j.name && deadline == j.deadline
      && phase == j.phase && prepared == j.prepared && offer == j.offer
    }

    constructor (id: string, kind: Kind, name: string, deadline: real)
      ensures Shows(Job(id, kind, name, deadline, Queued, None, None, [EvEnqueued]))
    {
      this.id, this.kind, this.name, this.deadline := id, kind, name, deadline;
      phase, prepared, offer := Queued, None, None;
    }

    method View(ghost j: Job) returns (v: JobView)
      requires Shows(j)
      ensures v == j.View()
    {
      v := JobView(id, kind, name, phase, prepared, if offer.Some? then Some(offer.value.id) else None);
    }

    /** `publish` on a claimed assertion: the document is taken if it is acceptable and short enough. */
    method Publish(cfg: Config, prepared: Option<Json>, ghost j: Job) returns (ok: bool)
      requires Shows(j)
      modifies this
      ensures var p := j.(prepared := prepared, phase := Prepared);
              && ok == (prepared.Some? && cfg.fits(prepared.value) && DocAcceptable(cfg.origin, prepared.value)
                        && cfg.fitsReply(p.View()))
              && Shows(if ok then p else j)
    {
      if prepared.None? || !cfg.fits(prepared.value) || !DocAcceptable(cfg.origin, prepared.value) {
        return false;
      }
      var v := View(j);
      if !cfg.fitsReply(v.(prepared := prepared, phase := Prepared)) {
        return false;
      }
      this.prepared := prepared;
      phase := Prepared;
      return true;
    }

    /** `status`, `cancel`, `publish` and `take`; none is a refusal. */
    method Command(cfg: Config, req: CliRequest, ghost j: Job) returns (reply: Option<Reply>)
      requires Shows(j)
      modifies this
      ensures var r := CliOnJob(cfg, j, req);
              && reply == (if r.Some? then Some(r.value.1) else None)
              && Shows(if r.Some? then r.value.0 else j)
    {
      if req.op == OpStatus {
        var v := View(j);
        return Some(JobReply(v));
      }
      if req.op == OpCancel && phase != Taken && phase != Failed {
        phase := Failed;
      } else if req.op == OpPublish && kind == Assertion && phase == Ready {
        var published := Publish(cfg, req.prepared, j);
        if !published {
          return None;
        }
      } else if req.op == OpTake && phase == Signed {
        phase := Taken;
        return Some(ResultPath(id));
      } else {
        return None;
      }
      var v := View(CliOnJob(cfg, j, req).value.0);
      return Some(JobReply(v));
    }

    method Release(ghost j: Job, ghost e: JobEvent)
      requires Shows(j)
      modifies this
      ensures Shows(j.Release(e))
    {
      offer := None;
      phase := if kind == Registration then Queued else Prepared;
    }
  }

  ghost predicate AllDistinct(cells: seq<JobCell>) {
    forall i, j :: 0 <= i < j < |cells| ==> cells[i] != cells[j]
  }

  lemma Regroup(a: seq<Job>, b: seq<Job>, c: seq<Job>)
    ensures a + (b + c) == (a + b) + c
  {
  }

  /** One more job of the list is looked at. */
  lemma {:induction false} UnfinishedStep(init: seq<Job>, last: Job)
    ensures Unfinished(init + [last]) == if Done(last.phase) then Unfinished(init) else Unfinished(init) + [last]
  {
    var js := init + [last];
    if init == [] {
      assert js == [last];
      assert js[1..] == [];
    } else {
      UnfinishedStep(init[1..], last);
      assert js[0] == init[0] && js[1..] == init[1..] + [last];
      Regroup(if Done(init[0].phase) then [] else [init[0]], Unfinished(init[1..]), [last]);
    }
  }

  /** The positions in `at` go up, and pick out the cells kept and the jobs they show. */
  ghost predicate Picked(cells: seq<JobCell>, js: seq<Job>, kept: seq<JobCell>, shown: seq<Job>, at: seq<nat>, n: nat) {
    && |cells| == |js| && |kept| == |shown| == |at| && n <= |cells|
    && (forall k :: 0 <= k < |at| ==> at[k] < n && kept[k] == cells[at[k]] && shown[k] == js[at[k]])
    && (forall k, m :: 0 <= k < m < |at| ==> at[k] < at[m])
  }

  lemma PickedMore(cells: seq<JobCell>, js: seq<Job>, kept: seq<JobCell>, shown: seq<Job>, at: seq<nat>, n: nat)
    requires Picked(cells, js, kept, shown, at, n) && n < |cells|
    ensures Picked(cells, js, kept + [cells[n]], shown + [js[n]], at + [n], n + 1)
    ensures Picked(cells, js, kept, shown, at, n + 1)
  {
    var at2 := at + [n];
    forall k, m | 0 <= k < m < |at2| ensures at2[k] < at2[m] {
      if m < |at| { assert at2[k] == at[k] && at2[m] == at[m]; }
    }
  }

  ghost predicate AllShow(cells: seq<JobCell>, js: seq<Job>)
    reads set c | c in cells
  {
    |cells| == |js| && forall k :: 0 <= k < |cells| ==> cells[k].Shows(js[k])
  }

  lemma PickedDistinct(cells: seq<JobCell>, js: seq<Job>, kept: seq<JobCell>, shown: seq<Job>, at: seq<nat>, n: nat)
    requires Picked(cells, js, kept, shown, at, n) && AllDistinct(cells) && AllShow(cells, js)
    ensures AllDistinct(kept) && AllShow(kept, shown) && forall k :: 0 <= k < |kept| ==> kept[k] in cells
  {
    forall i, j | 0 <= i < j < |kept| ensures kept[i] != kept[j] {
      assert at[i] < at[j];
    }
  }

  /** The cells of the unfinished jobs, in order. */
  method KeepUnfinished(cells: seq<JobCell>, ghost js: seq<Job>) returns (kept: seq<JobCell>)
    requires AllDistinct(cells) && AllShow(cells, js)
    ensures AllDistinct(kept) && AllShow(kept, Unfinished(js))
    ensures forall k :: 0 <= k < |kept| ==> kept[k] in cells
  {
    kept := [];
    ghost var at: seq<nat>, shown: seq<Job> := [], [];
    var i := 0;
    while i < |cells|
      invariant Picked(cells, js, kept, shown, at, i)
      invariant shown == Unfinished(js[..i])
    {
      UnfinishedStep(js[..i], js[i]);
      assert js[..i + 1] == js[..i] + [js[i]];
      PickedMore(cells, js, kept, shown, at, i);
      assert cells[i].Shows(js[i]);
      if cells[i].phase != Taken && cells[i].phase != Failed {
        kept, shown, at := kept + [cells[i]], shown + [js[i]], at + [i];
      }
      i := i + 1;
    }
    assert js[..i] == js;
    PickedDistinct(cells, js, kept, shown, at, i);
  }

  class Broker {
    const cfg: Config
    var jobs: seq<JobCell>
    var pageToken: Option<string>
    var tokenDeadline: real
    var cookie: Option<string>
    var pageId: Option<string>
    var files: map<string, File>
    ghost var model: State

    ghost predicate JobsShown()
      reads this, jobs
    {
      |jobs| == |model.jobs| && forall k :: 0 <= k < |jobs| ==> jobs[k].Shows(model.jobs[k])
    }

    ghost predicate Valid()
      reads this, jobs
    {
      && AllDistinct(jobs)
      && JobsShown()
      && pageToken == model.pageToken
      && tokenDeadline == model.tokenDeadline
      && cookie.Some? == pageId.Some?
      && model.session == (if cookie.Some? && pageId.Some? then Some((cookie.value, pageId.value)) else None)
      && files == model.files
    }

    constructor (cfg: Config)
      ensures Valid() && this.cfg == cfg && model == Start
    {
      this.cfg := cfg;
      jobs, pageToken, tokenDeadline, cookie, pageId := [], None, 0.0, None, None;
      files := map[];
      model := Start;
    }

    method Expire(t1: real, t2: real)
      requires Valid()
      modifies `model, jobs
      ensures Valid() && model == PasskeyProtocol.Expire(old(model), t1, t2)
    {
      ghost var before := model.jobs;
      var i := 0;
      while i < |jobs|
        invariant 0 <= i <= |jobs| && model == old(model)
        invariant forall k :: 0 <= k < i ==> jobs[k].Shows(ExpireJob(before[k], t1))
        invariant forall k :: i <= k < |jobs| ==> jobs[k].Shows(before[k])
      {
        var job := jobs[i];
        if t1 >= job.deadline && job.phase != Taken && job.phase != Failed {
          job.phase := Failed;
        } else if job.phase == Offered && job.offer.Some? && t1 >= job.offer.value.deadline {
          job.Release(before[i], EvLapsed);
        }
        i := i + 1;
      }
      model := PasskeyProtocol.Expire(model, t1, t2);
    }

    method FindJob(id: string) returns (i: nat)
      requires JobsShown()
      ensures i == Find(model.jobs, id)
    {
      i := 0;
      while i < |jobs| && jobs[i].id != id
        invariant i <= |jobs|
        invariant forall k :: 0 <= k < i ==> model.jobs[k].id != id
      {
        i := i + 1;
      }
    }

    method FindActive() returns (i: nat)
      requires JobsShown()
      ensures i == Active(model.jobs)
    {
      i := 0;
      while i < |jobs| && !Live(jobs[i].phase)
        invariant i <= |jobs|
        invariant forall k :: 0 <= k < i ==> !Live(model.jobs[k].phase)
      {
        i := i + 1;
      }
    }

    method Prune()
      requires Valid()
      modifies `jobs, `model
      ensures Valid() && model == PasskeyProtocol.Prune(old(model))
      ensures forall c :: c in jobs ==> c in old(jobs)
    {
      jobs := KeepUnfinished(jobs, model.jobs);
      model := PasskeyProtocol.Prune(model);
    }

    method Add(id: string, kind: Kind, name: string, deadline: real) returns (v: JobView)
      requires Valid()
      modifies `jobs, `model
      ensures Valid()
      ensures var j := Job(id, kind, name, deadline, Queued, None, None, [EvEnqueued]);
              && model == old(model).(jobs := Put(old(model).jobs, j), minted := old(model).minted + {id})
              && v == j.View()
    {
      ghost var j := Job(id, kind, name, deadline, Queued, None, None, [EvEnqueued]);
      var cell := new JobCell(id, kind, name, deadline);
      v := cell.View(j);
      var i := FindJob(id);
      if i < |jobs| {
        jobs := jobs[i := cell];
      } else {
        jobs := jobs + [cell];
      }
      model := model.(jobs := Put(model.jobs, j), minted := model.minted + {id});
    }

    method Enqueue(t2: real, req: CliRequest, draw: string) returns (reply: Reply)
      requires Valid()
      modifies `jobs, `model
      ensures Valid()
      ensures (model, reply) == PasskeyProtocol.Enqueue(old(model), t2, req, draw)
    {
      Prune();
      var kind, name := ParseKind(req.kind), ParseName(req.name);
      if |jobs| >= CAPACITY || kind.None? || name.None? {
        return Refused;
      }
      var v := Add(draw, kind.value, name.value, t2 + JOB_SECONDS);
      reply := JobReply(v);
    }

    /** The commands that name a job. */
    method CommandOnJob(i: nat, req: CliRequest) returns (reply: Reply)
      requires Valid() && i < |jobs|
      modifies `model, jobs[i]
      ensures Valid()
      ensures match CliOnJob(cfg, old(model).jobs[i], req)
              case None => reply == Refused && model == old(model)
              case Some(r) => reply == r.1 && model == old(model).(jobs := old(model).jobs[i := r.0])
    {
      var job := jobs[i];
      ghost var j := model.jobs[i];
      ghost var r := CliOnJob(cfg, j, req);
      var answer := job.Command(cfg, req, j);
      if answer.None? {
        return Refused;
      }
      model := model.(jobs := model.jobs[i := r.value.0]);
      reply := answer.value;
    }

    method Cli(t1: real, t2: real, req: CliRequest, draw: string) returns (reply: Reply)
      requires Valid()
      modifies this, jobs
      ensures Valid()
      ensures (model, reply) == PasskeyProtocol.Cli(cfg, old(model), t1, t2, req, draw)
    {
      Expire(t1, t2);
      if req.op == OpOpen {
        pageToken := Some(draw);
        tokenDeadline := t2 + TOKEN_SECONDS;
        model := model.(pageToken := pageToken, tokenDeadline := tokenDeadline, minted := model.minted + {draw});
        return Url(cfg.origin + "/#" + draw);
      }
      if req.op == OpEnqueue {
        reply := Enqueue(t2, req, draw);
        return;
      }
      if req.id.None? {
        return Refused;
      }
      var i := FindJob(req.id.value);
      if i == |jobs| {
        return Refused;
      }
      reply := CommandOnJob(i, req);
    }

    method Authenticate(t: real, token: Option<string>, newCookie: string, newPage: string) returns (reply: Reply)
      requires Valid()
      modifies this
      ensures Valid()
      ensures (model, reply) == PasskeyProtocol.Authenticate(old(model), t, token, newCookie, newPage)
    {
      if token.None? || pageToken.None? || t >= tokenDeadline || token != pageToken {
        model := model.(clock := t);
        return Refused;
      }
      pageToken := None;
      cookie := Some(newCookie);
      pageId := Some(newPage);
      model := PasskeyProtocol.Authenticate(model, t, token, newCookie, newPage).0;
      reply := SessionReply(newCookie, newPage);
    }

    method OwnedOffer(req: PageRequest, page: string) returns (i: nat)
      requires JobsShown()
      ensures i == PasskeyProtocol.OwnedOffer(model.jobs, req, page)
    {
      if req.id.None? {
        return |jobs|;
      }
      i := FindJob(req.id.value);
      if i < |jobs| {
        var job := jobs[i];
        if job.phase != Offered || job.offer.None? || page != job.offer.value.page
           || (if req.offer.Some? then req.offer.value else "") != job.offer.value.id
        {
          return |jobs|;
        }
      }
    }

    /** `next`: claim the active job, and offer it where there is something to sign. */
    method NextWork(page: string, draw: string, t2: real) returns (reply: Reply)
      requires Valid()
      modifies `model, jobs
      ensures Valid()
      ensures (model, reply) == NextOp(old(model), page, draw, t2)
    {
      var a := FindActive();
      if a == |jobs| {
        return NoWork;
      }
      var active := jobs[a];
      if active.phase == Offered {
        return Waiting(if active.offer.Some? then Milliseconds(active.offer.value.deadline - t2) else 0);
      }
      ghost var next := NextOp(model, page, draw, t2).0;
      if active.phase == Queued {
        active.phase := Ready;
      }
      if active.kind == Registration || active.phase == Prepared {
        active.phase := Offered;
        active.offer := Some(Offer(draw, page, t2 + OFFER_LEASE_SECONDS));
      }
      var v := active.View(next.jobs[a]);
      model := next;
      reply := JobReply(v);
    }

    /** `complete`: check the result, create its file exclusively, then sign off the job. */
    method CompleteJob(i: nat, req: PageRequest, write: WriteOutcome) returns (reply: Reply)
      requires Valid() && i < |jobs| && jobs[i].offer.Some?
      modifies `files, `model, jobs[i]
      ensures Valid()
      ensures (model, reply) == Complete(cfg, old(model), i, req, write)
    {
      var job := jobs[i];
      ghost var next := Complete(cfg, model, i, req, write).0;
      if req.result.None? || !cfg.fits(req.result.value)
         || !ResultAcceptable(cfg.origin, job.kind, job.prepared, req.result.value)
      {
        return Refused;
      }
      if write == DirectoryUntrusted {
        return Refused;
      }
      if job.id in files || write != Written {
        if job.id !in files && write == OsErrorAfterCreate {
          files := files[job.id := Foreign];
        }
        job.phase := Failed;
        model := next;
        return Refused;
      }
      files := files[job.id := Whole(req.result.value)];
      job.phase := Signed;
      model := next;
      var v := job.View(next.jobs[i]);
      reply := JobReply(v);
    }

    method OnOwnedOffer(i: nat, op: PageOp, req: PageRequest, t2: real, write: WriteOutcome) returns (reply: Reply)
      requires Valid() && i < |jobs| && jobs[i].offer.Some?
      modifies `files, `model, jobs[i]
      ensures Valid()
      ensures (model, reply) == OnOffer(cfg, old(model), i, op, req, t2, write)
    {
      var job := jobs[i];
      if op == PgRenew {
        ghost var next := OnOffer(cfg, model, i, op, req, t2, write).0;
        job.offer := Some(job.offer.value.(deadline := t2 + OFFER_LEASE_SECONDS));
        model := next;
        return Leased;
      }
      if op == PgFail {
        ghost var next := OnOffer(cfg, model, i, op, req, t2, write).0;
        job.phase := Failed;
        model := next;
        var v := job.View(next.jobs[i]);
        return JobReply(v);
      }
      if op != PgComplete {
        return Refused;
      }
      reply := CompleteJob(i, req, write);
    }

    /** `release`, which a superseded page may still ask for. */
    method ReleaseOffer(req: PageRequest, page: string) returns (reply: Reply)
      requires Valid()
      modifies `model, jobs
      ensures Valid()
      ensures var i := PasskeyProtocol.OwnedOffer(old(model).jobs, req, page);
              if i == |old(model).jobs| then model == old(model) && reply == Refused
              else var r := old(model).jobs[i].Release(EvReleased);
                   model == old(model).(jobs := old(model).jobs[i := r]) && reply == JobReply(r.View())
    {
      var i := OwnedOffer(req, page);
      if i == |jobs| {
        return Refused;
      }
      var job := jobs[i];
      ghost var r := model.jobs[i].Release(EvReleased);
      job.Release(model.jobs[i], EvReleased);
      model := model.(jobs := model.jobs[i := r]);
      var v := job.View(r);
      reply := JobReply(v);
    }

    /** The requests that must name the active job's current offer. */
    method OwnedOfferRequest(op: PageOp, req: PageRequest, page: string, t2: real, write: WriteOutcome)
      returns (reply: Reply)
      requires Valid()
      modifies `files, `model, jobs
      ensures Valid()
      ensures var i := PasskeyProtocol.OwnedOffer(old(model).jobs, req, page);
              if i == |old(model).jobs| then model == old(model) && reply == Refused
              else if i != Active(old(model).jobs) then model == old(model) && reply == NotActive
              else (model, reply) == OnOffer(cfg, old(model), i, op, req, t2, write)
    {
      var active := FindActive();
      var i := OwnedOffer(req, page);
      if i == |jobs| {
        return Refused;
      }
      if i != active {
        return NotActive;
      }
      reply := OnOwnedOffer(i, op, req, t2, write);
    }

    method Page(t1: real, t2: real, op: PageOp, req: PageRequest, pcookie: string, ppage: string,
                draw: string, write: WriteOutcome) returns (reply: Reply)
      requires Valid()
      modifies this, jobs
      ensures Valid()
      ensures (model, reply) == PasskeyProtocol.Page(cfg, old(model), t1, t2, op, req, pcookie, ppage, draw, write)
    {
      Expire(t1, t2);
      if op == PgRelease {
        reply := ReleaseOffer(req, ppage);
        return;
      }
      if cookie.None? || pcookie != cookie.value || ppage != pageId.value {
        return Refused;
      }
      if op == PgNext {
        reply := NextWork(ppage, draw, t2);
        return;
      }
      reply := OwnedOfferRequest(op, req, ppage, t2, write);
    }
  }
}
