/**
 The passkey approval queue of scripts/passkey_queue.py as a function from states
 and operations to states.

 Every operation takes the broker lock, so a run is a sequence of operations. An
 operation reads the monotonic clock up to twice: `t1` is the reading made by
 `expire`, `t2` the later reading used for new deadlines. Random tokens and the
 outcome of the result-file write are inputs.

 History is added to the source's state: each job carries the `trail` of what
 happened to it, jobs pruned by `enqueue` are kept in `retired`, and `sessions`,
 `minted` and `clock` hold the authentications, the tokens drawn and the latest
 clock reading. No operation reads any of it.
 */
module PasskeyProtocol {
  import opened Wrappers

  const OFFER_LEASE_SECONDS := 30.0
  const JOB_SECONDS := 3600.0
  const TOKEN_SECONDS := 120.0
  const CAPACITY: nat := 8

  const RP_ID := "mct.localhost"
  const PROOF_SCHEME := "webauthn-p256-day-key/v1"

  /** A decoded JSON value. A number is named by its canonical spelling, so that
      two values are equal exactly when `encoded` gives the same bytes for both. */
  datatype Json =
    | JNull
    | JBool(b: bool)
    | JNumber(spelling: string)
    | JString(s: string)
    | JArray(items: seq<Json>)
    | JObject(fields: map<string, Json>)
  {
    /** Python's `value[key]`; None stands for the KeyError or TypeError. */
    function Get(key: string): Option<Json> {
      if JObject? && key in fields then Some(fields[key]) else None
    }

    function At(key: string, inner: string): Option<Json> {
      match Get(key)
      case None => None
      case Some(v) => v.Get(inner)
    }
  }

  datatype Phase = Queued | Ready | Prepared | Offered | Signed | Taken | Failed

  datatype Kind = Registration | Assertion

  datatype Offer = Offer(id: string, page: string, deadline: real)

  datatype FailureCause = Cancelled | DeadlinePassed | PageReported | WriteFailed

  /** What happened to one job, in order. */
  datatype JobEvent =
    | EvEnqueued
    | EvClaimed(page: string)
    | EvPublished(doc: Json)
    | EvOffered(offer: Offer)
    | EvRenewed(until: real)
    | EvReleased
    | EvLapsed
    | EvCompleted(offerId: string, result: Json)
    | EvTaken
    | EvFailed(cause: FailureCause)

  datatype Job = Job(
    id: string,
    kind: Kind,
    name: string,
    deadline: real,
    phase: Phase,
    prepared: Option<Json>,
    offer: Option<Offer>,
    trail: seq<JobEvent>
  ) {
    function Note(e: JobEvent): Job { this.(trail := trail + [e]) }

    function Fail(cause: FailureCause): Job { this.(phase := Failed).Note(EvFailed(cause)) }

    function Release(e: JobEvent): Job {
      this.(offer := None, phase := if kind == Registration then Queued else Prepared).Note(e)
    }

    function View(): JobView {
      JobView(id, kind, name, phase, prepared, if offer.Some? then Some(offer.value.id) else None)
    }
  }

  datatype JobView = JobView(
    id: string, kind: Kind, name: string, phase: Phase,
    prepared: Option<Json>, offer: Option<string>)

  /** A file named after a job: a complete result, or what a failed or foreign
      writer left there. */
  datatype File = Whole(result: Json) | Foreign

  /** How `write_new` ends, as far as the file system decides it. */
  datatype WriteOutcome = Written | OsErrorBeforeCreate | OsErrorAfterCreate | DirectoryUntrusted

  datatype Session = Session(token: string, cookie: string, page: string)

  datatype State = State(
    jobs: seq<Job>,               // in insertion order
    retired: seq<Job>,            // history: jobs pruned from `jobs`
    pageToken: Option<string>,
    tokenDeadline: real,
    session: Option<(string, string)>,   // cookie and page_id, set together
    sessions: seq<Session>,       // history: every successful authentication
    files: map<string, File>,
    minted: set<string>,          // history: every random token drawn
    clock: real                   // history: the latest clock reading
  )

  /** The 96 KiB message limit is a predicate on values; the origin is fixed at start. */
  datatype Config = Config(origin: string, fits: Json -> bool, fitsReply: JobView -> bool)

  datatype Reply =
    | Refused
    | NotActive
    | Url(url: string)
    | JobReply(view: JobView)
    | ResultPath(jobId: string)
    | SessionReply(cookie: string, page: string)
    | NoWork
    | Waiting(milliseconds: int)
    | Leased

  const Start := State([], [], None, 0.0, None, [], map[], {}, 0.0)

  predicate Live(p: Phase) { p in {Queued, Ready, Prepared, Offered} }

  predicate Done(p: Phase) { p in {Taken, Failed} }

  // ---- queue lookups -------------------------------------------------------

  function FindFrom(jobs: seq<Job>, id: string, i: nat): (n: nat)
    requires i <= |jobs|
    ensures i <= n <= |jobs|
    ensures forall k :: i <= k < n ==> jobs[k].id != id
    ensures n < |jobs| ==> jobs[n].id == id
    decreases |jobs| - i
  {
    if i == |jobs| || jobs[i].id == id then i else FindFrom(jobs, id, i + 1)
  }

  /** Index of the job with this id, or |jobs| where the source raises KeyError. */
  function Find(jobs: seq<Job>, id: string): (n: nat)
    ensures n <= |jobs|
    ensures forall k :: 0 <= k < n ==> jobs[k].id != id
    ensures n < |jobs| ==> jobs[n].id == id
  {
    FindFrom(jobs, id, 0)
  }

  function ActiveFrom(jobs: seq<Job>, i: nat): (n: nat)
    requires i <= |jobs|
    ensures i <= n <= |jobs|
    ensures forall k :: i <= k < n ==> !Live(jobs[k].phase)
    ensures n < |jobs| ==> Live(jobs[n].phase)
    decreases |jobs| - i
  {
    if i == |jobs| || Live(jobs[i].phase) then i else ActiveFrom(jobs, i + 1)
  }

  /** Index of the active operation, the first live job in insertion order, or |jobs|. */
  function Active(jobs: seq<Job>): (n: nat)
    ensures n <= |jobs|
    ensures forall k :: 0 <= k < n ==> !Live(jobs[k].phase)
    ensures n < |jobs| ==> Live(jobs[n].phase)
  {
    ActiveFrom(jobs, 0)
  }

  // ---- expire --------------------------------------------------------------

  function ExpireJob(j: Job, t: real): Job {
    if t >= j.deadline && !Done(j.phase) then
      j.Fail(DeadlinePassed)
    else if j.phase == Offered && j.offer.Some? && t >= j.offer.value.deadline then
      j.Release(EvLapsed)
    else
      j
  }

  function ExpireJobs(jobs: seq<Job>, t: real): seq<Job> {
    seq(|jobs|, i requires 0 <= i < |jobs| => ExpireJob(jobs[i], t))
  }

  /** The start of every command and page request. */
  function Expire(s: State, t1: real, t2: real): State {
    s.(jobs := ExpireJobs(s.jobs, t1), clock := t2)
  }

  // ---- command line --------------------------------------------------------

  datatype CliOp = OpOpen | OpEnqueue | OpStatus | OpCancel | OpPublish | OpTake | OpUnknown

  /** A decoded request; an absent field is None. */
  datatype CliRequest = CliRequest(
    op: CliOp, id: Option<string>, kind: Option<Json>, name: Option<Json>, prepared: Option<Json>)

  function ParseKind(kind: Option<Json>): Option<Kind> {
    if kind == Some(JString("registration")) then Some(Registration)
    else if kind == Some(JString("assertion")) then Some(Assertion)
    else None
  }

  function ParseName(name: Option<Json>): Option<string> {
    match name
    case None => Some("Doug")
    case Some(JString(s)) => if 1 <= |s| <= 64 then Some(s) else None
    case Some(_) => None
  }

  /** The jobs a new enqueue keeps: `keep` selects the unfinished ones. */
  function Unfinished(jobs: seq<Job>): seq<Job> {
    if jobs == [] then []
    else (if Done(jobs[0].phase) then [] else [jobs[0]]) + Unfinished(jobs[1..])
  }

  function Finished(jobs: seq<Job>): seq<Job> {
    if jobs == [] then []
    else (if Done(jobs[0].phase) then [jobs[0]] else []) + Finished(jobs[1..])
  }

  /** Assignment to a dict: an existing key keeps its position. */
  function Put(jobs: seq<Job>, j: Job): seq<Job> {
    var i := Find(jobs, j.id);
    if i < |jobs| then jobs[i := j] else jobs + [j]
  }

  function Prune(s: State): State {
    s.(jobs := Unfinished(s.jobs), retired := s.retired + Finished(s.jobs))
  }

  function Enqueue(s: State, t2: real, req: CliRequest, draw: string): (State, Reply) {
    var p := Prune(s);
    var kind := ParseKind(req.kind);
    var name := ParseName(req.name);
    if |p.jobs| >= CAPACITY || kind.None? || name.None? then
      (p, Refused)
    else
      var j := Job(draw, kind.value, name.value, t2 + JOB_SECONDS, Queued, None, None, [EvEnqueued]);
      (p.(jobs := Put(p.jobs, j), minted := p.minted + {draw}), JobReply(j.View()))
  }

  const ACTIONS := {JString("bootstrap"), JString("issue_day_key"), JString("revoke_day_key")}

  /** The root and action checks of `publish`. */
  predicate DocAcceptable(origin: string, doc: Json) {
    && doc.At("root", "origin") == Some(JString(origin))
    && doc.At("root", "rp_id") == Some(JString(RP_ID))
    && doc.Get("intent").Some?
    && doc.Get("intent").value.At("action", "action").Some?
    && doc.Get("intent").value.At("action", "action").value in ACTIONS
  }

  /** The effect of a command on the job it names, or None where it is refused. */
  function CliOnJob(cfg: Config, j: Job, req: CliRequest): Option<(Job, Reply)> {
    match req.op
    case OpStatus => Some((j, JobReply(j.View())))
    case OpCancel =>
      if Done(j.phase) then None
      else var f := j.Fail(Cancelled); Some((f, JobReply(f.View())))
    case OpPublish =>
      if j.kind != Assertion || j.phase != Ready || req.prepared.None? then None
      else
        var doc := req.prepared.value;
        var p := j.(prepared := Some(doc), phase := Prepared).Note(EvPublished(doc));
        if cfg.fits(doc) && DocAcceptable(cfg.origin, doc) && cfg.fitsReply(p.View())
        then Some((p, JobReply(p.View())))
        else None
    case OpTake =>
      if j.phase != Signed then None
      else Some((j.(phase := Taken).Note(EvTaken), ResultPath(j.id)))
    case _ => None
  }

  function Command(cfg: Config, s: State, t2: real, req: CliRequest, draw: string): (State, Reply) {
    match req.op
    case OpOpen =>
      (s.(pageToken := Some(draw), tokenDeadline := t2 + TOKEN_SECONDS, minted := s.minted + {draw}),
       Url(cfg.origin + "/#" + draw))
    case OpEnqueue => Enqueue(s, t2, req, draw)
    case _ =>
      if req.id.None? then (s, Refused)
      else
        var i := Find(s.jobs, req.id.value);
        if i == |s.jobs| then (s, Refused)
        else
          match CliOnJob(cfg, s.jobs[i], req)
          case None => (s, Refused)
          case Some(r) => (s.(jobs := s.jobs[i := r.0]), r.1)
  }

  function Cli(cfg: Config, s: State, t1: real, t2: real, req: CliRequest, draw: string): (State, Reply) {
    Command(cfg, Expire(s, t1, t2), t2, req, draw)
  }

  // ---- page authentication -------------------------------------------------

  /** `token` is None when the request's token is not a string. */
  function Authenticate(s0: State, t: real, token: Option<string>, cookie: string, page: string): (State, Reply) {
    var s := s0.(clock := t);
    if token.None? || s.pageToken.None? || t >= s.tokenDeadline || token != s.pageToken then
      (s, Refused)
    else
      (s.(pageToken := None,
          session := Some((cookie, page)),
          sessions := s.sessions + [Session(token.value, cookie, page)],
          minted := s.minted + {cookie, page}),
       SessionReply(cookie, page))
  }

  // ---- browser page --------------------------------------------------------

  datatype PageOp = PgNext | PgRenew | PgFail | PgComplete | PgRelease | PgUnknown

  datatype PageRequest = PageRequest(id: Option<string>, offer: Option<string>, result: Option<Json>)

  /** The job whose current offer the request names, or |jobs| where it is refused. */
  function OwnedOffer(jobs: seq<Job>, req: PageRequest, page: string): (n: nat)
    ensures n <= |jobs|
    ensures n < |jobs| ==>
              && req.id == Some(jobs[n].id)
              && n == Find(jobs, jobs[n].id)
              && jobs[n].phase == Offered
              && jobs[n].offer.Some?
              && jobs[n].offer.value.page == page
              && jobs[n].offer.value.id == (if req.offer.Some? then req.offer.value else "")
  {
    if req.id.None? then |jobs|
    else
      var i := Find(jobs, req.id.value);
      if && i < |jobs|
         && jobs[i].phase == Offered
         && jobs[i].offer.Some?
         && page == jobs[i].offer.value.page
         && (if req.offer.Some? then req.offer.value else "") == jobs[i].offer.value.id
      then i else |jobs|
  }

  predicate RegistrationAcceptable(origin: string, result: Json) {
    && result.JObject?
    && result.fields.Keys == {"rp_id", "origin", "credential_id", "public_key_sec1"}
    && result.Get("origin") == Some(JString(origin))
    && result.Get("rp_id") == Some(JString(RP_ID))
  }

  /** The completed assertion carries the published intent and names the published credential. */
  predicate AssertionAcceptable(doc: Json, result: Json) {
    && result.JObject?
    && result.fields.Keys == {"intent", "proof"}
    && result.Get("intent") == doc.Get("intent")
    && result.At("proof", "scheme") == Some(JString(PROOF_SCHEME))
    && result.At("proof", "credential_id").Some?
    && result.At("proof", "credential_id") == doc.At("root", "credential_id")
  }

  predicate ResultAcceptable(origin: string, kind: Kind, prepared: Option<Json>, result: Json) {
    match kind
    case Registration => RegistrationAcceptable(origin, result)
    case Assertion => prepared.Some? && AssertionAcceptable(prepared.value, result)
  }

  /** `next` on the active job: claim a queued job, then mint an offer where there is one to make. */
  function Next(j: Job, page: string, draw: string, t2: real): Job {
    var claimed := if j.phase == Queued then j.(phase := Ready).Note(EvClaimed(page)) else j;
    if claimed.kind == Registration || claimed.phase == Prepared then
      var o := Offer(draw, page, t2 + OFFER_LEASE_SECONDS);
      claimed.(phase := Offered, offer := Some(o)).Note(EvOffered(o))
    else
      claimed
  }

  function NextMints(j: Job): bool { j.kind == Registration || j.phase == Prepared }

  function Milliseconds(seconds: real): int {
    if seconds <= 0.0 then 0 else (seconds * 1000.0).Floor
  }

  function NextOp(s: State, page: string, draw: string, t2: real): (State, Reply) {
    var a := Active(s.jobs);
    if a == |s.jobs| then (s, NoWork)
    else if s.jobs[a].phase == Offered then
      (s, Waiting(if s.jobs[a].offer.Some? then Milliseconds(s.jobs[a].offer.value.deadline - t2) else 0))
    else
      var j := Next(s.jobs[a], page, draw, t2);
      (s.(jobs := s.jobs[a := j], minted := if NextMints(s.jobs[a]) then s.minted + {draw} else s.minted),
       JobReply(j.View()))
  }

  function Complete(cfg: Config, s: State, i: nat, req: PageRequest, write: WriteOutcome): (State, Reply)
    requires i < |s.jobs| && s.jobs[i].offer.Some?
  {
    var j := s.jobs[i];
    if req.result.None? || !cfg.fits(req.result.value)
       || !ResultAcceptable(cfg.origin, j.kind, j.prepared, req.result.value)
       || write == DirectoryUntrusted
    then
      (s, Refused)
    else if j.id in s.files || write == OsErrorBeforeCreate then
      (s.(jobs := s.jobs[i := j.Fail(WriteFailed)]), Refused)
    else if write == OsErrorAfterCreate then
      (s.(jobs := s.jobs[i := j.Fail(WriteFailed)], files := s.files[j.id := Foreign]), Refused)
    else
      var d := j.(phase := Signed).Note(EvCompleted(j.offer.value.id, req.result.value));
      (s.(jobs := s.jobs[i := d], files := s.files[j.id := Whole(req.result.value)]), JobReply(d.View()))
  }

  /** The page operations that act on an owned offer. */
  function OnOffer(cfg: Config, s: State, i: nat, op: PageOp, req: PageRequest, t2: real, write: WriteOutcome)
    : (State, Reply)
    requires i < |s.jobs| && s.jobs[i].offer.Some?
  {
    var j := s.jobs[i];
    match op
    case PgRenew =>
      var until := t2 + OFFER_LEASE_SECONDS;
      (s.(jobs := s.jobs[i := j.(offer := Some(j.offer.value.(deadline := until))).Note(EvRenewed(until))]), Leased)
    case PgFail =>
      var f := j.Fail(PageReported);
      (s.(jobs := s.jobs[i := f]), JobReply(f.View()))
    case PgComplete => Complete(cfg, s, i, req, write)
    case _ => (s, Refused)
  }

  function PageRequested(cfg: Config, s: State, t2: real, op: PageOp, req: PageRequest,
                         cookie: string, page: string, draw: string, write: WriteOutcome): (State, Reply)
  {
    var i := OwnedOffer(s.jobs, req, page);
    if op == PgRelease then
      if i == |s.jobs| then (s, Refused)
      else var r := s.jobs[i].Release(EvReleased); (s.(jobs := s.jobs[i := r]), JobReply(r.View()))
    else if s.session != Some((cookie, page)) then
      (s, Refused)
    else if op == PgNext then
      NextOp(s, page, draw, t2)
    else if i == |s.jobs| then
      (s, Refused)
    else if i != Active(s.jobs) then
      (s, NotActive)
    else
      OnOffer(cfg, s, i, op, req, t2, write)
  }

  function Page(cfg: Config, s: State, t1: real, t2: real, op: PageOp, req: PageRequest,
                cookie: string, page: string, draw: string, write: WriteOutcome): (State, Reply)
  {
    PageRequested(cfg, Expire(s, t1, t2), t2, op, req, cookie, page, draw, write)
  }

  // ---- runs ----------------------------------------------------------------

  /** One atomic step of the session: a command, an authentication, a page
      request, or another process creating a file in the session directory. */
  datatype Op =
    | DoCli(t1: real, t2: real, req: CliRequest, draw: string)
    | DoAuthenticate(t: real, token: Option<string>, cookie: string, page: string)
    | DoPage(t1: real, t2: real, op: PageOp, preq: PageRequest, pcookie: string, ppage: string,
             draw: string, write: WriteOutcome)
    | DoForeignCreate(name: string)

  function Apply(cfg: Config, s: State, o: Op): (State, Reply) {
    match o
    case DoCli(t1, t2, req, draw) => Cli(cfg, s, t1, t2, req, draw)
    case DoAuthenticate(t, token, cookie, page) => Authenticate(s, t, token, cookie, page)
    case DoPage(t1, t2, op, req, cookie, page, draw, write) =>
      Page(cfg, s, t1, t2, op, req, cookie, page, draw, write)
    case DoForeignCreate(name) =>
      (if name in s.files then s else s.(files := s.files[name := Foreign]), NoWork)
  }

  /** The clock does not go back and every random draw is new. */
  predicate Legal(s: State, o: Op) {
    match o
    case DoCli(t1, t2, _, draw) => s.clock <= t1 <= t2 && draw !in s.minted
    case DoAuthenticate(t, _, cookie, page) =>
      s.clock <= t && cookie !in s.minted && page !in s.minted && cookie != page
    case DoPage(t1, t2, _, _, _, _, draw, _) => s.clock <= t1 <= t2 && draw !in s.minted
    case DoForeignCreate(_) => true
  }

  function After(cfg: Config, s: State, ops: seq<Op>): State
    decreases |ops|
  {
    if ops == [] then s else After(cfg, Apply(cfg, s, ops[0]).0, ops[1..])
  }

  predicate LegalRun(cfg: Config, s: State, ops: seq<Op>)
    decreases |ops|
  {
    ops == [] || (Legal(s, ops[0]) && LegalRun(cfg, Apply(cfg, s, ops[0]).0, ops[1..]))
  }

  /** The jobs of a session, pruned or not. */
  function AllJobs(s: State): seq<Job> { s.retired + s.jobs }
}
