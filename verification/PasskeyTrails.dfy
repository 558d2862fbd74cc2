/**
 What a job's trail says about the job.

 `Track` reads a trail as a word of the approval protocol and gives the status the
 word leads to. The lemmas below say what the words look like without `Track`.
 */
module PasskeyTrails {
  import opened Wrappers
  import opened PasskeyProtocol

  datatype Status = Status(phase: Phase, offer: Option<Offer>, doc: Option<Json>, result: Option<Json>)

  function Advance(origin: string, kind: Kind, st: Status, e: JobEvent): Option<Status> {
    match e
    case EvEnqueued => None
    case EvClaimed(_) => if st.phase == Queued then Some(st.(phase := Ready)) else None
    case EvPublished(doc) =>
      if kind == Assertion && st.phase == Ready && DocAcceptable(origin, doc)
      then Some(st.(phase := Prepared, doc := Some(doc))) else None
    case EvOffered(o) =>
      if st.phase == (if kind == Registration then Ready else Prepared)
      then Some(st.(phase := Offered, offer := Some(o))) else None
    case EvRenewed(until) =>
      if st.phase == Offered && st.offer.Some?
      then Some(st.(offer := Some(st.offer.value.(deadline := until)))) else None
    case EvReleased =>
      if st.phase == Offered
      then Some(st.(offer := None, phase := if kind == Registration then Queued else Prepared)) else None
    case EvLapsed =>
      if st.phase == Offered
      then Some(st.(offer := None, phase := if kind == Registration then Queued else Prepared)) else None
    case EvCompleted(id, result) =>
      if && st.phase == Offered && st.offer.Some? && st.offer.value.id == id
         && ResultAcceptable(origin, kind, st.doc, result)
      then Some(st.(phase := Signed, result := Some(result))) else None
    case EvTaken => if st.phase == Signed then Some(st.(phase := Taken)) else None
    case EvFailed(_) => if !Done(st.phase) then Some(st.(phase := Failed)) else None
  }

  function Track(origin: string, kind: Kind, trail: seq<JobEvent>): Option<Status> {
    if trail == [] then None
    else if |trail| == 1 then
      if trail[0] == EvEnqueued then Some(Status(Queued, None, None, None)) else None
    else
      match Track(origin, kind, trail[..|trail| - 1])
      case None => None
      case Some(st) => Advance(origin, kind, st, trail[|trail| - 1])
  }

  lemma TrackNote(origin: string, kind: Kind, trail: seq<JobEvent>, e: JobEvent)
    requires trail != []
    ensures Track(origin, kind, trail + [e]) ==
            match Track(origin, kind, trail)
            case None => None
            case Some(st) => Advance(origin, kind, st, e)
  {
    assert (trail + [e])[..|trail + [e]| - 1] == trail;
  }

  /** The offer `o` was the last one minted in this trail and has not been given up:
      after the event that minted it there are only renewals, and its deadline is the
      one set by the last of these events. */
  ghost predicate LatestOffer(trail: seq<JobEvent>, o: Offer) {
    exists k :: 0 <= k < |trail| && StandsSince(trail, k, o)
  }

  ghost predicate StandsSince(trail: seq<JobEvent>, k: nat, o: Offer)
    requires k < |trail|
  {
    && trail[k].EvOffered?
    && trail[k].offer.id == o.id
    && trail[k].offer.page == o.page
    && (forall m :: k < m < |trail| ==> trail[m].EvRenewed?)
    && o.deadline == (if k == |trail| - 1 then trail[k].offer.deadline else trail[|trail| - 1].until)
  }

  lemma {:induction false} OfferedIsLatest(origin: string, kind: Kind, trail: seq<JobEvent>)
    requires Track(origin, kind, trail).Some?
    requires Track(origin, kind, trail).value.phase == Offered
    ensures Track(origin, kind, trail).value.offer.Some?
    ensures LatestOffer(trail, Track(origin, kind, trail).value.offer.value)
  {
    var init, e := trail[..|trail| - 1], trail[|trail| - 1];
    var st := Track(origin, kind, init).value;
    var o := Track(origin, kind, trail).value.offer;
    if e.EvOffered? {
      assert StandsSince(trail, |trail| - 1, o.value);
    } else {
      assert e.EvRenewed?;
      OfferedIsLatest(origin, kind, init);
      var k :| 0 <= k < |init| && StandsSince(init, k, st.offer.value);
      assert StandsSince(trail, k, o.value);
    }
  }

  /** Between publication and completion only offers are made, renewed and given up. */
  predicate OfferTraffic(e: JobEvent) {
    e.EvOffered? || e.EvRenewed? || e.EvReleased? || e.EvLapsed?
  }

  /** An assertion that has been published but not completed. */
  predicate PublishedWord(origin: string, trail: seq<JobEvent>, doc: Json) {
    && |trail| >= 3
    && trail[0] == EvEnqueued
    && trail[1].EvClaimed?
    && trail[2] == EvPublished(doc)
    && DocAcceptable(origin, doc)
    && (forall k :: 3 <= k < |trail| ==> OfferTraffic(trail[k]))
  }

  /** A completed assertion: a published one, whose latest offer was then completed. */
  ghost predicate CompletedWord(origin: string, trail: seq<JobEvent>, doc: Json, result: Json) {
    && |trail| >= 5
    && PublishedWord(origin, trail[..|trail| - 1], doc)
    && trail[|trail| - 1].EvCompleted?
    && trail[|trail| - 1].result == result
    && (exists o :: LatestOffer(trail[..|trail| - 1], o) && o.id == trail[|trail| - 1].offerId)
    && AssertionAcceptable(doc, result)
  }

  /** A taken assertion: enqueued, claimed, published once, offered, completed once, taken once. */
  ghost predicate TakenWord(origin: string, trail: seq<JobEvent>, doc: Json, result: Json) {
    && |trail| >= 6
    && trail[|trail| - 1] == EvTaken
    && CompletedWord(origin, trail[..|trail| - 1], doc, result)
  }

  /** What an assertion's trail looks like in each phase. */
  ghost predicate AssertionShape(origin: string, trail: seq<JobEvent>, st: Status) {
    match st.phase
    case Queued => trail == [EvEnqueued]
    case Ready => |trail| == 2 && trail[0] == EvEnqueued && trail[1].EvClaimed?
    case Prepared => st.doc.Some? && PublishedWord(origin, trail, st.doc.value)
    case Offered => st.doc.Some? && PublishedWord(origin, trail, st.doc.value)
    case Signed => st.doc.Some? && st.result.Some? && CompletedWord(origin, trail, st.doc.value, st.result.value)
    case Taken => st.doc.Some? && st.result.Some? && TakenWord(origin, trail, st.doc.value, st.result.value)
    case Failed => trail != [] && trail[|trail| - 1].EvFailed?
  }

  lemma {:induction false} AssertionTrail(origin: string, trail: seq<JobEvent>)
    requires Track(origin, Assertion, trail).Some?
    ensures AssertionShape(origin, trail, Track(origin, Assertion, trail).value)
  {
    if |trail| > 1 {
      var init := trail[..|trail| - 1];
      AssertionTrail(origin, init);
      assert trail == init + [trail[|trail| - 1]];
      var st := Track(origin, Assertion, init).value;
      if st.phase == Offered {
        OfferedIsLatest(origin, Assertion, init);
      }
    }
  }

  function Occurrences(trail: seq<JobEvent>, e: JobEvent): nat {
    if trail == [] then 0
    else Occurrences(trail[..|trail| - 1], e) + (if trail[|trail| - 1] == e then 1 else 0)
  }

  /** Whatever the kind, a job is taken once when its phase says so and never otherwise. */
  lemma {:induction false} TakenCount(origin: string, kind: Kind, trail: seq<JobEvent>)
    requires Track(origin, kind, trail).Some?
    ensures Occurrences(trail, EvTaken) == (if Track(origin, kind, trail).value.phase == Taken then 1 else 0)
  {
    if |trail| == 1 {
      assert Occurrences(trail[..0], EvTaken) == 0;
    } else {
      TakenCount(origin, kind, trail[..|trail| - 1]);
    }
  }

  /** A trail that reached `Taken` or `Signed` holds exactly one completion, the one tracked; a live one holds none. */
  lemma {:induction false} ResultTrail(origin: string, kind: Kind, trail: seq<JobEvent>)
    requires Track(origin, kind, trail).Some?
    ensures var st := Track(origin, kind, trail).value;
            && (st.phase == Signed || st.phase == Taken ==>
                  st.result.Some? && ResultAcceptable(origin, kind, st.doc, st.result.value))
            && (st.result.Some? <==> exists k :: 0 <= k < |trail| && trail[k].EvCompleted?)
            && (forall k :: 0 <= k < |trail| && trail[k].EvCompleted? ==> st.result == Some(trail[k].result))
            && (forall k, m :: 0 <= k < |trail| && 0 <= m < |trail| && trail[k].EvCompleted? && trail[m].EvCompleted? ==> k == m)
            && (Live(st.phase) ==> st.result.None?)
  {
    if |trail| > 1 {
      var init := trail[..|trail| - 1];
      ResultTrail(origin, kind, init);
      var st := Track(origin, kind, init).value;
      assert forall k :: 0 <= k < |init| ==> trail[k] == init[k];
      forall k, m | 0 <= k < |trail| && 0 <= m < |trail| && trail[k].EvCompleted? && trail[m].EvCompleted?
        ensures k == m
      {
        if k < |init| { assert init[k].EvCompleted?; }
        if m < |init| { assert init[m].EvCompleted?; }
      }
      if st.result.Some? {
        var k :| 0 <= k < |init| && init[k].EvCompleted?;
        assert trail[k].EvCompleted?;
      }
    }
  }
}
