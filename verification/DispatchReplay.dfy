/** What replaying a dispatch ledger means, and how long a reservation stands. */
module DispatchReplay {
  import opened Wrappers
  import opened Text
  import opened CallDispatch

  // ---- a ledger as a sequence of events ------------------------------------

  function EventAt(codec: Codec, entry: Entry): Option<Event> {
    var d := DecodeEvent(codec, entry);
    if d.Ok? then d.value else None
  }

  /** The last event about key `k`. */
  function LastEvent(codec: Codec, ledger: seq<Entry>, k: string): Option<Event> {
    if ledger == [] then None
    else
      var ev := EventAt(codec, ledger[|ledger| - 1]);
      if ev.Some? && KeyOf(ev.value) == k then ev else LastEvent(codec, ledger[..|ledger| - 1], k)
  }

  /** An event agrees with the last event about its key before it: a reservation follows
      nothing, a release, or a reservation that has expired; a release follows the
      reservation it names. */
  predicate Agrees(before: Option<Event>, ev: Event) {
    match ev
    case Reserved(r) =>
      before.Some? && before.value.Reserved? ==> before.value.reservation.claim.expiresAt <= r.claim.acceptedAt
    case Released(_, a) =>
      before.Some? && before.value.Reserved? && before.value.reservation.attempt == a
  }

  predicate EntryAgrees(codec: Codec, ledger: seq<Entry>, j: nat)
    requires j < |ledger|
  {
    && DecodeEvent(codec, ledger[j]).Ok?
    && (EventAt(codec, ledger[j]).Some? ==>
          Agrees(LastEvent(codec, ledger[..j], KeyOf(EventAt(codec, ledger[j]).value)), EventAt(codec, ledger[j]).value))
  }

  /** The index holds, for each key, the reservation that is the last event about it. */
  ghost predicate IsLast(codec: Codec, ledger: seq<Entry>, idx: Index) {
    forall k :: (k in idx <==> LastEvent(codec, ledger, k).Some? && LastEvent(codec, ledger, k).value.Reserved?)
                && (k in idx ==> LastEvent(codec, ledger, k) == Some(Reserved(idx[k])))
  }

  predicate AllAgree(codec: Codec, ledger: seq<Entry>) { forall j :: 0 <= j < |ledger| ==> EntryAgrees(codec, ledger, j) }

  lemma AgreesInPrefix(codec: Codec, init: seq<Entry>, last: Entry)
    ensures AllAgree(codec, init + [last]) <==> AllAgree(codec, init) && EntryAgrees(codec, init + [last], |init|)
  {
    var ledger := init + [last];
    forall j | 0 <= j < |init| ensures EntryAgrees(codec, init, j) <==> EntryAgrees(codec, ledger, j) {
      assert init[..j] == ledger[..j] && init[j] == ledger[j];
    }
  }

  /** A ledger replays exactly when every entry decodes and agrees with what came before,
      and then the index is the last event per key. */
  lemma {:induction false} RebuildIff(codec: Codec, ledger: seq<Entry>)
    ensures Rebuild(codec, ledger).Ok? <==> AllAgree(codec, ledger)
    ensures Rebuild(codec, ledger).Ok? ==> IsLast(codec, ledger, Rebuild(codec, ledger).value)
  {
    if ledger != [] {
      var init, last := ledger[..|ledger| - 1], ledger[|ledger| - 1];
      assert ledger == init + [last];
      RebuildIff(codec, init);
      AgreesInPrefix(codec, init, last);
      if Rebuild(codec, init).Ok? {
        LastStep(codec, init, last, Rebuild(codec, init).value);
      }
    }
  }

  lemma LastStep(codec: Codec, init: seq<Entry>, last: Entry, idx: Index)
    requires IsLast(codec, init, idx)
    ensures ReplayEntry(codec, idx, last).Ok? <==> EntryAgrees(codec, init + [last], |init|)
    ensures ReplayEntry(codec, idx, last).Ok? ==> IsLast(codec, init + [last], ReplayEntry(codec, idx, last).value)
  {
    var ledger := init + [last];
    assert ledger[..|init|] == init;
    var ev := EventAt(codec, last);
    if DecodeEvent(codec, last).Ok? && ev.Some? {
      assert forall k :: k != KeyOf(ev.value) ==> LastEvent(codec, ledger, k) == LastEvent(codec, init, k);
      assert LastEvent(codec, ledger, KeyOf(ev.value)) == ev;
    }
  }

  // ---- attempts in a ledger with increasing sequences -----------------------

  predicate Increasing(ledger: seq<Entry>) {
    forall i, j :: 0 <= i < j < |ledger| ==> ledger[i].sequence < ledger[j].sequence
  }

  predicate ReservedAt(codec: Codec, ledger: seq<Entry>, i: nat, k: string, attempt: nat)
    requires i < |ledger|
  {
    var ev := EventAt(codec, ledger[i]);
    ev.Some? && ev.value.Reserved? && ev.value.reservation.claim.keyDigest == k && ev.value.reservation.attempt == attempt
  }

  predicate ReleasedAt(codec: Codec, ledger: seq<Entry>, j: nat, k: string, attempt: nat)
    requires j < |ledger|
  {
    EventAt(codec, ledger[j]) == Some(Released(k, attempt))
  }

  /** Decoding ties a reservation's attempt to its own entry. */
  lemma AttemptIsSequence(codec: Codec, ledger: seq<Entry>, i: nat, k: string, attempt: nat)
    requires i < |ledger| && ReservedAt(codec, ledger, i, k, attempt)
    ensures ledger[i].sequence == attempt
    ensures ValidClaim(EventAt(codec, ledger[i]).value.reservation.claim)
  {
  }

  /** The last event about a key sits at some entry, with nothing about the key after it. */
  lemma {:induction false} LastEventAt(codec: Codec, ledger: seq<Entry>, k: string) returns (i: nat)
    requires LastEvent(codec, ledger, k).Some?
    ensures i < |ledger| && EventAt(codec, ledger[i]) == LastEvent(codec, ledger, k)
    ensures KeyOf(EventAt(codec, ledger[i]).value) == k
    ensures forall m :: i < m < |ledger| ==>
              EventAt(codec, ledger[m]).None? || KeyOf(EventAt(codec, ledger[m]).value) != k
  {
    var n := |ledger| - 1;
    var ev := EventAt(codec, ledger[n]);
    if ev.Some? && KeyOf(ev.value) == k {
      i := n;
    } else {
      i := LastEventAt(codec, ledger[..n], k);
      forall m | i < m < |ledger|
        ensures EventAt(codec, ledger[m]).None? || KeyOf(EventAt(codec, ledger[m]).value) != k
      {
        if m < n { assert ledger[..n][m] == ledger[m]; }
      }
    }
  }

  /** Each release names exactly one reservation, an earlier one of its key, with nothing
      about that key in between. */
  lemma ReleaseNamesOneReservation(codec: Codec, ledger: seq<Entry>, j: nat, k: string, a: nat) returns (i: nat)
    requires Rebuild(codec, ledger).Ok? && Increasing(ledger)
    requires j < |ledger| && ReleasedAt(codec, ledger, j, k, a)
    ensures i < j && ReservedAt(codec, ledger, i, k, a)
    ensures forall m :: i < m < j ==>
              EventAt(codec, ledger[m]).None? || KeyOf(EventAt(codec, ledger[m]).value) != k
    ensures forall m, k2 :: 0 <= m < |ledger| && ReservedAt(codec, ledger, m, k2, a) ==> m == i
  {
    RebuildIff(codec, ledger);
    assert EntryAgrees(codec, ledger, j);
    var before := ledger[..j];
    i := LastEventAt(codec, before, k);
    assert before[i] == ledger[i];
    AttemptIsSequence(codec, ledger, i, k, a);
    forall m, k2 | 0 <= m < |ledger| && ReservedAt(codec, ledger, m, k2, a) ensures m == i {
      AttemptIsSequence(codec, ledger, m, k2, a);
    }
    forall m | i < m < j
      ensures EventAt(codec, ledger[m]).None? || KeyOf(EventAt(codec, ledger[m]).value) != k
    {
      assert before[m] == ledger[m];
    }
  }

  /** No reservation is released twice. */
  lemma ReleasedOnce(codec: Codec, ledger: seq<Entry>, j1: nat, j2: nat, k: string, a: nat)
    requires Rebuild(codec, ledger).Ok? && Increasing(ledger)
    requires j1 < |ledger| && j2 < |ledger|
    requires ReleasedAt(codec, ledger, j1, k, a) && ReleasedAt(codec, ledger, j2, k, a)
    ensures j1 == j2
  {
    var i1 := ReleaseNamesOneReservation(codec, ledger, j1, k, a);
    var i2 := ReleaseNamesOneReservation(codec, ledger, j2, k, a);
    assert i1 == i2;
    assert !(j1 < j2) && !(j2 < j1);
  }

  // ---- lifetimes -----------------------------------------------------------

  /** Reservations are accepted in the order they are written. */
  predicate TimesIncrease(codec: Codec, ledger: seq<Entry>) {
    forall i, j :: 0 <= i < j < |ledger| && IsReserved(codec, ledger[i]) && IsReserved(codec, ledger[j]) ==>
      ClaimAt(codec, ledger[i]).acceptedAt <= ClaimAt(codec, ledger[j]).acceptedAt
  }

  predicate IsReserved(codec: Codec, entry: Entry) {
    EventAt(codec, entry).Some? && EventAt(codec, entry).value.Reserved?
  }

  function ClaimAt(codec: Codec, entry: Entry): Claim
    requires IsReserved(codec, entry)
  {
    EventAt(codec, entry).value.reservation.claim
  }

  predicate ReleasedLater(codec: Codec, ledger: seq<Entry>, i: nat)
    requires i < |ledger| && IsReserved(codec, ledger[i])
  {
    exists m :: i < m < |ledger| && ReleasedAt(codec, ledger, m, ClaimAt(codec, ledger[i]).keyDigest,
                                               EventAt(codec, ledger[i]).value.reservation.attempt)
  }

  /** With times in order, an unreleased reservation is over before the next one of its
      key is accepted, however many released ones lie between. */
  lemma {:induction false} UnreleasedDisjoint(codec: Codec, ledger: seq<Entry>, i: nat, j: nat)
    requires Rebuild(codec, ledger).Ok? && Increasing(ledger) && TimesIncrease(codec, ledger)
    requires i < j < |ledger| && IsReserved(codec, ledger[i]) && IsReserved(codec, ledger[j])
    requires ClaimAt(codec, ledger[i]).keyDigest == ClaimAt(codec, ledger[j]).keyDigest
    requires !ReleasedLater(codec, ledger, i)
    ensures ClaimAt(codec, ledger[i]).expiresAt <= ClaimAt(codec, ledger[j]).acceptedAt
    decreases j
  {
    RebuildIff(codec, ledger);
    var k := ClaimAt(codec, ledger[j]).keyDigest;
    assert EntryAgrees(codec, ledger, j);
    var before := ledger[..j];
    assert before[i] == ledger[i];
    LastExists(codec, before, i);
    var p := LastEventAt(codec, before, k);
    assert before[p] == ledger[p];
    assert i <= p;
    if p != i {
      if IsReserved(codec, ledger[p]) {
        UnreleasedDisjoint(codec, ledger, i, p);
      } else {
        // the last event is a release: it names a reservation after i
        var a := EventAt(codec, ledger[p]).value.attempt;
        var q := ReleaseNamesOneReservation(codec, ledger, p, k, a);
        assert ReleasedLater(codec, ledger, q) by {
          assert ReleasedAt(codec, ledger, p, ClaimAt(codec, ledger[q]).keyDigest,
                            EventAt(codec, ledger[q]).value.reservation.attempt);
        }
        assert i < q;
        UnreleasedDisjoint(codec, ledger, i, q);
      }
    }
  }

  lemma {:induction false} LastExists(codec: Codec, ledger: seq<Entry>, i: nat)
    requires i < |ledger| && EventAt(codec, ledger[i]).Some?
    ensures LastEvent(codec, ledger, KeyOf(EventAt(codec, ledger[i]).value)).Some?
  {
    var n := |ledger| - 1;
    if i < n {
      assert ledger[..n][i] == ledger[i];
      LastExists(codec, ledger[..n], i);
    }
  }

  // ---- how long a reservation stands ---------------------------------------

  /** What can happen to a live index: another entry is replayed, or a claim is checked. */
  datatype Act = ActEntry(entry: Entry) | ActCheck(claim: Claim)

  /** A refused entry, and the check of an invalid claim, leave the index alone. */
  function ActOn(codec: Codec, idx: Index, act: Act): Index {
    match act
    case ActEntry(entry) =>
      var r := ReplayEntry(codec, idx, entry);
      if r.Ok? then r.value else idx
    case ActCheck(claim) => if ValidClaim(claim) then Prune(idx, claim.acceptedAt) else idx
  }

  function ActAll(codec: Codec, idx: Index, acts: seq<Act>): Index
    decreases |acts|
  {
    if acts == [] then idx else ActAll(codec, ActOn(codec, idx, acts[0]), acts[1..])
  }

  /** A check or a reservation of the same key comes before `r` expires, and `r` is not released. */
  predicate Within(codec: Codec, r: Reservation, act: Act) {
    match act
    case ActCheck(claim) => ValidClaim(claim) ==> claim.acceptedAt < r.claim.expiresAt
    case ActEntry(entry) =>
      match EventAt(codec, entry)
      case None => true
      case Some(Reserved(r2)) =>
        r2.claim.keyDigest == r.claim.keyDigest ==> r2.claim.acceptedAt < r.claim.expiresAt
      case Some(Released(k, a)) => !(k == r.claim.keyDigest && a == r.attempt)
  }

  lemma {:induction false} ReservationStays(codec: Codec, idx: Index, r: Reservation, acts: seq<Act>)
    requires Contains(idx, r) && forall n :: 0 <= n < |acts| ==> Within(codec, r, acts[n])
    ensures Contains(ActAll(codec, idx, acts), r)
    decreases |acts|
  {
    if acts != [] {
      assert Within(codec, r, acts[0]);
      ReservationStays(codec, ActOn(codec, idx, acts[0]), r, acts[1..]);
    }
  }

  /** Until it expires or is released, a replayed reservation answers every check of its
      key: never Fresh, and Existing exactly for its own fingerprint. */
  lemma ReservationStands(codec: Codec, idx: Index, r: Reservation, acts: seq<Act>, claim: Claim)
    requires Contains(idx, r) && forall n :: 0 <= n < |acts| ==> Within(codec, r, acts[n])
    requires claim.keyDigest == r.claim.keyDigest && claim.acceptedAt < r.claim.expiresAt
    ensures CheckAnswer(ActAll(codec, idx, acts), claim) != Fresh
    ensures CheckAnswer(ActAll(codec, idx, acts), claim) == Existing <==>
              claim.fingerprintDigest == r.claim.fingerprintDigest
  {
    ReservationStays(codec, idx, r, acts);
  }

  /** Even if reservations accepted after its expiry are replayed too, no check before its
      expiry finds the key fresh, as long as nothing about the key is released. */
  predicate WithinOrLater(codec: Codec, r: Reservation, act: Act) {
    match act
    case ActCheck(claim) => ValidClaim(claim) ==> claim.acceptedAt < r.claim.expiresAt
    case ActEntry(entry) =>
      match EventAt(codec, entry)
      case Some(Released(k, _)) => k != r.claim.keyDigest
      case _ => true
  }

  lemma {:induction false} NeverFreshEarly(codec: Codec, idx: Index, r: Reservation, acts: seq<Act>, claim: Claim)
    requires r.claim.keyDigest in idx && idx[r.claim.keyDigest].claim.expiresAt >= r.claim.expiresAt
    requires forall n :: 0 <= n < |acts| ==> WithinOrLater(codec, r, acts[n])
    requires claim.keyDigest == r.claim.keyDigest && claim.acceptedAt < r.claim.expiresAt
    ensures CheckAnswer(ActAll(codec, idx, acts), claim) != Fresh
    decreases |acts|
  {
    if acts != [] {
      assert WithinOrLater(codec, r, acts[0]);
      NeverFreshEarly(codec, ActOn(codec, idx, acts[0]), r, acts[1..], claim);
    }
  }
}
