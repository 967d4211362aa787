/** The current relations of the knowledge view, rebuilt from history: one
    relation for each pair of assertions, whatever order the rows come in. */
module VpRelations {
  import opened Wrappers
  import opened Sorting

  type Id = string

  type Pair = (Id, Id)

  datatype Relation = Relation(id: Id, left: Id, right: Id, createdAt: int, decisionId: Id, exact: bool)

  datatype Event =
    | RelationRecorded(epoch: nat, decisionId: Option<Id>, relationIds: seq<Id>)
    | NoRelationRecorded(epoch: nat, decisionId: Option<Id>)
    | OtherRecorded(epoch: nat)

  /** The receipt of a NO_RELATION decision. */
  datatype Receipt = Receipt(decisionId: Id, left: Id, right: Id)

  /** A completed job that could not decide the pair. */
  datatype Unresolved = Unresolved(left: Id, right: Id, updatedAt: int)

  /** What the relation rows are judged against; `bound` is an active policy
      binding. Events come in epoch order. */
  datatype History = History(events: seq<Event>, negatives: seq<Receipt>, unresolved: seq<Unresolved>,
                             assertions: set<Id>, bound: bool)

  function PairOf(r: Relation): Pair { (r.left, r.right) }

  // ----- epochs of decisions ----------------------------------------------------

  /** The epoch of the last event that records a decision. */
  function DecisionEpoch(events: seq<Event>, decision: Id): Option<nat> {
    if events == [] then None else
      var last := events[|events| - 1];
      if last.RelationRecorded? && last.decisionId == Some(decision) then Some(last.epoch)
      else DecisionEpoch(events[..|events| - 1], decision)
  }

  /** The epoch of the last event that lists a relation. */
  function RelationEpoch(events: seq<Event>, relation: Id): Option<nat> {
    if events == [] then None else
      var last := events[|events| - 1];
      if last.RelationRecorded? && relation in last.relationIds then Some(last.epoch)
      else RelationEpoch(events[..|events| - 1], relation)
  }

  function PositiveEpoch(events: seq<Event>, r: Relation): Option<nat> {
    var decided := DecisionEpoch(events, r.decisionId);
    if decided.Some? then decided else RelationEpoch(events, r.id)
  }

  /** The last receipt with a decision id. */
  function ReceiptOf(negatives: seq<Receipt>, decision: Id): Option<Receipt> {
    if negatives == [] then None else
      var last := negatives[|negatives| - 1];
      if last.decisionId == decision then Some(last) else ReceiptOf(negatives[..|negatives| - 1], decision)
  }

  predicate Denies(negatives: seq<Receipt>, event: Event, pair: Pair) {
    event.NoRelationRecorded? && event.decisionId.Some? &&
    var receipt := ReceiptOf(negatives, event.decisionId.value);
    receipt.Some? && (receipt.value.left, receipt.value.right) == pair
  }

  /** The newest epoch at which a pair was found to have no relation. */
  function NegativeEpoch(events: seq<Event>, negatives: seq<Receipt>, pair: Pair): (r: Option<nat>)
    ensures r.Some? ==> forall e :: e in events && Denies(negatives, e, pair) ==> e.epoch <= r.value
    ensures r.None? ==> forall e :: e in events ==> !Denies(negatives, e, pair)
    ensures r.Some? ==> exists e :: e in events && Denies(negatives, e, pair) && e.epoch == r.value
  {
    if events == [] then None else
      var init, last := events[..|events| - 1], events[|events| - 1];
      assert events == init + [last];
      var before := NegativeEpoch(init, negatives, pair);
      if Denies(negatives, last, pair) && (before.None? || last.epoch > before.value) then Some(last.epoch) else before
  }

  function Get<K, V>(m: map<K, V>, key: K): Option<V> { if key in m then Some(m[key]) else None }

  method CollectPositive(events: seq<Event>) returns (decisions: map<Id, nat>, relations: map<Id, nat>)
    ensures forall d :: Get(decisions, d) == DecisionEpoch(events, d)
    ensures forall r :: Get(relations, r) == RelationEpoch(events, r)
  {
    decisions, relations := map[], map[];
    for n := 0 to |events|
      invariant forall d :: Get(decisions, d) == DecisionEpoch(events[..n], d)
      invariant forall r :: Get(relations, r) == RelationEpoch(events[..n], r)
    {
      assert events[..n + 1][..n] == events[..n];
      var event := events[n];
      if event.RelationRecorded? {
        relations := ListAll(relations, event.relationIds, event.epoch);
        if event.decisionId.Some? {
          decisions := decisions[event.decisionId.value := event.epoch];
        }
      }
    }
    assert events[..|events|] == events;
  }

  method ListAll(relations: map<Id, nat>, ids: seq<Id>, epoch: nat) returns (r: map<Id, nat>)
    ensures forall id :: Get(r, id) == if id in ids then Some(epoch) else Get(relations, id)
  {
    r := relations;
    for i := 0 to |ids|
      invariant forall id :: Get(r, id) == if id in ids[..i] then Some(epoch) else Get(relations, id)
    {
      r := r[ids[i] := epoch];
      assert ids[..i + 1] == ids[..i] + [ids[i]];
    }
    assert ids[..|ids|] == ids;
  }

  method CollectReceipts(negatives: seq<Receipt>) returns (receipts: map<Id, Receipt>)
    ensures forall d :: Get(receipts, d) == ReceiptOf(negatives, d)
  {
    receipts := map[];
    for n := 0 to |negatives|
      invariant forall d :: Get(receipts, d) == ReceiptOf(negatives[..n], d)
    {
      assert negatives[..n + 1][..n] == negatives[..n];
      receipts := receipts[negatives[n].decisionId := negatives[n]];
    }
    assert negatives[..|negatives|] == negatives;
  }

  method CollectNegative(events: seq<Event>, negatives: seq<Receipt>) returns (epochs: map<Pair, nat>)
    ensures forall p :: Get(epochs, p) == NegativeEpoch(events, negatives, p)
  {
    var receipts := CollectReceipts(negatives);
    epochs := map[];
    for n := 0 to |events|
      invariant forall p :: Get(epochs, p) == NegativeEpoch(events[..n], negatives, p)
    {
      assert events[..n + 1][..n] == events[..n];
      var event := events[n];
      if event.NoRelationRecorded? && event.decisionId.Some? && event.decisionId.value in receipts {
        var receipt := receipts[event.decisionId.value];
        assert Get(receipts, event.decisionId.value) == ReceiptOf(negatives, event.decisionId.value);
        var pair := (receipt.left, receipt.right);
        if pair !in epochs || event.epoch > epochs[pair] {
          epochs := epochs[pair := event.epoch];
        }
      } else {
        assert forall p :: !Denies(negatives, event, p) by {
          if event.NoRelationRecorded? && event.decisionId.Some? {
            assert Get(receipts, event.decisionId.value) == ReceiptOf(negatives, event.decisionId.value);
          }
        }
      }
    }
    assert events[..|events|] == events;
  }

  // ----- which relations stand, and which of them wins ---------------------------

  /** An undecided job at least as new as the relation's own decision. */
  predicate Superseded(unresolved: seq<Unresolved>, r: Relation) {
    exists j :: j in unresolved && (j.left, j.right) == PairOf(r) && j.updatedAt >= r.createdAt
  }

  /** Neither exact nor recorded strictly after the pair's newest NO_RELATION. */
  predicate Denied(negative: Option<nat>, positive: Option<nat>, r: Relation) {
    !r.exact && negative.Some? && (positive.None? || negative.value >= positive.value)
  }

  predicate Stands(h: History, r: Relation) {
    r.left in h.assertions && r.right in h.assertions &&
    !(!(h.bound && r.exact) && Superseded(h.unresolved, r)) &&
    !Denied(NegativeEpoch(h.events, h.negatives, PairOf(r)), PositiveEpoch(h.events, r), r)
  }

  function Rank(epoch: Option<nat>): int { if epoch.Some? then epoch.value else -1 }

  predicate Later(a: Relation, b: Relation) {
    a.createdAt > b.createdAt || (a.createdAt == b.createdAt && !TextNotAfter(a.id, b.id))
  }

  /** The test by which a relation replaces the one held so far. Exactness and
      epoch come first only if the pair has a NO_RELATION. */
  predicate Beats(negative: Option<nat>, a: Relation, aEpoch: Option<nat>, b: Relation, bEpoch: Option<nat>) {
    if negative.None? then Later(a, b)
    else if a.exact != b.exact then a.exact
    else if Rank(aEpoch) != Rank(bEpoch) then Rank(aEpoch) > Rank(bEpoch)
    else Later(a, b)
  }

  predicate Wins(h: History, a: Relation, b: Relation) {
    Beats(NegativeEpoch(h.events, h.negatives, PairOf(a)), a, PositiveEpoch(h.events, a), b, PositiveEpoch(h.events, b))
  }

  /** Among relations of one pair with distinct ids the test is a total order. */
  lemma {:induction false} WinsTotal(h: History, a: Relation, b: Relation)
    requires PairOf(a) == PairOf(b)
    ensures Wins(h, a, b) ==> !Wins(h, b, a)
    ensures a.id != b.id ==> Wins(h, a, b) || Wins(h, b, a)
  {
    TextTotal(a.id, b.id);
    if TextNotAfter(a.id, b.id) && TextNotAfter(b.id, a.id) {
      TextAntisymmetric(a.id, b.id);
    }
  }

  lemma {:induction false} LaterTransitive(a: Relation, b: Relation, c: Relation)
    requires Later(a, b) && Later(b, c)
    ensures Later(a, c)
  {
    TextTotal(a.id, b.id);
    TextTotal(b.id, c.id);
    if a.createdAt == c.createdAt && TextNotAfter(a.id, c.id) {
      TextTransitive(b.id, a.id, c.id);
    }
  }

  lemma {:induction false} WinsTransitive(h: History, a: Relation, b: Relation, c: Relation)
    requires PairOf(a) == PairOf(b) == PairOf(c) && Wins(h, a, b) && Wins(h, b, c)
    ensures Wins(h, a, c)
  {
    if Later(a, b) && Later(b, c) {
      LaterTransitive(a, b, c);
    }
  }

  predicate DistinctIds(relations: seq<Relation>) {
    forall i, j :: 0 <= i < j < |relations| ==> relations[i].id != relations[j].id
  }

  /** r is the greatest of the pair's standing relations. */
  ghost predicate Chosen(h: History, relations: seq<Relation>, pair: Pair, r: Relation) {
    r in relations && PairOf(r) == pair && Stands(h, r) &&
    forall other :: other in relations && PairOf(other) == pair && Stands(h, other) && other != r ==> Wins(h, r, other)
  }

  ghost predicate NoneStands(h: History, relations: seq<Relation>, pair: Pair) {
    forall r :: r in relations && PairOf(r) == pair ==> !Stands(h, r)
  }

  ghost predicate Replayed(h: History, relations: seq<Relation>, view: map<Pair, Relation>) {
    forall pair :: if pair in view then Chosen(h, relations, pair, view[pair]) else NoneStands(h, relations, pair)
  }

  /** One more relation row changes at most its own pair's choice. */
  lemma {:induction false} ReplayStep(h: History, relations: seq<Relation>, view: map<Pair, Relation>, r: Relation)
    requires DistinctIds(relations + [r]) && Replayed(h, relations, view)
    ensures var pair := PairOf(r);
            Replayed(h, relations + [r],
                     if Stands(h, r) && (pair !in view || Wins(h, r, view[pair])) then view[pair := r] else view)
  {
    var pair := PairOf(r);
    var all := relations + [r];
    assert forall x :: x in all <==> x in relations || x == r;
    assert all[|relations|] == r;
    forall x | x in relations ensures x.id != r.id {
      var i :| 0 <= i < |relations| && relations[i] == x;
      assert all[i] == x;
    }
    if Stands(h, r) {
      if pair in view {
        var held := view[pair];
        WinsTotal(h, r, held);
        if Wins(h, r, held) {
          forall x | x in relations && PairOf(x) == pair && Stands(h, x) ensures Wins(h, r, x) {
            if x != held {
              WinsTransitive(h, r, held, x);
            }
          }
        }
      }
    }
  }

  method ReplayRelations(h: History, relations: seq<Relation>) returns (view: map<Pair, Relation>)
    requires DistinctIds(relations)
    ensures Replayed(h, relations, view)
  {
    var decisions, recorded := CollectPositive(h.events);
    var negatives := CollectNegative(h.events, h.negatives);
    view := map[];
    for n := 0 to |relations|
      invariant Replayed(h, relations[..n], view)
    {
      assert relations[..n + 1] == relations[..n] + [relations[n]];
      ReplayStep(h, relations[..n], view, relations[n]);
      view := Consider(h, decisions, recorded, negatives, view, relations[n]);
    }
    assert relations[..|relations|] == relations;
  }

  /** One row of the loop: the relation takes its pair if it stands and wins. */
  method Consider(h: History, decisions: map<Id, nat>, recorded: map<Id, nat>, negatives: map<Pair, nat>, view: map<Pair, Relation>, r: Relation)
    returns (next: map<Pair, Relation>)
    requires forall d :: Get(decisions, d) == DecisionEpoch(h.events, d)
    requires forall id :: Get(recorded, id) == RelationEpoch(h.events, id)
    requires forall p :: Get(negatives, p) == NegativeEpoch(h.events, h.negatives, p)
    requires PairOf(r) in view ==> PairOf(view[PairOf(r)]) == PairOf(r)
    ensures next == if Stands(h, r) && (PairOf(r) !in view || Wins(h, r, view[PairOf(r)])) then view[PairOf(r) := r] else view
  {
    var pair := PairOf(r);
    var negative := Get(negatives, pair);
    var epoch := EpochIn(decisions, recorded, r);
    assert Get(decisions, r.decisionId) == DecisionEpoch(h.events, r.decisionId);
    assert Get(recorded, r.id) == RelationEpoch(h.events, r.id);
    if r.left !in h.assertions || r.right !in h.assertions {
      return view;
    }
    if !(h.bound && r.exact) && Superseded(h.unresolved, r) {
      return view;
    }
    if Denied(negative, epoch, r) {
      return view;
    }
    if pair !in view {
      return view[pair := r];
    }
    var previous := view[pair];
    assert Get(decisions, previous.decisionId) == DecisionEpoch(h.events, previous.decisionId);
    assert Get(recorded, previous.id) == RelationEpoch(h.events, previous.id);
    if Beats(negative, r, epoch, previous, EpochIn(decisions, recorded, previous)) {
      return view[pair := r];
    }
    return view;
  }

  function EpochIn(decisions: map<Id, nat>, recorded: map<Id, nat>, r: Relation): Option<nat> {
    if r.decisionId in decisions then Some(decisions[r.decisionId]) else Get(recorded, r.id)
  }

  // ----- what the replayed view says -----------------------------------------------

  /** The rebuilt view does not depend on the order of the relation rows. */
  lemma {:induction false} ReplayIgnoresOrder(h: History, a: seq<Relation>, b: seq<Relation>,
                                              viewA: map<Pair, Relation>, viewB: map<Pair, Relation>)
    requires multiset(a) == multiset(b)
    requires Replayed(h, a, viewA) && Replayed(h, b, viewB)
    ensures viewA == viewB
  {
    assert forall r :: r in a <==> r in multiset(a);
    assert forall r :: r in b <==> r in multiset(b);
    forall pair ensures pair in viewA <==> pair in viewB {
      if pair in viewA {
        assert Chosen(h, a, pair, viewA[pair]);
      }
      if pair in viewB {
        assert Chosen(h, b, pair, viewB[pair]);
      }
    }
    forall pair | pair in viewA ensures viewA[pair] == viewB[pair] {
      assert Chosen(h, a, pair, viewA[pair]) && Chosen(h, b, pair, viewB[pair]);
      WinsTotal(h, viewA[pair], viewB[pair]);
    }
  }

  /** After a NO_RELATION only an exact relation, or one recorded strictly later
      than every NO_RELATION of the pair, is current; and an exact one that
      stands is never passed over for one that is not. */
  lemma {:induction false} OnlyLaterThanDenial(h: History, relations: seq<Relation>, view: map<Pair, Relation>, pair: Pair, denial: Event)
    requires Replayed(h, relations, view) && pair in view
    requires denial in h.events && Denies(h.negatives, denial, pair)
    ensures var r := view[pair];
            r.exact || (PositiveEpoch(h.events, r).Some? && PositiveEpoch(h.events, r).value > denial.epoch)
    ensures forall x :: x in relations && PairOf(x) == pair && Stands(h, x) && x.exact ==> view[pair].exact
  {
    assert Chosen(h, relations, pair, view[pair]);
  }

  /** a was decided after b, or together with it under a greater id. */
  predicate DecidedAfter(a: Relation, b: Relation) {
    a.createdAt > b.createdAt || (a.createdAt == b.createdAt && a.id != b.id && TextNotAfter(b.id, a.id))
  }

  /** a was recorded at a later epoch than b; an unrecorded one comes first. */
  predicate RecordedAfter(events: seq<Event>, a: Relation, b: Relation) {
    PositiveEpoch(events, a).Some? &&
    (PositiveEpoch(events, b).None? || PositiveEpoch(events, b).value < PositiveEpoch(events, a).value)
  }

  /** Without a NO_RELATION the newest standing decision is current, exact or
      not. */
  lemma {:induction false} NewestWithoutDenial(h: History, relations: seq<Relation>, view: map<Pair, Relation>, pair: Pair, x: Relation)
    requires Replayed(h, relations, view)
    requires forall e :: e in h.events ==> !Denies(h.negatives, e, pair)
    requires x in relations && PairOf(x) == pair && Stands(h, x)
    ensures pair in view && (x == view[pair] || DecidedAfter(view[pair], x))
  {
    if pair in view {
      assert Chosen(h, relations, pair, view[pair]);
      LaterIff(view[pair], x);
    }
  }

  lemma {:induction false} LaterIff(a: Relation, b: Relation)
    ensures Later(a, b) <==> DecidedAfter(a, b)
  {
    TextTotal(a.id, b.id);
    if TextNotAfter(a.id, b.id) && TextNotAfter(b.id, a.id) {
      TextAntisymmetric(a.id, b.id);
    }
  }

  /** With a NO_RELATION exactness comes first, then the epoch, then the time of
      the decision and the id. */
  lemma {:induction false} GreatestWithDenial(h: History, relations: seq<Relation>, view: map<Pair, Relation>, pair: Pair, denial: Event, x: Relation)
    requires Replayed(h, relations, view) && denial in h.events && Denies(h.negatives, denial, pair)
    requires x in relations && PairOf(x) == pair && Stands(h, x)
    ensures pair in view
    ensures var r := view[pair];
      || x == r
      || (r.exact && !x.exact)
      || (r.exact == x.exact && RecordedAfter(h.events, r, x))
      || (r.exact == x.exact && PositiveEpoch(h.events, r) == PositiveEpoch(h.events, x) && DecidedAfter(r, x))
  {
    if pair in view {
      assert Chosen(h, relations, pair, view[pair]);
      LaterIff(view[pair], x);
    }
  }

  /** When a relation stands, spelled out: it joins two current assertions; unless
      it is exact under an active binding, every undecided job of the pair is older
      than its decision; and unless it is exact, it was recorded strictly after
      every NO_RELATION of the pair. */
  lemma {:induction false} StandsIff(h: History, r: Relation)
    ensures Stands(h, r) <==>
      && r.left in h.assertions && r.right in h.assertions
      && ((h.bound && r.exact) || forall j :: j in h.unresolved && j.left == r.left && j.right == r.right ==> j.updatedAt < r.createdAt)
      && (r.exact || forall e :: e in h.events && Denies(h.negatives, e, PairOf(r)) ==>
            PositiveEpoch(h.events, r).Some? && e.epoch < PositiveEpoch(h.events, r).value)
  {
  }

  /** No event after the first n records the relation's decision, or lists it. */
  ghost predicate NoneDecides(events: seq<Event>, n: nat, r: Relation) {
    forall j :: n <= j < |events| && events[j].RelationRecorded? ==> events[j].decisionId != Some(r.decisionId)
  }

  ghost predicate NoneLists(events: seq<Event>, n: nat, r: Relation) {
    forall j :: n <= j < |events| && events[j].RelationRecorded? ==> r.id !in events[j].relationIds
  }

  /** The epoch of a relation is that of the last event that records its decision;
      only if there is none, of the last event that lists it. */
  lemma {:induction false} PositiveEpochIs(events: seq<Event>, r: Relation, i: nat)
    requires i < |events| && events[i].RelationRecorded?
    ensures events[i].decisionId == Some(r.decisionId) && NoneDecides(events, i + 1, r) ==> PositiveEpoch(events, r) == Some(events[i].epoch)
    ensures r.id in events[i].relationIds && NoneDecides(events, 0, r) && NoneLists(events, i + 1, r) ==> PositiveEpoch(events, r) == Some(events[i].epoch)
  {
    if events[i].decisionId == Some(r.decisionId) && NoneDecides(events, i + 1, r) {
      LastDecides(events, r, i);
    }
    if r.id in events[i].relationIds && NoneDecides(events, 0, r) && NoneLists(events, i + 1, r) {
      NeverDecided(events, r);
      LastLists(events, r, i);
    }
  }

  lemma {:induction false} LastDecides(events: seq<Event>, r: Relation, i: nat)
    requires i < |events| && events[i].RelationRecorded? && events[i].decisionId == Some(r.decisionId) && NoneDecides(events, i + 1, r)
    ensures DecisionEpoch(events, r.decisionId) == Some(events[i].epoch)
  {
    if i < |events| - 1 {
      LastDecides(events[..|events| - 1], r, i);
    }
  }

  lemma {:induction false} NeverDecided(events: seq<Event>, r: Relation)
    requires NoneDecides(events, 0, r)
    ensures DecisionEpoch(events, r.decisionId).None?
  {
    if events != [] {
      NeverDecided(events[..|events| - 1], r);
    }
  }

  lemma {:induction false} LastLists(events: seq<Event>, r: Relation, i: nat)
    requires i < |events| && events[i].RelationRecorded? && r.id in events[i].relationIds && NoneLists(events, i + 1, r)
    ensures RelationEpoch(events, r.id) == Some(events[i].epoch)
  {
    if i < |events| - 1 {
      LastLists(events[..|events| - 1], r, i);
    }
  }

  /** Every current relation joins two current assertions, and no pair has two. */
  lemma {:induction false} ViewJoinsCurrent(h: History, relations: seq<Relation>, view: map<Pair, Relation>, p: Pair, q: Pair)
    requires Replayed(h, relations, view) && p in view && q in view
    ensures p.0 in h.assertions && p.1 in h.assertions
    ensures view[p].id == view[q].id && DistinctIds(relations) ==> p == q
  {
    assert Chosen(h, relations, p, view[p]) && Chosen(h, relations, q, view[q]);
    if view[p].id == view[q].id && DistinctIds(relations) {
      var i :| 0 <= i < |relations| && relations[i] == view[p];
      var j :| 0 <= j < |relations| && relations[j] == view[q];
    }
  }
}
