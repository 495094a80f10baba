/** Compaction drops exactly what a client's view cannot show any more. */
module CompactionTightness {
  import opened Wrappers
  import opened QueueOrder
  import opened QueueDeltas
  import opened Compaction

  /** A record as the handlers may append it: well formed, with a body that fits its type. */
  predicate Proper(e: Event)
  {
    && WellFormed(e) && !e.kind.QueueSnapshot? && (e.body.Queue? <==> QueueFamily(e.kind))
    && (e.kind.ItemAddedEvent? ==> e.body.edit.ItemAdded?)
    && (e.kind.ItemUpdatedEvent? ==> e.body.edit.ItemUpdated?)
    && (e.kind.ItemRemovedEvent? ==> e.body.edit.ItemRemoved?)
  }

  /** What a record does to a view when it is delivered in a batch. */
  function Delivered(v: View, e: Event): View
  {
    Apply(v, Convert(Promote(e)))
  }

  /** With f delivered after it, e makes a difference to this view. */
  ghost predicate Shows(v: View, e: Event, f: Event)
  {
    Delivered(Delivered(v, e), f) != Delivered(v, f)
  }

  /** A record of type t may make a difference although one of type u follows. */
  ghost predicate Matters(t: EventType, u: EventType)
  {
    exists v, e, f :: Proper(e) && Proper(f) && e.kind == t && f.kind == u && Shows(v, e, f)
  }

  // ---------------------------------------------------------------- examples

  function SomeItem(id: nat): Shown
  {
    Shown(Item(id, YouTube, id, 1, 0, 0, false, 0), 0)
  }

  /** A record of type t about item id. */
  function Sample(t: EventType, id: nat): (e: Event)
    requires !t.QueueSnapshot?
    ensures Proper(e) && e.kind == t
  {
    var body :=
      match t
      case QueueUpdate => Queue(Snapshot([SomeItem(id)]))
      case ItemAddedEvent => Queue(ItemAdded(SomeItem(id)))
      case ItemUpdatedEvent => Queue(ItemUpdated(SomeItem(id), 0))
      case ItemRemovedEvent => Queue(ItemRemoved(id))
      case _ => Raw("");
    Event(0, t, body, None)
  }

  /** An empty view, but for the item that a removal takes away. */
  function Before(t: EventType): View
  {
    View(if t.ItemRemovedEvent? then [SomeItem(1)] else [], [], map[], [])
  }

  lemma EditsDiffer(t: EventType, u: EventType)
    requires QueueFamily(t) && QueueFamily(u) && !u.QueueUpdate?
    ensures Edit(Edit(Before(t).queue, Sample(t, 1).body.edit), Sample(u, 2).body.edit)
         != Edit(Before(t).queue, Sample(u, 2).body.edit)
  {
    var x, y := SomeItem(1), SomeItem(2);
    var q := Edit(Before(t).queue, Sample(t, 1).body.edit);
    assert Drop([x], 2) == [x] + Drop([], 2) == [x];
    assert Drop([x], 1) == [];
    assert q == if t.ItemRemovedEvent? then [] else [x];
    assert Edit([], Sample(u, 2).body.edit) == if u.ItemRemovedEvent? then [] else [y];
    assert x in Edit([x], Sample(u, 2).body.edit) by {
      if u.ItemUpdatedEvent? { assert Edit([x], Sample(u, 2).body.edit) == [y, x]; }
      if u.ItemAddedEvent? { assert Edit([x], Sample(u, 2).body.edit) == [x, y]; }
    }
    assert x !in Edit([], Sample(u, 2).body.edit);
  }

  lemma DeliveredQueue(v: View, e: Event)
    requires Proper(e)
    ensures Delivered(v, e).queue == if QueueFamily(e.kind) then Edit(v.queue, e.body.edit) else v.queue
  {
    hide Edit;
  }

  lemma QueueShows(t: EventType, u: EventType)
    requires QueueFamily(t) && !u.QueueSnapshot? && !u.QueueUpdate?
    ensures Shows(Before(t), Sample(t, 1), Sample(u, 2))
  {
    hide Delivered, Proper;
    var v, e, f := Before(t), Sample(t, 1), Sample(u, 2);
    var w := Delivered(v, e);
    DeliveredQueue(v, e);
    DeliveredQueue(v, f);
    DeliveredQueue(w, f);
    if QueueFamily(u) {
      EditsDiffer(t, u);
    } else {
      assert Drop([SomeItem(1)], 1) == [];
      assert |w.queue| != |v.queue|;
    }
  }

  lemma UsersShow(t: EventType, u: EventType)
    requires UsersFamily(t) && !u.QueueSnapshot? && !u.UsersUpdate?
    ensures Shows(Before(t), Sample(t, 1), Sample(u, 2))
  {
    hide Edit;
    var v, e, f := Before(t), Sample(t, 1), Sample(u, 2);
    assert |Delivered(Delivered(v, e), f).users| > |Delivered(v, f).users|;
  }

  lemma DeliveredLatest(v: View, e: Event)
    requires Proper(e)
    ensures Delivered(v, e).latest == if LatestOnly(e.kind) then v.latest[e.kind := e.body] else v.latest
  {
    hide Edit;
  }

  lemma LatestShows(t: EventType, u: EventType)
    requires LatestOnly(t) && !u.QueueSnapshot? && u != t
    ensures Shows(Before(t), Sample(t, 1), Sample(u, 2))
  {
    hide Delivered, Proper;
    var v, e, f := Before(t), Sample(t, 1), Sample(u, 2);
    DeliveredLatest(v, e);
    DeliveredLatest(v, f);
    DeliveredLatest(Delivered(v, e), f);
    assert t in Delivered(Delivered(v, e), f).latest && t !in Delivered(v, f).latest;
  }

  lemma OthersShow(t: EventType, u: EventType)
    requires t.OtherEvent? && !u.QueueSnapshot?
    ensures Shows(Before(t), Sample(t, 1), Sample(u, 2))
  {
    hide Edit;
    var v, e, f := Before(t), Sample(t, 1), Sample(u, 2);
    assert |Delivered(Delivered(v, e), f).others| > |Delivered(v, f).others|;
  }

  lemma SupersededIsHidden(v: View, e: Event, f: Event)
    requires Proper(e) && Proper(f) && Supersedes(f.kind, e.kind)
    ensures !Shows(v, e, f)
  {
    hide Apply, Convert, Promote;
    ApplyStaysInFamily(v, e);
    SupersedingReplaces(v, Delivered(v, e), f, e.kind);
  }

  /** A type replaces another exactly when no records of the two types let the earlier one show. */
  lemma SupersedesIff(u: EventType, t: EventType)
    requires !t.QueueSnapshot? && !u.QueueSnapshot?
    ensures Supersedes(u, t) <==> !Matters(t, u)
  {
    hide Shows, Proper;
    if Supersedes(u, t) {
      forall v, e, f | Proper(e) && Proper(f) && e.kind == t && f.kind == u
        ensures !Shows(v, e, f)
      {
        SupersededIsHidden(v, e, f);
      }
    } else {
      if QueueFamily(t) { QueueShows(t, u); }
      else if UsersFamily(t) { UsersShow(t, u); }
      else if LatestOnly(t) { LatestShows(t, u); }
      else { OthersShow(t, u); }
    }
  }

  // ---------------------------------------------------------------- what a batch delivers

  /** A record is kept exactly when it may show behind each of the later records of the batch, judged by their types. */
  lemma KeptIff(messages: seq<Event>, i: nat)
    requires i < |messages| && forall k :: 0 <= k < |messages| ==> Proper(messages[k])
    ensures Survives(messages, i) <==> forall j :: i < j < |messages| ==> Matters(messages[i].kind, messages[j].kind)
  {
    forall j | i < j < |messages|
      ensures Supersedes(messages[j].kind, messages[i].kind) <==> !Matters(messages[i].kind, messages[j].kind)
    {
      SupersedesIff(messages[j].kind, messages[i].kind);
    }
    hide Matters, Supersedes;
  }

  /** Of two records of one batch that are both delivered, the earlier one may show behind the later one. */
  lemma DeliveredMatters(batch: seq<Event>, j: nat, k: nat)
    requires j < k < |Kept(batch, 0)| && forall i :: 0 <= i < |batch| ==> Proper(batch[i])
    ensures Matters(Kept(batch, 0)[j].kind, Kept(batch, 0)[k].kind)
  {
    CompactionIsTight(batch, 0, j, k);
    var m := KeptAreFrom(batch, 0, j);
    var n := KeptAreFrom(batch, 0, k);
    SupersedesIff(Kept(batch, 0)[k].kind, Kept(batch, 0)[j].kind);
  }

  /** What is sent for a delivered record: itself, but a client is never sent a queue update as it is stored. It is sent
      the whole queue, or the record for one item if the batch is a single update that carries one. */
  lemma SentPayload(batch: seq<Event>, k: nat)
    requires k < |Deliveries(batch)| && forall i :: 0 <= i < |batch| ==> WellFormed(batch[i])
    ensures var e := Deliveries(batch)[k];
            Convert(e) == if !e.kind.QueueUpdate? then Payload(e.kind, e.body)
                          else if |batch| == 1 && batch[0].compact.Some? then batch[0].compact.value
                          else Payload(QueueSnapshot, e.body)
    ensures !Convert(Deliveries(batch)[k]).kind.QueueUpdate?
  {
    var at := KeptAreFrom(batch, 0, k);
    assert Kept(batch, 0)[k] == batch[at];
  }

  /** The payloads of replaced components that a record writes. */
  function Written(e: Event): set<EventType>
  {
    Delivered(View([], [], map[], []), e).latest.Keys
  }

  /** No two delivered records write the same component, nothing that touches the users stands before a users update,
      and nothing that touches the queue before a queue update. */
  lemma NothingIsOverwritten(batch: seq<Event>, j: nat, k: nat, v: View)
    requires j < k < |Kept(batch, 0)| && forall i :: 0 <= i < |batch| ==> Proper(batch[i])
    ensures var e, f := Kept(batch, 0)[j], Kept(batch, 0)[k];
            && Written(e) !! Written(f)
            && (f.kind.UsersUpdate? ==> Delivered(v, e).users == v.users)
            && (f.kind.QueueUpdate? ==> Delivered(v, e).queue == v.queue)
  {
    CompactionIsTight(batch, 0, j, k);
    var m := KeptAreFrom(batch, 0, j);
    var n := KeptAreFrom(batch, 0, k);
    hide Edit, Kept, Survives;
  }
}
