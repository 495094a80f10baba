/** Compacting a batch of room events, and what the delivered events do to a client's view. */
module Compaction {
  import opened Wrappers
  import opened QueueDeltas

  datatype EventType =
    | QueueUpdate | ItemAddedEvent | ItemUpdatedEvent | ItemRemovedEvent | QueueSnapshot
    | UsersUpdate | UserJoined | UserLeft
    | PlaybackUpdate | MembersUpdate | SettingsUpdate | SkipVoteEvent | NewHost | GenerationUpdate
    | OtherEvent(name: string)

  datatype Body = Queue(edit: QueueRecord) | Raw(data: string)

  /** A RoomEventV3Payload. */
  datatype Payload = Payload(kind: EventType, body: Body)

  /** A stored RoomEventV3 with its stream ID. */
  datatype Event = Event(id: nat, kind: EventType, body: Body, compact: Option<Payload>)

  predicate IsQueuePayload(p: Payload)
  {
    && p.body.Queue?
    && (p.kind.ItemAddedEvent? || p.kind.ItemUpdatedEvent? || p.kind.ItemRemovedEvent? || p.kind.QueueSnapshot?)
  }

  /** What the handlers append: queue updates carry the whole queue, and only they carry a compact form,
      which is a queue record too. */
  predicate WellFormed(e: Event)
  {
    && (e.kind.QueueUpdate? ==> e.body.Queue? && e.body.edit.Snapshot?)
    && (e.compact.Some? ==> e.kind.QueueUpdate? && IsQueuePayload(e.compact.value))
  }

  // ---------------------------------------------------------------- compaction

  predicate QueueFamily(t: EventType)
  {
    t.QueueUpdate? || t.ItemAddedEvent? || t.ItemUpdatedEvent? || t.ItemRemovedEvent?
  }

  predicate TouchesQueue(t: EventType) { QueueFamily(t) || t.QueueSnapshot? }

  predicate UsersFamily(t: EventType) { t.UsersUpdate? || t.UserJoined? || t.UserLeft? }

  predicate LatestOnly(t: EventType)
  {
    t.PlaybackUpdate? || t.MembersUpdate? || t.SettingsUpdate? || t.SkipVoteEvent? || t.NewHost? || t.GenerationUpdate?
  }

  /** A later event of one type makes an earlier one of the other type redundant. */
  predicate Supersedes(later: EventType, earlier: EventType)
  {
    || (later.QueueUpdate? && QueueFamily(earlier))
    || (later.UsersUpdate? && UsersFamily(earlier))
    || (later == earlier && LatestOnly(earlier))
  }

  predicate Survives(messages: seq<Event>, i: nat)
    requires i < |messages|
  {
    forall j :: i < j < |messages| ==> !Supersedes(messages[j].kind, messages[i].kind)
  }

  /** The events at or behind i that no later event of the batch supersedes, in order. */
  function Kept(messages: seq<Event>, i: nat): seq<Event>
    requires i <= |messages|
    decreases |messages| - i
  {
    if i == |messages| then []
    else (if Survives(messages, i) then [messages[i]] else []) + Kept(messages, i + 1)
  }

  /** The backward pass: its seen flags mark exactly the events that nothing later supersedes. */
  method MarkKept(messages: seq<Event>) returns (keep: array<bool>)
    ensures fresh(keep) && keep.Length == |messages|
    ensures forall i :: 0 <= i < |messages| ==> keep[i] == Survives(messages, i)
  {
    keep := new bool[|messages|];
    var latestOnlySeen: set<EventType> := {};
    var queueSnapshotSeen, usersSnapshotSeen := false, false;
    var index := |messages|;
    while index > 0
      invariant 0 <= index <= |messages|
      invariant queueSnapshotSeen == SeenFrom(messages, index, QueueUpdate)
      invariant usersSnapshotSeen == SeenFrom(messages, index, UsersUpdate)
      invariant forall t :: t in latestOnlySeen <==> LatestOnly(t) && SeenFrom(messages, index, t)
      invariant forall i :: index <= i < |messages| ==> keep[i] == Survives(messages, i)
    {
      index := index - 1;
      var messageType := messages[index].kind;
      SurvivesUnseen(messages, index);
      SeenMore(messages, index);
      hide SeenFrom, Survives;
      match messageType {
        case QueueUpdate =>
          keep[index] := !queueSnapshotSeen;
          queueSnapshotSeen := true;
        case ItemAddedEvent | ItemUpdatedEvent | ItemRemovedEvent =>
          keep[index] := !queueSnapshotSeen;
        case UsersUpdate =>
          keep[index] := !usersSnapshotSeen;
          usersSnapshotSeen := true;
        case UserJoined | UserLeft =>
          keep[index] := !usersSnapshotSeen;
        case PlaybackUpdate | MembersUpdate | SettingsUpdate | SkipVoteEvent | NewHost | GenerationUpdate =>
          keep[index] := messageType !in latestOnlySeen;
          latestOnlySeen := latestOnlySeen + {messageType};
        case _ =>
          keep[index] := true;
      }
    }
  }

  ghost predicate SeenFrom(messages: seq<Event>, i: nat, t: EventType)
  {
    exists j :: i <= j < |messages| && messages[j].kind == t
  }

  lemma SeenMore(messages: seq<Event>, i: nat)
    requires i < |messages|
    ensures forall t :: SeenFrom(messages, i, t) <==> t == messages[i].kind || SeenFrom(messages, i + 1, t)
  {
  }

  lemma SurvivesUnseen(messages: seq<Event>, i: nat)
    requires i < |messages|
    ensures var t := messages[i].kind;
            Survives(messages, i) <==>
            && (QueueFamily(t) ==> !SeenFrom(messages, i + 1, QueueUpdate))
            && (UsersFamily(t) ==> !SeenFrom(messages, i + 1, UsersUpdate))
            && (LatestOnly(t) ==> !SeenFrom(messages, i + 1, t))
  {
    var t := messages[i].kind;
    assert forall j :: i < j < |messages| ==>
      (Supersedes(messages[j].kind, t) <==>
       (messages[j].kind == QueueUpdate && QueueFamily(t)) || (messages[j].kind == UsersUpdate && UsersFamily(t)) ||
       (messages[j].kind == t && LatestOnly(t)));
  }

  lemma Regroup(before: seq<Event>, e: Event, rest: seq<Event>)
    ensures before + ([e] + rest) == before + [e] + rest
  {
  }

  lemma KeptFrom(messages: seq<Event>, i: nat, before: seq<Event>)
    requires i < |messages|
    ensures Survives(messages, i) ==> before + Kept(messages, i) == before + [messages[i]] + Kept(messages, i + 1)
    ensures !Survives(messages, i) ==> Kept(messages, i) == Kept(messages, i + 1)
  {
    var rest := Kept(messages, i + 1);
    assert [] + rest == rest;
    Regroup(before, messages[i], rest);
    hide Survives;
  }

  method CompactReplayMessages(messages: seq<Event>) returns (compacted: seq<Event>)
    ensures compacted == Kept(messages, 0)
  {
    var keep := MarkKept(messages);
    compacted := [];
    var index := 0;
    assert Kept(messages, |messages|) == [];
    hide Kept, Survives;
    while index < |messages|
      invariant 0 <= index <= |messages|
      invariant forall i :: 0 <= i < |messages| ==> keep[i] == Survives(messages, i)
      invariant compacted + Kept(messages, index) == Kept(messages, 0)
    {
      KeptFrom(messages, index, compacted);
      if keep[index] {
        compacted := compacted + [messages[index]];
      }
      index := index + 1;
    }
  }

  // ---------------------------------------------------------------- delivery

  /** The listening loop's promotion of a kept queue record. */
  function Promote(e: Event): Event
  {
    if e.kind.QueueUpdate? then e.(compact := Some(Payload(QueueSnapshot, e.body))) else e
  }

  function PromoteAll(events: seq<Event>): (promoted: seq<Event>)
    ensures |promoted| == |events| && forall i :: 0 <= i < |events| ==> promoted[i] == Promote(events[i])
  {
    if events == [] then [] else [Promote(events[0])] + PromoteAll(events[1..])
  }

  /** The events one batch delivers: compacted, queue records promoted unless the batch is a single record. */
  function Deliveries(batch: seq<Event>): seq<Event>
  {
    if |batch| > 1 then PromoteAll(Kept(batch, 0)) else Kept(batch, 0)
  }

  /** ToRoomEventV3Payload. */
  function Convert(e: Event): Payload
  {
    var result := if e.compact.Some? then e.compact.value else Payload(e.kind, e.body);
    if result.kind.QueueUpdate? then result.(kind := QueueSnapshot) else result
  }

  // ---------------------------------------------------------------- a client's view

  /** The queue, the users count and changes since, the latest payload of each replaced component, and the
      rest in order. */
  datatype View = View(queue: seq<Shown>, users: seq<Payload>, latest: map<EventType, Body>, others: seq<Payload>)

  function Apply(v: View, p: Payload): View
  {
    match p.kind
    case QueueUpdate | QueueSnapshot | ItemAddedEvent | ItemUpdatedEvent | ItemRemovedEvent =>
      if p.body.Queue? then v.(queue := Edit(v.queue, p.body.edit)) else v
    case UsersUpdate => v.(users := [p])
    case UserJoined | UserLeft => v.(users := v.users + [p])
    case OtherEvent(_) => v.(others := v.others + [p])
    case _ => v.(latest := v.latest[p.kind := p.body])
  }

  /** Every event on its own, as a subscriber that reads one record at a time sees them. */
  function Fold(v: View, events: seq<Event>): View
    decreases |events|
  {
    if events == [] then v else Fold(Apply(v, Convert(events[0])), events[1..])
  }

  lemma {:induction false} FoldConcat(v: View, a: seq<Event>, b: seq<Event>)
    ensures Fold(v, a + b) == Fold(Fold(v, a), b)
    decreases |a|
  {
    if a == [] {
      assert a + b == b;
    } else {
      assert (a + b)[1..] == a[1..] + b;
      FoldConcat(Apply(v, Convert(a[0])), a[1..], b);
    }
  }

  /** A lone queue record's delta and its whole queue do the same to this view. */
  predicate FaithfulAt(v: View, e: Event)
    requires WellFormed(e)
  {
    Apply(v, Convert(e)) == Apply(v, Convert(Promote(e)))
  }

  predicate Faithful(v: View, events: seq<Event>)
    decreases |events|
  {
    events == [] ||
    (WellFormed(events[0]) && FaithfulAt(v, events[0]) && Faithful(Apply(v, Convert(events[0])), events[1..]))
  }

  // ---------------------------------------------------------------- preservation

  /** The views differ at most in what an event of this type replaces. */
  predicate SameBut(v: View, w: View, t: EventType)
  {
    && (QueueFamily(t) || v.queue == w.queue)
    && (UsersFamily(t) || v.users == w.users)
    && (if LatestOnly(t) then v.latest - {t} == w.latest - {t} else v.latest == w.latest)
    && v.others == w.others
  }

  lemma LatestWithout(m: map<EventType, Body>, n: map<EventType, Body>, t: EventType, k: EventType, b: Body)
    requires m - {t} == n - {t}
    ensures m[k := b] - {t} == n[k := b] - {t}
    ensures k == t ==> m[k := b] == n[k := b]
  {
    assert m[k := b] - {t} == if k == t then m - {t} else (m - {t})[k := b];
    assert n[k := b] - {t} == if k == t then n - {t} else (n - {t})[k := b];
    if k == t {
      assert m[t := b] == (m - {t})[t := b];
      assert n[t := b] == (n - {t})[t := b];
    }
  }

  lemma SnapshotReplaces(q: seq<Shown>, edit: QueueRecord)
    requires edit.Snapshot?
    ensures Edit(q, edit) == edit.items
  {
  }

  /** An event replaces whatever it supersedes. */
  lemma SupersedingReplaces(v: View, w: View, e: Event, t: EventType)
    requires WellFormed(e) && SameBut(v, w, t) && Supersedes(e.kind, t)
    ensures Apply(v, Convert(Promote(e))) == Apply(w, Convert(Promote(e)))
  {
    hide Edit;
    var p := Convert(Promote(e));
    if e.kind.QueueUpdate? {
      SnapshotReplaces(v.queue, p.body.edit);
      SnapshotReplaces(w.queue, p.body.edit);
    }
    if LatestOnly(t) {
      LatestWithout(v.latest, w.latest, t, p.kind, p.body);
    }
  }

  lemma ApplyKeepsSameBut(v: View, w: View, p: Payload, t: EventType)
    requires SameBut(v, w, t)
    ensures SameBut(Apply(v, p), Apply(w, p), t)
  {
    hide Edit;
    if LatestOnly(t) {
      LatestWithout(v.latest, w.latest, t, p.kind, p.body);
    }
  }

  /** What a superseded event did is gone once the superseding one is applied. */
  lemma {:induction false} Absorbed(v: View, w: View, batch: seq<Event>, i: nat, t: EventType)
    requires i <= |batch| && SameBut(v, w, t) && forall k :: 0 <= k < |batch| ==> WellFormed(batch[k])
    requires exists j :: i <= j < |batch| && Supersedes(batch[j].kind, t)
    ensures Fold(v, PromoteAll(batch[i..])) == Fold(w, PromoteAll(batch[i..]))
    decreases |batch| - i
  {
    var e := Promote(batch[i]);
    assert PromoteAll(batch[i..])[1..] == PromoteAll(batch[i + 1..]);
    if Supersedes(batch[i].kind, t) {
      SupersedingReplaces(v, w, batch[i], t);
    } else {
      ApplyKeepsSameBut(v, w, Convert(e), t);
      Absorbed(Apply(v, Convert(e)), Apply(w, Convert(e)), batch, i + 1, t);
    }
  }

  lemma ApplyStaysInFamily(v: View, e: Event)
    requires WellFormed(e) && (QueueFamily(e.kind) || UsersFamily(e.kind) || LatestOnly(e.kind))
    ensures SameBut(v, Apply(v, Convert(Promote(e))), e.kind)
  {
  }

  lemma {:induction false} KeptFolds(v: View, batch: seq<Event>, i: nat)
    requires i <= |batch| && forall k :: 0 <= k < |batch| ==> WellFormed(batch[k])
    ensures Fold(v, PromoteAll(Kept(batch, i))) == Fold(v, PromoteAll(batch[i..]))
    decreases |batch| - i
  {
    if i < |batch| {
      var w := Apply(v, Convert(Promote(batch[i])));
      assert PromoteAll(batch[i..])[1..] == PromoteAll(batch[i + 1..]);
      if Survives(batch, i) {
        KeptFolds(w, batch, i + 1);
        assert Kept(batch, i)[1..] == Kept(batch, i + 1);
        assert PromoteAll(Kept(batch, i))[1..] == PromoteAll(Kept(batch, i + 1));
      } else {
        assert Kept(batch, i) == Kept(batch, i + 1);
        KeptFolds(v, batch, i + 1);
        ApplyStaysInFamily(v, batch[i]);
        Absorbed(v, w, batch, i + 1, batch[i].kind);
      }
    }
  }

  lemma {:induction false} PromotedFolds(v: View, events: seq<Event>)
    requires Faithful(v, events)
    ensures Fold(v, PromoteAll(events)) == Fold(v, events)
    ensures forall k :: 0 <= k < |events| ==> WellFormed(events[k])
    decreases |events|
  {
    if events != [] {
      assert PromoteAll(events)[1..] == PromoteAll(events[1..]);
      PromotedFolds(Apply(v, Convert(events[0])), events[1..]);
    }
  }

  /** One batch: the delivered events end in the same view as every record on its own. */
  lemma BatchPreservesView(v: View, batch: seq<Event>)
    requires Faithful(v, batch)
    ensures Fold(v, Deliveries(batch)) == Fold(v, batch)
  {
    if |batch| > 1 {
      PromotedFolds(v, batch);
      KeptFolds(v, batch, 0);
      assert batch[0..] == batch;
    } else if |batch| == 1 {
      assert Kept(batch, 0) == [batch[0]] + Kept(batch, 1);
      assert Kept(batch, 0) == batch;
    }
  }

  /** The latest payloads do not depend on how queue records are delivered. */
  lemma {:induction false} LatestIgnoresQueue(v: View, w: View, events: seq<Event>)
    requires v.latest == w.latest && forall k :: 0 <= k < |events| ==> WellFormed(events[k])
    ensures Fold(v, PromoteAll(events)).latest == Fold(w, events).latest
    decreases |events|
  {
    if events != [] {
      assert PromoteAll(events)[1..] == PromoteAll(events[1..]);
      LatestIgnoresQueue(Apply(v, Convert(Promote(events[0]))), Apply(w, Convert(events[0])), events[1..]);
    }
  }

  lemma BatchPreservesLatest(v: View, w: View, batch: seq<Event>)
    requires v.latest == w.latest && forall k :: 0 <= k < |batch| ==> WellFormed(batch[k])
    ensures Fold(v, Deliveries(batch)).latest == Fold(w, batch).latest
  {
    if |batch| > 1 {
      KeptFolds(v, batch, 0);
      assert batch[0..] == batch;
      LatestIgnoresQueue(v, w, batch);
    } else if |batch| == 1 {
      assert Kept(batch, 0) == [batch[0]] + Kept(batch, 1) == batch;
      assert Fold(v, batch) == Apply(v, Convert(batch[0])) && Fold(w, batch) == Apply(w, Convert(batch[0]));
    }
  }

  function Flatten(batches: seq<seq<Event>>): seq<Event>
  {
    if batches == [] then [] else batches[0] + Flatten(batches[1..])
  }

  function DeliverAll(batches: seq<seq<Event>>): seq<Event>
  {
    if batches == [] then [] else Deliveries(batches[0]) + DeliverAll(batches[1..])
  }

  lemma {:induction false} FaithfulConcat(v: View, a: seq<Event>, b: seq<Event>)
    ensures Faithful(v, a + b) <==> Faithful(v, a) && Faithful(Fold(v, a), b)
    decreases |a|
  {
    if a == [] {
      assert a + b == b;
    } else {
      assert (a + b)[1..] == a[1..] + b;
      FaithfulConcat(Apply(v, Convert(a[0])), a[1..], b);
    }
  }

  /** Any way of cutting a log into batches delivers events that end in the view of the whole log. */
  lemma {:induction false} CompactionPreservesView(v: View, batches: seq<seq<Event>>)
    requires Faithful(v, Flatten(batches))
    ensures Fold(v, DeliverAll(batches)) == Fold(v, Flatten(batches))
    decreases |batches|
  {
    if batches != [] {
      var batch, rest := batches[0], batches[1..];
      FaithfulConcat(v, batch, Flatten(rest));
      BatchPreservesView(v, batch);
      FoldConcat(v, batch, Flatten(rest));
      FoldConcat(v, Deliveries(batch), DeliverAll(rest));
      CompactionPreservesView(Fold(v, batch), rest);
    }
  }

  lemma {:induction false} KeptEndsLast(batch: seq<Event>, i: nat)
    requires i < |batch|
    ensures Kept(batch, i) != [] && Kept(batch, i)[|Kept(batch, i)| - 1] == batch[|batch| - 1]
    decreases |batch| - i
  {
    if i == |batch| - 1 {
      assert Kept(batch, i) == [batch[i]] + Kept(batch, i + 1) == [batch[i]];
    } else {
      KeptEndsLast(batch, i + 1);
    }
  }

  /** The last record of a batch is always delivered, so the cursor ends at its ID. */
  lemma LastIsDelivered(batch: seq<Event>)
    requires batch != []
    ensures Deliveries(batch) != [] && Deliveries(batch)[|Deliveries(batch)| - 1].id == batch[|batch| - 1].id
  {
    KeptEndsLast(batch, 0);
  }

  lemma {:induction false} KeptAreFrom(batch: seq<Event>, i: nat, k: nat) returns (at: nat)
    requires i <= |batch| && k < |Kept(batch, i)|
    ensures i <= at < |batch| && Survives(batch, at) && Kept(batch, i)[k] == batch[at]
    ensures k > 0 || !Survives(batch, i) ==> at > i
    decreases |batch| - i
  {
    if Survives(batch, i) && k == 0 {
      at := i;
    } else {
      at := KeptAreFrom(batch, i + 1, if Survives(batch, i) then k - 1 else k);
    }
  }

  /** Nothing redundant is left: of the compacted records none supersedes an earlier one. */
  lemma {:induction false} CompactionIsTight(batch: seq<Event>, i: nat, j: nat, k: nat)
    requires i <= |batch| && j < k < |Kept(batch, i)|
    ensures !Supersedes(Kept(batch, i)[k].kind, Kept(batch, i)[j].kind)
    decreases |batch| - i
  {
    if !Survives(batch, i) {
      CompactionIsTight(batch, i + 1, j, k);
    } else if j == 0 {
      var at := KeptAreFrom(batch, i, k);
    } else {
      CompactionIsTight(batch, i + 1, j - 1, k - 1);
    }
  }

  /** Delivered latest payloads are those of the whole log, with no assumption on the queue records. */
  lemma {:induction false} CompactionPreservesLatest(v: View, w: View, batches: seq<seq<Event>>)
    requires v.latest == w.latest && forall e :: e in Flatten(batches) ==> WellFormed(e)
    ensures Fold(v, DeliverAll(batches)).latest == Fold(w, Flatten(batches)).latest
    decreases |batches|
  {
    if batches != [] {
      var batch, rest := batches[0], batches[1..];
      assert forall k :: 0 <= k < |batch| ==> batch[k] in Flatten(batches);
      assert forall e :: e in Flatten(rest) ==> e in Flatten(batches);
      BatchPreservesLatest(v, w, batch);
      FoldConcat(w, batch, Flatten(rest));
      FoldConcat(v, Deliveries(batch), DeliverAll(rest));
      CompactionPreservesLatest(Fold(v, Deliveries(batch)), Fold(w, batch), rest);
    }
  }
}
