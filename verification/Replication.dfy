/**
 Server and client agree after every run: folding the emitted changes gives the client the server's
 entities and their display order. The stream protocol carries that through redelivered frames.
 */
module Replication {
  import opened Basics
  import opened Conversation
  import opened SessionClient

  // ---------------------------------------------------------------- state invariants

  /** What the normalizer puts into facts: identities say what kind of entity they name. */
  predicate WellFormedEntity(entity: Entity) {
    && (entity.id.AssistantId? <==> entity.Message? && entity.role == Assistant)
    && (entity.id.AssistantId? ==> entity.requestKey == Some(entity.id.key))
    && (entity.id.ExecutionId? <==> entity.Execution?)
    && (entity.Tool? <==> entity.id.DeclaredToolId? || entity.id.StartedToolId?)
  }

  predicate WellFormed(fact: Fact) {
    fact.Upsert? ==> WellFormedEntity(fact.entity) && (fact.entity.Message? ==> fact.entity.toolIds.None?)
  }

  /** Entities are stored under their own identity, and the order map holds exactly their positions. */
  ghost predicate Keyed(s: State) {
    && s.order.Keys == s.entities.Keys
    && forall id :: id in s.entities ==>
         s.entities[id].id == id && WellFormedEntity(s.entities[id]) && s.order[id] == s.entities[id].position
  }

  /** An assistant message lists exactly the tools recorded for its request. */
  ghost predicate MessageListsTools(s: State, id: EntityId)
    requires id in s.entities
  {
    id.AssistantId? && s.entities[id].Message? ==> Listed(s.entities[id].toolIds) == ToolsOf(s.toolsByRequest, id.key)
  }

  ghost predicate NoRepeats<T>(list: seq<T>) {
    forall i, j :: 0 <= i < j < |list| ==> list[i] != list[j]
  }

  ghost predicate ToolsConsistent(s: State) {
    && (forall id :: id in s.entities ==> MessageListsTools(s, id))
    && (forall key :: key in s.toolsByRequest ==> NoRepeats(s.toolsByRequest[key]))
  }

  ghost predicate Consistent(s: State) {
    Keyed(s) && ToolsConsistent(s)
  }

  lemma {:induction false} AppliedKeyed(s: State, fact: Fact)
    requires Keyed(s) && WellFormed(fact)
    ensures Keyed(Applied(s, fact).state)
  {
    hide MergeTool, ToolsOf, Attached, Settled;
    if fact.Upsert? {
      UpsertKeyed(s, fact.entity);
    }
  }

  /** The entity an upsert stores and the message it is attached to. */
  lemma {:induction false} UpsertFacts(s: State, proposed: Entity)
    requires Keyed(s) && WellFormedEntity(proposed)
    ensures var next := Proposed(s, proposed);
            var entity := Positioned(s, next);
            && next.id == entity.id == proposed.id && next.version == entity.version == proposed.version
            && WellFormedEntity(entity)
            && (entity.id in s.entities ==> entity.position == s.entities[entity.id].position)
            && (proposed.Tool? <==> entity.Tool?)
            && (proposed.Tool? ==> entity.toolKey == proposed.toolKey)
  {
  }

  lemma {:induction false} AssistantFacts(s: State, entity: Entity)
    requires Keyed(s) && WellFormedEntity(entity)
    ensures match RelatedAssistant(s.entities, entity)
            case None => true
            case Some(a) =>
              && entity.Tool? && a.id == AssistantId(entity.toolKey) && a.id in s.entities && a.id != entity.id
              && a.Message? && a.role == Assistant && WellFormedEntity(a)
              && a.position == s.entities[a.id].position && a.version == s.entities[a.id].version
  {
  }

  lemma {:induction false} UpsertKeyed(s: State, proposed: Entity)
    requires Keyed(s) && WellFormedEntity(proposed)
    ensures Keyed(AppliedUpsert(s, proposed).state)
  {
    hide Proposed, Positioned, RelatedAssistant, Related, WellFormedEntity;
    UpsertFacts(s, proposed);
    AssistantFacts(s, Positioned(s, Proposed(s, proposed)));
  }

  /** Positions are fixed and versions never fall while an entity is present. */
  lemma {:induction false} PositionsFixed(s: State, fact: Fact, id: EntityId)
    requires Keyed(s) && WellFormed(fact)
    requires id in s.entities && id in Applied(s, fact).state.entities
    ensures var before, after := s.entities[id], Applied(s, fact).state.entities[id];
            after.position == before.position && after.version >= before.version
  {
    hide Proposed, Positioned, RelatedAssistant, Related, WellFormedEntity, Settled;
    if fact.Upsert? {
      UpsertFacts(s, fact.entity);
      AssistantFacts(s, Positioned(s, Proposed(s, fact.entity)));
    }
  }

  lemma {:induction false} UpsertTools(s: State, proposed: Entity)
    requires Consistent(s) && WellFormedEntity(proposed) && (proposed.Message? ==> proposed.toolIds.None?)
    ensures ToolsConsistent(AppliedUpsert(s, proposed).state)
  {
    hide Proposed, Positioned, Attached, WellFormedEntity;
    UpsertFacts(s, proposed);
    var entity := Positioned(s, Proposed(s, proposed));
    AssistantFacts(s, entity);
    var s' := AppliedUpsert(s, proposed).state;
    if s' != s {
      if entity.Tool? {
        ToolAttached(s, entity);
      } else {
        MessageTools(s, proposed);
      }
      forall other | other in s'.entities ensures MessageListsTools(s', other) {
        if other in s.entities {
          assert MessageListsTools(s, other);
        }
      }
    }
  }

  /** A message that is stored carries the tools already recorded for its request. */
  lemma {:induction false} MessageTools(s: State, proposed: Entity)
    requires WellFormedEntity(proposed) && (proposed.Message? ==> proposed.toolIds.None?)
    ensures var entity := Positioned(s, Proposed(s, proposed));
            proposed.id.AssistantId? ==>
              entity.Message? && Listed(entity.toolIds) == ToolsOf(s.toolsByRequest, proposed.id.key)
  {
  }

  /** A tool that is stored is appended to its request's list and to the message, or was in both. */
  lemma {:induction false} ToolAttached(s: State, entity: Entity)
    requires Consistent(s) && WellFormedEntity(entity) && entity.Tool?
    ensures var id := AssistantId(entity.toolKey);
            var related := ToolsOf(Related(s.toolsByRequest, entity), entity.toolKey);
            && NoRepeats(related)
            && (id in s.entities ==>
                  match RelatedAssistant(s.entities, entity)
                  case None => Listed(s.entities[id].toolIds) == related
                  case Some(a) => Listed(a.toolIds) == related)
  {
    var id := AssistantId(entity.toolKey);
    if id in s.entities {
      assert MessageListsTools(s, id);
    }
  }

  lemma {:induction false} AppliedConsistent(s: State, fact: Fact)
    requires Consistent(s) && WellFormed(fact)
    ensures Consistent(Applied(s, fact).state)
  {
    AppliedKeyed(s, fact);
    if fact.Upsert? {
      UpsertTools(s, fact.entity);
    } else {
      hide Settled, Noticed;
      var s' := Applied(s, fact).state;
      forall other | other in s'.entities ensures MessageListsTools(s', other) {
        assert MessageListsTools(s, other);
      }
    }
  }

  // ---------------------------------------------------------------- one fact, then every run

  /** A client that shows the server's state. */
  ghost predicate Mirrors(cmp: IdOrder, replica: Replica, s: State) {
    replica.entities == s.entities && DisplayOrder(cmp, s.entities, replica.order)
  }

  lemma {:induction false} TwoChanges(cmp: IdOrder, replica: Replica, first: Change, second: Change)
    ensures ChangesApplied(cmp, replica, [first]) == ChangeApplied(cmp, replica, first)
    ensures ChangesApplied(cmp, replica, [first, second])
         == match ChangeApplied(cmp, replica, first)
            case None => None
            case Some(middle) => ChangeApplied(cmp, middle, second)
  {
    hide ChangeApplied;
    assert [first, second][1..] == [second] && [first][1..] == [] && [second][1..] == [];
    match ChangeApplied(cmp, replica, first)
    case None =>
    case Some(middle) =>
      assert ChangesApplied(cmp, replica, [first, second]) == ChangesApplied(cmp, middle, [second]);
      assert ChangesApplied(cmp, middle, [second]) == ChangeApplied(cmp, middle, second) by {
        SingleApplied(cmp, middle, second);
      }
  }

  lemma {:induction false} SingleApplied(cmp: IdOrder, replica: Replica, change: Change)
    ensures ChangesApplied(cmp, replica, [change]) == ChangeApplied(cmp, replica, change)
  {
    hide ChangeApplied;
    assert [change][1..] == [];
  }

  lemma {:induction false} ReplaceMirrors(cmp: IdOrder, replica: Replica, s: State, entity: Entity)
    requires TotalOrder(cmp) && Mirrors(cmp, replica, s) && Keyed(s)
    requires entity.id in s.entities && entity.position == s.entities[entity.id].position
    ensures ChangeApplied(cmp, replica, UpsertEntity(entity))
         == Some(Replica(s.entities[entity.id := entity], replica.order))
    ensures DisplayOrder(cmp, s.entities[entity.id := entity], replica.order)
  {
    hide TotalOrder, Before;
    UpsertKeepsSorted(cmp, s.entities, replica.order, entity);
  }

  lemma {:induction false} RemoveMirrors(cmp: IdOrder, replica: Replica, s: State, id: EntityId)
    requires TotalOrder(cmp) && Mirrors(cmp, replica, s) && Keyed(s) && id in s.entities
    ensures var out := Applied(s, Remove(id));
            var replica' := ChangesApplied(cmp, replica, out.changes);
            replica'.Some? && Mirrors(cmp, replica'.value, out.state)
  {
    hide TotalOrder, Before, WithoutFirst, Sorted;
    TwoChanges(cmp, replica, RemoveEntity(id), RemoveFromOrder(id));
    RemoveKeepsSorted(cmp, s.entities, replica.order, id);
  }

  /** A new entity: written, then inserted by binary search at its place. */
  lemma {:induction false} InsertMirrors(cmp: IdOrder, replica: Replica, s: State, entity: Entity)
    requires TotalOrder(cmp) && Mirrors(cmp, replica, s) && Keyed(s) && entity.id !in s.entities
    ensures var changes := [UpsertEntity(entity), InsertInOrder(entity.id, Some(entity.position))];
            var replica' := ChangesApplied(cmp, replica, changes);
            && replica'.Some?
            && replica'.value.entities == s.entities[entity.id := entity]
            && DisplayOrder(cmp, s.entities[entity.id := entity], replica'.value.order)
  {
    hide TotalOrder, Before, Search, Keyed;
    var written := Replica(s.entities[entity.id := entity], replica.order);
    TwoChanges(cmp, replica, UpsertEntity(entity), InsertInOrder(entity.id, Some(entity.position)));
    UpsertKeepsSorted(cmp, s.entities, replica.order, entity);
    InsertKeepsSorted(cmp, written, entity.id);
  }

  lemma {:induction false} UpsertMirrors(cmp: IdOrder, replica: Replica, s: State, proposed: Entity)
    requires TotalOrder(cmp) && Mirrors(cmp, replica, s) && Keyed(s) && WellFormedEntity(proposed)
    ensures var out := AppliedUpsert(s, proposed);
            var replica' := ChangesApplied(cmp, replica, out.changes);
            replica'.Some? && Mirrors(cmp, replica'.value, out.state)
  {
    hide TotalOrder, Proposed, Positioned, RelatedAssistant, Related, WellFormedEntity, Search, Before, ChangeApplied,
      DisplayOrder;
    UpsertFacts(s, proposed);
    var next := Proposed(s, proposed);
    var entity := Positioned(s, next);
    AssistantFacts(s, entity);
    var out := AppliedUpsert(s, proposed);
    if out.changes != [] {
      var assistant := RelatedAssistant(s.entities, entity);
      var own := [UpsertEntity(entity)]
                 + if next.id !in s.entities then [InsertInOrder(entity.id, Some(entity.position))] else [];
      if next.id in s.entities {
        assert own == [UpsertEntity(entity)];
        TwoChanges(cmp, replica, UpsertEntity(entity), UpsertEntity(entity));
        ReplaceMirrors(cmp, replica, s, entity);
      } else {
        assert own == [UpsertEntity(entity), InsertInOrder(entity.id, Some(entity.position))];
        InsertMirrors(cmp, replica, s, entity);
      }
      var middle := ChangesApplied(cmp, replica, own).value;
      if assistant.Some? {
        assert out.changes == own + [UpsertEntity(assistant.value)];
        ChangesConcat(cmp, replica, own, [UpsertEntity(assistant.value)]);
        TwoChanges(cmp, middle, UpsertEntity(assistant.value), UpsertEntity(assistant.value));
        AttachMirrors(cmp, middle, s.entities[entity.id := entity], assistant.value);
        assert s.entities[entity.id := entity][assistant.value.id := assistant.value]
            == s.entities[assistant.value.id := assistant.value][entity.id := entity];
      } else {
        assert out.changes == own;
      }
    }
  }

  lemma {:induction false} AttachMirrors(cmp: IdOrder, replica: Replica, entities: map<EntityId, Entity>,
                                         assistant: Entity)
    requires replica.entities == entities && DisplayOrder(cmp, entities, replica.order)
    requires assistant.id in entities && entities[assistant.id].position == assistant.position
    ensures ChangeApplied(cmp, replica, UpsertEntity(assistant))
         == Some(Replica(entities[assistant.id := assistant], replica.order))
    ensures DisplayOrder(cmp, entities[assistant.id := assistant], replica.order)
  {
    hide Before;
    UpsertKeepsSorted(cmp, entities, replica.order, assistant);
  }

  /** Folding one fact's changes keeps the client a mirror; it never runs into a missing position. */
  lemma {:induction false} FactMirrors(cmp: IdOrder, replica: Replica, s: State, fact: Fact)
    requires TotalOrder(cmp) && Mirrors(cmp, replica, s) && Keyed(s) && WellFormed(fact)
    ensures var out := Applied(s, fact);
            var replica' := ChangesApplied(cmp, replica, out.changes);
            && replica'.Some? && Mirrors(cmp, replica'.value, out.state)
            && Keyed(out.state)
  {
    hide TotalOrder, Before, AppliedUpsert, ChangeApplied, Settled, Noticed, DisplayOrder;
    AppliedKeyed(s, fact);
    match fact
    case Remove(id) =>
      if id in s.entities {
        RemoveMirrors(cmp, replica, s, id);
      }
    case Upsert(entity) => UpsertMirrors(cmp, replica, s, entity);
    case _ =>
      var out := Applied(s, fact);
      if out.changes != [] {
        var entity := out.changes[0].entity;
        TwoChanges(cmp, replica, out.changes[0], out.changes[0]);
        ReplaceMirrors(cmp, replica, s, entity);
      }
  }

  function FactsApplied(s: State, facts: seq<Fact>): Outcome
    decreases |facts|
  {
    if facts == [] then Outcome(s, [])
    else
      var first := Applied(s, facts[0]);
      var rest := FactsApplied(first.state, facts[1..]);
      Outcome(rest.state, first.changes + rest.changes)
  }

  ghost predicate AllWellFormed(facts: seq<Fact>) {
    forall i :: 0 <= i < |facts| ==> WellFormed(facts[i])
  }

  /**
   Replication: for every sequence of facts, a client that mirrored the server before still does
   after folding the changes, in entities and in order.
   */
  lemma {:induction false} RunMirrors(cmp: IdOrder, replica: Replica, s: State, facts: seq<Fact>)
    requires TotalOrder(cmp) && Mirrors(cmp, replica, s) && Keyed(s) && AllWellFormed(facts)
    ensures var out := FactsApplied(s, facts);
            var replica' := ChangesApplied(cmp, replica, out.changes);
            && replica'.Some? && Mirrors(cmp, replica'.value, out.state)
            && Keyed(out.state)
    decreases |facts|
  {
    hide TotalOrder, Applied, Mirrors, Keyed, WellFormed;
    if facts != [] {
      var first := Applied(s, facts[0]);
      FactMirrors(cmp, replica, s, facts[0]);
      var middle := ChangesApplied(cmp, replica, first.changes).value;
      var rest := FactsApplied(first.state, facts[1..]);
      RunMirrors(cmp, middle, first.state, facts[1..]);
      ChangesConcat(cmp, replica, first.changes, rest.changes);
    }
  }

  lemma {:induction false} RunConsistent(s: State, facts: seq<Fact>)
    requires Consistent(s) && AllWellFormed(facts)
    ensures Consistent(FactsApplied(s, facts).state)
    decreases |facts|
  {
    hide Applied, Consistent, WellFormed;
    if facts != [] {
      AppliedConsistent(s, facts[0]);
      RunConsistent(Applied(s, facts[0]).state, facts[1..]);
    }
  }

  // ---------------------------------------------------------------- the stream

  lemma {:induction false} TouchedCovers(cmp: IdOrder, replica: Replica, changes: seq<Change>, id: EntityId)
    requires ChangesApplied(cmp, replica, changes).Some? && id !in Touched(changes)
    ensures var after := ChangesApplied(cmp, replica, changes).value.entities;
            (id in after <==> id in replica.entities) && (id in after ==> after[id] == replica.entities[id])
    decreases |changes|
  {
    hide Search;
    if changes != [] {
      TouchedCovers(cmp, ChangeApplied(cmp, replica, changes[0]).value, changes[1..], id);
    }
  }

  lemma {:induction false} OrderUntouched(cmp: IdOrder, replica: Replica, changes: seq<Change>)
    requires ChangesApplied(cmp, replica, changes).Some? && !Restructures(cmp, replica, changes)
    ensures ChangesApplied(cmp, replica, changes).value.order == replica.order
    decreases |changes|
  {
    hide Search;
    if changes != [] {
      OrderUntouched(cmp, ChangeApplied(cmp, replica, changes[0]).value, changes[1..]);
    }
  }

  /**
   An accepted update: exactly the next revision of the same target, its dirty set covers every
   changed entity, and without a structural change the order is as it was.
   */
  lemma {:induction false} UpdateReports(cmp: IdOrder, client: Client, frame: Frame, id: EntityId)
    requires frame.UpdateFrame? && Reduced(cmp, Some(client), frame).Ok?
    requires frame.cursor.revision > client.snapshot.cursor.revision
    ensures var after := Reduced(cmp, Some(client), frame).value;
            var before, now := client.snapshot.replica, after.snapshot.replica;
            && frame.previousRevision == client.snapshot.cursor.revision
            && after.snapshot.cursor == frame.cursor
            && frame.cursor == client.snapshot.cursor.(revision := client.snapshot.cursor.revision + 1)
            && (id !in after.dirty ==>
                  (id in before.entities <==> id in now.entities)
                  && (id in now.entities ==> now.entities[id] == before.entities[id]))
            && (!after.structureChanged ==> now.order == before.order)
  {
    hide ChangesApplied, Touched, Restructures;
    if frame.delta.Some? {
      var changes := frame.delta.value.changes;
      if id !in Touched(changes) {
        TouchedCovers(cmp, client.snapshot.replica, changes, id);
      }
      if !Restructures(cmp, client.snapshot.replica, changes) {
        OrderUntouched(cmp, client.snapshot.replica, changes);
      }
    }
  }

  /** A frame that skips a revision is refused. */
  lemma {:induction false} GapRefused(cmp: IdOrder, client: Client, frame: Frame)
    requires frame.UpdateFrame?
    requires frame.cursor.coreEpoch == client.snapshot.cursor.coreEpoch
    requires frame.cursor.sessionId == client.snapshot.cursor.sessionId
    ensures Reduced(cmp, Some(client), frame) == Err(RevisionGap) <==>
              frame.cursor.revision > client.snapshot.cursor.revision
              && !(frame.previousRevision == client.snapshot.cursor.revision == frame.cursor.revision - 1)
  {
    hide ChangesApplied, Touched, Restructures;
  }

  function FramesReduced(cmp: IdOrder, client: Client, frames: seq<Frame>): Result<Client>
    decreases |frames|
  {
    if frames == [] then Ok(client)
    else match Reduced(cmp, Some(client), frames[0])
      case Err(failure) => Err(failure)
      case Ok(next) => FramesReduced(cmp, next, frames[1..])
  }

  /** A log of consecutive updates after a client's revision. */
  ghost predicate Consecutive(client: Client, log: seq<Frame>) {
    forall i :: 0 <= i < |log| ==>
      log[i].UpdateFrame?
      && log[i].cursor == client.snapshot.cursor.(revision := client.snapshot.cursor.revision + 1 + i)
  }

  /** A delivery of a log by index: in order, with any earlier frame repeated at any time. */
  ghost predicate Redelivers(delivery: seq<nat>, delivered: nat, total: nat)
    decreases |delivery|
  {
    if delivery == [] then delivered == total
    else if delivery[0] < delivered then Redelivers(delivery[1..], delivered, total)
    else delivery[0] == delivered && delivered < total && Redelivers(delivery[1..], delivered + 1, total)
  }

  function Deliver(log: seq<Frame>, delivery: seq<nat>): (frames: seq<Frame>)
    requires forall i :: 0 <= i < |delivery| ==> delivery[i] < |log|
    ensures |frames| == |delivery|
  {
    seq(|delivery|, i requires 0 <= i < |delivery| => log[delivery[i]])
  }

  /** A delivery that leaves out the next frame for a later one. */
  ghost predicate Skips(delivery: seq<nat>, delivered: nat)
    decreases |delivery|
  {
    delivery != [] &&
    (delivery[0] > delivered || Skips(delivery[1..], if delivery[0] == delivered then delivered + 1 else delivered))
  }

  /**
   A delivery of a log the client could follow, with earlier frames repeated at any time, is refused
   if and only if it skips a frame, and then as a gap.
   */
  lemma {:induction false} SkipRefused(cmp: IdOrder, origin: Client, log: seq<Frame>, delivery: seq<nat>,
                                       delivered: nat, client: Client)
    requires Consecutive(origin, log) && delivered <= |log|
    requires forall i :: 0 <= i < |delivery| ==> delivery[i] < |log|
    requires client.snapshot.cursor == origin.snapshot.cursor.(revision := origin.snapshot.cursor.revision + delivered)
    requires FramesReduced(cmp, client, log[delivered..]).Ok?
    ensures var end := FramesReduced(cmp, client, Deliver(log, delivery));
            if Skips(delivery, delivered) then end == Err(RevisionGap) else end.Ok?
    decreases |delivery|
  {
    hide Reduced;
    if delivery != [] {
      var frame := log[delivery[0]];
      assert Deliver(log, delivery)[0] == frame;
      assert Deliver(log, delivery)[1..] == Deliver(log, delivery[1..]);
      if delivery[0] < delivered {
        StaleIgnored(cmp, client, frame);
        SkipRefused(cmp, origin, log, delivery[1..], delivered, client);
      } else if delivery[0] == delivered {
        assert log[delivered..][0] == frame && log[delivered..][1..] == log[delivered + 1..];
        AcceptedCursor(cmp, client, frame);
        SkipRefused(cmp, origin, log, delivery[1..], delivered + 1, Reduced(cmp, Some(client), frame).value);
      } else {
        GapRefused(cmp, client, frame);
      }
    }
  }

  lemma {:induction false} StaleIgnored(cmp: IdOrder, client: Client, frame: Frame)
    requires frame.UpdateFrame?
    requires frame.cursor.coreEpoch == client.snapshot.cursor.coreEpoch
    requires frame.cursor.sessionId == client.snapshot.cursor.sessionId
    requires frame.cursor.revision <= client.snapshot.cursor.revision
    ensures Reduced(cmp, Some(client), frame) == Ok(client)
  {
  }

  lemma {:induction false} AcceptedCursor(cmp: IdOrder, client: Client, frame: Frame)
    requires frame.UpdateFrame? && Reduced(cmp, Some(client), frame).Ok?
    requires frame.cursor.revision > client.snapshot.cursor.revision
    ensures Reduced(cmp, Some(client), frame).value.snapshot.cursor == frame.cursor
  {
    hide ChangesApplied, Touched, Restructures;
  }

  /** Redelivered frames change nothing: the client ends as the plain log leaves it. */
  lemma {:induction false} RedeliveryHarmless(cmp: IdOrder, origin: Client, log: seq<Frame>, delivery: seq<nat>,
                                              delivered: nat, client: Client)
    requires Consecutive(origin, log) && delivered <= |log|
    requires forall i :: 0 <= i < |delivery| ==> delivery[i] < |log|
    requires client.snapshot.cursor == origin.snapshot.cursor.(revision := origin.snapshot.cursor.revision + delivered)
    requires FramesReduced(cmp, client, log[delivered..]).Ok?
    requires Redelivers(delivery, delivered, |log|)
    ensures FramesReduced(cmp, client, Deliver(log, delivery)) == FramesReduced(cmp, client, log[delivered..])
    decreases |delivery|
  {
    hide Reduced;
    if delivery == [] {
      assert log[delivered..] == [];
    } else {
      var frame := log[delivery[0]];
      assert Deliver(log, delivery)[0] == frame;
      assert Deliver(log, delivery)[1..] == Deliver(log, delivery[1..]);
      if delivery[0] < delivered {
        StaleIgnored(cmp, client, frame);
        RedeliveryHarmless(cmp, origin, log, delivery[1..], delivered, client);
      } else {
        assert log[delivered..][0] == frame && log[delivered..][1..] == log[delivered + 1..];
        AcceptedCursor(cmp, client, frame);
        RedeliveryHarmless(cmp, origin, log, delivery[1..], delivered + 1, Reduced(cmp, Some(client), frame).value);
      }
    }
  }

  // ---------------------------------------------------------------- batches over the stream

  /** The update frame that carries a batch of changes to a client at the previous revision and cut. */
  function FrameFor(snapshot: Snapshot, changes: seq<Change>): Frame {
    UpdateFrame(snapshot.cursor.(revision := snapshot.cursor.revision + 1), snapshot.cursor.revision, [],
                Some(Delta(snapshot.session.id, snapshot.cut + 1, snapshot.storeRevision, None, changes)))
  }

  /** The server's log for successive batches of facts, as seen from a client at `snapshot`. */
  function LogFor(snapshot: Snapshot, s: State, batches: seq<seq<Fact>>): (log: seq<Frame>)
    ensures |log| == |batches|
    decreases |batches|
  {
    if batches == [] then []
    else
      var out := FactsApplied(s, batches[0]);
      var next := snapshot.(cursor := snapshot.cursor.(revision := snapshot.cursor.revision + 1),
                            cut := snapshot.cut + 1);
      [FrameFor(snapshot, out.changes)] + LogFor(next, out.state, batches[1..])
  }

  function BatchesApplied(s: State, batches: seq<seq<Fact>>): State
    decreases |batches|
  {
    if batches == [] then s else BatchesApplied(FactsApplied(s, batches[0]).state, batches[1..])
  }

  lemma {:induction false} LogIgnoresReplica(snapshot: Snapshot, replica: Replica, s: State, batches: seq<seq<Fact>>)
    ensures LogFor(snapshot.(replica := replica), s, batches) == LogFor(snapshot, s, batches)
    decreases |batches|
  {
    if batches != [] {
      var out := FactsApplied(s, batches[0]);
      var next := snapshot.(cursor := snapshot.cursor.(revision := snapshot.cursor.revision + 1),
                            cut := snapshot.cut + 1);
      LogIgnoresReplica(next, replica, out.state, batches[1..]);
    }
  }

  lemma {:induction false} LogAt(snapshot: Snapshot, s: State, batches: seq<seq<Fact>>, i: nat)
    requires i < |batches|
    ensures var frame := LogFor(snapshot, s, batches)[i];
            && frame.UpdateFrame?
            && frame.cursor == snapshot.cursor.(revision := snapshot.cursor.revision + 1 + i)
    decreases |batches|
  {
    if i > 0 {
      var out := FactsApplied(s, batches[0]);
      var next := snapshot.(cursor := snapshot.cursor.(revision := snapshot.cursor.revision + 1),
                            cut := snapshot.cut + 1);
      LogAt(next, out.state, batches[1..], i - 1);
    }
  }

  lemma {:induction false} BatchesMirror(cmp: IdOrder, client: Client, s: State, batches: seq<seq<Fact>>)
    requires TotalOrder(cmp) && Keyed(s) && Mirrors(cmp, client.snapshot.replica, s)
    requires forall i :: 0 <= i < |batches| ==> AllWellFormed(batches[i])
    ensures var end := FramesReduced(cmp, client, LogFor(client.snapshot, s, batches));
            end.Ok? && Mirrors(cmp, end.value.snapshot.replica, BatchesApplied(s, batches))
    decreases |batches|
  {
    hide TotalOrder, Keyed, Mirrors, AllWellFormed, FactsApplied, ChangesApplied, Touched, Restructures;
    if batches != [] {
      var out := FactsApplied(s, batches[0]);
      RunMirrors(cmp, client.snapshot.replica, s, batches[0]);
      var frame := FrameFor(client.snapshot, out.changes);
      var reduced := Reduced(cmp, Some(client), frame);
      var replica := ChangesApplied(cmp, client.snapshot.replica, out.changes).value;
      var snapshot := client.snapshot;
      var next := snapshot.(cursor := snapshot.cursor.(revision := snapshot.cursor.revision + 1),
                            cut := snapshot.cut + 1);
      assert reduced.Ok? && reduced.value.snapshot == next.(page := Either(None, snapshot.page), replica := replica);
      LogIgnoresReplica(next, replica, out.state, batches[1..]);
      BatchesMirror(cmp, reduced.value, out.state, batches[1..]);
    }
  }

  /**
   End to end: whatever the server observes, and however its frames are redelivered, a client that
   mirrored the server at a snapshot mirrors it after the last frame.
   */
  lemma {:induction false} StreamReplicates(cmp: IdOrder, client: Client, s: State, batches: seq<seq<Fact>>,
                                            delivery: seq<nat>)
    requires TotalOrder(cmp) && Keyed(s) && Mirrors(cmp, client.snapshot.replica, s)
    requires forall i :: 0 <= i < |batches| ==> AllWellFormed(batches[i])
    requires forall i :: 0 <= i < |delivery| ==> delivery[i] < |batches|
    requires Redelivers(delivery, 0, |batches|)
    ensures var end := FramesReduced(cmp, client, Deliver(LogFor(client.snapshot, s, batches), delivery));
            end.Ok? && Mirrors(cmp, end.value.snapshot.replica, BatchesApplied(s, batches))
  {
    hide TotalOrder, Keyed, Mirrors, AllWellFormed, LogFor, FramesReduced;
    var log := LogFor(client.snapshot, s, batches);
    BatchesMirror(cmp, client, s, batches);
    forall i | 0 <= i < |log|
      ensures log[i].UpdateFrame?
      ensures log[i].cursor == client.snapshot.cursor.(revision := client.snapshot.cursor.revision + 1 + i)
    {
      LogAt(client.snapshot, s, batches, i);
    }
    assert log[0..] == log;
    RedeliveryHarmless(cmp, client, log, delivery, 0, client);
  }
}
