/**
 Whole runs of the server: observations become facts, facts change the state, and the changes reach
 a client. What every history keeps, given that no model result is observed twice.
 */
module ConversationRuns {
  import opened Basics
  import opened Conversation
  import opened Indexes
  import opened Normalizer
  import opened SessionClient
  import opened Replication

  // ---------------------------------------------------------------- histories

  datatype Server = Server(maps: NormalizerMaps, state: State)

  function NewServer(): Server {
    Server(NewMaps(), State(map[], map[], map[]))
  }

  /** `applyObservation`: the server after one observation, and the changes it emits. */
  function Observed(server: Server, o: Observation): (Server, seq<Change>) {
    var (maps, facts) := MapsNormalized(server.maps, o);
    var out := FactsApplied(server.state, facts);
    (Server(maps, out.state), out.changes)
  }

  function Run(server: Server, history: seq<Observation>): (Server, seq<Change>)
    decreases |history|
  {
    if history == [] then (server, [])
    else
      var (next, first) := Observed(server, history[0]);
      var (end, rest) := Run(next, history[1..]);
      (end, first + rest)
  }

  // ---------------------------------------------------------------- facts are well formed

  lemma {:induction false} DeclaredFromHolds(maps: NormalizerMaps, o: Observation, key: RequestKey, occurrence: string,
                                             index: nat)
    requires HoldTools(maps) && o.ModelResult? && index <= |o.declaredCalls|
    ensures var (end, facts) := MapsDeclaredFrom(maps, o, key, occurrence, index);
            AllWellFormed(facts) && HoldTools(end)
    decreases |o.declaredCalls| - index
  {
    hide DeclaredOrigin, HoldTools, Declare;
    if index < |o.declaredCalls| {
      var call := o.declaredCalls[index];
      var declaration := DeclarationOf(occurrence, index, key, call.callId);
      var next := maps.(declaredTools := Declare(maps.declaredTools, declaration),
                        origins := maps.origins[DeclaredToolId(occurrence, index)
                                     := DeclaredOrigin(Books(maps), o.eventOrdinal, key, call, index)]);
      DeclareHolds(maps, declaration);
      SameMaps(maps.(declaredTools := Declare(maps.declaredTools, declaration)), next);
      DeclaredFromHolds(next, o, key, occurrence, index + 1);
    }
  }

  lemma {:induction false} SameMaps(maps: NormalizerMaps, next: NormalizerMaps)
    requires HoldTools(maps) && next.declaredTools == maps.declaredTools && next.openTools == maps.openTools
    ensures HoldTools(next)
  {
  }

  lemma {:induction false} ToolCallHolds(maps: NormalizerMaps, o: Observation)
    requires HoldTools(maps) && o.ToolCall?
    ensures var (next, facts) := MapsToolCall(maps, o);
            AllWellFormed(facts) && HoldTools(next)
  {
    hide HoldTools, ResolvedRequest, MapsTaken, CallOrigin, Opened;
    var key := ResolvedRequest(maps.latestRequestByStep, o.executionId, o.request, false);
    TakeHolds(maps, key, o.callId, o.callIndex);
    var (taken, left) := MapsTaken(maps.declaredTools, key, o.callId, o.callIndex);
    var without := maps.(declaredTools := left);
    var id := StartedId(o, taken);
    var origin := CallOrigin(Books(without), o, key, id, StartedIndex(o, taken));
    OpenHolds(without, OpenCallOf(id, origin));
    SameMaps(without.(openTools := Opened(without.openTools, OpenCallOf(id, origin))), MapsToolCall(maps, o).0);
  }

  lemma {:induction false} ReportsHold(maps: NormalizerMaps, o: Observation)
    requires HoldTools(maps) && (o.ToolResult? || o.ToolProgress?)
    ensures var (next, facts) := MapsNormalized(maps, o);
            AllWellFormed(facts) && HoldTools(next)
  {
    hide HoldTools, ResolvedRequest, MapsResolved, MessagePosition, Retire;
    var key := ResolvedRequest(maps.latestRequestByStep, o.executionId, o.request, false);
    ResolvedHolds(maps, key, o.callId, o.callIndex);
    var resolved := MapsResolved(maps.openTools, key, o.callId, o.callIndex);
    if o.ToolResult? && resolved.Some? {
      OpenHolds(maps, OpenCallOf(resolved.value, ResultOrigin(Books(maps), o, key, resolved.value)));
    }
  }

  lemma {:induction false} ModelResultHolds(maps: NormalizerMaps, o: Observation)
    requires HoldTools(maps) && o.ModelResult?
    ensures var (next, facts) := MapsModelResult(maps, o);
            AllWellFormed(facts) && HoldTools(next)
  {
    hide HoldTools, MessagePosition, ResolvedRequest, MapsDeclaredFrom;
    if o.occurrence.Some? {
      var key := ResolvedRequest(maps.latestRequestByStep, o.executionId, o.request, false);
      DeclaredFromHolds(maps, o, key, o.occurrence.value, 0);
    }
  }

  lemma {:induction false} PlainHolds(core: NormalizerCore, o: Observation)
    requires !o.ModelResult? && !o.ToolCall? && !o.ToolResult? && !o.ToolProgress?
    ensures AllWellFormed(PlainNormalized(core, o).1)
  {
    hide MessagePosition, ResolvedRequest, ExecutionOrder;
  }

  /** Every fact names its entity by an identity of the right kind, whatever was observed before. */
  lemma {:induction false} NormalizedWellFormed(maps: NormalizerMaps, o: Observation)
    requires HoldTools(maps)
    ensures var (next, facts) := MapsNormalized(maps, o);
            AllWellFormed(facts) && HoldTools(next)
  {
    hide HoldTools, MapsToolCall, MapsToolResult, MapsToolProgress, MapsModelResult, PlainNormalized, AllWellFormed;
    if o.ToolCall? {
      ToolCallHolds(maps, o);
    } else if o.ToolResult? || o.ToolProgress? {
      ReportsHold(maps, o);
    } else if o.ModelResult? {
      ModelResultHolds(maps, o);
    } else {
      PlainHolds(Books(maps), o);
      SameMaps(maps, MapsNormalized(maps, o).0);
    }
  }

  // ---------------------------------------------------------------- replication of every history

  /**
   For every history, repeated observations included, a client that mirrored the server and folds the
   changes ends with the server's entities, in the server's display order; and the state is consistent.
   */
  lemma {:induction false} ObservationsMirror(cmp: IdOrder, replica: Replica, server: Server, history: seq<Observation>)
    requires TotalOrder(cmp) && Mirrors(cmp, replica,
                                        server.state) && Consistent(server.state) && HoldTools(server.maps)
    ensures var (end, changes) := Run(server, history);
            var replica' := ChangesApplied(cmp, replica, changes);
            replica'.Some? && Mirrors(cmp, replica'.value, end.state) && Consistent(end.state) && HoldTools(end.maps)
    decreases |history|
  {
    hide TotalOrder, Mirrors, Keyed, ToolsConsistent, HoldTools, MapsNormalized, AllWellFormed, FactsApplied,
      ChangesApplied;
    if history == [] {
      NoChanges(cmp, replica);
    } else {
      var o := history[0];
      var facts := MapsNormalized(server.maps, o).1;
      NormalizedWellFormed(server.maps, o);
      RunMirrors(cmp, replica, server.state, facts);
      RunConsistent(server.state, facts);
      var (next, first) := Observed(server, o);
      var middle := ChangesApplied(cmp, replica, first).value;
      ObservationsMirror(cmp, middle, next, history[1..]);
      ChangesConcat(cmp, replica, first, Run(next, history[1..]).1);
    }
  }

  lemma {:induction false} NoChanges(cmp: IdOrder, replica: Replica)
    ensures ChangesApplied(cmp, replica, []) == Some(replica)
  {
  }

  /** From the start: an empty client that folds everything shows the sorted server state. */
  lemma {:induction false} EveryHistoryMirrors(cmp: IdOrder, history: seq<Observation>)
    requires TotalOrder(cmp)
    ensures var (end, changes) := Run(NewServer(), history);
            var replica := ChangesApplied(cmp, Replica(map[], []), changes);
            && replica.Some? && replica.value.entities == end.state.entities
            && DisplayOrder(cmp, end.state.entities, replica.value.order)
            && Consistent(end.state)
  {
    hide TotalOrder;
    ObservationsMirror(cmp, Replica(map[], []), NewServer(), history);
  }

  /** What sorting the entity map's values gives: each value once, no later one before an earlier one. */
  ghost predicate SortOf(cmp: IdOrder, entities: map<EntityId, Entity>, sorted: seq<Entity>) {
    && (forall i :: 0 <= i < |sorted| ==> sorted[i].id in entities && entities[sorted[i].id] == sorted[i])
    && (forall id :: id in entities ==> entities[id] in sorted)
    && (forall i, j :: 0 <= i < j < |sorted| ==>
          sorted[i] != sorted[j]
          && !Before(cmp, sorted[j].position, sorted[j].id, sorted[i].position, sorted[i].id))
  }

  function EntityIds(entities: seq<Entity>): (ids: seq<EntityId>)
    ensures |ids| == |entities| && forall i :: 0 <= i < |ids| ==> ids[i] == entities[i].id
  {
    seq(|entities|, i requires 0 <= i < |entities| => entities[i].id)
  }

  lemma {:induction false} SortDisplays(cmp: IdOrder, s: State, sorted: seq<Entity>)
    requires TotalOrder(cmp) && Keyed(s) && SortOf(cmp, s.entities, sorted)
    ensures DisplayOrder(cmp, s.entities, EntityIds(sorted))
  {
    hide TotalOrder, Before, WellFormedEntity;
    var ids := EntityIds(sorted);
    forall i, j | 0 <= i < j < |ids|
      ensures Before(cmp, s.entities[ids[i]].position, ids[i], s.entities[ids[j]].position, ids[j])
    {
      assert sorted[i] != sorted[j];
      BeforeTotal(cmp, sorted[i].position, sorted[i].id, sorted[j].position, sorted[j].id);
    }
    forall id | id in s.entities ensures id in ids {
      var i :| 0 <= i < |sorted| && sorted[i] == s.entities[id];
      assert ids[i] == id;
    }
  }

  /** The client's order list is the identities of the server's entities, sorted. */
  lemma {:induction false} ClientOrderIsSorted(cmp: IdOrder, history: seq<Observation>, sorted: seq<Entity>)
    requires TotalOrder(cmp)
    requires SortOf(cmp, Run(NewServer(), history).0.state.entities, sorted)
    ensures var replica := ChangesApplied(cmp, Replica(map[], []), Run(NewServer(), history).1);
            replica.Some? && replica.value.order == EntityIds(sorted)
  {
    hide TotalOrder, Run, ChangesApplied, SortOf, DisplayOrder;
    var (end, changes) := Run(NewServer(), history);
    EveryHistoryMirrors(cmp, history);
    SortDisplays(cmp, end.state, sorted);
    DisplayOrderUnique(cmp, end.state.entities, ChangesApplied(cmp, Replica(map[], []), changes).value.order,
                       EntityIds(sorted));
  }

  // ---------------------------------------------------------------- histories without repeated model results

  /** No model result occurrence is observed twice, nor any of `seen` again. */
  predicate FreshHistory(history: seq<Observation>, seen: set<string>)
    decreases |history|
  {
    history == [] || (FreshOccurrence(history[0], seen) && FreshHistory(history[1..], SeenAfter(history[0], seen)))
  }

  function NewCore(): NormalizerCore {
    NormalizerCore(map[], map[], map[], map[], [], [])
  }

  function MapsAfter(maps: NormalizerMaps, history: seq<Observation>): NormalizerMaps
    decreases |history|
  {
    if history == [] then maps else MapsAfter(MapsNormalized(maps, history[0]).0, history[1..])
  }

  function MapsFacts(maps: NormalizerMaps, history: seq<Observation>): seq<seq<Fact>>
    decreases |history|
  {
    if history == [] then []
    else [MapsNormalized(maps, history[0]).1] + MapsFacts(MapsNormalized(maps, history[0]).0, history[1..])
  }

  function CoreFacts(core: NormalizerCore, history: seq<Observation>): seq<seq<Fact>>
    decreases |history|
  {
    if history == [] then []
    else [Normalized(core, history[0]).1] + CoreFacts(Normalized(core, history[0]).0, history[1..])
  }

  /**
   Over every such history the eight maps give the facts the two lists give, observation by
   observation, and end as indexes of them.
   */
  lemma {:induction false} RunRefines(maps: NormalizerMaps, core: NormalizerCore, seen: set<string>,
                                      history: seq<Observation>)
    requires Indexed(maps, core) && CoreValid(core, seen) && FreshHistory(history, seen)
    ensures MapsFacts(maps, history) == CoreFacts(core, history)
    ensures Indexed(MapsAfter(maps, history), CoreAfter(core, history))
    decreases |history|
  {
    hide Indexed, CoreValid, MapsNormalized, Normalized, FreshOccurrence, SeenAfter;
    if history != [] {
      MapsRefine(maps, core, seen, history[0]);
      RunRefines(MapsNormalized(maps, history[0]).0, Normalized(core, history[0]).0, SeenAfter(history[0], seen),
                 history[1..]);
    }
  }

  lemma {:induction false} NewIndexed()
    ensures Indexed(NewMaps(), NewCore()) && CoreValid(NewCore(), {})
  {
  }

  // ---------------------------------------------------------------- each declaration is taken once

  /** The declaration a step takes, as a list of at most one. */
  function Takes(core: NormalizerCore, o: Observation): seq<EntityId> {
    if !o.ToolCall? then []
    else
      var key := ResolvedRequest(core.latestRequestByStep, o.executionId, o.request, false);
      match TakenAt(core.declared, key, o.callId, o.callIndex)
      case None => []
      case Some(at) => [core.declared[at].id]
  }

  function RunTakes(core: NormalizerCore, history: seq<Observation>): seq<EntityId>
    decreases |history|
  {
    if history == [] then []
    else Takes(core, history[0]) + RunTakes(Normalized(core, history[0]).0, history[1..])
  }

  /** A declaration that could still be taken: it is waiting, or its occurrence is not yet seen. */
  ghost predicate Takable(core: NormalizerCore, seen: set<string>, id: EntityId) {
    id in IdsOf(core.declared) || (id.DeclaredToolId? && id.occurrence !in seen)
  }

  lemma {:induction false} DeclaredFromTakable(core: NormalizerCore, seen: set<string>, o: Observation, key: RequestKey,
                                               occurrence: string, index: nat, id: EntityId)
    requires o.ModelResult? && index <= |o.declaredCalls|
    requires id in IdsOf(DeclaredFrom(core, o, key, occurrence, index).0.declared)
    ensures id in IdsOf(core.declared) || (id.DeclaredToolId? && id.occurrence == occurrence)
    decreases |o.declaredCalls| - index
  {
    hide DeclaredOrigin;
    if index < |o.declaredCalls| {
      var call := o.declaredCalls[index];
      var next := core.(declared := core.declared + [DeclarationOf(occurrence, index, key, call.callId)],
                        origins := core.origins[DeclaredToolId(occurrence, index)
                                     := DeclaredOrigin(core, o.eventOrdinal, key, call, index)]);
      DeclaredFromTakable(next, seen, o, key, occurrence, index + 1, id);
      assert IdsOf(next.declared) == IdsOf(core.declared) + [DeclaredToolId(occurrence, index)];
    }
  }

  lemma {:induction false} ToolCallTakes(core: NormalizerCore, seen: set<string>, o: Observation, id: EntityId)
    requires CoreValid(core, seen) && o.ToolCall?
    requires id in IdsOf(ToolCallNormalized(core, o).0.declared)
    ensures id in IdsOf(core.declared) && id !in Takes(core, o)
  {
    hide MessagePosition, ResolvedRequest, TakenAt, StartedEntity, OriginsTracked, DeclarationsTracked;
    var key := ResolvedRequest(core.latestRequestByStep, o.executionId, o.request, false);
    match TakenAt(core.declared, key, o.callId, o.callIndex)
    case None =>
    case Some(at) => WithoutDistinct(core.declared, at);
  }

  /** What a tool call takes was declared under an occurrence seen before. */
  lemma {:induction false} TakesDeclared(core: NormalizerCore, seen: set<string>, o: Observation, id: EntityId)
    requires CoreValid(core, seen) && id in Takes(core, o)
    ensures id.DeclaredToolId? && id.occurrence in seen
  {
    hide ResolvedRequest, TakenAt, OriginsTracked, DistinctDeclarations;
  }

  lemma {:induction false} PlainTakes(core: NormalizerCore, o: Observation)
    requires !o.ToolCall? && !o.ModelResult?
    ensures Normalized(core, o).0.declared == core.declared
  {
    hide MessagePosition, ResolvedRequest, ResolvedTool, Closed;
  }

  /** Nothing becomes takable again, and what a step takes no longer is. */
  lemma {:induction false} TakableShrinks(core: NormalizerCore, seen: set<string>, o: Observation, id: EntityId)
    requires CoreValid(core, seen) && FreshOccurrence(o, seen)
    requires Takable(Normalized(core, o).0, SeenAfter(o, seen), id)
    ensures Takable(core, seen, id) && id !in Takes(core, o)
  {
    hide ResolvedRequest, DeclaredFrom, CoreValid, ToolCallNormalized, ToolResultNormalized, PlainNormalized;
    if o.ToolCall? {
      if id in IdsOf(Normalized(core, o).0.declared) {
        ToolCallTakes(core, seen, o, id);
      } else if id in Takes(core, o) {
        TakesDeclared(core, seen, o, id);
      }
    } else if o.ModelResult? {
      if o.occurrence.Some? && id in IdsOf(Normalized(core, o).0.declared) {
        var own := ResolvedRequest(core.latestRequestByStep, o.executionId, o.request, false);
        DeclaredFromTakable(core, seen, o, own, o.occurrence.value, 0, id);
      }
    } else {
      PlainTakes(core, o);
    }
  }

  lemma {:induction false} TakenTakable(core: NormalizerCore, seen: set<string>, history: seq<Observation>,
                                        id: EntityId)
    requires CoreValid(core, seen) && FreshHistory(history, seen)
    requires id in RunTakes(core, history)
    ensures Takable(core, seen, id)
    decreases |history|
  {
    hide CoreValid, Normalized, FreshOccurrence, SeenAfter, ResolvedRequest, TakenAt;
    var next := Normalized(core, history[0]).0;
    NormalizedValid(core, seen, history[0]);
    if id !in Takes(core, history[0]) {
      TakenTakable(next, SeenAfter(history[0], seen), history[1..], id);
      TakableShrinks(core, seen, history[0], id);
    }
  }

  /** Over every history each declared call is taken by at most one tool call. */
  lemma {:induction false} TakenOnce(core: NormalizerCore, seen: set<string>, history: seq<Observation>)
    requires CoreValid(core, seen) && FreshHistory(history, seen)
    ensures NoRepeats(RunTakes(core, history))
    decreases |history|
  {
    hide CoreValid, Normalized, FreshOccurrence, SeenAfter, ResolvedRequest, TakenAt, Takable;
    if history != [] {
      var next, seen' := Normalized(core, history[0]).0, SeenAfter(history[0], seen);
      NormalizedValid(core, seen, history[0]);
      TakenOnce(next, seen', history[1..]);
      var rest := RunTakes(next, history[1..]);
      forall id | id in rest ensures id !in Takes(core, history[0]) {
        TakenTakable(next, seen', history[1..], id);
        TakableShrinks(core, seen, history[0], id);
      }
      PrependFresh(Takes(core, history[0]), rest);
    }
  }

  lemma {:induction false} PrependFresh<T>(first: seq<T>, rest: seq<T>)
    requires |first| <= 1 && NoRepeats(rest) && forall t :: t in rest ==> t !in first
    ensures NoRepeats(first + rest)
  {
    forall i, j | 0 <= i < j < |first + rest| ensures (first + rest)[i] != (first + rest)[j] {
      assert (first + rest)[j] in rest;
    }
  }

  /** The declaration a step takes off the eight maps. */
  function MapsTakes(maps: NormalizerMaps, o: Observation): seq<EntityId> {
    if !o.ToolCall? then []
    else
      var key := ResolvedRequest(maps.latestRequestByStep, o.executionId, o.request, false);
      match MapsTaken(maps.declaredTools, key, o.callId, o.callIndex).0
      case None => []
      case Some(d) => [d.id]
  }

  function RunMapsTakes(maps: NormalizerMaps, history: seq<Observation>): seq<EntityId>
    decreases |history|
  {
    if history == [] then []
    else MapsTakes(maps, history[0]) + RunMapsTakes(MapsNormalized(maps, history[0]).0, history[1..])
  }

  lemma {:induction false} TakesAgree(maps: NormalizerMaps, core: NormalizerCore, seen: set<string>, o: Observation)
    requires Indexed(maps, core) && CoreValid(core, seen)
    ensures MapsTakes(maps, o) == Takes(core, o)
  {
    hide MapsTaken, TakenAt, ResolvedRequest, DeclaredAgree, OpenAgree;
    if o.ToolCall? {
      var key := ResolvedRequest(core.latestRequestByStep, o.executionId, o.request, false);
      TakenAgrees(maps.declaredTools, core.declared, key, o.callId, o.callIndex);
    }
  }

  lemma {:induction false} RunTakesAgree(maps: NormalizerMaps, core: NormalizerCore, seen: set<string>,
                                         history: seq<Observation>)
    requires Indexed(maps, core) && CoreValid(core, seen) && FreshHistory(history, seen)
    ensures RunMapsTakes(maps, history) == RunTakes(core, history)
    decreases |history|
  {
    hide Indexed, CoreValid, MapsNormalized, Normalized, FreshOccurrence, SeenAfter, MapsTakes, Takes;
    if history != [] {
      var o := history[0];
      TakesAgree(maps, core, seen, o);
      MapsRefine(maps, core, seen, o);
      RunTakesAgree(MapsNormalized(maps, o).0, Normalized(core, o).0, SeenAfter(o, seen), history[1..]);
    }
  }

  /** So it is with the eight maps: from the start, no declaration is handed out twice. */
  lemma {:induction false} MapsTakeOnce(history: seq<Observation>)
    requires FreshHistory(history, {})
    ensures NoRepeats(RunMapsTakes(NewMaps(), history))
  {
    NewIndexed();
    RunTakesAgree(NewMaps(), NewCore(), {}, history);
    TakenOnce(NewCore(), {}, history);
  }

  // ---------------------------------------------------------------- opened and closed calls balance

  /** The identity named by the only fact of a call or a result; nothing if there is none. */
  function Named(facts: seq<Fact>): seq<EntityId> {
    if facts != [] && facts[0].Upsert? then [facts[0].entity.id] else []
  }

  function Opens(core: NormalizerCore, o: Observation): seq<EntityId> {
    if o.ToolCall? then Named(Normalized(core, o).1) else []
  }

  function Closes(core: NormalizerCore, o: Observation): seq<EntityId> {
    if o.ToolResult? then Named(Normalized(core, o).1) else []
  }

  lemma {:induction false} WithoutMultiset(ids: seq<EntityId>, at: nat)
    requires at < |ids|
    ensures multiset(Without(ids, at)) + multiset([ids[at]]) == multiset(ids)
  {
    assert ids == ids[..at] + [ids[at]] + ids[at + 1..];
  }

  lemma {:induction false} DeclaredKeepsOpen(core: NormalizerCore, o: Observation, key: RequestKey, occurrence: string,
                                             index: nat)
    requires o.ModelResult? && index <= |o.declaredCalls|
    ensures DeclaredFrom(core, o, key, occurrence, index).0.open == core.open
    decreases |o.declaredCalls| - index
  {
    hide DeclaredOrigin;
    if index < |o.declaredCalls| {
      var call := o.declaredCalls[index];
      var next := core.(declared := core.declared + [DeclarationOf(occurrence, index, key, call.callId)],
                        origins := core.origins[DeclaredToolId(occurrence, index)
                                     := DeclaredOrigin(core, o.eventOrdinal, key, call, index)]);
      DeclaredKeepsOpen(next, o, key, occurrence, index + 1);
    }
  }

  lemma {:induction false} ResultBalances(core: NormalizerCore, seen: set<string>, o: Observation)
    requires CoreValid(core, seen) && o.ToolResult?
    ensures multiset(OpenIds(ToolResultNormalized(core, o).0.open)) + multiset(Named(ToolResultNormalized(core, o).1))
         == multiset(OpenIds(core.open))
  {
    hide MessagePosition, ResolvedRequest, ResolvedTool, Closed, CoreValid, Without, OpenIds;
    var key := ResolvedRequest(core.latestRequestByStep, o.executionId, o.request, false);
    if ResolvedTool(core.open, key, o.callId, o.callIndex).Some? {
      var at := ResolvedIsOpen(core, seen, key, o.callId, o.callIndex);
      OpenWithout(core.open, at);
    }
  }

  lemma {:induction false} OpenWithout(open: seq<OpenCall>, at: nat)
    requires at < |open|
    ensures multiset(OpenIds(Without(open, at))) + multiset([open[at].id]) == multiset(OpenIds(open))
  {
    WithoutMultiset(OpenIds(open), at);
    assert OpenIds(Without(open, at)) == Without(OpenIds(open), at);
  }

  lemma {:induction false} CallBalances(core: NormalizerCore, o: Observation)
    requires o.ToolCall?
    ensures |Named(ToolCallNormalized(core, o).1)| == 1
    ensures multiset(OpenIds(ToolCallNormalized(core, o).0.open))
         == multiset(OpenIds(core.open)) + multiset(Named(ToolCallNormalized(core, o).1))
  {
    hide ResolvedRequest, TakenAt, MessagePosition, CallOrigin;
    var next := ToolCallNormalized(core, o).0;
    assert next.open[..|core.open|] == core.open;
    assert OpenIds(next.open) == OpenIds(core.open) + Named(ToolCallNormalized(core, o).1);
  }

  lemma {:induction false} OthersKeepOpen(core: NormalizerCore, o: Observation)
    requires !o.ToolCall? && !o.ToolResult?
    ensures Normalized(core, o).0.open == core.open
  {
    hide MessagePosition, ResolvedRequest, DeclaredFrom, AssistantMessage, ToolProgressNormalized;
    if o.ModelResult? && o.occurrence.Some? {
      var key := ResolvedRequest(core.latestRequestByStep, o.executionId, o.request, false);
      DeclaredKeepsOpen(core, o, key, o.occurrence.value, 0);
    }
  }

  /** A call opens one identity; a result with any effect closes one that is open; nothing else does either. */
  lemma {:induction false} StepBalances(core: NormalizerCore, seen: set<string>, o: Observation)
    requires CoreValid(core, seen)
    ensures multiset(OpenIds(Normalized(core, o).0.open)) + multiset(Closes(core, o))
         == multiset(OpenIds(core.open)) + multiset(Opens(core, o))
    ensures o.ToolCall? ==> |Opens(core, o)| == 1
    ensures multiset(Closes(core, o)) <= multiset(OpenIds(core.open))
  {
    hide ToolCallNormalized, ToolResultNormalized, PlainNormalized, ModelResultNormalized, CoreValid, OpenIds, Named;
    if o.ToolResult? {
      ResultBalances(core, seen, o);
      assert Normalized(core, o) == ToolResultNormalized(core, o);
    } else if o.ToolCall? {
      CallBalances(core, o);
      assert Normalized(core, o) == ToolCallNormalized(core, o);
    } else {
      OthersKeepOpen(core, o);
    }
  }

  function RunOpens(core: NormalizerCore, history: seq<Observation>): multiset<EntityId>
    decreases |history|
  {
    if history == [] then multiset{}
    else multiset(Opens(core, history[0])) + RunOpens(Normalized(core, history[0]).0, history[1..])
  }

  function RunCloses(core: NormalizerCore, history: seq<Observation>): multiset<EntityId>
    decreases |history|
  {
    if history == [] then multiset{}
    else multiset(Closes(core, history[0])) + RunCloses(Normalized(core, history[0]).0, history[1..])
  }

  function CoreAfter(core: NormalizerCore, history: seq<Observation>): NormalizerCore
    decreases |history|
  {
    if history == [] then core else CoreAfter(Normalized(core, history[0]).0, history[1..])
  }

  /** Over every history: what was open or opened is what was closed or is still open. */
  lemma {:induction false} RunBalances(core: NormalizerCore, seen: set<string>, history: seq<Observation>)
    requires CoreValid(core, seen) && FreshHistory(history, seen)
    ensures multiset(OpenIds(CoreAfter(core, history).open)) + RunCloses(core, history)
         == multiset(OpenIds(core.open)) + RunOpens(core, history)
    decreases |history|
  {
    hide CoreValid, Normalized, FreshOccurrence, SeenAfter, Opens, Closes, OpenIds;
    if history != [] {
      NormalizedValid(core, seen, history[0]);
      StepBalances(core, seen, history[0]);
      var next := Normalized(core, history[0]).0;
      RunBalances(next, SeenAfter(history[0], seen), history[1..]);
      Balance(multiset(OpenIds(core.open)), multiset(OpenIds(next.open)),
              multiset(OpenIds(CoreAfter(next, history[1..]).open)),
              multiset(Opens(core, history[0])), multiset(Closes(core, history[0])),
              RunOpens(next, history[1..]), RunCloses(next, history[1..]));
    }
  }

  lemma {:induction false} Balance<T>(start: multiset<T>, middle: multiset<T>, end: multiset<T>,
                                      o: multiset<T>, c: multiset<T>, opens: multiset<T>, closes: multiset<T>)
    requires middle + c == start + o && end + closes == middle + opens
    ensures end + (c + closes) == start + (o + opens)
  {
    assert end + (c + closes) == (end + closes) + c;
    assert start + (o + opens) == (start + o) + opens;
    assert (middle + opens) + c == (middle + c) + opens;
  }

  /** The open-call indexes agree on how often each identity is open, under the keys of its origin. */
  lemma {:induction false} IndexesAgreeOnOpen(core: NormalizerCore, seen: set<string>, maps: OpenMaps, id: EntityId)
    requires CoreValid(core, seen) && OpenAgree(maps, core.open) && id in OpenIds(core.open)
    ensures id in core.origins
    ensures var c := OpenCallOf(id, core.origins[id]);
            var times := multiset(OpenIds(core.open))[id];
            && multiset(Lookup(maps.byCall, CallOf(c.requestKey, c.callId)))[id] == times
            && multiset(Lookup(maps.byLogicalCall, LogicalCallOf(c.requestKey, c.callId)))[id] == times
            && (c.callIndex.Some? ==>
                  && multiset(Lookup(maps.byIndex, (c.requestKey, c.callIndex.value)))[id] == times
                  && multiset(Lookup(maps.byLogicalIndex,
                                     LogicalIndexOf(c.requestKey, c.callId, c.callIndex.value)))[id]
                     == times)
  {
    var c := OpenCallOf(id, core.origins[id]);
    var ids := OpenIds(core.open);
    EntriesCount(core.open, OpenCallKey, IdOf, CallOf(c.requestKey, c.callId), ids, id);
    EntriesCount(core.open, OpenLogicalCall, IdOf, LogicalCallOf(c.requestKey, c.callId), ids, id);
    if c.callIndex.Some? {
      EntriesCount(core.open, OpenIndex, IdOf, (c.requestKey, c.callIndex.value), ids, id);
      EntriesCount(core.open, OpenLogicalIndex, IdOf, LogicalIndexOf(c.requestKey, c.callId, c.callIndex.value), ids,
                   id);
    }
  }

  // ---------------------------------------------------------------- the server in place

  /** `applyObservation`, on any history. */
  method ApplyObservation(store: ConversationStore, normalizer: ConversationNormalizer, o: Observation)
    returns (changes: seq<Change>)
    requires HoldTools(normalizer.Value()) && Consistent(store.Value())
    modifies store, normalizer
    ensures HoldTools(normalizer.Value()) && Consistent(store.Value())
    ensures (Server(normalizer.Value(), store.Value()), changes)
         == Observed(old(Server(normalizer.Value(), store.Value())), o)
  {
    hide MapsNormalized, WellFormed, Applied, HoldTools;
    ghost var start := store.Value();
    ghost var maps := normalizer.Value();
    NormalizedWellFormed(maps, o);
    var facts := normalizer.Normalize(o);
    changes := [];
    ghost var whole := FactsApplied(start, facts);
    assert [] + whole.changes == whole.changes && facts[0..] == facts;
    for i := 0 to |facts|
      invariant HoldTools(normalizer.Value()) && (normalizer.Value(), facts) == MapsNormalized(maps, o)
      invariant Consistent(store.Value())
      invariant var rest := FactsApplied(store.Value(), facts[i..]);
                Outcome(rest.state, changes + rest.changes) == whole
    {
      ghost var rest := FactsApplied(store.Value(), facts[i..]);
      assert facts[i..][0] == facts[i] && facts[i..][1..] == facts[i + 1..];
      AppliedConsistent(store.Value(), facts[i]);
      var next := store.ApplyFact(facts[i]);
      ghost var later := FactsApplied(store.Value(), facts[i + 1..]);
      assert rest == Outcome(later.state, next + later.changes);
      assert changes + (next + later.changes) == changes + next + later.changes;
      changes := changes + next;
    }
    assert facts[|facts|..] == [] && changes + [] == changes;
  }
}
