/**
 The server's conversation: keyed entities, their fixed positions and the tools of each request.

 `ConversationStore.ApplyFact` updates the maps in place and emits the changes a client needs;
 `Applied` is its specification on values.
 */
module Conversation {
  import opened Basics

  datatype Lane = Parent | Planner

  /** A request; its identity string is injective in these fields, so the key is its own identity. */
  datatype RequestKey = RequestKey(executionId: string, lane: Option<Lane>, modelStep: int, requestOrdinal: Option<nat>)

  datatype ThinkingKind = TextThinking | SummaryThinking

  /** The identity strings of entities, by the prefix and the encoded parts they are built from. */
  datatype EntityId =
    | ExecutionId(executionId: string)
    | TaskMessageId(executionId: string)
    | RequestId(key: RequestKey)
    | AssistantId(key: RequestKey)
    | ThinkingId(key: RequestKey, thinking: ThinkingKind)
    | DeclaredToolId(occurrence: string, index: nat)
    | StartedToolId(occurrence: string)
    | SteeringId(executionId: string, eventOrdinal: int)
    | AppliedId(occurrence: string)

  datatype Position = Position(executionOrder: int, requestOrder: int, phase: int, eventOrdinal: int, itemOrdinal: int)

  /** Zero, or the sign of the first coordinate that differs. */
  function ComparePositions(left: Position, right: Position): (c: int)
    ensures c == 0 <==> left == right
  {
    if left.executionOrder != right.executionOrder then left.executionOrder - right.executionOrder
    else if left.requestOrder != right.requestOrder then left.requestOrder - right.requestOrder
    else if left.phase != right.phase then left.phase - right.phase
    else if left.eventOrdinal != right.eventOrdinal then left.eventOrdinal - right.eventOrdinal
    else left.itemOrdinal - right.itemOrdinal
  }

  datatype Notice = Trimmed | HistoryPartial | HistoryOmitted | Exceeded

  datatype ExecutionMeta = ExecutionMeta(
    opening: string, settled: bool, outcome: string, adoption: string, stopReason: Option<string>,
    diagnostic: Option<string>, settledAt: Option<string>, terminalOccurrence: Option<string>,
    committedRevision: Option<int>, notices: seq<(Notice, string)>)

  datatype Role = User | Assistant

  /** Fields an entity carries for display. */
  datatype Payload = Payload(executionId: string, turn: int, text: string, complete: bool, status: string,
                             occurrence: Option<string>, details: Option<seq<string>>)

  datatype ToolOutcome = ToolOutcome(text: string, outcome: string, terminal: Option<string>)

  /** `payload` stands for the fields of an entity that are copied and never read here. */
  datatype Entity =
    | Execution(id: EntityId, version: int, position: Position, execution: ExecutionMeta)
    | Request(id: EntityId, version: int, position: Position, payload: Payload)
    | Message(id: EntityId, version: int, position: Position, role: Role, requestKey: Option<RequestKey>,
              payload: Payload, toolIds: Option<seq<EntityId>>, toolOccurrenceIds: Option<seq<string>>)
    | Thinking(id: EntityId, version: int, position: Position, payload: Payload)
    | Tool(id: EntityId, version: int, position: Position, toolKey: RequestKey, started: bool, callId: string,
           name: string, arguments: Option<string>, callIndex: Option<nat>, semanticOccurrence: Option<string>,
           declaration: Option<(string, nat)>, progress: Option<string>, result: Option<ToolOutcome>,
           details: Option<seq<string>>, payload: Payload)
    | Steering(id: EntityId, version: int, position: Position, payload: Payload)

  datatype Fact =
    | Upsert(entity: Entity)
    | Remove(id: EntityId)
    | ContextNotice(executionId: string, eventOrdinal: int, notice: Notice, text: string)
    | SettleExecution(executionId: string, eventOrdinal: int, outcome: string, adoption: string,
                      stopReason: Option<string>, diagnostic: Option<string>, settledAt: Option<string>,
                      terminalOccurrence: Option<string>, committedRevision: Option<int>)

  datatype Change =
    | UpsertEntity(entity: Entity)
    | RemoveEntity(id: EntityId)
    | InsertInOrder(id: EntityId, position: Option<Position>)
    | RemoveFromOrder(id: EntityId)

  datatype State = State(entities: map<EntityId, Entity>, order: map<EntityId, Position>,
                         toolsByRequest: map<RequestKey, seq<EntityId>>)

  datatype Outcome = Outcome(state: State, changes: seq<Change>)

  function Either<T>(first: Option<T>, second: Option<T>): Option<T> {
    if first.Some? then first else second
  }

  function ToolsOf(tools: map<RequestKey, seq<EntityId>>, key: RequestKey): seq<EntityId> {
    if key in tools then tools[key] else []
  }

  /** A later report of a tool call over an earlier one; fields it leaves out keep their value. */
  function MergeTool(prior: Entity, proposed: Entity): (merged: Entity)
    requires prior.Tool? && proposed.Tool?
    ensures merged.Tool? && merged.id == proposed.id && merged.version == proposed.version
            && merged.toolKey == proposed.toolKey
  {
    proposed.(
      name := if |proposed.name| == 0 then prior.name else proposed.name,
      arguments := Either(proposed.arguments, prior.arguments),
      callIndex := Either(proposed.callIndex, prior.callIndex),
      semanticOccurrence := Either(proposed.semanticOccurrence, prior.semanticOccurrence),
      declaration := Either(proposed.declaration, prior.declaration),
      progress := Either(proposed.progress, prior.progress),
      result := Either(proposed.result, prior.result),
      details := Either(proposed.details, prior.details))
  }

  function WithToolRelations(tools: map<RequestKey, seq<EntityId>>, entity: Entity): Entity {
    if entity.Message? && entity.role == Assistant && entity.requestKey.Some?
       && ToolsOf(tools, entity.requestKey.value) != []
    then entity.(toolIds := Some(ToolsOf(tools, entity.requestKey.value)))
    else entity
  }

  function Proposed(state: State, entity: Entity): Entity {
    if entity.Tool? then
      if entity.id in state.entities && state.entities[entity.id].Tool?
      then MergeTool(state.entities[entity.id], entity)
      else entity
    else WithToolRelations(state.toolsByRequest, entity)
  }

  function Listed<T>(list: Option<seq<T>>): seq<T> {
    if list.Some? then list.value else []
  }

  /** The assistant message of a tool's request once the tool is attached to it; None if nothing changes. */
  function Attached(assistant: Entity, tool: Entity): (attached: Option<Entity>)
    requires assistant.Message? && tool.Tool?
  {
    var hasId := tool.id in Listed(assistant.toolIds);
    var hasOccurrence := tool.semanticOccurrence.None?
                         || tool.semanticOccurrence.value in Listed(assistant.toolOccurrenceIds);
    if hasId && hasOccurrence then None
    else Some(assistant.(
      toolIds := Some(Listed(assistant.toolIds) + if hasId then [] else [tool.id]),
      toolOccurrenceIds := if hasOccurrence then assistant.toolOccurrenceIds
                           else Some(Listed(assistant.toolOccurrenceIds) + [tool.semanticOccurrence.value])))
  }

  /** The message a tool entity is attached to, when its request has an assistant message. */
  function RelatedAssistant(entities: map<EntityId, Entity>, entity: Entity): Option<Entity> {
    if entity.Tool? && AssistantId(entity.toolKey) in entities
       && entities[AssistantId(entity.toolKey)].Message? && entities[AssistantId(entity.toolKey)].role == Assistant
    then Attached(entities[AssistantId(entity.toolKey)], entity)
    else None
  }

  function Related(tools: map<RequestKey, seq<EntityId>>, entity: Entity): map<RequestKey, seq<EntityId>> {
    if entity.Tool? then
      var related := ToolsOf(tools, entity.toolKey);
      tools[entity.toolKey := if entity.id in related then related else related + [entity.id]]
    else tools
  }

  /** An entity keeps the position it was first given. */
  function Positioned(state: State, next: Entity): Entity {
    if next.id in state.entities then next.(position := state.entities[next.id].position) else next
  }

  function AppliedUpsert(state: State, proposed: Entity): Outcome {
    var next := Proposed(state, proposed);
    var isNew := next.id !in state.entities;
    if !isNew && state.entities[next.id].version > next.version then Outcome(state, [])
    else
      var entity := Positioned(state, next);
      var assistant := RelatedAssistant(state.entities, entity);
      var attached := if assistant.Some? then state.entities[AssistantId(entity.toolKey) := assistant.value]
                      else state.entities;
      Outcome(
        State(attached[entity.id := entity], if isNew then state.order[entity.id := entity.position] else state.order,
              Related(state.toolsByRequest, entity)),
        [UpsertEntity(entity)]
        + (if isNew then [InsertInOrder(entity.id, Some(entity.position))] else [])
        + (if assistant.Some? then [UpsertEntity(assistant.value)] else []))
  }

  function Replaced(state: State, entity: Entity): Outcome {
    Outcome(state.(entities := state.entities[entity.id := entity]), [UpsertEntity(entity)])
  }

  function Noticed(execution: ExecutionMeta, notice: Notice): bool {
    exists i :: 0 <= i < |execution.notices| && execution.notices[i].0 == notice
  }

  function Settled(execution: ExecutionMeta, fact: Fact): ExecutionMeta
    requires fact.SettleExecution?
  {
    execution.(
      settled := true,
      outcome := fact.outcome,
      adoption := fact.adoption,
      stopReason := Either(fact.stopReason, execution.stopReason),
      diagnostic := Either(fact.diagnostic, execution.diagnostic),
      settledAt := Either(fact.settledAt, execution.settledAt),
      terminalOccurrence := Either(fact.terminalOccurrence, execution.terminalOccurrence),
      committedRevision := Either(fact.committedRevision, execution.committedRevision))
  }

  function Applied(state: State, fact: Fact): Outcome {
    match fact
    case Remove(id) =>
      if id !in state.entities then Outcome(state, [])
      else Outcome(State(state.entities - {id}, state.order - {id}, state.toolsByRequest),
                   [RemoveEntity(id), RemoveFromOrder(id)])
    case ContextNotice(executionId, eventOrdinal, notice, text) =>
      var id := ExecutionId(executionId);
      if id !in state.entities || !state.entities[id].Execution? || Noticed(state.entities[id].execution, notice)
      then Outcome(state, [])
      else
        var current := state.entities[id];
        Replaced(state, current.(
          version := if current.version > eventOrdinal then current.version else eventOrdinal,
          execution := current.execution.(notices := current.execution.notices + [(notice, text)])))
    case SettleExecution(executionId, eventOrdinal, _, _, _, _, _, _, _) =>
      var id := ExecutionId(executionId);
      if id !in state.entities || !state.entities[id].Execution? || eventOrdinal < state.entities[id].version
      then Outcome(state, [])
      else
        var current := state.entities[id];
        Replaced(state, current.(version := eventOrdinal, execution := Settled(current.execution, fact)))
    case Upsert(entity) => AppliedUpsert(state, entity)
  }

  class ConversationStore {
    var entities: map<EntityId, Entity>
    var order: map<EntityId, Position>
    var toolsByRequest: map<RequestKey, seq<EntityId>>

    ghost function Value(): State
      reads this
    {
      State(entities, order, toolsByRequest)
    }

    constructor ()
      ensures Value() == State(map[], map[], map[])
    {
      entities, order, toolsByRequest := map[], map[], map[];
    }

    method ApplyFact(fact: Fact) returns (changes: seq<Change>)
      requires fact.ContextNotice? || fact.SettleExecution? ==>
                 var id := ExecutionId(fact.executionId); id in entities ==> entities[id].id == id
      modifies this
      ensures Outcome(Value(), changes) == Applied(old(Value()), fact)
    {
      match fact
      case Remove(id) =>
        if id !in entities {
          return [];
        }
        entities := entities - {id};
        order := order - {id};
        return [RemoveEntity(id), RemoveFromOrder(id)];
      case ContextNotice(executionId, eventOrdinal, notice, text) =>
        var id := ExecutionId(executionId);
        if id !in entities || !entities[id].Execution? || Noticed(entities[id].execution, notice) {
          return [];
        }
        var current := entities[id];
        var entity := current.(
          version := if current.version > eventOrdinal then current.version else eventOrdinal,
          execution := current.execution.(notices := current.execution.notices + [(notice, text)]));
        entities := entities[id := entity];
        return [UpsertEntity(entity)];
      case SettleExecution(executionId, eventOrdinal, _, _, _, _, _, _, _) =>
        var id := ExecutionId(executionId);
        if id !in entities || !entities[id].Execution? || eventOrdinal < entities[id].version {
          return [];
        }
        var current := entities[id];
        var entity := current.(version := eventOrdinal, execution := Settled(current.execution, fact));
        entities := entities[id := entity];
        return [UpsertEntity(entity)];
      case Upsert(proposed) =>
        changes := ApplyUpsert(proposed);
    }

    method ApplyUpsert(proposed: Entity) returns (changes: seq<Change>)
      modifies this
      ensures Outcome(Value(), changes) == AppliedUpsert(old(Value()), proposed)
    {
      hide MergeTool, Attached, ToolsOf;
      var next: Entity;
      if proposed.Tool? {
        next := proposed;
        if proposed.id in entities && entities[proposed.id].Tool? {
          next := MergeTool(entities[proposed.id], proposed);
        }
      } else {
        next := WithToolRelations(toolsByRequest, proposed);
      }
      var isNew := next.id !in entities;
      if !isNew && entities[next.id].version > next.version {
        return [];
      }
      var entity := if isNew then next else next.(position := entities[next.id].position);
      var relatedAssistant: Option<Entity> := None;
      if entity.Tool? {
        var related := ToolsOf(toolsByRequest, entity.toolKey);
        if entity.id !in related {
          related := related + [entity.id];
        }
        toolsByRequest := toolsByRequest[entity.toolKey := related];
        var assistantId := AssistantId(entity.toolKey);
        if assistantId in entities && entities[assistantId].Message? && entities[assistantId].role == Assistant {
          relatedAssistant := Attached(entities[assistantId], entity);
          if relatedAssistant.Some? {
            entities := entities[assistantId := relatedAssistant.value];
          }
        }
      }
      entities := entities[entity.id := entity];
      changes := [UpsertEntity(entity)];
      if isNew {
        order := order[entity.id := entity.position];
        changes := changes + [InsertInOrder(entity.id, Some(entity.position))];
      }
      if relatedAssistant.Some? {
        changes := changes + [UpsertEntity(relatedAssistant.value)];
      }
    }
  }
}
