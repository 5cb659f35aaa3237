/**
 From observations to facts.

 `MapsNormalized` is what the eight maps do, on every history; `ConversationNormalizer` does it in
 place. `Normalized` pairs declared calls, started calls and results with two plain lists instead.
 While no model result is observed twice the maps are indexes of the lists and both give the same
 facts (`MapsRefine`).
 */
module Normalizer {
  import opened Basics
  import opened Conversation
  import opened Indexes

  datatype Reference = Reference(lane: Option<Lane>, modelStep: int, requestOrdinal: Option<nat>)

  datatype DeclaredCall = DeclaredCall(callId: string, name: string, arguments: Option<string>, details: seq<string>)

  datatype Observation =
    | ExecutionSeen(executionId: string, turn: int, task: string, meta: ExecutionMeta, executionOrder: int,
                    details: seq<string>)
    | RequestStart(executionId: string, turn: int, eventOrdinal: int, request: Reference, attribution: string)
    | AssistantProgress(executionId: string, turn: int, eventOrdinal: int, firstEventOrdinal: Option<int>,
                        request: Reference, text: string, occurrence: Option<string>, details: seq<string>)
    | ModelResult(executionId: string, turn: int, eventOrdinal: int, firstEventOrdinal: Option<int>,
                  request: Reference, answer: Option<string>, occurrence: Option<string>, details: seq<string>,
                  declaredCalls: seq<DeclaredCall>)
    | ThinkingSeen(executionId: string, turn: int, eventOrdinal: int, request: Reference, thinking: ThinkingKind,
                   text: string, complete: bool, details: seq<string>)
    | ToolCall(executionId: string, turn: int, eventOrdinal: int, callOccurrence: string, callIndex: Option<nat>,
               request: Reference, callId: string, name: string, arguments: Option<string>, details: seq<string>)
    | ToolProgress(executionId: string, turn: int, eventOrdinal: int, request: Reference, callIndex: Option<nat>,
                   callId: string, text: string)
    | ToolResult(executionId: string, turn: int, eventOrdinal: int, request: Reference, callIndex: Option<nat>,
                 callId: string, name: string, result: ToolOutcome, details: seq<string>)
    | SteeringOperation(executionId: string, eventOrdinal: int, status: string, text: string, details: seq<string>)
    | SteeringApplied(executionId: string, turn: int, eventOrdinal: int, appliedOccurrence: string, text: string,
                      details: seq<string>)
    | ExecutionSettled(executionId: string, eventOrdinal: int, outcome: string, adoption: string,
                       stopReason: Option<string>, diagnostic: Option<string>, settledAt: Option<string>,
                       terminalOccurrence: Option<string>, committedRevision: Option<int>)
    | NoticeSeen(executionId: string, eventOrdinal: int, notice: Notice, text: string)

  // ---------------------------------------------------------------- declarations and open calls

  /** A call a model result announced and no tool call has taken yet. */
  datatype Declaration = Declaration(id: EntityId, occurrence: string, index: nat, requestKey: RequestKey,
                                     callId: string)

  /** A started call without a result. */
  datatype OpenCall = OpenCall(id: EntityId, requestKey: RequestKey, callId: string, callIndex: Option<nat>)

  datatype Origin = Origin(requestKey: RequestKey, position: Position, callIndex: Option<nat>, callId: string,
                           name: string, arguments: Option<string>, details: Option<seq<string>>)

  type CallKey = (RequestKey, string)
  type LogicalCallKey = (string, Option<Lane>, int, string)
  type IndexKey = (RequestKey, nat)
  type LogicalIndexKey = (string, Option<Lane>, int, string, nat)

  function CallOf(key: RequestKey, callId: string): CallKey { (key, callId) }

  function LogicalCallOf(key: RequestKey, callId: string): LogicalCallKey {
    (key.executionId, key.lane, key.modelStep, callId)
  }

  function LogicalIndexOf(key: RequestKey, callId: string, index: nat): LogicalIndexKey {
    (key.executionId, key.lane, key.modelStep, callId, index)
  }

  function DeclaredCallKey(d: Declaration): Option<CallKey> { Some(CallOf(d.requestKey, d.callId)) }
  function DeclaredLogicalCall(d: Declaration): Option<LogicalCallKey> { Some(LogicalCallOf(d.requestKey, d.callId)) }
  function DeclaredIndex(d: Declaration): Option<IndexKey> { Some((d.requestKey, d.index)) }
  function DeclaredLogicalIndex(d: Declaration): Option<LogicalIndexKey> {
    Some(LogicalIndexOf(d.requestKey, d.callId, d.index))
  }
  function Itself(d: Declaration): Declaration { d }

  function OpenCallKey(c: OpenCall): Option<CallKey> { Some(CallOf(c.requestKey, c.callId)) }
  function OpenLogicalCall(c: OpenCall): Option<LogicalCallKey> { Some(LogicalCallOf(c.requestKey, c.callId)) }
  function OpenIndex(c: OpenCall): Option<IndexKey> {
    match c.callIndex case None => None case Some(i) => Some((c.requestKey, i))
  }
  function OpenLogicalIndex(c: OpenCall): Option<LogicalIndexKey> {
    match c.callIndex case None => None case Some(i) => Some(LogicalIndexOf(c.requestKey, c.callId, i))
  }
  function IdOf(c: OpenCall): EntityId { c.id }

  function FirstWith<K(==), T>(list: seq<T>, keyOf: T -> Option<K>, key: K): (at: Option<nat>)
    ensures at.Some? ==> at.value < |list| && keyOf(list[at.value]) == Some(key)
                         && forall i :: 0 <= i < at.value ==> keyOf(list[i]) != Some(key)
    ensures at.None? ==> forall i :: 0 <= i < |list| ==> keyOf(list[i]) != Some(key)
  {
    if list == [] then None
    else if keyOf(list[0]) == Some(key) then Some(0)
    else match FirstWith(list[1..], keyOf, key)
      case None => None
      case Some(i) => Some(i + 1)
  }

  /** Which declaration a tool call takes: the oldest of its own request, else of its logical call. */
  function TakenAt(declared: seq<Declaration>, key: RequestKey, callId: string,
                   callIndex: Option<nat>): (at: Option<nat>)
    ensures at.Some? ==> at.value < |declared|
  {
    match callIndex
    case None => Either(FirstWith(declared, DeclaredCallKey, CallOf(key, callId)),
                        FirstWith(declared, DeclaredLogicalCall, LogicalCallOf(key, callId)))
    case Some(i) => Either(FirstWith(declared, DeclaredIndex, (key, i)),
                           FirstWith(declared, DeclaredLogicalIndex, LogicalIndexOf(key, callId, i)))
  }

  function LastOf<V>(values: seq<V>): Option<V> {
    if values == [] then None else Some(values[|values| - 1])
  }

  /** Which open call progress or a result refers to: the newest of its own request, else of its logical call. */
  function ResolvedTool(open: seq<OpenCall>, key: RequestKey, callId: string,
                        callIndex: Option<nat>): Option<EntityId> {
    match callIndex
    case None => Either(LastOf(Entries(open, OpenCallKey, IdOf, CallOf(key, callId))),
                        LastOf(Entries(open, OpenLogicalCall, IdOf, LogicalCallOf(key, callId))))
    case Some(i) => Either(LastOf(Entries(open, OpenIndex, IdOf, (key, i))),
                           LastOf(Entries(open, OpenLogicalIndex, IdOf, LogicalIndexOf(key, callId, i))))
  }

  function OpenIds(open: seq<OpenCall>): (ids: seq<EntityId>)
    ensures |ids| == |open| && forall i :: 0 <= i < |open| ==> ids[i] == open[i].id
  {
    seq(|open|, i requires 0 <= i < |open| => open[i].id)
  }

  /** The newest open call of an identity is closed. */
  function Closed(open: seq<OpenCall>, id: EntityId): seq<OpenCall> {
    match LastIndex(OpenIds(open), id)
    case None => open
    case Some(at) => Without(open, at)
  }

  // ---------------------------------------------------------------- the four declaration indexes

  datatype DeclaredMaps = DeclaredMaps(
    byCall: map<CallKey, seq<Declaration>>, byLogicalCall: map<LogicalCallKey, seq<Declaration>>,
    byIndex: map<IndexKey, seq<Declaration>>, byLogicalIndex: map<LogicalIndexKey, seq<Declaration>>)

  ghost predicate DeclaredAgree(maps: DeclaredMaps, declared: seq<Declaration>) {
    && Agrees(maps.byCall, declared, DeclaredCallKey, Itself)
    && Agrees(maps.byLogicalCall, declared, DeclaredLogicalCall, Itself)
    && Agrees(maps.byIndex, declared, DeclaredIndex, Itself)
    && Agrees(maps.byLogicalIndex, declared, DeclaredLogicalIndex, Itself)
  }

  ghost predicate DistinctDeclarations(declared: seq<Declaration>) {
    forall i, j :: 0 <= i < j < |declared| ==> declared[i].id != declared[j].id
  }

  function Declare(maps: DeclaredMaps, d: Declaration): DeclaredMaps {
    DeclaredMaps(
      Pushed(maps.byCall, CallOf(d.requestKey, d.callId), d),
      Pushed(maps.byLogicalCall, LogicalCallOf(d.requestKey, d.callId), d),
      Pushed(maps.byIndex, (d.requestKey, d.index), d),
      Pushed(maps.byLogicalIndex, LogicalIndexOf(d.requestKey, d.callId, d.index), d))
  }

  lemma {:induction false} DeclareAgrees(maps: DeclaredMaps, declared: seq<Declaration>, d: Declaration)
    requires DeclaredAgree(maps, declared)
    ensures DeclaredAgree(Declare(maps, d), declared + [d])
  {
    PushAgrees(maps.byCall, declared, DeclaredCallKey, Itself, d);
    PushAgrees(maps.byLogicalCall, declared, DeclaredLogicalCall, Itself, d);
    PushAgrees(maps.byIndex, declared, DeclaredIndex, Itself, d);
    PushAgrees(maps.byLogicalIndex, declared, DeclaredLogicalIndex, Itself, d);
  }

  function IdsOf(values: seq<Declaration>): (ids: seq<EntityId>)
    ensures |ids| == |values| && forall i :: 0 <= i < |values| ==> ids[i] == values[i].id
  {
    seq(|values|, i requires 0 <= i < |values| => values[i].id)
  }

  /** `removeDeclaration`: drops the entry with this identity, if the key has one. */
  function Dropped<K>(index: map<K, seq<Declaration>>, key: K, id: EntityId): map<K, seq<Declaration>> {
    if key !in index then index
    else match FirstIndex(IdsOf(index[key]), id)
      case None => index
      case Some(at) => index[key := Without(index[key], at)]
  }

  /** `takeDeclaration`: shifts the oldest entry of a key. */
  function Shifted<K>(index: map<K, seq<Declaration>>, key: K): map<K, seq<Declaration>> {
    if Lookup(index, key) == [] then index else index[key := index[key][1..]]
  }

  lemma {:induction false} RankOfId<K>(list: seq<Declaration>, keyOf: Declaration -> Option<K>, key: K, at: nat,
                                       d: Declaration)
    requires DistinctDeclarations(list) && at < |list| && d == list[at] && keyOf(d) == Some(key)
    ensures FirstIndex(IdsOf(Entries(list, keyOf, Itself, key)),
                       d.id) == Some(|Entries(list[..at], keyOf, Itself, key)|)
  {
    var entries := Entries(list, keyOf, Itself, key);
    EntriesWithout(list, at, keyOf, Itself, key);
    var rank := |Entries(list[..at], keyOf, Itself, key)|;
    var ids := IdsOf(entries);
    var found := FirstIndex(ids, d.id);
    assert ids[rank] == d.id;
    assert d.id in ids;
    var at' := EntrySource(list, keyOf, Itself, key, found.value);
  }

  /** Dropping a declaration from one index keeps it in step with the list without it. */
  lemma {:induction false} DropAgrees<K(!new)>(index: map<K, seq<Declaration>>, list: seq<Declaration>,
                                         keyOf: Declaration -> Option<K>, at: nat)
    requires Agrees(index, list, keyOf, Itself) && DistinctDeclarations(list) && at < |list| && keyOf(list[at]).Some?
    ensures Agrees(Dropped(index, keyOf(list[at]).value, list[at].id), Without(list, at), keyOf, Itself)
  {
    var own := keyOf(list[at]).value;
    var index' := Dropped(index, own, list[at].id);
    forall key: K ensures Lookup(index', key) == Entries(Without(list, at), keyOf, Itself, key) {
      EntriesWithout(list, at, keyOf, Itself, key);
      if key == own {
        RankOfId(list, keyOf, key, at, list[at]);
      }
    }
  }

  /** Shifting off the oldest entry of a key removes the first declaration with that key. */
  lemma {:induction false} ShiftAgrees<K(!new)>(index: map<K, seq<Declaration>>, list: seq<Declaration>,
                                          keyOf: Declaration -> Option<K>, key: K, at: nat)
    requires Agrees(index, list, keyOf, Itself) && FirstWith(list, keyOf, key) == Some(at)
    ensures Lookup(index, key) != [] && Lookup(index, key)[0] == list[at]
    ensures Agrees(Shifted(index, key), Without(list, at), keyOf, Itself)
  {
    EntriesWithout(list, at, keyOf, Itself, key);
    NoneBefore(list, keyOf, key, at);
    assert Without(Entries(list, keyOf, Itself, key), 0) == Entries(list, keyOf, Itself, key)[1..];
    forall other: K ensures Lookup(Shifted(index, key), other) == Entries(Without(list, at), keyOf, Itself, other) {
      EntriesWithout(list, at, keyOf, Itself, other);
    }
  }

  /** Dropping what is no longer there changes nothing. */
  lemma {:induction false} DropAbsent<K(!new)>(index: map<K, seq<Declaration>>, list: seq<Declaration>,
                                         keyOf: Declaration -> Option<K>, key: K, id: EntityId)
    requires Agrees(index, list, keyOf, Itself) && forall i :: 0 <= i < |list| ==> list[i].id != id
    ensures Dropped(index, key, id) == index
  {
    if key in index {
      var entries := Lookup(index, key);
      forall i | 0 <= i < |entries| ensures entries[i].id != id {
        var source := EntrySource(list, keyOf, Itself, key, i);
      }
      assert id !in IdsOf(entries);
    }
  }

  lemma {:induction false} NoneBefore<K>(list: seq<Declaration>, keyOf: Declaration -> Option<K>, key: K, at: nat)
    requires at <= |list| && forall i :: 0 <= i < at ==> keyOf(list[i]) != Some(key)
    ensures Entries(list[..at], keyOf, Itself, key) == []
  {
    if Entries(list[..at], keyOf, Itself, key) != [] {
      var source := EntrySource(list[..at], keyOf, Itself, key, 0);
    }
  }

  lemma {:induction false} EmptyKey<K(!new)>(index: map<K, seq<Declaration>>, list: seq<Declaration>,
                                       keyOf: Declaration -> Option<K>, key: K)
    requires Agrees(index, list, keyOf, Itself) && FirstWith(list, keyOf, key).None?
    ensures Lookup(index, key) == [] && Shifted(index, key) == index
  {
    assert list[..|list|] == list;
    NoneBefore(list, keyOf, key, |list|);
  }

  /** `removeDeclaredTool`, over all four indexes. */
  function Undeclared(maps: DeclaredMaps, d: Declaration): DeclaredMaps {
    DeclaredMaps(
      Dropped(maps.byCall, CallOf(d.requestKey, d.callId), d.id),
      Dropped(maps.byLogicalCall, LogicalCallOf(d.requestKey, d.callId), d.id),
      Dropped(maps.byIndex, (d.requestKey, d.index), d.id),
      Dropped(maps.byLogicalIndex, LogicalIndexOf(d.requestKey, d.callId, d.index), d.id))
  }

  lemma {:induction false} WithoutDistinct(list: seq<Declaration>, at: nat)
    requires DistinctDeclarations(list) && at < |list|
    ensures DistinctDeclarations(Without(list, at))
    ensures forall i :: 0 <= i < |Without(list, at)| ==> Without(list, at)[i].id != list[at].id
  {
  }

  /** `map` is `maps` with its entry under one key already shifted; removing the rest meets the plain list. */
  lemma {:induction false} UndeclareAgrees(maps: DeclaredMaps, shifted: DeclaredMaps, declared: seq<Declaration>,
                                           at: nat)
    requires DeclaredAgree(maps, declared) && DistinctDeclarations(declared) && at < |declared|
    requires shifted.byCall == maps.byCall || Agrees(shifted.byCall, Without(declared, at), DeclaredCallKey, Itself)
    requires shifted.byLogicalCall == maps.byLogicalCall
             || Agrees(shifted.byLogicalCall, Without(declared, at), DeclaredLogicalCall, Itself)
    requires shifted.byIndex == maps.byIndex || Agrees(shifted.byIndex, Without(declared, at), DeclaredIndex, Itself)
    requires shifted.byLogicalIndex == maps.byLogicalIndex
             || Agrees(shifted.byLogicalIndex, Without(declared, at), DeclaredLogicalIndex, Itself)
    ensures DeclaredAgree(Undeclared(shifted, declared[at]), Without(declared, at))
  {
    WithoutDistinct(declared, at);
    hide Dropped, Agrees;
    OneAgrees(maps.byCall, shifted.byCall, declared, DeclaredCallKey, at);
    OneAgrees(maps.byLogicalCall, shifted.byLogicalCall, declared, DeclaredLogicalCall, at);
    OneAgrees(maps.byIndex, shifted.byIndex, declared, DeclaredIndex, at);
    OneAgrees(maps.byLogicalIndex, shifted.byLogicalIndex, declared, DeclaredLogicalIndex, at);
  }

  lemma {:induction false} OneAgrees<K(!new)>(index: map<K, seq<Declaration>>, shifted: map<K, seq<Declaration>>,
                                        list: seq<Declaration>, keyOf: Declaration -> Option<K>, at: nat)
    requires Agrees(index, list, keyOf, Itself) && DistinctDeclarations(list) && at < |list| && keyOf(list[at]).Some?
    requires shifted == index || Agrees(shifted, Without(list, at), keyOf, Itself)
    ensures Agrees(Dropped(shifted, keyOf(list[at]).value, list[at].id), Without(list, at), keyOf, Itself)
  {
    WithoutDistinct(list, at);
    hide Dropped, Agrees, Without;
    if shifted == index {
      DropAgrees(index, list, keyOf, at);
    } else {
      DropAbsent(shifted, Without(list, at), keyOf, keyOf(list[at]).value, list[at].id);
    }
  }

  // ---------------------------------------------------------------- the four open-call indexes

  datatype OpenMaps = OpenMaps(
    byCall: map<CallKey, seq<EntityId>>, byLogicalCall: map<LogicalCallKey, seq<EntityId>>,
    byIndex: map<IndexKey, seq<EntityId>>, byLogicalIndex: map<LogicalIndexKey, seq<EntityId>>)

  ghost predicate OpenAgree(maps: OpenMaps, open: seq<OpenCall>) {
    && Agrees(maps.byCall, open, OpenCallKey, IdOf)
    && Agrees(maps.byLogicalCall, open, OpenLogicalCall, IdOf)
    && Agrees(maps.byIndex, open, OpenIndex, IdOf)
    && Agrees(maps.byLogicalIndex, open, OpenLogicalIndex, IdOf)
  }

  function Opened(maps: OpenMaps, c: OpenCall): OpenMaps {
    OpenMaps(
      Pushed(maps.byCall, CallOf(c.requestKey, c.callId), c.id),
      Pushed(maps.byLogicalCall, LogicalCallOf(c.requestKey, c.callId), c.id),
      match c.callIndex case None => maps.byIndex case Some(i) => Pushed(maps.byIndex, (c.requestKey, i), c.id),
      match c.callIndex
      case None => maps.byLogicalIndex
      case Some(i) => Pushed(maps.byLogicalIndex, LogicalIndexOf(c.requestKey, c.callId, i), c.id))
  }

  lemma {:induction false} OpenAgrees(maps: OpenMaps, open: seq<OpenCall>, c: OpenCall)
    requires OpenAgree(maps, open)
    ensures OpenAgree(Opened(maps, c), open + [c])
  {
    PushAgrees(maps.byCall, open, OpenCallKey, IdOf, c);
    PushAgrees(maps.byLogicalCall, open, OpenLogicalCall, IdOf, c);
    PushAgrees(maps.byIndex, open, OpenIndex, IdOf, c);
    PushAgrees(maps.byLogicalIndex, open, OpenLogicalIndex, IdOf, c);
  }

  /** `removeLast`: drops the newest entry with this identity. */
  function Retired<K>(index: map<K, seq<EntityId>>, key: K, id: EntityId): map<K, seq<EntityId>> {
    if key !in index then index
    else match LastIndex(index[key], id)
      case None => index
      case Some(at) => index[key := Without(index[key], at)]
  }

  function Retire(maps: OpenMaps, c: OpenCall): OpenMaps {
    OpenMaps(
      Retired(maps.byCall, CallOf(c.requestKey, c.callId), c.id),
      Retired(maps.byLogicalCall, LogicalCallOf(c.requestKey, c.callId), c.id),
      match c.callIndex case None => maps.byIndex case Some(i) => Retired(maps.byIndex, (c.requestKey, i), c.id),
      match c.callIndex
      case None => maps.byLogicalIndex
      case Some(i) => Retired(maps.byLogicalIndex, LogicalIndexOf(c.requestKey, c.callId, i), c.id))
  }

  lemma {:induction false} LastRank<K>(open: seq<OpenCall>, keyOf: OpenCall -> Option<K>, key: K, at: nat)
    requires at < |open| && keyOf(open[at]) == Some(key)
    requires forall i :: at < i < |open| ==> open[i].id != open[at].id
    ensures LastIndex(Entries(open, keyOf, IdOf, key), open[at].id) == Some(|Entries(open[..at], keyOf, IdOf, key)|)
  {
    var entries := Entries(open, keyOf, IdOf, key);
    var rank := |Entries(open[..at], keyOf, IdOf, key)|;
    EntryAt(open, at, keyOf, IdOf, key);
    var later := Entries(open[at + 1..], keyOf, IdOf, key);
    forall i | 0 <= i < |later| ensures later[i] != open[at].id {
      var source := EntrySource(open[at + 1..], keyOf, IdOf, key, i);
      assert open[at + 1..][source] == open[at + 1 + source];
    }
    assert entries[rank] == open[at].id;
    assert entries[rank + 1..] == later;
    LastIndexUnique(entries, open[at].id, rank);
  }

  lemma {:induction false} RetireAgrees<K(!new)>(index: map<K, seq<EntityId>>, open: seq<OpenCall>,
                                           keyOf: OpenCall -> Option<K>, at: nat)
    requires Agrees(index, open, keyOf, IdOf) && at < |open|
    requires forall i :: at < i < |open| ==> open[i].id != open[at].id
    ensures Agrees(if keyOf(open[at]).None? then index else Retired(index, keyOf(open[at]).value, open[at].id),
                   Without(open, at), keyOf, IdOf)
  {
    var index' := if keyOf(open[at]).None? then index else Retired(index, keyOf(open[at]).value, open[at].id);
    forall key: K ensures Lookup(index', key) == Entries(Without(open, at), keyOf, IdOf, key) {
      EntriesWithout(open, at, keyOf, IdOf, key);
      if keyOf(open[at]) == Some(key) {
        LastRank(open, keyOf, key, at);
      }
    }
  }

  lemma {:induction false} RetireAllAgree(maps: OpenMaps, open: seq<OpenCall>, at: nat)
    requires OpenAgree(maps, open) && at < |open|
    requires forall i :: at < i < |open| ==> open[i].id != open[at].id
    ensures OpenAgree(Retire(maps, open[at]), Without(open, at))
  {
    hide Agrees, Retired;
    RetireAgrees(maps.byCall, open, OpenCallKey, at);
    RetireAgrees(maps.byLogicalCall, open, OpenLogicalCall, at);
    RetireAgrees(maps.byIndex, open, OpenIndex, at);
    RetireAgrees(maps.byLogicalIndex, open, OpenLogicalIndex, at);
  }

  // ---------------------------------------------------------------- the plain normalizer

  datatype NormalizerCore = NormalizerCore(
    requestStartOrdinals: map<RequestKey, int>, latestRequestByStep: map<(string, int), RequestKey>,
    origins: map<EntityId, Origin>, executionOrders: map<string, int>,
    declared: seq<Declaration>, open: seq<OpenCall>)

  function Details(details: seq<string>): Option<seq<string>> {
    if details == [] then None else Some(details)
  }

  predicate Compatible(prior: RequestKey, reference: Reference) {
    && (reference.lane.None? || prior.lane == reference.lane)
    && (reference.requestOrdinal.None? || prior.requestOrdinal == reference.requestOrdinal)
  }

  function ResolvedRequest(latest: map<(string, int), RequestKey>, executionId: string, reference: Reference,
                           inheritMissing: bool): RequestKey {
    var step := (executionId, reference.modelStep);
    var inherited := if inheritMissing && step in latest && Compatible(latest[step],
                                                                       reference) then Some(latest[step]) else None;
    RequestKey(
      executionId,
      if reference.lane.Some? then reference.lane else if inherited.Some? then inherited.value.lane else None,
      reference.modelStep, if reference.requestOrdinal.Some? then reference.requestOrdinal
      else if inherited.Some? then inherited.value.requestOrdinal else None)
  }

  function ExecutionOrder(orders: map<string, int>, executionId: string): int {
    if executionId in orders then orders[executionId] else 0
  }

  function MessagePosition(orders: map<string, int>, starts: map<RequestKey, int>, key: RequestKey, eventOrdinal: int,
                           phase: int): Position {
    Position(ExecutionOrder(orders, key.executionId), if key in starts then starts[key] else eventOrdinal, phase,
             eventOrdinal, eventOrdinal)
  }

  function AssistantMessage(o: Observation, key: RequestKey, text: string, complete: bool, position: Position): Fact
    requires o.AssistantProgress? || o.ModelResult?
  {
    Upsert(Message(AssistantId(key), o.eventOrdinal, position, Assistant, Some(key),
                   Payload(o.executionId, o.turn, text, complete, "", o.occurrence, Details(o.details)), None, None))
  }

  function First(optional: Option<int>, otherwise: int): int {
    if optional.Some? then optional.value else otherwise
  }

  function ToolPayload(executionId: string, turn: int): Payload {
    Payload(executionId, turn, "", false, "", None, None)
  }

  /** The tool entity every report of a call is built on; the report's own fields are set on top. */
  function ToolEntity(id: EntityId, eventOrdinal: int, origin: Origin, payload: Payload): (entity: Entity)
    ensures entity.Tool? && entity.id == id
  {
    Tool(id, eventOrdinal, origin.position, origin.requestKey, true, origin.callId, origin.name, origin.arguments,
         origin.callIndex, None, None, None, None, origin.details, payload)
  }

  function DeclarationOf(occurrence: string, index: nat, key: RequestKey, callId: string): Declaration {
    Declaration(DeclaredToolId(occurrence, index), occurrence, index, key, callId)
  }

  function DeclaredOrigin(core: NormalizerCore, eventOrdinal: int, key: RequestKey, call: DeclaredCall,
                          index: nat): Origin {
    Origin(key, MessagePosition(core.executionOrders, core.requestStartOrdinals, key, eventOrdinal,
                           2).(itemOrdinal := index),
           Some(index), call.callId, call.name, call.arguments, Details(call.details))
  }

  function DeclaredFact(o: Observation, occurrence: string, index: nat, origin: Origin): Fact
    requires o.ModelResult?
  {
    var entity := ToolEntity(DeclaredToolId(occurrence, index), o.eventOrdinal, origin,
                             ToolPayload(o.executionId, o.turn));
    Upsert(entity.(started := false, declaration := Some((occurrence, index))))
  }

  /** The calls of a model result from `index` on, in order. */
  function DeclaredFrom(core: NormalizerCore, o: Observation, key: RequestKey, occurrence: string,
                        index: nat): (NormalizerCore, seq<Fact>)
    requires o.ModelResult? && index <= |o.declaredCalls|
    decreases |o.declaredCalls| - index
  {
    if index == |o.declaredCalls| then (core, [])
    else
      var call := o.declaredCalls[index];
      var origin := DeclaredOrigin(core, o.eventOrdinal, key, call, index);
      var next := core.(declared := core.declared + [DeclarationOf(occurrence, index, key, call.callId)],
                        origins := core.origins[DeclaredToolId(occurrence, index) := origin]);
      var (end, facts) := DeclaredFrom(next, o, key, occurrence, index + 1);
      (end, [DeclaredFact(o, occurrence, index, origin)] + facts)
  }

  function Answer(books: NormalizerCore, o: Observation, key: RequestKey): Fact
    requires o.ModelResult?
  {
    if o.answer.None? then Remove(AssistantId(key))
    else AssistantMessage(o, key, o.answer.value, true,
                          MessagePosition(books.executionOrders, books.requestStartOrdinals, key,
                                          First(o.firstEventOrdinal, o.eventOrdinal), 1))
  }

  function ModelResultNormalized(core: NormalizerCore, o: Observation): (NormalizerCore, seq<Fact>)
    requires o.ModelResult?
  {
    var key := ResolvedRequest(core.latestRequestByStep, o.executionId, o.request, false);
    var answer := Answer(core, o, key);
    if o.occurrence.None? then (core, [answer])
    else
      var (end, facts) := DeclaredFrom(core, o, key, o.occurrence.value, 0);
      (end, [answer] + facts)
  }

  function CallOrigin(core: NormalizerCore, o: Observation, key: RequestKey, id: EntityId,
                      callIndex: Option<nat>): Origin
    requires o.ToolCall?
  {
    if id in core.origins then core.origins[id]
    else Origin(key, MessagePosition(core.executionOrders, core.requestStartOrdinals, key, o.eventOrdinal, 2),
                callIndex, o.callId, o.name, o.arguments, Details(o.details))
  }

  function ToolCallNormalized(core: NormalizerCore, o: Observation): (NormalizerCore, seq<Fact>)
    requires o.ToolCall?
  {
    var key := ResolvedRequest(core.latestRequestByStep, o.executionId, o.request, false);
    match TakenAt(core.declared, key, o.callId, o.callIndex)
    case None => Started(core, o, key, None)
    case Some(at) => Started(core.(declared := Without(core.declared, at)), o, key, Some(core.declared[at]))
  }

  /** A call is opened under the identity of the declaration it took, or under its own. */
  function Started(core: NormalizerCore, o: Observation, key: RequestKey, taken: Option<Declaration>)
    : (NormalizerCore, seq<Fact>)
    requires o.ToolCall?
  {
    var id := StartedId(o, taken);
    var origin := CallOrigin(core, o, key, id, StartedIndex(o, taken));
    (core.(origins := core.origins[id := origin], open := core.open + [OpenCallOf(id, origin)]),
     [Upsert(StartedEntity(o, id, origin, taken))])
  }

  function StartedId(o: Observation, taken: Option<Declaration>): EntityId
    requires o.ToolCall?
  {
    if taken.None? then StartedToolId(o.callOccurrence) else taken.value.id
  }

  function StartedIndex(o: Observation, taken: Option<Declaration>): Option<nat>
    requires o.ToolCall?
  {
    if o.callIndex.Some? then o.callIndex else if taken.Some? then Some(taken.value.index) else None
  }

  function OpenCallOf(id: EntityId, origin: Origin): OpenCall {
    OpenCall(id, origin.requestKey, origin.callId, origin.callIndex)
  }

  function StartedEntity(o: Observation, id: EntityId, origin: Origin, taken: Option<Declaration>): Entity
    requires o.ToolCall?
  {
    var entity := ToolEntity(id, o.eventOrdinal, origin, ToolPayload(o.executionId, o.turn));
    entity.(semanticOccurrence := Some(o.callOccurrence),
            declaration := if taken.None? then None else Some((taken.value.occurrence, taken.value.index)))
  }

  function ToolProgressNormalized(core: NormalizerCore, o: Observation): seq<Fact>
    requires o.ToolProgress?
  {
    var key := ResolvedRequest(core.latestRequestByStep, o.executionId, o.request, false);
    match ResolvedTool(core.open, key, o.callId, o.callIndex)
    case None => []
    case Some(id) => [ProgressFact(core, o, key, id)]
  }

  function ProgressFact(core: NormalizerCore, o: Observation, key: RequestKey, id: EntityId): Fact
    requires o.ToolProgress?
  {
    var origin := if id in core.origins then core.origins[id]
                  else Origin(key, MessagePosition(core.executionOrders, core.requestStartOrdinals, key, o.eventOrdinal,
                                                   2),
                              None, o.callId, "", None, None);
    Upsert(ToolEntity(id, o.eventOrdinal, origin, ToolPayload(o.executionId, o.turn)).(progress := Some(o.text)))
  }

  function ToolResultNormalized(core: NormalizerCore, o: Observation): (NormalizerCore, seq<Fact>)
    requires o.ToolResult?
  {
    var key := ResolvedRequest(core.latestRequestByStep, o.executionId, o.request, false);
    match ResolvedTool(core.open, key, o.callId, o.callIndex)
    case None => (core, [])
    case Some(id) => ResultReported(core, o, key, id)
  }

  function ResultReported(core: NormalizerCore, o: Observation, key: RequestKey, id: EntityId)
    : (NormalizerCore, seq<Fact>)
    requires o.ToolResult?
  {
    (core.(open := Closed(core.open, id)), [Upsert(ResultEntity(o, id, ResultOrigin(core, o, key, id)))])
  }

  function ResultOrigin(core: NormalizerCore, o: Observation, key: RequestKey, id: EntityId): Origin
    requires o.ToolResult?
  {
    if id in core.origins then core.origins[id]
    else Origin(key, MessagePosition(core.executionOrders, core.requestStartOrdinals, key, o.eventOrdinal, 2),
                o.callIndex, o.callId, o.name, None, Details(o.details))
  }

  function ResultEntity(o: Observation, id: EntityId, origin: Origin): Entity
    requires o.ToolResult?
  {
    var entity := ToolEntity(id, o.eventOrdinal, origin, ToolPayload(o.executionId, o.turn));
    entity.(result := Some(o.result), details := Details(Listed(origin.details) + o.details))
  }

  /** Observations that touch neither declarations nor open calls. */
  function PlainNormalized(core: NormalizerCore, o: Observation): (NormalizerCore, seq<Fact>)
    requires !o.ModelResult? && !o.ToolCall? && !o.ToolResult?
  {
    match o
    case ExecutionSeen(executionId, turn, task, meta, order, details) =>
      (core.(executionOrders := core.executionOrders[executionId := order]),
       [Upsert(Execution(ExecutionId(executionId), 0, Position(order, -1, -2, -1, -1), meta)),
        Upsert(Message(TaskMessageId(executionId), 0, Position(order, -1, -1, 0, 0), User, None,
                       Payload(executionId, turn, task, true, "", None, Details(details)), None, None))])
    case RequestStart(executionId, turn, eventOrdinal, request, attribution) =>
      var key := ResolvedRequest(core.latestRequestByStep, executionId, request, true);
      (core.(requestStartOrdinals := core.requestStartOrdinals[key := eventOrdinal],
             latestRequestByStep := core.latestRequestByStep[(executionId, key.modelStep) := key]),
       [Upsert(Request(RequestId(key), eventOrdinal,
                       Position(ExecutionOrder(core.executionOrders, executionId), eventOrdinal, -1, eventOrdinal,
                                eventOrdinal),
                       Payload(executionId, turn, attribution, false, "", None, None)))])
    case AssistantProgress(executionId, turn, eventOrdinal, first, request, text, occurrence, details) =>
      var key := ResolvedRequest(core.latestRequestByStep, executionId, request, false);
      (core, [AssistantMessage(o, key, text, false,
                               MessagePosition(core.executionOrders, core.requestStartOrdinals, key,
                                               First(first, eventOrdinal), 1))])
    case ThinkingSeen(executionId, turn, eventOrdinal, request, thinking, text, complete, details) =>
      var key := ResolvedRequest(core.latestRequestByStep, executionId, request, true);
      (core, [Upsert(Thinking(ThinkingId(key, thinking), eventOrdinal,
                              MessagePosition(core.executionOrders, core.requestStartOrdinals, key, eventOrdinal, 0),
                              Payload(executionId, turn, text, complete, "", None, Details(details))))])
    case ToolProgress(_, _, _, _, _, _, _) => (core, ToolProgressNormalized(core, o))
    case SteeringOperation(executionId, eventOrdinal, status, text, details) =>
      (core, [Upsert(Steering(SteeringId(executionId, eventOrdinal), eventOrdinal,
                              Position(ExecutionOrder(core.executionOrders, executionId), eventOrdinal, 0, eventOrdinal,
                                       eventOrdinal),
                              Payload(executionId, 0, text, false, status, None, Details(details))))])
    case SteeringApplied(executionId, turn, eventOrdinal, occurrence, text, details) =>
      (core, [Upsert(Message(AppliedId(occurrence), eventOrdinal,
                             Position(ExecutionOrder(core.executionOrders, executionId), eventOrdinal, 0, eventOrdinal,
                                      eventOrdinal),
                             User, None, Payload(executionId, turn, text, true, "", Some(occurrence),
                                                 Details(details)), None, None))])
    case ExecutionSettled(executionId, eventOrdinal, outcome, adoption, stop, diagnostic, settledAt, terminal,
                          revision) =>
      (core, [SettleExecution(executionId, eventOrdinal, outcome, adoption, stop, diagnostic, settledAt, terminal,
                              revision)])
    case NoticeSeen(executionId, eventOrdinal, notice, text) =>
      (core, [ContextNotice(executionId, eventOrdinal, notice, text)])
  }

  function Normalized(core: NormalizerCore, o: Observation): (NormalizerCore, seq<Fact>) {
    match o
    case ModelResult(_, _, _, _, _, _, _, _, _) => ModelResultNormalized(core, o)
    case ToolCall(_, _, _, _, _, _, _, _, _, _) => ToolCallNormalized(core, o)
    case ToolResult(_, _, _, _, _, _, _, _, _) => ToolResultNormalized(core, o)
    case _ => PlainNormalized(core, o)
  }

  // ---------------------------------------------------------------- what every run keeps

  /** The hypothesis on histories: no model result is observed twice under one occurrence. */
  predicate FreshOccurrence(o: Observation, seen: set<string>) {
    o.ModelResult? && o.occurrence.Some? ==> o.occurrence.value !in seen
  }

  function SeenAfter(o: Observation, seen: set<string>): set<string> {
    if o.ModelResult? && o.occurrence.Some? then seen + {o.occurrence.value} else seen
  }

  ghost predicate DeclarationsTracked(core: NormalizerCore, seen: set<string>) {
    forall i :: 0 <= i < |core.declared| ==>
      && core.declared[i].id == DeclaredToolId(core.declared[i].occurrence, core.declared[i].index)
      && core.declared[i].occurrence in seen
      && core.declared[i].id in core.origins
  }

  ghost predicate OriginFits(origin: Origin, c: OpenCall) {
    origin.requestKey == c.requestKey && origin.callId == c.callId && origin.callIndex == c.callIndex
  }

  ghost predicate OriginsTracked(core: NormalizerCore, seen: set<string>) {
    && (forall i :: 0 <= i < |core.open| ==>
          && core.open[i].id in core.origins && OriginFits(core.origins[core.open[i].id], core.open[i])
          && (core.open[i].id.DeclaredToolId? || core.open[i].id.StartedToolId?))
    && (forall id :: id in core.origins && id.DeclaredToolId? ==> id.occurrence in seen)
  }

  ghost predicate CoreValid(core: NormalizerCore, seen: set<string>) {
    DistinctDeclarations(core.declared) && DeclarationsTracked(core, seen) && OriginsTracked(core, seen)
  }

  /** While the calls of one result are being declared. */
  ghost predicate Declaring(core: NormalizerCore, seen: set<string>, occurrence: string, index: nat) {
    && CoreValid(core, seen + {occurrence})
    && (forall i :: 0 <= i < |core.declared| && core.declared[i].occurrence == occurrence ==>
          core.declared[i].index < index)
    && (forall id :: id in core.origins && id.DeclaredToolId? && id.occurrence == occurrence ==> id.index < index)
  }

  lemma {:induction false} DeclareStepValid(core: NormalizerCore, seen: set<string>, o: Observation, key: RequestKey,
                                            occurrence: string, index: nat)
    requires Declaring(core, seen, occurrence, index) && o.ModelResult? && index < |o.declaredCalls|
    ensures var call := o.declaredCalls[index];
            var next := core.(declared := core.declared + [DeclarationOf(occurrence, index, key, call.callId)],
                              origins := core.origins[DeclaredToolId(occurrence, index)
                                           := DeclaredOrigin(core, o.eventOrdinal, key, call, index)]);
            Declaring(next, seen, occurrence, index + 1)
  {
  }

  lemma {:induction false} DeclaredFromValid(core: NormalizerCore, seen: set<string>, o: Observation, key: RequestKey,
                                             occurrence: string, index: nat)
    requires Declaring(core, seen, occurrence, index) && o.ModelResult? && index <= |o.declaredCalls|
    ensures CoreValid(DeclaredFrom(core, o, key, occurrence, index).0, seen + {occurrence})
    decreases |o.declaredCalls| - index
  {
    hide CoreValid, Declaring, DeclaredOrigin;
    if index < |o.declaredCalls| {
      DeclareStepValid(core, seen, o, key, occurrence, index);
      var call := o.declaredCalls[index];
      var next := core.(declared := core.declared + [DeclarationOf(occurrence, index, key, call.callId)],
                        origins := core.origins[DeclaredToolId(occurrence, index)
                                     := DeclaredOrigin(core, o.eventOrdinal, key, call, index)]);
      DeclaredFromValid(next, seen, o, key, occurrence, index + 1);
    } else {
      DeclaringIsValid(core, seen, occurrence, index);
    }
  }

  lemma {:induction false} DeclaringIsValid(core: NormalizerCore, seen: set<string>, occurrence: string, index: nat)
    requires Declaring(core, seen, occurrence, index)
    ensures CoreValid(core, seen + {occurrence})
  {
  }

  lemma {:induction false} StartedValid(core: NormalizerCore, seen: set<string>, o: Observation, key: RequestKey,
                                        taken: Option<Declaration>)
    requires CoreValid(core, seen) && o.ToolCall?
    requires taken.Some? ==> taken.value.id.DeclaredToolId? && taken.value.id.occurrence in seen
    ensures CoreValid(Started(core, o, key, taken).0, seen)
  {
    hide MessagePosition, StartedEntity;
  }

  lemma {:induction false} ToolCallValid(core: NormalizerCore, seen: set<string>, o: Observation)
    requires CoreValid(core, seen) && o.ToolCall?
    ensures CoreValid(ToolCallNormalized(core, o).0, seen)
  {
    hide TakenAt, ResolvedRequest, Started;
    var key := ResolvedRequest(core.latestRequestByStep, o.executionId, o.request, false);
    match TakenAt(core.declared, key, o.callId, o.callIndex)
    case None => StartedValid(core, seen, o, key, None);
    case Some(at) =>
      WithoutDistinct(core.declared, at);
      StartedValid(core.(declared := Without(core.declared, at)), seen, o, key, Some(core.declared[at]));
  }

  lemma {:induction false} ModelResultValid(core: NormalizerCore, seen: set<string>, o: Observation)
    requires CoreValid(core, seen) && FreshOccurrence(o, seen) && o.ModelResult?
    ensures CoreValid(ModelResultNormalized(core, o).0, SeenAfter(o, seen))
  {
    hide ResolvedRequest, MessagePosition, AssistantMessage, DeclaredFrom;
    if o.occurrence.Some? {
      var key := ResolvedRequest(core.latestRequestByStep, o.executionId, o.request, false);
      DeclaredFromValid(core, seen, o, key, o.occurrence.value, 0);
    }
  }

  /** Every other observation leaves the lists and the origins alone. */
  lemma {:induction false} PlainValid(core: NormalizerCore, seen: set<string>, o: Observation)
    requires CoreValid(core, seen) && !o.ToolCall? && !o.ToolResult? && !o.ModelResult?
    ensures CoreValid(PlainNormalized(core, o).0, seen)
  {
    hide ResolvedRequest, MessagePosition, AssistantMessage, Entries, ResolvedTool;
  }

  lemma {:induction false} NormalizedValid(core: NormalizerCore, seen: set<string>, o: Observation)
    requires CoreValid(core, seen) && FreshOccurrence(o, seen)
    ensures CoreValid(Normalized(core, o).0, SeenAfter(o, seen))
  {
    hide CoreValid, ModelResultNormalized, ToolCallNormalized, ToolResultNormalized, PlainNormalized;
    if o.ToolCall? {
      ToolCallValid(core, seen, o);
    } else if o.ToolResult? {
      ToolResultValid(core, seen, o);
    } else if o.ModelResult? {
      ModelResultValid(core, seen, o);
    } else {
      PlainValid(core, seen, o);
    }
  }

  // ---------------------------------------------------------------- the eight maps

  /** The normalizer as it is kept: four books and eight maps. */
  datatype NormalizerMaps = NormalizerMaps(
    requestStartOrdinals: map<RequestKey, int>, latestRequestByStep: map<(string, int), RequestKey>,
    origins: map<EntityId, Origin>, executionOrders: map<string, int>,
    declaredTools: DeclaredMaps, openTools: OpenMaps)

  /** The books alone. */
  function Books(maps: NormalizerMaps): NormalizerCore {
    NormalizerCore(maps.requestStartOrdinals, maps.latestRequestByStep, maps.origins, maps.executionOrders, [], [])
  }

  function FirstOf<V>(values: seq<V>): Option<V> {
    if values == [] then None else Some(values[0])
  }

  /** `resolveTool`, by two lookups. */
  function MapsResolved(openTools: OpenMaps, key: RequestKey, callId: string,
                        callIndex: Option<nat>): Option<EntityId> {
    match callIndex
    case None => Either(LastOf(Lookup(openTools.byCall, CallOf(key, callId))),
                        LastOf(Lookup(openTools.byLogicalCall, LogicalCallOf(key, callId))))
    case Some(i) => Either(LastOf(Lookup(openTools.byIndex, (key, i))),
                           LastOf(Lookup(openTools.byLogicalIndex, LogicalIndexOf(key, callId, i))))
  }

  /** The oldest matching entry, and the maps after it is shifted off its list. */
  function MapsShifted(declaredTools: DeclaredMaps, key: RequestKey, callId: string, callIndex: Option<nat>)
    : (shifted: (Option<Declaration>, DeclaredMaps))
  {
    match callIndex
    case None =>
      var call := CallOf(key, callId);
      var own := declaredTools.(byCall := Shifted(declaredTools.byCall, call));
      if Lookup(declaredTools.byCall, call) != [] then (FirstOf(Lookup(declaredTools.byCall, call)), own)
      else
        var logical := LogicalCallOf(key, callId);
        (FirstOf(Lookup(own.byLogicalCall, logical)), own.(byLogicalCall := Shifted(own.byLogicalCall, logical)))
    case Some(i) =>
      var own := declaredTools.(byIndex := Shifted(declaredTools.byIndex, (key, i)));
      if Lookup(declaredTools.byIndex, (key, i)) != [] then (FirstOf(Lookup(declaredTools.byIndex, (key, i))), own)
      else
        var logical := LogicalIndexOf(key, callId, i);
        (FirstOf(Lookup(own.byLogicalIndex, logical)), own.(byLogicalIndex := Shifted(own.byLogicalIndex, logical)))
  }

  /** The declaration a tool call takes, and the maps without it. */
  function MapsTaken(declaredTools: DeclaredMaps, key: RequestKey, callId: string, callIndex: Option<nat>)
    : (Option<Declaration>, DeclaredMaps)
  {
    var (taken, shifted) := MapsShifted(declaredTools, key, callId, callIndex);
    (taken, if taken.None? then shifted else Undeclared(shifted, taken.value))
  }

  function MapsDeclaredFrom(maps: NormalizerMaps, o: Observation, key: RequestKey, occurrence: string, index: nat)
    : (NormalizerMaps, seq<Fact>)
    requires o.ModelResult? && index <= |o.declaredCalls|
    decreases |o.declaredCalls| - index
  {
    if index == |o.declaredCalls| then (maps, [])
    else
      var call := o.declaredCalls[index];
      var origin := DeclaredOrigin(Books(maps), o.eventOrdinal, key, call, index);
      var next := maps.(declaredTools := Declare(maps.declaredTools,
                                                 DeclarationOf(occurrence, index, key, call.callId)),
                        origins := maps.origins[DeclaredToolId(occurrence, index) := origin]);
      var (end, facts) := MapsDeclaredFrom(next, o, key, occurrence, index + 1);
      (end, [DeclaredFact(o, occurrence, index, origin)] + facts)
  }

  lemma {:induction false} NoMoreDeclared(maps: NormalizerMaps, o: Observation, key: RequestKey, occurrence: string)
    requires o.ModelResult?
    ensures MapsDeclaredFrom(maps, o, key, occurrence, |o.declaredCalls|) == (maps, [])
  {
  }

  /** One declared call, then the others. */
  lemma {:induction false} MapsDeclareOne(maps: NormalizerMaps, o: Observation, key: RequestKey, occurrence: string,
                                          index: nat, origin: Origin, facts: seq<Fact>)
    requires o.ModelResult? && index < |o.declaredCalls|
    requires origin == DeclaredOrigin(Books(maps), o.eventOrdinal, key, o.declaredCalls[index], index)
    ensures var d := DeclarationOf(occurrence, index, key, o.declaredCalls[index].callId);
            var next := maps.(declaredTools := Declare(maps.declaredTools, d),
                              origins := maps.origins[DeclaredToolId(occurrence, index) := origin]);
            var rest, later := MapsDeclaredFrom(maps, o, key, occurrence, index),
                               MapsDeclaredFrom(next, o, key, occurrence, index + 1);
            (rest.0, facts + rest.1) == (later.0, facts + [DeclaredFact(o, occurrence, index, origin)] + later.1)
  {
    hide DeclaredOrigin, DeclaredFact, Declare, DeclarationOf;
    var fact := DeclaredFact(o, occurrence, index, origin);
    var d := DeclarationOf(occurrence, index, key, o.declaredCalls[index].callId);
    var next := maps.(declaredTools := Declare(maps.declaredTools, d),
                      origins := maps.origins[DeclaredToolId(occurrence, index) := origin]);
    var later := MapsDeclaredFrom(next, o, key, occurrence, index + 1);
    assert facts + ([fact] + later.1) == facts + [fact] + later.1;
  }

  function MapsModelResult(maps: NormalizerMaps, o: Observation): (NormalizerMaps, seq<Fact>)
    requires o.ModelResult?
  {
    var key := ResolvedRequest(maps.latestRequestByStep, o.executionId, o.request, false);
    var answer := Answer(Books(maps), o, key);
    if o.occurrence.None? then (maps, [answer])
    else
      var (end, facts) := MapsDeclaredFrom(maps, o, key, o.occurrence.value, 0);
      (end, [answer] + facts)
  }

  function MapsStarted(maps: NormalizerMaps, o: Observation, key: RequestKey, taken: Option<Declaration>)
    : (NormalizerMaps, seq<Fact>)
    requires o.ToolCall?
  {
    var id := StartedId(o, taken);
    var origin := CallOrigin(Books(maps), o, key, id, StartedIndex(o, taken));
    (maps.(origins := maps.origins[id := origin], openTools := Opened(maps.openTools, OpenCallOf(id, origin))),
     [Upsert(StartedEntity(o, id, origin, taken))])
  }

  function MapsToolCall(maps: NormalizerMaps, o: Observation): (NormalizerMaps, seq<Fact>)
    requires o.ToolCall?
  {
    var key := ResolvedRequest(maps.latestRequestByStep, o.executionId, o.request, false);
    var (taken, declaredTools) := MapsTaken(maps.declaredTools, key, o.callId, o.callIndex);
    MapsStarted(maps.(declaredTools := declaredTools), o, key, taken)
  }

  function MapsToolProgress(maps: NormalizerMaps, o: Observation): seq<Fact>
    requires o.ToolProgress?
  {
    var key := ResolvedRequest(maps.latestRequestByStep, o.executionId, o.request, false);
    match MapsResolved(maps.openTools, key, o.callId, o.callIndex)
    case None => []
    case Some(id) => [ProgressFact(Books(maps), o, key, id)]
  }

  function MapsToolResult(maps: NormalizerMaps, o: Observation): (NormalizerMaps, seq<Fact>)
    requires o.ToolResult?
  {
    var key := ResolvedRequest(maps.latestRequestByStep, o.executionId, o.request, false);
    match MapsResolved(maps.openTools, key, o.callId, o.callIndex)
    case None => (maps, [])
    case Some(id) =>
      var origin := ResultOrigin(Books(maps), o, key, id);
      (maps.(openTools := Retire(maps.openTools, OpenCallOf(id, origin))), [Upsert(ResultEntity(o, id, origin))])
  }

  /** Every observation, with no assumption about the history: what the maps and books become. */
  function MapsNormalized(maps: NormalizerMaps, o: Observation): (NormalizerMaps, seq<Fact>) {
    if o.ModelResult? then MapsModelResult(maps, o)
    else if o.ToolCall? then MapsToolCall(maps, o)
    else if o.ToolResult? then MapsToolResult(maps, o)
    else if o.ToolProgress? then (maps, MapsToolProgress(maps, o))
    else
      var (books, facts) := PlainNormalized(Books(maps), o);
      (maps.(requestStartOrdinals := books.requestStartOrdinals, latestRequestByStep := books.latestRequestByStep,
             executionOrders := books.executionOrders),
       facts)
  }

  function NewMaps(): NormalizerMaps {
    NormalizerMaps(map[], map[], map[], map[], DeclaredMaps(map[], map[], map[], map[]),
                   OpenMaps(map[], map[], map[], map[]))
  }

  class ConversationNormalizer {
    var requestStartOrdinals: map<RequestKey, int>
    var latestRequestByStep: map<(string, int), RequestKey>
    var toolOriginsById: map<EntityId, Origin>
    var executionOrders: map<string, int>
    /** `declaredToolsBy…` and `openToolsBy…`, four maps each. */
    var declaredTools: DeclaredMaps
    var openTools: OpenMaps

    ghost function Value(): NormalizerMaps
      reads this
    {
      NormalizerMaps(requestStartOrdinals, latestRequestByStep, toolOriginsById, executionOrders, declaredTools,
                     openTools)
    }

    constructor ()
      ensures Value() == NewMaps()
    {
      requestStartOrdinals, latestRequestByStep, toolOriginsById, executionOrders := map[], map[], map[], map[];
      declaredTools, openTools := DeclaredMaps(map[], map[], map[], map[]), OpenMaps(map[], map[], map[], map[]);
    }

    method ResolveTool(key: RequestKey, callId: string, callIndex: Option<nat>) returns (id: Option<EntityId>)
      ensures id == MapsResolved(openTools, key, callId, callIndex)
    {
      match callIndex
      case None =>
        id := LastOf(Lookup(openTools.byCall, CallOf(key, callId)));
        if id.None? {
          id := LastOf(Lookup(openTools.byLogicalCall, LogicalCallOf(key, callId)));
        }
      case Some(i) =>
        id := LastOf(Lookup(openTools.byIndex, (key, i)));
        if id.None? {
          id := LastOf(Lookup(openTools.byLogicalIndex, LogicalIndexOf(key, callId, i)));
        }
    }

    /** Takes the oldest matching declaration off its list, then off the other three. */
    method TakeDeclaration(key: RequestKey, callId: string, callIndex: Option<nat>) returns (taken: Option<Declaration>)
      modifies this`declaredTools
      ensures (taken, declaredTools) == MapsTaken(old(declaredTools), key, callId, callIndex)
    {
      hide Shifted, Undeclared;
      match callIndex {
        case None =>
          var call := CallOf(key, callId);
          taken := FirstOf(Lookup(declaredTools.byCall, call));
          declaredTools := declaredTools.(byCall := Shifted(declaredTools.byCall, call));
          if taken.None? {
            var logical := LogicalCallOf(key, callId);
            taken := FirstOf(Lookup(declaredTools.byLogicalCall, logical));
            declaredTools := declaredTools.(byLogicalCall := Shifted(declaredTools.byLogicalCall, logical));
          }
        case Some(i) =>
          taken := FirstOf(Lookup(declaredTools.byIndex, (key, i)));
          declaredTools := declaredTools.(byIndex := Shifted(declaredTools.byIndex, (key, i)));
          if taken.None? {
            var logical := LogicalIndexOf(key, callId, i);
            taken := FirstOf(Lookup(declaredTools.byLogicalIndex, logical));
            declaredTools := declaredTools.(byLogicalIndex := Shifted(declaredTools.byLogicalIndex, logical));
          }
      }
      if taken.Some? {
        declaredTools := Undeclared(declaredTools, taken.value);
      }
    }

    method DeclareCalls(o: Observation, key: RequestKey, occurrence: string) returns (facts: seq<Fact>)
      requires o.ModelResult?
      modifies this`declaredTools, this`toolOriginsById
      ensures (Value(), facts) == MapsDeclaredFrom(old(Value()), o, key, occurrence, 0)
    {
      hide DeclaredOrigin, DeclaredFact, Declare, DeclarationOf, MapsDeclaredFrom, MessagePosition;
      facts := [];
      ghost var whole := MapsDeclaredFrom(Value(), o, key, occurrence, 0);
      assert [] + whole.1 == whole.1;
      for index := 0 to |o.declaredCalls|
        invariant var rest := MapsDeclaredFrom(Value(), o, key, occurrence, index);
                  (rest.0, facts + rest.1) == whole
      {
        var call := o.declaredCalls[index];
        var position := MessagePosition(executionOrders, requestStartOrdinals, key, o.eventOrdinal, 2);
        var origin := Origin(key, position.(itemOrdinal := index), Some(index), call.callId, call.name, call.arguments,
                             Details(call.details));
        OriginIs(Books(Value()), o.eventOrdinal, key, call, index, origin);
        MapsDeclareOne(Value(), o, key, occurrence, index, origin, facts);
        declaredTools := Declare(declaredTools, DeclarationOf(occurrence, index, key, call.callId));
        toolOriginsById := toolOriginsById[DeclaredToolId(occurrence, index) := origin];
        facts := facts + [DeclaredFact(o, occurrence, index, origin)];
      }
      NoMoreDeclared(Value(), o, key, occurrence);
      assert facts + [] == facts;
    }

    method NormalizeModelResult(o: Observation) returns (facts: seq<Fact>)
      requires o.ModelResult?
      modifies this
      ensures (Value(), facts) == MapsModelResult(old(Value()), o)
    {
      hide MapsDeclaredFrom, AssistantMessage;
      var key := ResolvedRequest(latestRequestByStep, o.executionId, o.request, false);
      var answer: Fact;
      if o.answer.None? {
        answer := Remove(AssistantId(key));
      } else {
        answer := AssistantMessage(o, key, o.answer.value, true,
                                   MessagePosition(executionOrders, requestStartOrdinals, key,
                                                   First(o.firstEventOrdinal, o.eventOrdinal), 1));
      }
      facts := [answer];
      if o.occurrence.Some? {
        var declaredFacts := DeclareCalls(o, key, o.occurrence.value);
        facts := facts + declaredFacts;
      }
    }

    method NormalizeToolCall(o: Observation) returns (facts: seq<Fact>)
      requires o.ToolCall?
      modifies this
      ensures (Value(), facts) == MapsToolCall(old(Value()), o)
    {
      hide MapsTaken, ResolvedRequest, MapsStarted;
      var key := ResolvedRequest(latestRequestByStep, o.executionId, o.request, false);
      var declaration := TakeDeclaration(key, o.callId, o.callIndex);
      facts := StartCall(o, key, declaration);
    }

    method StartCall(o: Observation, key: RequestKey, taken: Option<Declaration>) returns (facts: seq<Fact>)
      requires o.ToolCall?
      modifies this`toolOriginsById, this`openTools
      ensures (Value(), facts) == MapsStarted(old(Value()), o, key, taken)
    {
      hide Opened, MessagePosition, StartedEntity;
      var id := if taken.None? then StartedToolId(o.callOccurrence) else taken.value.id;
      var callIndex := if o.callIndex.Some? then o.callIndex
                       else if taken.Some? then Some(taken.value.index) else None;
      var origin: Origin;
      if id in toolOriginsById {
        origin := toolOriginsById[id];
      } else {
        origin := Origin(key, MessagePosition(executionOrders, requestStartOrdinals, key, o.eventOrdinal, 2), callIndex,
                         o.callId, o.name, o.arguments, Details(o.details));
      }
      toolOriginsById := toolOriginsById[id := origin];
      openTools := Opened(openTools, OpenCallOf(id, origin));
      facts := [Upsert(StartedEntity(o, id, origin, taken))];
    }

    method NormalizeToolProgress(o: Observation) returns (facts: seq<Fact>)
      requires o.ToolProgress?
      ensures facts == MapsToolProgress(Value(), o)
    {
      hide MapsResolved, ResolvedRequest, MessagePosition;
      var key := ResolvedRequest(latestRequestByStep, o.executionId, o.request, false);
      var resolved := ResolveTool(key, o.callId, o.callIndex);
      if resolved.None? {
        return [];
      }
      var id := resolved.value;
      var origin: Origin;
      if id in toolOriginsById {
        origin := toolOriginsById[id];
      } else {
        origin := Origin(key, MessagePosition(executionOrders, requestStartOrdinals, key, o.eventOrdinal, 2), None,
                         o.callId, "", None, None);
      }
      var entity := ToolEntity(id, o.eventOrdinal, origin, ToolPayload(o.executionId, o.turn));
      facts := [Upsert(entity.(progress := Some(o.text)))];
    }

    method NormalizeToolResult(o: Observation) returns (facts: seq<Fact>)
      requires o.ToolResult?
      modifies this`openTools
      ensures (Value(), facts) == MapsToolResult(old(Value()), o)
    {
      hide MapsResolved, ResolvedRequest, MessagePosition, Retire, ResultEntity;
      var key := ResolvedRequest(latestRequestByStep, o.executionId, o.request, false);
      var resolved := ResolveTool(key, o.callId, o.callIndex);
      if resolved.None? {
        return [];
      }
      var id := resolved.value;
      var origin: Origin;
      if id in toolOriginsById {
        origin := toolOriginsById[id];
      } else {
        origin := Origin(key, MessagePosition(executionOrders, requestStartOrdinals, key, o.eventOrdinal, 2),
                         o.callIndex,
                         o.callId, o.name, None, Details(o.details));
      }
      openTools := Retire(openTools, OpenCallOf(id, origin));
      facts := [Upsert(ResultEntity(o, id, origin))];
    }

    method Normalize(o: Observation) returns (facts: seq<Fact>)
      modifies this
      ensures (Value(), facts) == MapsNormalized(old(Value()), o)
    {
      hide MapsModelResult, MapsToolCall, MapsToolResult, MapsToolProgress, PlainNormalized;
      if o.ModelResult? {
        facts := NormalizeModelResult(o);
      } else if o.ToolCall? {
        facts := NormalizeToolCall(o);
      } else if o.ToolResult? {
        facts := NormalizeToolResult(o);
      } else if o.ToolProgress? {
        facts := NormalizeToolProgress(o);
      } else {
        var (books, produced) := PlainNormalized(
          NormalizerCore(requestStartOrdinals, latestRequestByStep, toolOriginsById, executionOrders, [], []), o);
        requestStartOrdinals, latestRequestByStep, executionOrders :=
          books.requestStartOrdinals, books.latestRequestByStep, books.executionOrders;
        facts := produced;
      }
    }
  }

  lemma {:induction false} OriginIs(core: NormalizerCore, eventOrdinal: int, key: RequestKey, call: DeclaredCall,
                                    index: nat, origin: Origin)
    requires var position := MessagePosition(core.executionOrders, core.requestStartOrdinals, key, eventOrdinal, 2);
             origin == Origin(key, position.(itemOrdinal := index), Some(index), call.callId, call.name, call.arguments,
                              Details(call.details))
    ensures DeclaredOrigin(core, eventOrdinal, key, call, index) == origin
  {
  }

  // ---------------------------------------------------------------- the maps are indexes of the lists

  /** The maps index the declarations and open calls of the plain form, over the same books. */
  ghost predicate Indexed(maps: NormalizerMaps, core: NormalizerCore) {
    && Books(maps) == core.(declared := [], open := [])
    && DeclaredAgree(maps.declaredTools, core.declared) && OpenAgree(maps.openTools, core.open)
  }

  lemma {:induction false} LastIsOpen<K>(open: seq<OpenCall>, keyOf: OpenCall -> Option<K>, key: K)
    ensures LastOf(Entries(open, keyOf, IdOf, key)).Some? ==>
              LastOf(Entries(open, keyOf, IdOf, key)).value in OpenIds(open)
  {
    var entries := Entries(open, keyOf, IdOf, key);
    if entries != [] {
      var at := EntrySource(open, keyOf, IdOf, key, |entries| - 1);
      assert OpenIds(open)[at] == entries[|entries| - 1];
    }
  }

  /** Progress and results refer to calls that are open. */
  lemma {:induction false} ResolvesOpen(open: seq<OpenCall>, key: RequestKey, callId: string, callIndex: Option<nat>)
    ensures ResolvedTool(open, key, callId, callIndex).Some? ==>
              ResolvedTool(open, key, callId, callIndex).value in OpenIds(open)
  {
    match callIndex
    case None =>
      LastIsOpen(open, OpenCallKey, CallOf(key, callId));
      LastIsOpen(open, OpenLogicalCall, LogicalCallOf(key, callId));
    case Some(i) =>
      LastIsOpen(open, OpenIndex, (key, i));
      LastIsOpen(open, OpenLogicalIndex, LogicalIndexOf(key, callId, i));
  }

  /** The call a result closes: the newest open one of its identity, opened where its origin says. */
  lemma {:induction false} ResolvedIsOpen(core: NormalizerCore, seen: set<string>, key: RequestKey, callId: string,
                                          callIndex: Option<nat>)
    returns (at: nat)
    requires CoreValid(core, seen) && ResolvedTool(core.open, key, callId, callIndex).Some?
    ensures var id := ResolvedTool(core.open, key, callId, callIndex).value;
            && at < |core.open| && id in core.origins && core.open[at] == OpenCallOf(id, core.origins[id])
            && Closed(core.open, id) == Without(core.open, at)
    ensures forall i :: at < i < |core.open| ==> core.open[i].id != core.open[at].id
  {
    ResolvesOpen(core.open, key, callId, callIndex);
    hide ResolvedTool;
    var ids := OpenIds(core.open);
    at := LastIndex(ids, ResolvedTool(core.open, key, callId, callIndex).value).value;
    forall i | at < i < |core.open| ensures core.open[i].id != core.open[at].id {
      assert ids[at + 1..][i - at - 1] == core.open[i].id;
    }
  }

  lemma {:induction false} ReportIs(core: NormalizerCore, o: Observation, key: RequestKey, id: EntityId, at: nat)
    requires o.ToolResult? && id in core.origins && at < |core.open| && Closed(core.open, id) == Without(core.open, at)
    ensures ResultReported(core, o, key, id)
         == (core.(open := Without(core.open, at)), [Upsert(ResultEntity(o, id, core.origins[id]))])
  {
  }

  lemma {:induction false} ToolResultValid(core: NormalizerCore, seen: set<string>, o: Observation)
    requires CoreValid(core, seen) && o.ToolResult?
    ensures CoreValid(ToolResultNormalized(core, o).0, seen)
  {
    hide ResolvedRequest, MessagePosition, ResolvedTool;
  }

  lemma {:induction false} ShiftOrNot<K(!new)>(index: map<K, seq<Declaration>>, list: seq<Declaration>,
                                         keyOf: Declaration -> Option<K>, key: K)
    requires Agrees(index, list, keyOf, Itself)
    ensures match FirstWith(list, keyOf, key)
            case None => FirstOf(Lookup(index, key)).None? && Shifted(index, key) == index
            case Some(at) =>
              && FirstOf(Lookup(index, key)) == Some(list[at])
              && Agrees(Shifted(index, key), Without(list, at), keyOf, Itself)
  {
    match FirstWith(list, keyOf, key)
    case None => EmptyKey(index, list, keyOf, key);
    case Some(at) => ShiftAgrees(index, list, keyOf, key, at);
  }

  lemma {:induction false} CoreDistinct(core: NormalizerCore, seen: set<string>)
    requires CoreValid(core, seen)
    ensures DistinctDeclarations(core.declared)
  {
  }

  lemma {:induction false} PlainIgnoresLists(core: NormalizerCore, plain: NormalizerCore, o: Observation)
    requires !o.ModelResult? && !o.ToolCall? && !o.ToolResult? && !o.ToolProgress?
    requires plain == core.(declared := [], open := [])
    ensures var (next, facts) := PlainNormalized(plain, o);
            PlainNormalized(core, o) == (next.(declared := core.declared, open := core.open), facts)
            && next.origins == core.origins
  {
  }

  lemma {:induction false} ResolvedAgrees(maps: OpenMaps, open: seq<OpenCall>, key: RequestKey, callId: string,
                                          callIndex: Option<nat>)
    requires OpenAgree(maps, open)
    ensures MapsResolved(maps, key, callId, callIndex) == ResolvedTool(open, key, callId, callIndex)
  {
  }

  /** Taking by the maps is taking the first match off the list. */
  lemma {:induction false} TakenAgrees(maps: DeclaredMaps, declared: seq<Declaration>, key: RequestKey, callId: string,
                                       callIndex: Option<nat>)
    requires DeclaredAgree(maps, declared) && DistinctDeclarations(declared)
    ensures var (taken, left) := MapsTaken(maps, key, callId, callIndex);
            match TakenAt(declared, key, callId, callIndex)
            case None => taken == None && left == maps
            case Some(at) => taken == Some(declared[at]) && DeclaredAgree(left, Without(declared, at))
  {
    hide Shifted, Undeclared, Agrees;
    match callIndex {
      case None =>
        ShiftOrNot(maps.byCall, declared, DeclaredCallKey, CallOf(key, callId));
        ShiftOrNot(maps.byLogicalCall, declared, DeclaredLogicalCall, LogicalCallOf(key, callId));
      case Some(i) =>
        ShiftOrNot(maps.byIndex, declared, DeclaredIndex, (key, i));
        ShiftOrNot(maps.byLogicalIndex, declared, DeclaredLogicalIndex, LogicalIndexOf(key, callId, i));
    }
    var at := TakenAt(declared, key, callId, callIndex);
    if at.Some? {
      UndeclareAgrees(maps, MapsShifted(maps, key, callId, callIndex).1, declared, at.value);
    }
  }

  lemma {:induction false} DeclaredFromRefines(maps: NormalizerMaps, core: NormalizerCore, o: Observation,
                                               key: RequestKey, occurrence: string, index: nat)
    requires Indexed(maps, core) && o.ModelResult? && index <= |o.declaredCalls|
    ensures var (maps', facts) := MapsDeclaredFrom(maps, o, key, occurrence, index);
            var (core', facts') := DeclaredFrom(core, o, key, occurrence, index);
            facts == facts' && Indexed(maps', core')
    decreases |o.declaredCalls| - index
  {
    hide DeclaredFact, Declare, DeclaredAgree, OpenAgree;
    if index < |o.declaredCalls| {
      var call := o.declaredCalls[index];
      var declaration := DeclarationOf(occurrence, index, key, call.callId);
      DeclareAgrees(maps.declaredTools, core.declared, declaration);
      var origin := DeclaredOrigin(core, o.eventOrdinal, key, call, index);
      assert origin == DeclaredOrigin(Books(maps), o.eventOrdinal, key, call, index);
      DeclaredFromRefines(
        maps.(declaredTools := Declare(maps.declaredTools, declaration),
              origins := maps.origins[DeclaredToolId(occurrence, index) := origin]),
        core.(declared := core.declared + [declaration],
              origins := core.origins[DeclaredToolId(occurrence, index) := origin]),
        o, key, occurrence, index + 1);
    }
  }

  lemma {:induction false} ModelResultRefines(maps: NormalizerMaps, core: NormalizerCore, o: Observation)
    requires Indexed(maps, core) && o.ModelResult?
    ensures var (maps', facts) := MapsModelResult(maps, o);
            var (core', facts') := ModelResultNormalized(core, o);
            facts == facts' && Indexed(maps', core')
  {
    hide DeclaredAgree, OpenAgree, MapsDeclaredFrom, DeclaredFrom, AssistantMessage, ResolvedRequest;
    var key := ResolvedRequest(core.latestRequestByStep, o.executionId, o.request, false);
    if o.occurrence.Some? {
      DeclaredFromRefines(maps, core, o, key, o.occurrence.value, 0);
    }
  }

  lemma {:induction false} StartedRefines(maps: NormalizerMaps, core: NormalizerCore, o: Observation, key: RequestKey,
                                          taken: Option<Declaration>)
    requires Indexed(maps, core) && o.ToolCall?
    ensures var (maps', facts) := MapsStarted(maps, o, key, taken);
            var (core', facts') := Started(core, o, key, taken);
            facts == facts' && Indexed(maps', core')
  {
    hide DeclaredAgree, OpenAgree, Opened, StartedEntity, MessagePosition;
    var id := StartedId(o, taken);
    var origin := CallOrigin(core, o, key, id, StartedIndex(o, taken));
    OpenAgrees(maps.openTools, core.open, OpenCallOf(id, origin));
  }

  lemma {:induction false} ToolCallRefines(maps: NormalizerMaps, core: NormalizerCore, o: Observation)
    requires Indexed(maps, core) && DistinctDeclarations(core.declared) && o.ToolCall?
    ensures var (maps', facts) := MapsToolCall(maps, o);
            var (core', facts') := ToolCallNormalized(core, o);
            facts == facts' && Indexed(maps', core')
  {
    var key := ResolvedRequest(core.latestRequestByStep, o.executionId, o.request, false);
    TakenAgrees(maps.declaredTools, core.declared, key, o.callId, o.callIndex);
    hide DeclaredAgree, OpenAgree, MapsTaken, TakenAt, ResolvedRequest, MapsStarted, Started, DistinctDeclarations;
    var (taken, left) := MapsTaken(maps.declaredTools, key, o.callId, o.callIndex);
    var after := match TakenAt(core.declared, key, o.callId, o.callIndex)
                 case None => core
                 case Some(at) => core.(declared := Without(core.declared, at));
    StartedRefines(maps.(declaredTools := left), after, o, key, taken);
  }

  lemma {:induction false} ToolResultRefines(maps: NormalizerMaps, core: NormalizerCore, seen: set<string>,
                                             o: Observation)
    requires Indexed(maps, core) && CoreValid(core, seen) && o.ToolResult?
    ensures var (maps', facts) := MapsToolResult(maps, o);
            var (core', facts') := ToolResultNormalized(core, o);
            facts == facts' && Indexed(maps', core')
  {
    var key := ResolvedRequest(core.latestRequestByStep, o.executionId, o.request, false);
    ResolvedAgrees(maps.openTools, core.open, key, o.callId, o.callIndex);
    hide ResolvedRequest, ResolvedTool, MapsResolved, CoreValid, DeclaredAgree, OpenAgree, ResultEntity, Retire, Closed,
      MessagePosition, Without;
    var resolved := ResolvedTool(core.open, key, o.callId, o.callIndex);
    if resolved.Some? {
      var at := ResolvedIsOpen(core, seen, key, o.callId, o.callIndex);
      ReportIs(core, o, key, resolved.value, at);
      RetireAllAgree(maps.openTools, core.open, at);
    }
  }

  /**
   While no model result is observed twice, the eight maps stay indexes of the two lists and yield
   the same facts.
   */
  lemma {:induction false} MapsRefine(maps: NormalizerMaps, core: NormalizerCore, seen: set<string>, o: Observation)
    requires Indexed(maps, core) && CoreValid(core, seen) && FreshOccurrence(o, seen)
    ensures var (maps', facts) := MapsNormalized(maps, o);
            var (core', facts') := Normalized(core, o);
            facts == facts' && Indexed(maps', core') && CoreValid(core', SeenAfter(o, seen))
  {
    hide CoreValid, DeclaredAgree, OpenAgree, DistinctDeclarations, MapsModelResult, ModelResultNormalized,
      MapsToolCall, ToolCallNormalized, MapsToolResult, ToolResultNormalized;
    NormalizedValid(core, seen, o);
    CoreDistinct(core, seen);
    if o.ModelResult? {
      ModelResultRefines(maps, core, o);
    } else if o.ToolCall? {
      ToolCallRefines(maps, core, o);
    } else if o.ToolResult? {
      ToolResultRefines(maps, core, seen, o);
    } else if o.ToolProgress? {
      var key := ResolvedRequest(core.latestRequestByStep, o.executionId, o.request, false);
      ResolvedAgrees(maps.openTools, core.open, key, o.callId, o.callIndex);
    } else {
      PlainIgnoresLists(core, Books(maps), o);
    }
  }

  // ---------------------------------------------------------------- what the maps hold, on every history

  ghost predicate DeclaredIds<K(!new)>(index: map<K, seq<Declaration>>) {
    forall key: K, i :: key in index && 0 <= i < |index[key]| ==> index[key][i].id.DeclaredToolId?
  }

  predicate IsToolId(id: EntityId) {
    id.DeclaredToolId? || id.StartedToolId?
  }

  ghost predicate ToolIds<K(!new)>(index: map<K, seq<EntityId>>) {
    forall key: K, i :: key in index && 0 <= i < |index[key]| ==> IsToolId(index[key][i])
  }

  /** The maps hold identities of tools and nothing else, whatever was observed. */
  ghost predicate HoldTools(maps: NormalizerMaps) {
    && DeclaredIds(maps.declaredTools.byCall) && DeclaredIds(maps.declaredTools.byLogicalCall)
    && DeclaredIds(maps.declaredTools.byIndex) && DeclaredIds(maps.declaredTools.byLogicalIndex)
    && ToolIds(maps.openTools.byCall) && ToolIds(maps.openTools.byLogicalCall)
    && ToolIds(maps.openTools.byIndex) && ToolIds(maps.openTools.byLogicalIndex)
  }

  lemma {:induction false} DeclaredKept<K(!new)>(index: map<K, seq<Declaration>>, key: K, d: Declaration)
    requires DeclaredIds(index) && d.id.DeclaredToolId?
    ensures DeclaredIds(Pushed(index, key, d)) && DeclaredIds(Shifted(index, key))
    ensures DeclaredIds(Dropped(index, key, d.id))
    ensures FirstOf(Lookup(index, key)).Some? ==> FirstOf(Lookup(index, key)).value.id.DeclaredToolId?
  {
  }

  lemma {:induction false} OpenKept<K(!new)>(index: map<K, seq<EntityId>>, key: K, id: EntityId)
    requires ToolIds(index) && IsToolId(id)
    ensures ToolIds(Pushed(index, key, id)) && ToolIds(Retired(index, key, id))
    ensures LastOf(Lookup(index, key)).Some? ==> IsToolId(LastOf(Lookup(index, key)).value)
  {
  }

  lemma {:induction false} DeclareHolds(maps: NormalizerMaps, d: Declaration)
    requires HoldTools(maps) && d.id.DeclaredToolId?
    ensures HoldTools(maps.(declaredTools := Declare(maps.declaredTools, d)))
    ensures HoldTools(maps.(declaredTools := Undeclared(maps.declaredTools, d)))
  {
    hide DeclaredIds, ToolIds, Pushed, Dropped;
    var all := maps.declaredTools;
    DeclaredKept(all.byCall, CallOf(d.requestKey, d.callId), d);
    DeclaredKept(all.byLogicalCall, LogicalCallOf(d.requestKey, d.callId), d);
    DeclaredKept(all.byIndex, (d.requestKey, d.index), d);
    DeclaredKept(all.byLogicalIndex, LogicalIndexOf(d.requestKey, d.callId, d.index), d);
  }

  lemma {:induction false} ShiftHolds(maps: NormalizerMaps, key: RequestKey, callId: string, callIndex: Option<nat>)
    requires HoldTools(maps)
    ensures var (taken, shifted) := MapsShifted(maps.declaredTools, key, callId, callIndex);
            HoldTools(maps.(declaredTools := shifted)) && (taken.Some? ==> taken.value.id.DeclaredToolId?)
  {
    hide DeclaredIds, ToolIds, Shifted, Lookup;
    var any := DeclarationOf("", 0, key, "");
    var all := maps.declaredTools;
    match callIndex
    case None =>
      DeclaredKept(all.byCall, CallOf(key, callId), any);
      DeclaredKept(all.byLogicalCall, LogicalCallOf(key, callId), any);
    case Some(i) =>
      DeclaredKept(all.byIndex, (key, i), any);
      DeclaredKept(all.byLogicalIndex, LogicalIndexOf(key, callId, i), any);
  }

  lemma {:induction false} TakeHolds(maps: NormalizerMaps, key: RequestKey, callId: string, callIndex: Option<nat>)
    requires HoldTools(maps)
    ensures var (taken, left) := MapsTaken(maps.declaredTools, key, callId, callIndex);
            HoldTools(maps.(declaredTools := left)) && (taken.Some? ==> taken.value.id.DeclaredToolId?)
  {
    ShiftHolds(maps, key, callId, callIndex);
    hide HoldTools, MapsShifted, Undeclared;
    var (taken, shifted) := MapsShifted(maps.declaredTools, key, callId, callIndex);
    if taken.Some? {
      DeclareHolds(maps.(declaredTools := shifted), taken.value);
    }
  }

  lemma {:induction false} OpenHolds(maps: NormalizerMaps, c: OpenCall)
    requires HoldTools(maps) && IsToolId(c.id)
    ensures HoldTools(maps.(openTools := Opened(maps.openTools, c)))
    ensures HoldTools(maps.(openTools := Retire(maps.openTools, c)))
  {
    hide DeclaredIds, ToolIds, Pushed, Retired;
    var all := maps.openTools;
    OpenKept(all.byCall, CallOf(c.requestKey, c.callId), c.id);
    OpenKept(all.byLogicalCall, LogicalCallOf(c.requestKey, c.callId), c.id);
    if c.callIndex.Some? {
      OpenKept(all.byIndex, (c.requestKey, c.callIndex.value), c.id);
      OpenKept(all.byLogicalIndex, LogicalIndexOf(c.requestKey, c.callId, c.callIndex.value), c.id);
    }
  }

  lemma {:induction false} ResolvedHolds(maps: NormalizerMaps, key: RequestKey, callId: string, callIndex: Option<nat>)
    requires HoldTools(maps)
    ensures var id := MapsResolved(maps.openTools, key, callId, callIndex); id.Some? ==> IsToolId(id.value)
  {
    hide DeclaredIds, ToolIds, Lookup;
    var all := maps.openTools;
    match callIndex
    case None =>
      OpenKept(all.byCall, CallOf(key, callId), StartedToolId(""));
      OpenKept(all.byLogicalCall, LogicalCallOf(key, callId), StartedToolId(""));
    case Some(i) =>
      OpenKept(all.byIndex, (key, i), StartedToolId(""));
      OpenKept(all.byLogicalIndex, LogicalIndexOf(key, callId, i), StartedToolId(""));
  }
}
