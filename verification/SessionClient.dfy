/**
 The client's replica: an entity map and an order list kept sorted by binary-search insertion, and
 the stream protocol that feeds it.
 */
module SessionClient {
  import opened Basics
  import opened Conversation

  /** Comparison of identity strings; distinct identities never compare equal. */
  type IdOrder = (EntityId, EntityId) -> int

  ghost predicate TotalOrder(cmp: IdOrder) {
    && (forall a, b :: cmp(a, b) == 0 <==> a == b)
    && (forall a, b :: cmp(a, b) < 0 <==> cmp(b, a) > 0)
    && (forall a, b, c :: cmp(a, b) < 0 && cmp(b, c) < 0 ==> cmp(a, c) < 0)
  }

  /** Display order: by position, then by identity. */
  predicate Before(cmp: IdOrder, p: Position, a: EntityId, q: Position, b: EntityId) {
    ComparePositions(p, q) < 0 || (ComparePositions(p, q) == 0 && cmp(a, b) < 0)
  }

  lemma {:induction false} BeforeTransitive(cmp: IdOrder, p: Position, a: EntityId, q: Position, b: EntityId,
                                            r: Position, c: EntityId)
    requires TotalOrder(cmp) && Before(cmp, p, a, q, b) && Before(cmp, q, b, r, c)
    ensures Before(cmp, p, a, r, c)
  {
  }

  lemma {:induction false} BeforeTotal(cmp: IdOrder, p: Position, a: EntityId, q: Position, b: EntityId)
    requires TotalOrder(cmp)
    ensures Before(cmp, p, a, q, b) || Before(cmp, q, b, p, a) || (p == q && a == b)
    ensures !(Before(cmp, p, a, q, b) && Before(cmp, q, b, p, a))
    ensures !Before(cmp, p, a, p, a)
  {
  }

  datatype Replica = Replica(entities: map<EntityId, Entity>, order: seq<EntityId>)

  /** Whether the search goes right of an entry: entries without an entity always do. */
  predicate GoesRight(cmp: IdOrder, entities: map<EntityId, Entity>, at: EntityId, position: Position, id: EntityId) {
    at !in entities || Before(cmp, entities[at].position, at, position, id)
  }

  function Search(cmp: IdOrder, replica: Replica, position: Position, id: EntityId, low: nat, high: nat): (at: nat)
    requires low <= high <= |replica.order|
    ensures low <= at <= high
    decreases high - low
  {
    if low == high then low
    else
      var mid := (low + high) / 2;
      if GoesRight(cmp, replica.entities, replica.order[mid], position, id)
      then Search(cmp, replica, position, id, mid + 1, high)
      else Search(cmp, replica, position, id, low, mid)
  }

  function WithoutFirst(order: seq<EntityId>, id: EntityId): (rest: seq<EntityId>)
    ensures id !in order ==> rest == order
  {
    if order == [] then []
    else if order[0] == id then order[1..]
    else [order[0]] + WithoutFirst(order[1..], id)
  }

  lemma {:induction false} WithoutFirstAt(order: seq<EntityId>, id: EntityId, index: nat)
    requires index <= |order| && (forall k :: 0 <= k < index ==> order[k] != id)
    requires index < |order| ==> order[index] == id
    ensures WithoutFirst(order, id) == if index < |order| then order[..index] + order[index + 1..] else order
    decreases index
  {
    if index > 0 {
      var rest := order[1..];
      WithoutFirstAt(rest, id, index - 1);
      if index < |order| {
        assert [order[0]] + (rest[..index - 1] + rest[index..]) == order[..index] + order[index + 1..];
      }
    }
  }

  /** Where an order insertion finds its position; None is the error of having none. */
  function InsertPosition(replica: Replica, id: EntityId, position: Option<Position>): Option<Position> {
    if position.Some? then position
    else if id in replica.entities then Some(replica.entities[id].position)
    else None
  }

  /** One change; None is the source's "conversation order has no position". */
  function ChangeApplied(cmp: IdOrder, replica: Replica, change: Change): Option<Replica> {
    match change
    case UpsertEntity(entity) => Some(replica.(entities := replica.entities[entity.id := entity]))
    case RemoveEntity(id) => Some(replica.(entities := replica.entities - {id}))
    case RemoveFromOrder(id) => Some(replica.(order := WithoutFirst(replica.order, id)))
    case InsertInOrder(id, position) =>
      if id in replica.order then Some(replica)
      else match InsertPosition(replica, id, position)
        case None => None
        case Some(p) =>
          var at := Search(cmp, replica, p, id, 0, |replica.order|);
          Some(replica.(order := replica.order[..at] + [id] + replica.order[at..]))
  }

  function ChangesApplied(cmp: IdOrder, replica: Replica, changes: seq<Change>): Option<Replica>
    decreases |changes|
  {
    if changes == [] then Some(replica)
    else match ChangeApplied(cmp, replica, changes[0])
      case None => None
      case Some(next) => ChangesApplied(cmp, next, changes[1..])
  }

  lemma {:induction false} ChangesConcat(cmp: IdOrder, replica: Replica, first: seq<Change>, second: seq<Change>)
    ensures ChangesApplied(cmp, replica, first + second)
         == match ChangesApplied(cmp, replica, first)
            case None => None
            case Some(middle) => ChangesApplied(cmp, middle, second)
    decreases |first|
  {
    if first == [] {
      assert first + second == second;
    } else {
      assert (first + second)[0] == first[0] && (first + second)[1..] == first[1..] + second;
      match ChangeApplied(cmp, replica, first[0])
      case None =>
      case Some(next) => ChangesConcat(cmp, next, first[1..], second);
    }
  }

  // ---------------------------------------------------------------- what the order list is

  /** Strictly sorted, every entry with its entity. */
  ghost predicate Sorted(cmp: IdOrder, entities: map<EntityId, Entity>, order: seq<EntityId>) {
    && (forall i :: 0 <= i < |order| ==> order[i] in entities)
    && (forall i, j :: 0 <= i < j < |order| ==>
          Before(cmp, entities[order[i]].position, order[i], entities[order[j]].position, order[j]))
  }

  /** The identities of the sorted entities: all of them, each once, in display order. */
  ghost predicate DisplayOrder(cmp: IdOrder, entities: map<EntityId, Entity>, order: seq<EntityId>) {
    Sorted(cmp, entities, order) && forall id :: id in entities ==> id in order
  }

  /** There is only one display order, so it is the order any sort of the entities gives. */
  lemma {:induction false} DisplayOrderUnique(cmp: IdOrder, entities: map<EntityId, Entity>, a: seq<EntityId>,
                                              b: seq<EntityId>)
    requires TotalOrder(cmp) && DisplayOrder(cmp, entities, a) && DisplayOrder(cmp, entities, b)
    ensures a == b
    decreases |a|
  {
    assert b != [] ==> b[0] in entities;
    if a != [] {
      assert a[0] in entities && a[0] in b && b[0] in entities && b[0] in a;
      FirstsAgree(cmp, entities, a, b);
      var rest := entities - {a[0]};
      RestOrder(cmp, entities, a);
      RestOrder(cmp, entities, b);
      DisplayOrderUnique(cmp, rest, a[1..], b[1..]);
    }
  }

  lemma {:induction false} FirstsAgree(cmp: IdOrder, entities: map<EntityId, Entity>, a: seq<EntityId>,
                                       b: seq<EntityId>)
    requires TotalOrder(cmp) && Sorted(cmp, entities, a) && Sorted(cmp, entities, b)
    requires a != [] && b != [] && a[0] in b && b[0] in a
    ensures a[0] == b[0]
  {
    if a[0] != b[0] {
      var i :| 0 <= i < |b| && b[i] == a[0];
      var j :| 0 <= j < |a| && a[j] == b[0];
      BeforeTotal(cmp, entities[a[0]].position, a[0], entities[b[0]].position, b[0]);
      assert false;
    }
  }

  lemma {:induction false} RestOrder(cmp: IdOrder, entities: map<EntityId, Entity>, a: seq<EntityId>)
    requires TotalOrder(cmp) && DisplayOrder(cmp, entities, a) && a != []
    ensures DisplayOrder(cmp, entities - {a[0]}, a[1..])
  {
    var rest := entities - {a[0]};
    forall i | 0 <= i < |a[1..]| ensures a[1..][i] in rest {
      BeforeTotal(cmp, entities[a[0]].position, a[0], entities[a[i + 1]].position, a[i + 1]);
    }
    forall id | id in rest ensures id in a[1..] {
      var i :| 0 <= i < |a| && a[i] == id;
      assert a[1..][i - 1] == id;
    }
  }

  // ---------------------------------------------------------------- what each change does to it

  lemma {:induction false} UpsertKeepsSorted(cmp: IdOrder, entities: map<EntityId, Entity>, order: seq<EntityId>,
                                             entity: Entity)
    requires Sorted(cmp, entities, order)
    requires entity.id in order ==> entity.id in entities && entities[entity.id].position == entity.position
    ensures Sorted(cmp, entities[entity.id := entity], order)
  {
    var entities' := entities[entity.id := entity];
    forall i | 0 <= i < |order|
      ensures order[i] in entities' && entities'[order[i]].position == entities[order[i]].position
    {
    }
  }

  /** In a sorted list whatever stands before an entry that goes right goes right too. */
  lemma {:induction false} RightBelow(cmp: IdOrder, entities: map<EntityId, Entity>, order: seq<EntityId>, i: nat,
                                      k: nat, position: Position, id: EntityId)
    requires TotalOrder(cmp) && Sorted(cmp, entities, order) && i <= k < |order|
    requires GoesRight(cmp, entities, order[k], position, id)
    ensures GoesRight(cmp, entities, order[i], position, id)
  {
    hide Before, TotalOrder;
    if i < k {
      assert order[i] in entities && order[k] in entities;
      BeforeTransitive(cmp, entities[order[i]].position, order[i], entities[order[k]].position, order[k], position, id);
    }
  }

  /** In a sorted list the binary search splits the entries before the new one from those after it. */
  lemma {:induction false} SearchSplits(cmp: IdOrder, replica: Replica, position: Position, id: EntityId, low: nat,
                                        high: nat)
    requires TotalOrder(cmp) && Sorted(cmp, replica.entities, replica.order)
    requires low <= high <= |replica.order|
    requires forall i :: 0 <= i < low ==> GoesRight(cmp, replica.entities, replica.order[i], position, id)
    requires forall i :: high <= i < |replica.order| ==> !GoesRight(cmp, replica.entities, replica.order[i], position,
                                                                    id)
    ensures var at := Search(cmp, replica, position, id, low, high);
            && (forall i :: 0 <= i < at ==> GoesRight(cmp, replica.entities, replica.order[i], position, id))
            && (forall i :: at <= i < |replica.order| ==> !GoesRight(cmp, replica.entities, replica.order[i], position,
                                                                     id))
    decreases high - low
  {
    hide GoesRight, TotalOrder, Sorted;
    if low < high {
      var mid := (low + high) / 2;
      var entities, order := replica.entities, replica.order;
      if GoesRight(cmp, entities, order[mid], position, id) {
        forall i | 0 <= i < mid + 1 ensures GoesRight(cmp, entities, order[i], position, id) {
          RightBelow(cmp, entities, order, i, mid, position, id);
        }
        SearchSplits(cmp, replica, position, id, mid + 1, high);
      } else {
        forall i | mid <= i < |order| ensures !GoesRight(cmp, entities, order[i], position, id) {
          if GoesRight(cmp, entities, order[i], position, id) {
            RightBelow(cmp, entities, order, mid, i, position, id);
          }
        }
        SearchSplits(cmp, replica, position, id, low, mid);
      }
    }
  }

  lemma {:induction false} InsertedMembers(order: seq<EntityId>, at: nat, id: EntityId)
    requires at <= |order|
    ensures forall other :: other in order[..at] + [id] + order[at..] <==> other == id || other in order
  {
    forall other ensures other in order[..at] + [id] + order[at..] <==> other == id || other in order {
      assert order == order[..at] + order[at..];
    }
  }

  /** An identity put between those that go right and those that do not keeps the list sorted. */
  lemma {:induction false} InsertedSorted(cmp: IdOrder, entities: map<EntityId, Entity>, order: seq<EntityId>, at: nat,
                                          id: EntityId)
    requires TotalOrder(cmp) && Sorted(cmp, entities, order) && id in entities && id !in order && at <= |order|
    requires forall i :: 0 <= i < at ==> GoesRight(cmp, entities, order[i], entities[id].position, id)
    requires forall i :: at <= i < |order| ==> !GoesRight(cmp, entities, order[i], entities[id].position, id)
    ensures Sorted(cmp, entities, order[..at] + [id] + order[at..])
  {
    hide Before, TotalOrder;
    var position := entities[id].position;
    var order' := order[..at] + [id] + order[at..];
    forall i, j | 0 <= i < j < |order'|
      ensures order'[i] in entities && order'[j] in entities
      ensures Before(cmp, entities[order'[i]].position, order'[i], entities[order'[j]].position, order'[j])
    {
      if j == at {
        assert GoesRight(cmp, entities, order[i], position, id);
      } else if i == at {
        assert !GoesRight(cmp, entities, order[j - 1], position, id) && order[j - 1] != id;
        BeforeTotal(cmp, position, id, entities[order[j - 1]].position, order[j - 1]);
      }
    }
  }

  /** Binary-search insertion of an entity's identity keeps the list sorted and adds exactly it. */
  lemma {:induction false} InsertKeepsSorted(cmp: IdOrder, replica: Replica, id: EntityId)
    requires TotalOrder(cmp) && Sorted(cmp, replica.entities, replica.order)
    requires id in replica.entities && id !in replica.order
    ensures var at := Search(cmp, replica, replica.entities[id].position, id, 0, |replica.order|);
            var order' := replica.order[..at] + [id] + replica.order[at..];
            && Sorted(cmp, replica.entities, order')
            && (forall other :: other in order' <==> other == id || other in replica.order)
  {
    hide TotalOrder, Sorted, GoesRight, Search;
    var position := replica.entities[id].position;
    SearchSplits(cmp, replica, position, id, 0, |replica.order|);
    var at := Search(cmp, replica, position, id, 0, |replica.order|);
    InsertedSorted(cmp, replica.entities, replica.order, at, id);
    InsertedMembers(replica.order, at, id);
  }

  lemma {:induction false} FirstStaysFirst(cmp: IdOrder, entities: map<EntityId, Entity>, order: seq<EntityId>,
                                           shorter: seq<EntityId>, id: EntityId)
    requires Sorted(cmp, entities, order) && order != [] && order[0] != id
    requires Sorted(cmp, entities - {id}, shorter) && forall other :: other in shorter ==> other in order[1..]
    ensures Sorted(cmp, entities - {id}, [order[0]] + shorter)
  {
    hide Before;
    var all := [order[0]] + shorter;
    forall i | 0 <= i < |shorter|
      ensures Before(cmp, entities[order[0]].position, order[0], entities[shorter[i]].position, shorter[i])
    {
      assert shorter[i] in order[1..];
      var k :| 0 <= k < |order| - 1 && order[1..][k] == shorter[i];
      assert order[k + 1] == shorter[i];
    }
  }

  lemma {:induction false} RemoveKeepsSorted(cmp: IdOrder, entities: map<EntityId, Entity>, order: seq<EntityId>,
                                             id: EntityId)
    requires TotalOrder(cmp) && Sorted(cmp, entities, order)
    ensures Sorted(cmp, entities - {id}, WithoutFirst(order, id))
    ensures forall other :: other in WithoutFirst(order, id) <==> other in order && other != id
    decreases |order|
  {
    hide Before, TotalOrder, ComparePositions;
    if order != [] {
      var rest := order[1..];
      assert Sorted(cmp, entities, rest);
      assert forall other :: other in order <==> other == order[0] || other in rest;
      forall i | 0 <= i < |rest| ensures rest[i] != order[0] {
        BeforeTotal(cmp, entities[order[0]].position, order[0], entities[order[i + 1]].position, order[i + 1]);
      }
      RemoveKeepsSorted(cmp, entities, rest, id);
      if order[0] != id {
        FirstStaysFirst(cmp, entities, order, WithoutFirst(rest, id), id);
      } else {
        assert id !in rest;
      }
    }
  }

  // ---------------------------------------------------------------- frames

  datatype Cursor = Cursor(coreEpoch: string, sessionId: string, revision: int)

  datatype Session = Session(id: string, payload: string)

  /** Everything a client shows. The replica is its conversation. */
  datatype Snapshot = Snapshot(
    cursor: Cursor, session: Session, runtime: string, pending: string, credentials: string, context: string,
    cut: int, storeRevision: int, page: Option<string>, replica: Replica)

  datatype PartChange =
    | ReplaceSession(session: Session)
    | ReplaceRuntime(value: string)
    | ReplacePending(value: string)
    | ReplaceCredentials(value: string)
    | ReplaceContext(value: string)

  datatype Delta = Delta(sessionId: string, cut: int, storeRevision: int, page: Option<string>, changes: seq<Change>)

  datatype Frame =
    | SnapshotFrame(snapshot: Snapshot)
    | UpdateFrame(cursor: Cursor, previousRevision: int, changes: seq<PartChange>, delta: Option<Delta>)

  datatype Client = Client(snapshot: Snapshot, dirty: set<EntityId>, structureChanged: bool)

  datatype Failure = BeforeSnapshot | TargetMismatch | RevisionGap | CutGap | NoPosition

  datatype Result<T> = Ok(value: T) | Err(failure: Failure)

  function PartApplied(snapshot: Snapshot, change: PartChange): Snapshot {
    match change
    case ReplaceSession(session) => snapshot.(session := session)
    case ReplaceRuntime(value) => snapshot.(runtime := value)
    case ReplacePending(value) => snapshot.(pending := value)
    case ReplaceCredentials(value) => snapshot.(credentials := value)
    case ReplaceContext(value) => snapshot.(context := value)
  }

  function PartsApplied(snapshot: Snapshot, changes: seq<PartChange>): (s: Snapshot)
    ensures s.replica == snapshot.replica && s.cut == snapshot.cut && s.cursor == snapshot.cursor
    decreases |changes|
  {
    if changes == [] then snapshot else PartsApplied(PartApplied(snapshot, changes[0]), changes[1..])
  }

  /** Identities whose entity a list of changes writes or deletes. */
  function Touched(changes: seq<Change>): (ids: set<EntityId>) {
    if changes == [] then {}
    else Touched(changes[1..]) + match changes[0]
      case UpsertEntity(entity) => {entity.id}
      case RemoveEntity(id) => {id}
      case InsertInOrder(_, _) => {}
      case RemoveFromOrder(_) => {}
  }

  /** Whether a list of changes reports a structural change: any removal from the order, or an insertion. */
  function Restructures(cmp: IdOrder, replica: Replica, changes: seq<Change>): bool
    decreases |changes|
  {
    if changes == [] then false
    else match ChangeApplied(cmp, replica, changes[0])
      case None => false
      case Some(next) =>
        || changes[0].RemoveFromOrder?
        || (changes[0].InsertInOrder? && changes[0].id !in replica.order)
        || Restructures(cmp, next, changes[1..])
  }

  function Reduced(cmp: IdOrder, client: Option<Client>, frame: Frame): Result<Client> {
    match frame
    case SnapshotFrame(snapshot) =>
      var shown := if client.Some? then client.value.snapshot.replica.entities.Keys else {};
      Ok(Client(snapshot, shown + snapshot.replica.entities.Keys, true))
    case UpdateFrame(cursor, previousRevision, changes, delta) =>
      if client.None? then Err(BeforeSnapshot)
      else
        var previous := client.value.snapshot;
        if cursor.coreEpoch != previous.cursor.coreEpoch || cursor.sessionId != previous.cursor.sessionId
        then Err(TargetMismatch)
        else if cursor.revision <= previous.cursor.revision then Ok(client.value)
        else if previousRevision != previous.cursor.revision || cursor.revision != previousRevision + 1
        then Err(RevisionGap)
        else
          var parts := PartsApplied(previous, changes);
          match delta
          case None => Ok(Client(parts.(cursor := cursor), {}, false))
          case Some(d) =>
            if d.sessionId != parts.session.id || d.cut != parts.cut + 1 then Err(CutGap)
            else match ChangesApplied(cmp, parts.replica, d.changes)
              case None => Err(NoPosition)
              case Some(replica) =>
                Ok(Client(parts.(cursor := cursor, cut := d.cut, storeRevision := d.storeRevision,
                                 page := Either(d.page, parts.page), replica := replica),
                          Touched(d.changes), Restructures(cmp, parts.replica, d.changes)))
  }

  // ---------------------------------------------------------------- the reducer, in place

  class SessionReducer {
    const cmp: IdOrder
    var started: bool
    var shell: Snapshot
    var entities: map<EntityId, Entity>
    var order: seq<EntityId>
    var dirty: set<EntityId>
    var structureChanged: bool

    /** The owned maps take the place of the snapshot's own. */
    ghost function Value(): Option<Client>
      reads this
    {
      if started then Some(Client(shell.(replica := Replica(entities, order)), dirty, structureChanged)) else None
    }

    constructor (cmp: IdOrder, blank: Snapshot)
      ensures this.cmp == cmp && Value() == None
    {
      this.cmp, started, shell := cmp, false, blank;
      entities, order, dirty, structureChanged := map[], [], {}, false;
    }

    method FindInsertion(position: Position, id: EntityId) returns (low: nat)
      ensures low == Search(cmp, Replica(entities, order), position, id, 0, |order|) <= |order|
    {
      hide Before;
      low := 0;
      var high := |order|;
      ghost var at := Search(cmp, Replica(entities, order), position, id, 0, high);
      while low < high
        invariant low <= high <= |order|
        invariant Search(cmp, Replica(entities, order), position, id, low, high) == at
      {
        var mid := (low + high) / 2;
        var other := order[mid];
        if other !in entities || Before(cmp, entities[other].position, other, position, id) {
          low := mid + 1;
        } else {
          high := mid;
        }
      }
    }

    method RemoveFirst(id: EntityId)
      modifies this`order
      ensures order == WithoutFirst(old(order), id)
    {
      var index := 0;
      while index < |order| && order[index] != id
        invariant index <= |order|
        invariant forall k :: 0 <= k < index ==> order[k] != id
      {
        index := index + 1;
      }
      WithoutFirstAt(order, id, index);
      if index < |order| {
        order := order[..index] + order[index + 1..];
      }
    }

    /** One conversation change. On failure the caller abandons this client. */
    method ApplyChange(change: Change) returns (ok: bool)
      modifies this`entities, this`order, this`dirty, this`structureChanged
      ensures ok <==> ChangeApplied(cmp, old(Replica(entities, order)), change).Some?
      ensures ok ==> ChangeApplied(cmp, old(Replica(entities, order)), change) == Some(Replica(entities, order))
      ensures dirty == old(dirty) + Touched([change])
      ensures ok ==> (structureChanged <==>
                        old(structureChanged) || Restructures(cmp, old(Replica(entities, order)), [change]))
    {
      ok := true;
      match change
      case UpsertEntity(entity) =>
        entities := entities[entity.id := entity];
        dirty := dirty + {entity.id};
      case RemoveEntity(id) =>
        entities := entities - {id};
        dirty := dirty + {id};
      case RemoveFromOrder(id) =>
        RemoveFirst(id);
        structureChanged := true;
      case InsertInOrder(id, position) =>
        if id !in order {
          var chosen := position;
          if chosen.None? && id in entities {
            chosen := Some(entities[id].position);
          }
          if chosen.None? {
            return false;
          }
          var low := FindInsertion(chosen.value, id);
          order := order[..low] + [id] + order[low..];
          structureChanged := true;
        }
    }

    method ApplyChanges(changes: seq<Change>) returns (ok: bool)
      requires dirty == {} && !structureChanged
      modifies this`entities, this`order, this`dirty, this`structureChanged
      ensures ok <==> ChangesApplied(cmp, old(Replica(entities, order)), changes).Some?
      ensures ok ==> ChangesApplied(cmp, old(Replica(entities, order)), changes) == Some(Replica(entities, order))
      ensures ok ==> dirty == Touched(changes)
      ensures ok ==> structureChanged == Restructures(cmp, old(Replica(entities, order)), changes)
    {
      ghost var start := Replica(entities, order);
      var index := 0;
      while index < |changes|
        invariant index <= |changes|
        invariant ChangesApplied(cmp, Replica(entities, order), changes[index..]) == ChangesApplied(cmp, start, changes)
        invariant dirty + Touched(changes[index..]) == Touched(changes)
        invariant ChangesApplied(cmp, start, changes).Some? ==>
                    ((structureChanged || Restructures(cmp, Replica(entities, order), changes[index..]))
                     <==> Restructures(cmp, start, changes))
      {
        ghost var before := Replica(entities, order);
        assert changes[index..][0] == changes[index] && changes[index..][1..] == changes[index + 1..];
        SingleChange(cmp, before, changes[index]);
        var applied := ApplyChange(changes[index]);
        if !applied {
          return false;
        }
        index := index + 1;
      }
      ok := true;
    }

    method Reduce(frame: Frame) returns (failure: Option<Failure>)
      modifies this
      ensures match Reduced(cmp, old(Value()), frame)
              case Ok(client) => failure == None && Value() == Some(client)
              case Err(f) => failure == Some(f) && (f != NoPosition ==> Value() == old(Value()))
    {
      match frame
      case SnapshotFrame(snapshot) =>
        var shown := if started then entities.Keys else {};
        started, shell := true, snapshot;
        entities, order := snapshot.replica.entities, snapshot.replica.order;
        dirty, structureChanged := shown + entities.Keys, true;
        return None;
      case UpdateFrame(cursor, previousRevision, changes, delta) =>
        if !started {
          return Some(BeforeSnapshot);
        }
        if cursor.coreEpoch != shell.cursor.coreEpoch || cursor.sessionId != shell.cursor.sessionId {
          return Some(TargetMismatch);
        }
        if cursor.revision <= shell.cursor.revision {
          return None;
        }
        if previousRevision != shell.cursor.revision || cursor.revision != previousRevision + 1 {
          return Some(RevisionGap);
        }
        var parts := shell;
        ghost var whole := shell.(replica := Replica(entities, order));
        PartsIgnoreReplica(shell, Replica(entities, order), changes);
        for i := 0 to |changes|
          invariant PartsApplied(parts, changes[i..]) == PartsApplied(shell, changes)
          invariant parts.cut == shell.cut
        {
          assert changes[i..][0] == changes[i] && changes[i..][1..] == changes[i + 1..];
          parts := PartApplied(parts, changes[i]);
        }
        assert changes[|changes|..] == [];
        if delta.Some? {
          var d := delta.value;
          if d.sessionId != parts.session.id || d.cut != parts.cut + 1 {
            return Some(CutGap);
          }
          dirty, structureChanged := {}, false;
          var ok := ApplyChanges(d.changes);
          if !ok {
            return Some(NoPosition);
          }
          parts := parts.(cut := d.cut, storeRevision := d.storeRevision, page := Either(d.page, parts.page));
        } else {
          dirty, structureChanged := {}, false;
        }
        shell := parts.(cursor := cursor);
        return None;
    }
  }

  lemma {:induction false} SingleChange(cmp: IdOrder, replica: Replica, change: Change)
    ensures Touched([change]) == match change
              case UpsertEntity(entity) => {entity.id}
              case RemoveEntity(id) => {id}
              case InsertInOrder(_, _) => {}
              case RemoveFromOrder(_) => {}
    ensures Restructures(cmp, replica, [change]) <==>
              ChangeApplied(cmp, replica, change).Some?
              && (change.RemoveFromOrder? || (change.InsertInOrder? && change.id !in replica.order))
  {
  }

  lemma {:induction false} PartsIgnoreReplica(snapshot: Snapshot, replica: Replica, changes: seq<PartChange>)
    ensures PartsApplied(snapshot.(replica := replica), changes) == PartsApplied(snapshot, changes).(replica := replica)
    decreases |changes|
  {
    if changes != [] {
      PartsIgnoreReplica(PartApplied(snapshot, changes[0]), replica, changes[1..]);
    }
  }
}
