/**
 * The `meetings` collection: a map from meeting id to stored document, the
 * due-set query the reconciler issues against it and the partial-document
 * update (`$set` of `status`) that moves a meeting on.
 */
module Store {
  import opened Types

  /** The reconciler's query filter: `status == SCHEDULED` and `start_time <= now`. */
  predicate Due(d: Document, now: Time)
  {
    d.status == StatusScheduled && d.meeting.startTime <= now
  }

  /** The ids of the documents the query matches. */
  ghost function DueIds(docs: map<ObjectId, Document>, now: Time): set<ObjectId>
  {
    set id | id in docs && Due(docs[id], now)
  }

  /** Every document is stored under its own meeting's id. */
  ghost predicate Keyed(docs: map<ObjectId, Document>)
  {
    forall id | id in docs :: docs[id].meeting.id == id
  }

  /**
   * `ms` is a possible answer to the query: each matching meeting exactly
   * once, as stored, in some order, and nothing else.
   */
  ghost predicate ListsDue(docs: map<ObjectId, Document>, now: Time, ms: seq<Meeting>)
  {
    && (forall i | 0 <= i < |ms| ::
          ms[i].id in docs && docs[ms[i].id].meeting == ms[i] && Due(docs[ms[i].id], now))
    && (forall i, j | 0 <= i < j < |ms| :: ms[i].id != ms[j].id)
    && (forall id | id in docs && Due(docs[id], now) :: exists i | 0 <= i < |ms| :: ms[i].id == id)
  }

  /**
   * `{"$set": {"status": status}}` applied to the document whose `_id` is `id`;
   * when no document matches, nothing changes.
   */
  function SetStatus(docs: map<ObjectId, Document>, id: ObjectId, status: int): (r: map<ObjectId, Document>)
    ensures r.Keys == docs.Keys
    ensures id in docs ==> r[id].meeting == docs[id].meeting && r[id].status == status
    ensures forall other | other in docs && other != id :: r[other] == docs[other]
  {
    if id in docs then docs[id := docs[id].(status := status)] else docs
  }

  /** Setting the same status twice gives the same store as setting it once. */
  lemma SetStatusIdempotent(docs: map<ObjectId, Document>, id: ObjectId, status: int)
    ensures SetStatus(SetStatus(docs, id, status), id, status) == SetStatus(docs, id, status)
  {
  }

  /** After a transition to any status other than SCHEDULED the meeting leaves the due-set, and no other meeting enters or leaves it. */
  lemma SetStatusLeavesDueSet(docs: map<ObjectId, Document>, id: ObjectId, status: int, now: Time)
    requires status != StatusScheduled
    ensures DueIds(SetStatus(docs, id, status), now) == DueIds(docs, now) - {id}
  {
  }

  /** A query answer for a store with nothing due is empty. */
  lemma NothingDueListsNothing(docs: map<ObjectId, Document>, now: Time, ms: seq<Meeting>)
    requires ListsDue(docs, now, ms)
    requires DueIds(docs, now) == {}
    ensures ms == []
  {
    if ms != [] {
      ListedIsDue(docs, now, ms, 0);
      assert false;
    }
  }

  /** Every meeting of a query answer is in the due-set. */
  lemma ListedIsDue(docs: map<ObjectId, Document>, now: Time, ms: seq<Meeting>, i: int)
    requires ListsDue(docs, now, ms)
    requires 0 <= i < |ms|
    ensures ms[i].id in DueIds(docs, now)
  {
  }

  datatype StoreError = Unreachable | NotFound

  class MeetingStore {
    var docs: map<ObjectId, Document>

    ghost predicate Valid()
      reads this
    {
      Keyed(docs)
    }

    constructor (initial: map<ObjectId, Document>)
      requires Keyed(initial)
      ensures Valid() && docs == initial
    {
      docs := initial;
    }

    /**
     * `collection.Find(query).All(&meetings)` for the due-set query. When the
     * store cannot be reached the query fails and returns no meetings.
     */
    method Meetings(now: Time, reachable: bool) returns (r: Result<seq<Meeting>, StoreError>)
      requires Valid()
      ensures !reachable ==> r == Failure(Unreachable)
      ensures reachable ==> r.Success? && ListsDue(docs, now, r.value)
    {
      if !reachable {
        return Failure(Unreachable);
      }
      var pending := docs.Keys;
      var found: seq<Meeting> := [];
      while pending != {}
        invariant pending <= docs.Keys
        invariant forall i | 0 <= i < |found| ::
          found[i].id in docs && found[i].id !in pending
          && docs[found[i].id].meeting == found[i] && Due(docs[found[i].id], now)
        invariant forall i, j | 0 <= i < j < |found| :: found[i].id != found[j].id
        invariant forall id | id in docs && id !in pending && Due(docs[id], now) ::
          exists i | 0 <= i < |found| :: found[i].id == id
        decreases pending
      {
        var id :| id in pending;
        ghost var before := found;
        if Due(docs[id], now) {
          found := found + [docs[id].meeting];
        }
        pending := pending - {id};
        forall x | x in docs && x !in pending && Due(docs[x], now)
          ensures exists i | 0 <= i < |found| :: found[i].id == x
        {
          if x == id {
            assert found[|found| - 1].id == x;
          } else {
            var i :| 0 <= i < |before| && before[i].id == x;
            assert found[i].id == x;
          }
        }
      }
      r := Success(found);
    }

    /**
     * `collection.Update({"_id": id}, {"$set": {"status": status}})`: fails when
     * the store cannot be reached or when no document has that id.
     */
    method Update(id: ObjectId, status: int, reachable: bool) returns (err: Option<StoreError>)
      requires Valid()
      modifies this
      ensures Valid()
      ensures err == (if !reachable then Some(Unreachable)
                      else if id !in old(docs) then Some(NotFound)
                      else None)
      ensures docs == if err.None? then SetStatus(old(docs), id, status) else old(docs)
    {
      if !reachable {
        return Some(Unreachable);
      }
      if id !in docs {
        return Some(NotFound);
      }
      docs := docs[id := docs[id].(status := status)];
      err := None;
    }
  }
}
