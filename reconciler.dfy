/**
 * One reconciliation cycle: query the due-set, and for each due meeting in
 * turn set its status to ACTIVE and then notify its participants.
 *
 * The daemon dispatches one goroutine per due meeting; this model runs them
 * one after another in query order. A failed update or a rejected send calls
 * `log.Fatal`, which ends the process: the cycle halts at that event.
 */
module Reconciler {
  import opened Types
  import opened Store
  import opened DeviceResolver
  import opened Notifier

  /**
   * The answers of the outside world during a cycle: the clock, whether the
   * store answers the query, which meetings' updates the store acknowledges
   * and which meetings' messages the push gateway accepts.
   */
  datatype Environment = Environment(
    now: Time,
    queryAnswered: bool,
    updateAcknowledged: set<ObjectId>,
    sendAccepted: set<ObjectId>)

  /** What a cycle logs, in order. */
  datatype Event =
    | StatusSet(id: ObjectId, status: int)
    | UpdateFailed(id: ObjectId, error: StoreError)
    | Notified(n: Notification)

  /** Events that end the process. */
  predicate Fatal(e: Event)
  {
    e.UpdateFailed? || (e.Notified? && !e.n.delivered)
  }

  /** The store and the log after some work, and whether the process has ended. */
  datatype Step = Step(docs: map<ObjectId, Document>, events: seq<Event>, halted: bool)

  /**
   * `status(meeting, status)` on store contents `docs`: the update comes
   * first; only when it succeeds does one send attempt follow, and a failed
   * update ends the process with nothing after it.
   */
  function Transition(docs: map<ObjectId, Document>, m: Meeting, status: int, users: map<ObjectId, User>,
                      gcm: GcmSettings, env: Environment): (r: Step)
    ensures |r.events| > 0
    ensures r.events[0].StatusSet? <==> m.id in env.updateAcknowledged && m.id in docs
    ensures r.docs == if r.events[0].StatusSet? then SetStatus(docs, m.id, status) else docs
    ensures r.events[0].StatusSet? ==>
      && |r.events| == 2 && r.events[0] == StatusSet(m.id, status)
      && r.events[1] == Notified(Notification(m.id, status, MessageFor(m, users, gcm), m.id in env.sendAccepted))
      && (r.halted <==> m.id !in env.sendAccepted)
    ensures !r.events[0].StatusSet? ==> |r.events| == 1 && r.events[0].UpdateFailed? && r.events[0].id == m.id && r.halted
  {
    if m.id !in env.updateAcknowledged then Step(docs, [UpdateFailed(m.id, Unreachable)], true)
    else if m.id !in docs then Step(docs, [UpdateFailed(m.id, NotFound)], true)
    else
      var n := Notification(m.id, status, MessageFor(m, users, gcm), m.id in env.sendAccepted);
      Step(SetStatus(docs, m.id, status), [StatusSet(m.id, status), Notified(n)], !n.delivered)
  }

  /** The cycle over the query answer `ms`, as a specification: each meeting in turn until one is fatal. */
  function Run(docs: map<ObjectId, Document>, ms: seq<Meeting>, users: map<ObjectId, User>,
               gcm: GcmSettings, env: Environment): Step
  {
    if ms == [] then Step(docs, [], false)
    else
      var prev := Run(docs, ms[..|ms| - 1], users, gcm, env);
      if prev.halted then prev
      else
        var t := Transition(prev.docs, ms[|ms| - 1], StatusActive, users, gcm, env);
        Step(t.docs, prev.events + t.events, t.halted)
  }

  /**
   * `status(meeting, status)` against the store: the `$set` update, then
   * `notify` once the update has succeeded.
   */
  method Status(store: MeetingStore, m: Meeting, status: int, users: map<ObjectId, User>,
                gcm: GcmSettings, env: Environment)
    returns (events: seq<Event>, halted: bool)
    requires store.Valid()
    modifies store
    ensures store.Valid()
    ensures Step(store.docs, events, halted) == Transition(old(store.docs), m, status, users, gcm, env)
  {
    var err := store.Update(m.id, status, m.id in env.updateAcknowledged);
    if err.Some? {
      return [UpdateFailed(m.id, err.value)], true;
    }
    var n := Notify(m, status, users, gcm, m.id in env.sendAccepted);
    events := [StatusSet(m.id, status), Notified(n)];
    halted := !n.delivered;
  }

  /**
   * The dispatch loop of `check()`: one transition to ACTIVE per listed
   * meeting, in order, until one of them ends the process.
   */
  method Dispatch(store: MeetingStore, started: seq<Meeting>, users: map<ObjectId, User>,
                  gcm: GcmSettings, env: Environment)
    returns (events: seq<Event>, halted: bool)
    requires store.Valid()
    modifies store
    ensures store.Valid()
    ensures Step(store.docs, events, halted) == Run(old(store.docs), started, users, gcm, env)
  {
    ghost var docs0 := store.docs;
    events, halted := [], false;
    var i := 0;
    while i < |started| && !halted
      invariant 0 <= i <= |started|
      invariant store.Valid()
      invariant Run(docs0, started[..i], users, gcm, env) == Step(store.docs, events, halted)
    {
      var more, h := Status(store, started[i], StatusActive, users, gcm, env);
      RunExtend(docs0, started, i, users, gcm, env);
      events, halted := events + more, h;
      i := i + 1;
    }
    if halted {
      RunStaysHalted(docs0, started, i, users, gcm, env);
    } else {
      assert started[..i] == started;
    }
  }

  /**
   * `check()`: the due-set query, then the dispatch of its answer. A query
   * failure ends the cycle with nothing done.
   */
  method Check(store: MeetingStore, users: map<ObjectId, User>, gcm: GcmSettings, env: Environment)
    returns (started: seq<Meeting>, events: seq<Event>, halted: bool)
    requires store.Valid()
    modifies store
    ensures store.Valid()
    ensures !env.queryAnswered ==> started == [] && events == [] && !halted && store.docs == old(store.docs)
    ensures env.queryAnswered ==> ListsDue(old(store.docs), env.now, started)
    ensures Step(store.docs, events, halted) == Run(old(store.docs), started, users, gcm, env)
  {
    var answer := store.Meetings(env.now, env.queryAnswered);
    if answer.Failure? {
      return [], [], false;
    }
    started := answer.value;
    events, halted := Dispatch(store, started, users, gcm, env);
  }

  /** One more meeting of the answer, handled while the process is still running, extends the cycle by its transition. */
  lemma RunExtend(docs: map<ObjectId, Document>, ms: seq<Meeting>, i: nat,
                  users: map<ObjectId, User>, gcm: GcmSettings, env: Environment)
    requires i < |ms|
    ensures var prev := Run(docs, ms[..i], users, gcm, env);
      var t := Transition(prev.docs, ms[i], StatusActive, users, gcm, env);
      !prev.halted ==> Run(docs, ms[..i + 1], users, gcm, env) == Step(t.docs, prev.events + t.events, t.halted)
  {
    assert ms[..i + 1][..i] == ms[..i];
  }

  /** Once the process has ended, later meetings of the answer change nothing. */
  lemma {:induction false} RunStaysHalted(docs: map<ObjectId, Document>, ms: seq<Meeting>, i: nat,
                                          users: map<ObjectId, User>, gcm: GcmSettings, env: Environment)
    requires i <= |ms|
    requires Run(docs, ms[..i], users, gcm, env).halted
    ensures Run(docs, ms, users, gcm, env) == Run(docs, ms[..i], users, gcm, env)
    decreases |ms| - i
  {
    if i < |ms| {
      var init := ms[..|ms| - 1];
      assert init[..i] == ms[..i];
      RunStaysHalted(docs, init, i, users, gcm, env);
    } else {
      assert ms[..i] == ms;
    }
  }

  /** The ids of the successful updates in a log, in order. */
  function UpdatedIds(events: seq<Event>): seq<ObjectId>
  {
    if events == [] then []
    else
      var e := events[|events| - 1];
      UpdatedIds(events[..|events| - 1]) + (if e.StatusSet? then [e.id] else [])
  }

  /** The ids of the meetings a log shows a send attempt for, in order. */
  function NotifiedIds(events: seq<Event>): seq<ObjectId>
  {
    if events == [] then []
    else
      var e := events[|events| - 1];
      NotifiedIds(events[..|events| - 1]) + (if e.Notified? then [e.n.meeting] else [])
  }

  lemma {:induction false} UpdatedIdsConcat(a: seq<Event>, b: seq<Event>)
    ensures UpdatedIds(a + b) == UpdatedIds(a) + UpdatedIds(b)
    decreases |b|
  {
    if b == [] {
      assert a + b == a;
    } else {
      assert (a + b)[..|a + b| - 1] == a + b[..|b| - 1];
      UpdatedIdsConcat(a, b[..|b| - 1]);
    }
  }

  lemma {:induction false} NotifiedIdsConcat(a: seq<Event>, b: seq<Event>)
    ensures NotifiedIds(a + b) == NotifiedIds(a) + NotifiedIds(b)
    decreases |b|
  {
    if b == [] {
      assert a + b == a;
    } else {
      assert (a + b)[..|a + b| - 1] == a + b[..|b| - 1];
      NotifiedIdsConcat(a, b[..|b| - 1]);
    }
  }

  /** The ids a single transition logs as updated and as notified: its own id, or nothing when the update failed. */
  lemma TransitionIds(docs: map<ObjectId, Document>, m: Meeting, status: int, users: map<ObjectId, User>,
                      gcm: GcmSettings, env: Environment)
    ensures var t := Transition(docs, m, status, users, gcm, env);
      && UpdatedIds(t.events) == (if t.events[0].StatusSet? then [m.id] else [])
      && NotifiedIds(t.events) == UpdatedIds(t.events)
  {
    var e := Transition(docs, m, status, users, gcm, env).events;
    if e[0].StatusSet? {
      assert e[..1] == [e[0]];
      assert e[..1][..0] == [];
      assert UpdatedIds(e[..1]) == [m.id];
      assert NotifiedIds(e[..1]) == [];
      assert e[1].Notified? && e[1].n.meeting == m.id;
    } else {
      assert e[..0] == [];
    }
  }

  /** One more transition after a prefix of the answer: nothing once halted, else the transition appended. */
  lemma RunStep(docs: map<ObjectId, Document>, ms: seq<Meeting>, users: map<ObjectId, User>,
                gcm: GcmSettings, env: Environment)
    requires ms != []
    ensures var prev := Run(docs, ms[..|ms| - 1], users, gcm, env);
      var t := Transition(prev.docs, ms[|ms| - 1], StatusActive, users, gcm, env);
      var r := Run(docs, ms, users, gcm, env);
      && (prev.halted ==> r == prev)
      && (!prev.halted ==> r.docs == t.docs && r.events == prev.events + t.events && r.halted == t.halted)
  {
  }

  /** The updated and notified ids after one more transition: those of the transition appended. */
  lemma RunStepIds(docs: map<ObjectId, Document>, ms: seq<Meeting>, users: map<ObjectId, User>,
                   gcm: GcmSettings, env: Environment)
    requires ms != []
    ensures var prev := Run(docs, ms[..|ms| - 1], users, gcm, env);
      var t := Transition(prev.docs, ms[|ms| - 1], StatusActive, users, gcm, env);
      var r := Run(docs, ms, users, gcm, env);
      && (prev.halted ==> r == prev)
      && (!prev.halted ==>
            && UpdatedIds(r.events) == UpdatedIds(prev.events) + UpdatedIds(t.events)
            && NotifiedIds(r.events) == NotifiedIds(prev.events) + NotifiedIds(t.events))
  {
    var prev := Run(docs, ms[..|ms| - 1], users, gcm, env);
    if !prev.halted {
      var t := Transition(prev.docs, ms[|ms| - 1], StatusActive, users, gcm, env);
      UpdatedIdsConcat(prev.events, t.events);
      NotifiedIdsConcat(prev.events, t.events);
    }
  }

  /**
   * `updated` are the ids of a prefix of `ms`, in order, and of all of `ms`
   * unless the process has ended.
   */
  ghost predicate UpdatedPrefix(updated: seq<ObjectId>, ms: seq<Meeting>, halted: bool)
  {
    && |updated| <= |ms|
    && (forall i | 0 <= i < |updated| :: updated[i] == ms[i].id)
    && (!halted ==> |updated| == |ms|)
  }

  /** A listed meeting more, after a complete prefix: its id is added, or the process ends. */
  lemma UpdatedPrefixSnoc(updated: seq<ObjectId>, ms: seq<Meeting>, m: Meeting, added: seq<ObjectId>, halted: bool)
    requires UpdatedPrefix(updated, ms, false)
    requires added == [m.id] || (added == [] && halted)
    ensures UpdatedPrefix(updated + added, ms + [m], halted)
  {
    var u, ms' := updated + added, ms + [m];
    forall i | 0 <= i < |u|
      ensures u[i] == ms'[i].id
    {
      if i < |updated| {
        assert u[i] == updated[i] && ms'[i] == ms[i];
      }
    }
  }

  /** A listed meeting more, after the process has ended, adds nothing. */
  lemma UpdatedPrefixHalted(updated: seq<ObjectId>, ms: seq<Meeting>, m: Meeting)
    requires UpdatedPrefix(updated, ms, true)
    ensures UpdatedPrefix(updated, ms + [m], true)
  {
    forall i | 0 <= i < |updated|
      ensures updated[i] == (ms + [m])[i].id
    {
      assert (ms + [m])[i] == ms[i];
    }
  }

  /**
   * Updates happen in dispatch order, each listed meeting at most once: the
   * updated ids are the ids of a prefix of the answer, and of all of it when
   * the cycle was not cut short.
   */
  lemma {:induction false} RunUpdatesInOrder(docs: map<ObjectId, Document>, ms: seq<Meeting>,
                                             users: map<ObjectId, User>, gcm: GcmSettings, env: Environment)
    ensures var r := Run(docs, ms, users, gcm, env);
      UpdatedPrefix(UpdatedIds(r.events), ms, r.halted)
  {
    if ms != [] {
      var init, m := ms[..|ms| - 1], ms[|ms| - 1];
      assert ms == init + [m];
      var prev := Run(docs, init, users, gcm, env);
      RunUpdatesInOrder(docs, init, users, gcm, env);
      RunStep(docs, ms, users, gcm, env);
      RunStepIds(docs, ms, users, gcm, env);
      if prev.halted {
        UpdatedPrefixHalted(UpdatedIds(prev.events), init, m);
      } else {
        var t := Transition(prev.docs, m, StatusActive, users, gcm, env);
        TransitionIds(prev.docs, m, StatusActive, users, gcm, env);
        UpdatedPrefixSnoc(UpdatedIds(prev.events), init, m, UpdatedIds(t.events), t.halted);
      }
    }
  }

  /** Every successful update is followed by exactly one send attempt, and there is no other. */
  lemma {:induction false} RunNotifiesEveryUpdate(docs: map<ObjectId, Document>, ms: seq<Meeting>,
                                                  users: map<ObjectId, User>, gcm: GcmSettings, env: Environment)
    ensures var r := Run(docs, ms, users, gcm, env);
      NotifiedIds(r.events) == UpdatedIds(r.events)
  {
    if ms != [] {
      var init := ms[..|ms| - 1];
      var prev := Run(docs, init, users, gcm, env);
      RunNotifiesEveryUpdate(docs, init, users, gcm, env);
      RunStepIds(docs, ms, users, gcm, env);
      if !prev.halted {
        TransitionIds(prev.docs, ms[|ms| - 1], StatusActive, users, gcm, env);
      }
    }
  }

  /** The log entry `k` is a send attempt that follows the listed meeting's update and carries its message. */
  ghost predicate NotifiedAfterUpdate(events: seq<Event>, k: int, ms: seq<Meeting>, users: map<ObjectId, User>, gcm: GcmSettings)
    requires 0 <= k < |events|
  {
    events[k].Notified? ==>
      && k > 0 && events[k - 1] == StatusSet(events[k].n.meeting, StatusActive)
      && exists i | 0 <= i < |ms| ::
           ms[i].id == events[k].n.meeting && events[k].n.message == MessageFor(ms[i], users, gcm)
  }

  /** Every send attempt in `events` follows the update of one of the meetings `ms` and carries its message. */
  ghost predicate NotifiesAfterUpdates(events: seq<Event>, ms: seq<Meeting>, users: map<ObjectId, User>, gcm: GcmSettings)
  {
    forall k | 0 <= k < |events| :: NotifiedAfterUpdate(events, k, ms, users, gcm)
  }

  /** Two logs with that property, one after the other, have it over both answers. */
  lemma NotifiesAfterUpdatesAppend(a: seq<Event>, b: seq<Event>, ms1: seq<Meeting>, ms2: seq<Meeting>,
                                   users: map<ObjectId, User>, gcm: GcmSettings)
    requires NotifiesAfterUpdates(a, ms1, users, gcm) && NotifiesAfterUpdates(b, ms2, users, gcm)
    ensures NotifiesAfterUpdates(a + b, ms1 + ms2, users, gcm)
  {
    var events, ms := a + b, ms1 + ms2;
    forall k | 0 <= k < |events|
      ensures NotifiedAfterUpdate(events, k, ms, users, gcm)
    {
      if events[k].Notified? {
        if k < |a| {
          assert NotifiedAfterUpdate(a, k, ms1, users, gcm);
          assert events[k] == a[k] && events[k - 1] == a[k - 1];
          var i :| 0 <= i < |ms1| && ms1[i].id == a[k].n.meeting && a[k].n.message == MessageFor(ms1[i], users, gcm);
          assert ms[i] == ms1[i];
        } else {
          var j := k - |a|;
          assert NotifiedAfterUpdate(b, j, ms2, users, gcm);
          assert events[k] == b[j] && events[k - 1] == b[j - 1];
          var i :| 0 <= i < |ms2| && ms2[i].id == b[j].n.meeting && b[j].n.message == MessageFor(ms2[i], users, gcm);
          assert ms[|ms1| + i] == ms2[i];
        }
      }
    }
  }

  /** A transition to ACTIVE sends only after its own successful update, with its meeting's message. */
  lemma TransitionNotifiesAfterUpdate(docs: map<ObjectId, Document>, m: Meeting, users: map<ObjectId, User>,
                                      gcm: GcmSettings, env: Environment)
    ensures NotifiesAfterUpdates(Transition(docs, m, StatusActive, users, gcm, env).events, [m], users, gcm)
  {
    var events := Transition(docs, m, StatusActive, users, gcm, env).events;
    forall k | 0 <= k < |events|
      ensures NotifiedAfterUpdate(events, k, [m], users, gcm)
    {
      if events[k].Notified? {
        assert k == 1 && [m][0] == m;
      }
    }
  }

  /**
   * A send attempt is always immediately preceded by the successful update
   * of the same meeting to ACTIVE, and carries that listed meeting's message.
   */
  lemma {:induction false} RunNotifiesOnlyAfterUpdate(docs: map<ObjectId, Document>, ms: seq<Meeting>,
                                                      users: map<ObjectId, User>, gcm: GcmSettings, env: Environment)
    ensures NotifiesAfterUpdates(Run(docs, ms, users, gcm, env).events, ms, users, gcm)
  {
    if ms != [] {
      var init, m := ms[..|ms| - 1], ms[|ms| - 1];
      assert ms == init + [m];
      var prev := Run(docs, init, users, gcm, env);
      RunNotifiesOnlyAfterUpdate(docs, init, users, gcm, env);
      RunStep(docs, ms, users, gcm, env);
      if prev.halted {
        assert prev.events + [] == prev.events;
        NotifiesAfterUpdatesAppend(prev.events, [], init, [m], users, gcm);
      } else {
        TransitionNotifiesAfterUpdate(prev.docs, m, users, gcm, env);
        NotifiesAfterUpdatesAppend(prev.events, Transition(prev.docs, m, StatusActive, users, gcm, env).events,
                                   init, [m], users, gcm);
      }
    }
  }

  /** The log ends in a fatal event exactly when the process has ended, and no earlier event is fatal. */
  ghost predicate StopsAtFirstFailure(s: Step)
  {
    && (s.halted <==> s.events != [] && Fatal(s.events[|s.events| - 1]))
    && forall k | 0 <= k < |s.events| - 1 :: !Fatal(s.events[k])
  }

  /** Appending a step that stops at its first failure to a log that has not failed keeps the property. */
  lemma FirstFailureAppend(a: Step, b: Step)
    requires StopsAtFirstFailure(a) && !a.halted
    requires StopsAtFirstFailure(b) && b.events != []
    ensures StopsAtFirstFailure(Step(b.docs, a.events + b.events, b.halted))
  {
    var events := a.events + b.events;
    forall k | 0 <= k < |events| - 1
      ensures !Fatal(events[k])
    {
      if k < |a.events| {
        assert events[k] == a.events[k];
        if k == |a.events| - 1 {
          assert !Fatal(a.events[|a.events| - 1]);
        }
      } else {
        assert events[k] == b.events[k - |a.events|];
      }
    }
    assert events[|events| - 1] == b.events[|b.events| - 1];
  }

  /**
   * The process ends exactly when the last logged event is fatal, and no
   * earlier event is: the cycle stops at its first failure.
   */
  lemma {:induction false} RunHaltsAtFirstFailure(docs: map<ObjectId, Document>, ms: seq<Meeting>,
                                                  users: map<ObjectId, User>, gcm: GcmSettings, env: Environment)
    ensures StopsAtFirstFailure(Run(docs, ms, users, gcm, env))
  {
    if ms != [] {
      var init := ms[..|ms| - 1];
      var prev := Run(docs, init, users, gcm, env);
      RunHaltsAtFirstFailure(docs, init, users, gcm, env);
      RunStep(docs, ms, users, gcm, env);
      if !prev.halted {
        var t := Transition(prev.docs, ms[|ms| - 1], StatusActive, users, gcm, env);
        TransitionStopsAtFirstFailure(prev.docs, ms[|ms| - 1], StatusActive, users, gcm, env);
        FirstFailureAppend(prev, t);
      }
    }
  }

  /** A single transition ends the process exactly when its last event is fatal, and only then. */
  lemma TransitionStopsAtFirstFailure(docs: map<ObjectId, Document>, m: Meeting, status: int,
                                      users: map<ObjectId, User>, gcm: GcmSettings, env: Environment)
    ensures StopsAtFirstFailure(Transition(docs, m, status, users, gcm, env))
  {
    var t := Transition(docs, m, status, users, gcm, env);
    if t.events[0].StatusSet? {
      assert !Fatal(t.events[0]);
    }
  }

  /**
   * From `before` to `after` no document is added or removed, no meeting
   * record changes, and a document changes only by getting status ACTIVE,
   * and only if its id is among `updated`.
   */
  ghost predicate OnlyUpdatedChanged(before: map<ObjectId, Document>, after: map<ObjectId, Document>, updated: seq<ObjectId>)
  {
    && after.Keys == before.Keys
    && (forall id | id in before :: after[id].meeting == before[id].meeting)
    && (forall id | id in before && id !in updated :: after[id] == before[id])
    && (forall id | id in before && id in updated :: after[id].status == StatusActive)
  }

  /** Two such changes in a row are one such change, over both lists of updated ids. */
  lemma OnlyUpdatedChangedTrans(a: map<ObjectId, Document>, b: map<ObjectId, Document>, c: map<ObjectId, Document>,
                                u1: seq<ObjectId>, u2: seq<ObjectId>)
    requires OnlyUpdatedChanged(a, b, u1) && OnlyUpdatedChanged(b, c, u2)
    ensures OnlyUpdatedChanged(a, c, u1 + u2)
  {
    forall id | id in a && id in u1 + u2
      ensures c[id].status == StatusActive
    {
      if id !in u2 {
        assert id in u1;
      }
    }
  }

  /** One transition to ACTIVE changes only the status of the meeting it logs as updated. */
  lemma TransitionChangesOnlyUpdated(docs: map<ObjectId, Document>, m: Meeting, users: map<ObjectId, User>,
                                     gcm: GcmSettings, env: Environment)
    ensures var t := Transition(docs, m, StatusActive, users, gcm, env);
      OnlyUpdatedChanged(docs, t.docs, UpdatedIds(t.events))
  {
    TransitionIds(docs, m, StatusActive, users, gcm, env);
  }

  /**
   * The cycle changes no document except by an ACTIVE status on one it logged
   * as updated: ids, meeting records and all other statuses stay as they were.
   */
  lemma {:induction false} RunChangesOnlyUpdatedStatus(docs: map<ObjectId, Document>, ms: seq<Meeting>,
                                                       users: map<ObjectId, User>, gcm: GcmSettings, env: Environment)
    ensures var r := Run(docs, ms, users, gcm, env);
      OnlyUpdatedChanged(docs, r.docs, UpdatedIds(r.events))
  {
    if ms != [] {
      var init := ms[..|ms| - 1];
      var prev := Run(docs, init, users, gcm, env);
      RunChangesOnlyUpdatedStatus(docs, init, users, gcm, env);
      RunStep(docs, ms, users, gcm, env);
      RunStepIds(docs, ms, users, gcm, env);
      if !prev.halted {
        var t := Transition(prev.docs, ms[|ms| - 1], StatusActive, users, gcm, env);
        TransitionChangesOnlyUpdated(prev.docs, ms[|ms| - 1], users, gcm, env);
        OnlyUpdatedChangedTrans(docs, prev.docs, t.docs, UpdatedIds(prev.events), UpdatedIds(t.events));
      }
    }
  }

  /** A cycle neither adds nor removes documents. */
  lemma {:induction false} RunKeepsIds(docs: map<ObjectId, Document>, ms: seq<Meeting>,
                                       users: map<ObjectId, User>, gcm: GcmSettings, env: Environment)
    ensures Run(docs, ms, users, gcm, env).docs.Keys == docs.Keys
  {
    if ms != [] {
      RunKeepsIds(docs, ms[..|ms| - 1], users, gcm, env);
      RunStep(docs, ms, users, gcm, env);
    }
  }

  /** Every listed meeting is stored, acknowledged and accepted: nothing in the cycle fails. */
  ghost predicate AllSucceed(docs: map<ObjectId, Document>, ms: seq<Meeting>, env: Environment)
  {
    forall i | 0 <= i < |ms| ::
      ms[i].id in docs && ms[i].id in env.updateAcknowledged && ms[i].id in env.sendAccepted
  }

  /** The log of a cycle in which nothing fails: per listed meeting, its update and then its notification. */
  ghost predicate SucceededLog(events: seq<Event>, ms: seq<Meeting>, users: map<ObjectId, User>, gcm: GcmSettings)
  {
    && |events| == 2 * |ms|
    && forall i | 0 <= i < |ms| ::
         && events[2 * i] == StatusSet(ms[i].id, StatusActive)
         && events[2 * i + 1] == Notified(Notification(ms[i].id, StatusActive, MessageFor(ms[i], users, gcm), true))
  }

  /**
   * When nothing fails, each listed meeting is set to ACTIVE and then
   * notified with its own message, in query order, and nothing else is logged.
   */
  lemma {:induction false} RunAllSucceed(docs: map<ObjectId, Document>, ms: seq<Meeting>,
                                         users: map<ObjectId, User>, gcm: GcmSettings, env: Environment)
    requires AllSucceed(docs, ms, env)
    ensures var r := Run(docs, ms, users, gcm, env);
      && !r.halted
      && SucceededLog(r.events, ms, users, gcm)
      && (forall i | 0 <= i < |ms| :: ms[i].id in r.docs && r.docs[ms[i].id].status == StatusActive)
  {
    if ms != [] {
      var init, m := ms[..|ms| - 1], ms[|ms| - 1];
      assert ms == init + [m];
      var prev := Run(docs, init, users, gcm, env);
      RunAllSucceed(docs, init, users, gcm, env);
      RunKeepsIds(docs, init, users, gcm, env);
      RunStep(docs, ms, users, gcm, env);
      var t := Transition(prev.docs, m, StatusActive, users, gcm, env);
      assert m.id in prev.docs;
      SucceededLogSnoc(prev.events, init, m, t.events, users, gcm);
      forall i | 0 <= i < |ms|
        ensures ms[i].id in t.docs && t.docs[ms[i].id].status == StatusActive
      {
        if i < |init| {
          assert ms[i] == init[i];
        }
      }
    }
  }

  /** A succeeded log extended by one more meeting's update and delivered notification. */
  lemma SucceededLogSnoc(events: seq<Event>, ms: seq<Meeting>, m: Meeting, more: seq<Event>,
                         users: map<ObjectId, User>, gcm: GcmSettings)
    requires SucceededLog(events, ms, users, gcm)
    requires more == [StatusSet(m.id, StatusActive), Notified(Notification(m.id, StatusActive, MessageFor(m, users, gcm), true))]
    ensures SucceededLog(events + more, ms + [m], users, gcm)
  {
    var all, ms' := events + more, ms + [m];
    forall i | 0 <= i < |ms'|
      ensures all[2 * i] == StatusSet(ms'[i].id, StatusActive)
      ensures all[2 * i + 1] == Notified(Notification(ms'[i].id, StatusActive, MessageFor(ms'[i], users, gcm), true))
    {
      if i < |ms| {
        assert all[2 * i] == events[2 * i] && all[2 * i + 1] == events[2 * i + 1];
      }
    }
  }

  /** Two logs of a cycle in which nothing fails, over the same answer, are the same log. */
  lemma SucceededLogUnique(e1: seq<Event>, e2: seq<Event>, ms: seq<Meeting>, users: map<ObjectId, User>, gcm: GcmSettings)
    requires SucceededLog(e1, ms, users, gcm) && SucceededLog(e2, ms, users, gcm)
    ensures e1 == e2
  {
    forall k | 0 <= k < |e1|
      ensures e1[k] == e2[k]
    {
      var i := k / 2;
      assert k == 2 * i || k == 2 * i + 1;
      assert 0 <= i < |ms|;
      assert e1[2 * i] == e2[2 * i] && e1[2 * i + 1] == e2[2 * i + 1];
    }
  }

  /**
   * A cycle in which nothing fails leaves no meeting due at the same time, so
   * the next query at that time answers nothing.
   */
  lemma CycleClearsDueSet(docs: map<ObjectId, Document>, ms: seq<Meeting>, users: map<ObjectId, User>,
                          gcm: GcmSettings, env: Environment, next: seq<Meeting>)
    requires ListsDue(docs, env.now, ms)
    requires AllSucceed(docs, ms, env)
    requires ListsDue(Run(docs, ms, users, gcm, env).docs, env.now, next)
    ensures DueIds(Run(docs, ms, users, gcm, env).docs, env.now) == {}
    ensures next == []
  {
    var r := Run(docs, ms, users, gcm, env);
    RunAllSucceed(docs, ms, users, gcm, env);
    RunChangesOnlyUpdatedStatus(docs, ms, users, gcm, env);
    forall id | id in r.docs
      ensures !Due(r.docs[id], env.now)
    {
      if Due(docs[id], env.now) {
        var i :| 0 <= i < |ms| && ms[i].id == id;
      }
    }
    assert DueIds(r.docs, env.now) == {};
    NothingDueListsNothing(r.docs, env.now, next);
  }

  /**
   * The update carries no guard on the current status: replaying a cycle on
   * a stale answer (an overlapping cycle that queried before the first one
   * committed) leaves the store as it is but repeats every update and every
   * notification.
   */
  lemma StaleAnswerRepeatsNotifications(docs: map<ObjectId, Document>, ms: seq<Meeting>,
                                        users: map<ObjectId, User>, gcm: GcmSettings, env: Environment)
    requires AllSucceed(docs, ms, env)
    ensures var first := Run(docs, ms, users, gcm, env);
      var second := Run(first.docs, ms, users, gcm, env);
      second.docs == first.docs && second.events == first.events
  {
    var first := Run(docs, ms, users, gcm, env);
    RunAllSucceed(docs, ms, users, gcm, env);
    RunChangesOnlyUpdatedStatus(docs, ms, users, gcm, env);
    assert AllSucceed(first.docs, ms, env);
    var second := Run(first.docs, ms, users, gcm, env);
    RunAllSucceed(first.docs, ms, users, gcm, env);
    RunChangesOnlyUpdatedStatus(first.docs, ms, users, gcm, env);
    SucceededLogUnique(first.events, second.events, ms, users, gcm);
    forall id | id in first.docs
      ensures second.docs[id] == first.docs[id]
    {
      if id in UpdatedIds(second.events) {
        assert first.docs[id].status == StatusActive;
        assert second.docs[id].meeting == first.docs[id].meeting;
      }
    }
  }

  /**
   * One scheduled meeting whose start has passed, one participant with one
   * device: the query answers that meeting, and the cycle over the answer
   * sets it ACTIVE, then sends one message to that device's token carrying
   * the meeting's id.
   */
  lemma OneMeetingOneDevice(m: Meeting, u: User, d: Device, gcm: GcmSettings, env: Environment)
    requires m.startTime <= env.now && m.participants == [u.id] && u.devices == [d]
    requires m.id in env.updateAcknowledged && m.id in env.sendAccepted
    ensures ListsDue(map[m.id := Document(m, StatusScheduled)], env.now, [m])
    ensures var docs := map[m.id := Document(m, StatusScheduled)];
      var r := Run(docs, [m], map[u.id := u], gcm, env);
      && r.docs == map[m.id := Document(m, StatusActive)]
      && r.events == [StatusSet(m.id, StatusActive),
                      Notified(Notification(m.id, StatusActive, Message(Payload(m), [d.token], gcm.apiKey, gcm.retries), true))]
  {
    var docs, users := map[m.id := Document(m, StatusScheduled)], map[u.id := u];
    assert Tokens(users, [u.id]) == [d.token] by {
      assert [u.id][..0] == [];
      assert DeviceTokens(u.devices) == [d.token];
    }
    assert [m][..0] == [];
    RunStep(docs, [m], users, gcm, env);
    var t := Transition(docs, m, StatusActive, users, gcm, env);
    assert t.docs == map[m.id := Document(m, StatusActive)];
  }
}
