/** The user id counter under every interleaving of its callers (core/src/user/user_manager.cpp:9-17 and
    127-146). A next_user_id call is an atomic fetch_add followed by a locked section; a reconnect_user
    call is a load, a weak compare-and-swap loop that may fail spuriously, and a locked section. All counter
    accesses are relaxed: a load, or a failed swap, may see any value the counter has had. */
module UserIds {
  import opened Types

  /** Where a thread is inside a call. */
  datatype Pc =
    | Idle
    | Fetched(id: int)                  // next_user_id, before its locked section
    | Loaded(uid: int, expected: int)   // reconnect_user, in the loop
    | Raised(uid: int)                  // reconnect_user, before its locked section

  /** users is users_; a user has an entry in positions_ exactly if it is listed there. The last three
      are history: the ids handed out, the ids enrolled by a reconnect while their allocation was still
      pending, and the ids that were then published on top of that entry. */
  datatype World = World(nextId: int, users: seq<int>, threads: map<int, Pc>,
                         handedOut: seq<int>, early: set<int>, overwritten: set<int>)
  {
    function At(t: int): Pc { if t in threads then threads[t] else Idle }

    function Goto(t: int, pc: Pc): World { this.(threads := threads[t := pc]) }
  }

  datatype Event =
    | FetchAdd(t: int)
    | Publish(t: int)
    | Load(t: int, uid: int, seen: int)
    | Cas(t: int)
    | CasFails(t: int, seen: int)
    | Exit(t: int)
    | Enrol(t: int)

  predicate Enabled(w: World, e: Event) {
    match e
    case FetchAdd(t) => w.At(t).Idle?
    case Publish(t) => w.At(t).Fetched?
    case Load(t, uid, seen) => w.At(t).Idle? && uid > 0 && 1 <= seen <= w.nextId
    case Cas(t) => w.At(t).Loaded? && w.At(t).expected <= w.At(t).uid && w.nextId == w.At(t).expected
    case CasFails(t, seen) => w.At(t).Loaded? && w.At(t).expected <= w.At(t).uid && 1 <= seen <= w.nextId
    case Exit(t) => w.At(t).Loaded? && w.At(t).expected > w.At(t).uid
    case Enrol(t) => w.At(t).Raised?
  }

  ghost predicate Pending(w: World, id: int) {
    exists t :: w.At(t) == Fetched(id)
  }

  ghost function Next(w: World, e: Event): World
    requires Enabled(w, e)
  {
    match e
    case FetchAdd(t) =>
      w.Goto(t, Fetched(w.nextId)).(nextId := w.nextId + 1, handedOut := w.handedOut + [w.nextId])
    case Publish(t) =>
      var id := w.At(t).id;
      w.Goto(t, Idle).(users := w.users + [id],
                       overwritten := if id in w.users then w.overwritten + {id} else w.overwritten)
    case Load(t, uid, seen) => w.Goto(t, Loaded(uid, seen))
    case Cas(t) =>
      var uid := w.At(t).uid;
      w.Goto(t, Raised(uid)).(nextId := uid + 1)
    case CasFails(t, seen) => w.Goto(t, Loaded(w.At(t).uid, seen))
    case Exit(t) => w.Goto(t, Raised(w.At(t).uid))
    case Enrol(t) =>
      var uid := w.At(t).uid;
      w.Goto(t, Idle).(users := if uid in w.users then w.users else w.users + [uid],
                       early := if Pending(w, uid) then w.early + {uid} else w.early)
  }

  const START := World(1, [], map[], [], {}, {})

  ghost predicate Trace(w: World, es: seq<Event>)
    decreases |es|
  {
    es == [] || (Enabled(w, es[0]) && Trace(Next(w, es[0]), es[1..]))
  }

  ghost function After(w: World, es: seq<Event>): World
    requires Trace(w, es)
    decreases |es|
  {
    if es == [] then w else After(Next(w, es[0]), es[1..])
  }

  /** What holds of a thread in the middle of a call. */
  ghost predicate ThreadOk(w: World, t: int) {
    match w.At(t)
    case Idle => true
    // its id went out; the id is listed already only if a reconnect enrolled it early
    case Fetched(id) => id in w.handedOut && (id in w.users <==> id in w.early)
    case Loaded(_, expected) => expected <= w.nextId
    // through its loop, it has pushed the counter past its uid
    case Raised(uid) => uid < w.nextId
  }

  ghost predicate Increasing(w: World) {
    && (forall i, j :: 0 <= i < j < |w.handedOut| ==> w.handedOut[i] < w.handedOut[j])
    && (forall id <- w.handedOut :: id < w.nextId)
    && (forall u <- w.users :: u < w.nextId)
    && (forall u <- w.early :: u < w.nextId)
  }

  ghost predicate Apart(w: World) {
    forall t, t' | t != t' && w.At(t).Fetched? && w.At(t').Fetched? :: w.At(t).id != w.At(t').id
  }

  ghost predicate Ok(w: World) {
    && Increasing(w) && Apart(w)
    && (forall t :: ThreadOk(w, t))
    // the list has a duplicate exactly if a published id was already there
    && (NoDuplicates(w.users) <==> w.overwritten == {})
    && w.overwritten <= w.early
    && (forall id <- w.early :: id in w.overwritten || Pending(w, id))
  }

  lemma Appended(xs: seq<int>, x: int)
    ensures NoDuplicates(xs + [x]) <==> NoDuplicates(xs) && x !in xs
  {
    var ys := xs + [x];
    assert ys[|xs|] == x;
    assert forall i :: 0 <= i < |xs| ==> ys[i] == xs[i];
    assert NoDuplicates(ys) ==> forall i :: 0 <= i < |xs| ==> ys[i] != ys[|xs|];
    if NoDuplicates(ys) {
      forall i, j | 0 <= i < j < |xs| ensures xs[i] != xs[j] { assert ys[i] == xs[i] && ys[j] == xs[j]; }
    }
  }

  lemma NextIncreasing(w: World, e: Event)
    requires Ok(w) && Enabled(w, e)
    ensures Increasing(Next(w, e)) && w.nextId <= Next(w, e).nextId && w.handedOut <= Next(w, e).handedOut
  {
    var v := Next(w, e);
    assert ThreadOk(w, e.t);
    if e.FetchAdd? {
      var n := |w.handedOut|;
      forall i, j | 0 <= i < j < |v.handedOut| ensures v.handedOut[i] < v.handedOut[j] {
        assert v.handedOut[i] == w.handedOut[i] && w.handedOut[i] in w.handedOut;
        assert j < n ==> v.handedOut[j] == w.handedOut[j];
      }
    }
  }

  lemma NextApart(w: World, e: Event)
    requires Ok(w) && Enabled(w, e)
    ensures Apart(Next(w, e))
  {
    var v := Next(w, e);
    forall t, t' | t != t' && v.At(t).Fetched? && v.At(t').Fetched? ensures v.At(t).id != v.At(t').id {
      assert ThreadOk(w, t) && ThreadOk(w, t');
    }
  }

  lemma NextThread(w: World, e: Event, t: int)
    requires Ok(w) && Enabled(w, e)
    ensures ThreadOk(Next(w, e), t)
  {
    assert ThreadOk(w, t) && ThreadOk(w, e.t);
    if e.FetchAdd? {
      assert w.nextId !in w.users && w.nextId !in w.early;
    } else if e.Enrol? && w.At(t).Fetched? && w.At(t).id == w.At(e.t).uid {
      assert Pending(w, w.At(t).id);
    }
  }

  /** An id enrolled early is overwritten once its allocation is published. */
  lemma NextEarly(w: World, e: Event)
    requires Ok(w) && Enabled(w, e)
    ensures var v := Next(w, e); forall id <- v.early :: id in v.overwritten || Pending(v, id)
  {
    var v := Next(w, e);
    forall id | id in v.early ensures id in v.overwritten || Pending(v, id) {
      if id !in w.overwritten {
        var t :| w.At(t) == Fetched(id);
        assert ThreadOk(w, t);
        assert t != e.t ==> v.At(t) == Fetched(id);
      }
    }
  }

  /** Every atomic step keeps the invariant, the counter never goes back, and no handed-out id is taken
      back. */
  lemma NextOk(w: World, e: Event)
    requires Ok(w) && Enabled(w, e)
    ensures Ok(Next(w, e)) && w.nextId <= Next(w, e).nextId && w.handedOut <= Next(w, e).handedOut
  {
    NextIncreasing(w, e);
    NextApart(w, e);
    NextEarly(w, e);
    forall t ensures ThreadOk(Next(w, e), t) { NextThread(w, e, t); }
    assert ThreadOk(w, e.t);
    if e.Publish? {
      Appended(w.users, w.At(e.t).id);
    } else if e.Enrol? {
      Appended(w.users, w.At(e.t).uid);
    }
  }

  lemma {:induction false} TraceOk(w: World, es: seq<Event>)
    requires Ok(w) && Trace(w, es)
    ensures Ok(After(w, es)) && w.nextId <= After(w, es).nextId && w.handedOut <= After(w, es).handedOut
    decreases |es|
  {
    if es != [] {
      NextOk(w, es[0]);
      TraceOk(Next(w, es[0]), es[1..]);
    }
  }

  lemma StartOk()
    ensures Ok(START)
  {
  }

  /** Under every interleaving, spurious failures and stale loads included, next_user_id never returns an id twice. */
  lemma IdsDistinct(es: seq<Event>)
    requires Trace(START, es)
    ensures NoDuplicates(After(START, es).handedOut)
  {
    StartOk();
    TraceOk(START, es);
  }

  /** Once a reconnect has finished its loop for uid, every id handed out later exceeds uid. */
  lemma LaterIdsExceed(w: World, es: seq<Event>, t: int, k: int)
    requires Ok(w) && Trace(w, es) && w.At(t).Raised?
    requires |w.handedOut| <= k < |After(w, es).handedOut|
    ensures w.At(t).uid < After(w, es).handedOut[k]
  {
    assert ThreadOk(w, t);
    HandedOutAbove(w, es, k);
  }

  lemma {:induction false} HandedOutAbove(w: World, es: seq<Event>, k: int)
    requires Ok(w) && Trace(w, es) && |w.handedOut| <= k < |After(w, es).handedOut|
    ensures w.nextId <= After(w, es).handedOut[k]
    decreases |es|
  {
    if es != [] {
      var v := Next(w, es[0]);
      NextOk(w, es[0]);
      TraceOk(v, es[1..]);
      if k < |v.handedOut| {
        assert v.handedOut[k] == w.nextId;
      } else {
        HandedOutAbove(v, es[1..], k);
      }
    }
  }

  /** No reconnect enrols an id while the call that hands it out is still under way. */
  ghost predicate NoneEarly(w: World, es: seq<Event>)
    requires Trace(w, es)
    decreases |es|
  {
    es == [] ||
    ((es[0].Enrol? ==> !Pending(w, w.At(es[0].t).uid)) && NoneEarly(Next(w, es[0]), es[1..]))
  }

  lemma {:induction false} EarlyIff(w: World, es: seq<Event>)
    requires Ok(w) && Trace(w, es)
    ensures w.early <= After(w, es).early
    ensures w.early == {} ==> (After(w, es).early == {} <==> NoneEarly(w, es))
    decreases |es|
  {
    if es != [] {
      NextOk(w, es[0]);
      EarlyIff(Next(w, es[0]), es[1..]);
      if es[0].Enrol? && Pending(w, w.At(es[0].t).uid) {
        assert w.At(es[0].t).uid in Next(w, es[0]).early;
      }
    }
  }

  /** Once all calls have returned, the user list is free of duplicates, and no entry has been reset,
      exactly if no reconnect enrolled an id that was still being handed out. */
  lemma DuplicatesIff(es: seq<Event>)
    requires Trace(START, es) && forall t :: After(START, es).At(t).Idle?
    ensures NoDuplicates(After(START, es).users) <==> NoneEarly(START, es)
    ensures After(START, es).overwritten == {} <==> NoneEarly(START, es)
  {
    StartOk();
    TraceOk(START, es);
    EarlyIff(START, es);
    var w := After(START, es);
    assert w.early == w.overwritten by {
      forall id | id in w.early ensures id in w.overwritten {
        assert forall t :: w.At(t).Idle?;
      }
    }
  }

  /** The ids whose locked section a trace runs: those it publishes and those that reconnect. */
  ghost function Entered(w: World, es: seq<Event>): set<int>
    requires Trace(w, es)
    decreases |es|
  {
    if es == [] then {}
    else
      (match es[0]
       case Publish(t) => {w.At(t).id}
       case Enrol(t) => {w.At(t).uid}
       case _ => {})
      + Entered(Next(w, es[0]), es[1..])
  }

  lemma {:induction false} ListedIff(w: World, es: seq<Event>, u: int)
    requires Trace(w, es)
    ensures u in After(w, es).users <==> u in w.users || u in Entered(w, es)
    decreases |es|
  {
    if es != [] { ListedIff(Next(w, es[0]), es[1..], u); }
  }

  /** An id that was handed out is listed, or its call has still to list it. */
  lemma {:induction false} HandedOutListed(w: World, es: seq<Event>)
    requires Trace(w, es) && forall id <- w.handedOut :: id in w.users || Pending(w, id)
    ensures forall id <- After(w, es).handedOut :: id in After(w, es).users || Pending(After(w, es), id)
    decreases |es|
  {
    if es != [] {
      var v := Next(w, es[0]);
      forall id | id in v.handedOut ensures id in v.users || Pending(v, id) {
        if id in w.handedOut {
          if id !in w.users {
            var t :| w.At(t) == Fetched(id);
            assert t != es[0].t ==> v.At(t) == Fetched(id);
          }
        } else {
          assert v.At(es[0].t) == Fetched(id);
        }
      }
      HandedOutListed(v, es[1..]);
    }
  }

  /** Nobody is lost and nobody is made up: once all calls have returned, the list holds the ids that were
      handed out and those that reconnected, and no others. */
  lemma AllListed(es: seq<Event>)
    requires Trace(START, es) && forall t :: After(START, es).At(t).Idle?
    ensures forall u :: u in After(START, es).users <==> u in Entered(START, es)
    ensures forall id <- After(START, es).handedOut :: id in After(START, es).users
  {
    HandedOutListed(START, es);
    var w := After(START, es);
    assert forall t :: w.At(t).Idle?;
    forall u ensures u in w.users <==> u in Entered(START, es) { ListedIff(START, es, u); }
  }

  /** Calls that run one at a time never overlap. */
  ghost predicate OneAtATime(w: World, es: seq<Event>)
    requires Trace(w, es)
    decreases |es|
  {
    es == [] ||
    ((forall t | t != es[0].t :: w.At(t).Idle?) && OneAtATime(Next(w, es[0]), es[1..]))
  }

  lemma {:induction false} AtomicCallsClean(w: World, es: seq<Event>)
    requires Trace(w, es) && OneAtATime(w, es)
    ensures NoneEarly(w, es)
    decreases |es|
  {
    if es != [] { AtomicCallsClean(Next(w, es[0]), es[1..]); }
  }

  /** Between fetch_add and its locked section a reconnect can claim the very id being handed out: the
      position it then trades under is reset, and the user is listed twice. */
  lemma EarlyReconnectIsOverwritten()
    ensures var es := [FetchAdd(1), Load(2, 1, 2), Exit(2), Enrol(2), Publish(1)];
            && Trace(START, es)
            && After(START, es).users == [1, 1] && After(START, es).overwritten == {1}
  {
  }
}
