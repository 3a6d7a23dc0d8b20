/** Bookkeeping of persistent ClearKey session ids.

    The plugin keeps, per process, a load state, the set of session ids that
    are persisted in storage (or were created persistent since), a counter
    that hands out fresh ids, and a queue of create/load requests that arrived
    before the persisted ids were enumerated.  Here that global state is one
    immutable record and every entry point is a pure transition on it.
 */
module ClearKeyPersistence {
  import opened Decimal
  import opened Machine

  /** Whether the persistent session ids have been read from storage yet. */
  datatype PersistentKeyState = Uninitialized | Loading | Loaded

  /** Position of a state in the order UNINITIALIZED < LOADING < LOADED. */
  function Rank(s: PersistentKeyState): nat {
    match s
    case Uninitialized => 0
    case Loading => 1
    case Loaded => 2
  }

  datatype SessionType = TemporarySession | PersistentSession

  /** Identity of the session manager instance a request came from; the
      queued task runs against that instance. */
  type Instance = nat

  /** A request held back until the persisted ids are known, with the
      instance and the arguments it was made with. */
  datatype BlockedTask =
    | CreateSessionTask(target: Instance, createSessionToken: nat, promiseId: nat, initData: seq<Byte>, sessionType: SessionType)
    | LoadSessionTask(target: Instance, promiseId: nat, sessionId: string)

  datatype Persistence = Persistence(
    state: PersistentKeyState,
    ids: set<nat>,              // persisted session ids, as uint32 values
    nextSessionId: nat,         // the counter behind GetNewSessionId
    blocked: seq<BlockedTask>   // tasks blocked on the session-id load, oldest first
  )

  /** The state at process start: nothing loaded, counter at 1. */
  const Initial := Persistence(Uninitialized, {}, 1, [])

  /** The set key of a session-id string: `atoi` of it, stored as a uint32. */
  function SessionKey(s: string): (k: nat)
    ensures k < Uint32Modulus
  {
    ToUint32(Atoi(s))
  }

  /** Whenever `atoi` of a session-id string is a `uint32_t`, the set key is
      that value. */
  lemma SessionKeyIsAtoi(s: string)
    ensures 0 <= Atoi(s) < Uint32Modulus ==> SessionKey(s) == Atoi(s)
  {
  }

  /** Conversion of a C `int` to `uint32_t`: the value modulo 2^32. */
  function ToUint32(i: int): (u: nat)
    ensures u < Uint32Modulus
    ensures 0 <= i < Uint32Modulus ==> u == i
  {
    i % Uint32Modulus
  }

  /** Starts enumerating the stored records, once.  `enumerationStarts` is
      whether the storage layer accepted the enumeration request. */
  function EnsureInitialized(p: Persistence, enumerationStarts: bool): (r: Persistence)
    ensures p.state == Uninitialized && enumerationStarts ==> r.state == Loading
    ensures p.state == Uninitialized && !enumerationStarts ==> r.state == Loaded
    ensures p.state != Uninitialized ==> r == p
    ensures r.ids == p.ids && r.nextSessionId == p.nextSessionId && r.blocked == p.blocked
  {
    if p.state == Uninitialized then
      p.(state := if enumerationStarts then Loading else Loaded)
    else
      p
  }

  /** The least id at or above `from` that is not in `ids`. */
  function NextFreeId(ids: set<nat>, from: nat): (n: nat)
    ensures from <= n && n !in ids
    ensures forall k :: from <= k < n ==> k in ids
    decreases |set k | k in ids && k >= from|
  {
    if from !in ids then from
    else
      var above := set k | k in ids && k >= from;
      var aboveNext := set k | k in ids && k >= from + 1;
      assert aboveNext == above - {from};
      assert |aboveNext| == |above| - 1;
      NextFreeId(ids, from + 1)
  }

  /** The outcome of GetNewSessionId: the numeric id, its text, and the new state. */
  datatype Issued = Issued(id: nat, sessionId: string, after: Persistence)

  /** Hands out a fresh session id, skipping every persisted one, and records
      it as persisted when the session is persistent. */
  function GetNewSessionId(p: Persistence, sessionType: SessionType): (r: Issued)
    ensures r.id !in p.ids
    ensures p.nextSessionId <= r.id
    ensures forall k :: p.nextSessionId <= k < r.id ==> k in p.ids
    ensures r.after.nextSessionId == r.id + 1
    ensures r.sessionId == Render(r.id)
    ensures sessionType == PersistentSession ==> r.after.ids == p.ids + {r.id}
    ensures sessionType != PersistentSession ==> r.after.ids == p.ids
    ensures r.after.state == p.state && r.after.blocked == p.blocked
  {
    var n := NextFreeId(p.ids, p.nextSessionId);
    var ids := if sessionType == PersistentSession then p.ids + {n} else p.ids;
    Issued(n, Render(n), p.(ids := ids, nextSessionId := n + 1))
  }

  /** The outcome of a Defer* call: whether the request was queued, and the new state. */
  datatype Deferral = Deferral(deferred: bool, after: Persistence)

  function Defer(p: Persistence, t: BlockedTask): (r: Deferral)
    ensures r.deferred <==> p.state != Loaded
    ensures r.deferred ==> r.after == p.(blocked := p.blocked + [t])
    ensures !r.deferred ==> r.after == p
  {
    if Rank(p.state) >= Rank(Loaded) then Deferral(false, p)
    else Deferral(true, p.(blocked := p.blocked + [t]))
  }

  /** Queues a create-session request while the ids are not loaded yet. */
  function DeferCreateSessionIfNotReady(p: Persistence, target: Instance, createSessionToken: nat, promiseId: nat,
                                        initData: seq<Byte>, sessionType: SessionType): (r: Deferral)
    ensures r.deferred <==> p.state != Loaded
    ensures r.deferred ==> r.after.blocked == p.blocked + [CreateSessionTask(target, createSessionToken, promiseId, initData, sessionType)]
    ensures !r.deferred ==> r.after == p
    ensures r.after.state == p.state && r.after.ids == p.ids && r.after.nextSessionId == p.nextSessionId
  {
    Defer(p, CreateSessionTask(target, createSessionToken, promiseId, initData, sessionType))
  }

  /** Queues a load-session request while the ids are not loaded yet. */
  function DeferLoadSessionIfNotReady(p: Persistence, target: Instance, promiseId: nat, sessionId: string): (r: Deferral)
    ensures r.deferred <==> p.state != Loaded
    ensures r.deferred ==> r.after.blocked == p.blocked + [LoadSessionTask(target, promiseId, sessionId)]
    ensures !r.deferred ==> r.after == p
    ensures r.after.state == p.state && r.after.ids == p.ids && r.after.nextSessionId == p.nextSessionId
  {
    Defer(p, LoadSessionTask(target, promiseId, sessionId))
  }

  /** Whether a session-id string stands for a persisted id. */
  predicate IsPersistentSessionId(p: Persistence, sessionId: string) {
    SessionKey(sessionId) in p.ids
  }

  /** Forgets the persisted id a session-id string stands for. */
  function PersistentSessionRemoved(p: Persistence, sessionId: string): (r: Persistence)
    ensures SessionKey(sessionId) !in r.ids
    ensures forall k :: k in p.ids && k != SessionKey(sessionId) ==> k in r.ids
    ensures r.ids <= p.ids
    ensures r.state == p.state && r.nextSessionId == p.nextSessionId && r.blocked == p.blocked
  {
    p.(ids := p.ids - {SessionKey(sessionId)})
  }

  /** A call a running task makes back into this bookkeeping.  Which calls a
      task makes is decided by the session manager, which is not part of
      this model; it is given as the `run` parameter below. */
  datatype Call =
    | EnsureInitializedCall(enumerationStarts: bool)
    | NewSessionIdCall(sessionType: SessionType)
    | DeferCreateCall(target: Instance, createSessionToken: nat, promiseId: nat, initData: seq<Byte>, sessionType: SessionType)
    | DeferLoadCall(target: Instance, promiseId: nat, sessionId: string)
    | SessionRemovedCall(sessionId: string)

  function Apply(p: Persistence, c: Call): Persistence {
    match c
    case EnsureInitializedCall(starts) => EnsureInitialized(p, starts)
    case NewSessionIdCall(t) => GetNewSessionId(p, t).after
    case DeferCreateCall(target, token, promise, data, t) => DeferCreateSessionIfNotReady(p, target, token, promise, data, t).after
    case DeferLoadCall(target, promise, sid) => DeferLoadSessionIfNotReady(p, target, promise, sid).after
    case SessionRemovedCall(sid) => PersistentSessionRemoved(p, sid)
  }

  function ApplyAll(p: Persistence, cs: seq<Call>): Persistence
    decreases |cs|
  {
    if cs == [] then p else ApplyAll(Apply(p, cs[0]), cs[1..])
  }

  /** The numeric ids GetNewSessionId hands out during `cs`, in order. */
  function IssuedIds(p: Persistence, cs: seq<Call>): seq<nat>
    decreases |cs|
  {
    if cs == [] then []
    else
      var here := if cs[0].NewSessionIdCall? then [GetNewSessionId(p, cs[0].sessionType).id] else [];
      here + IssuedIds(Apply(p, cs[0]), cs[1..])
  }

  /** The ids read from storage: `atoi` of every record name that is a valid
      session id.  Whether a name is valid is decided by `isValid`. */
  function StoredIds(names: seq<string>, isValid: string -> bool): set<nat>
    decreases |names|
  {
    if names == [] then {}
    else
      var last := names[|names| - 1];
      StoredIds(names[..|names| - 1], isValid) + (if isValid(last) then {SessionKey(last)} else {})
  }

  /** Runs the blocked tasks in order against the bookkeeping; each task's
      calls are `run(task)`. */
  function RunTasks(p: Persistence, tasks: seq<BlockedTask>, run: BlockedTask -> seq<Call>): Persistence
    decreases |tasks|
  {
    if tasks == [] then p else RunTasks(ApplyAll(p, run(tasks[0])), tasks[1..], run)
  }

  /** The calls the tasks make, one task after the other. */
  function TaskCalls(tasks: seq<BlockedTask>, run: BlockedTask -> seq<Call>): seq<Call>
    decreases |tasks|
  {
    if tasks == [] then [] else run(tasks[0]) + TaskCalls(tasks[1..], run)
  }

  /** The state in which load completion runs the blocked tasks: LOADED, with
      the stored ids added when enumeration succeeded. */
  function LoadedBeforeTasks(p: Persistence, status: bool, names: seq<string>, isValid: string -> bool): Persistence {
    var loadedIds := if status then p.ids + StoredIds(names, isValid) else p.ids;
    Persistence(Loaded, loadedIds, p.nextSessionId, p.blocked)
  }

  /** The state load completion leaves: the blocked tasks have run, in the
      order they were queued, and the queue is empty. */
  function LoadCompleted(p: Persistence, status: bool, names: seq<string>,
                         isValid: string -> bool, run: BlockedTask -> seq<Call>): Persistence {
    RunTasks(LoadedBeforeTasks(p, status, names, isValid), p.blocked, run).(blocked := [])
  }

  /** Completion of the record enumeration started by EnsureInitialized.
      `status` is whether enumeration succeeded and `names` are the record
      names it yields.  The ids are read, the state becomes LOADED, every
      blocked task runs once in the order it was queued, and the queue is
      emptied.  `ran` lists the tasks run, in order. */
  method ReadAllRecordsFromIterator(p: Persistence, status: bool, names: seq<string>,
                                    isValid: string -> bool, run: BlockedTask -> seq<Call>)
    returns (r: Persistence, ran: seq<BlockedTask>)
    ensures r.state == Loaded
    ensures r.blocked == []
    ensures ran == p.blocked
    ensures r == LoadCompleted(p, status, names, isValid, run)
  {
    var ids := p.ids;
    if status {
      ids := ReadRecordNames(p.ids, names, isValid);
    }
    var loaded := Persistence(Loaded, ids, p.nextSessionId, p.blocked);
    assert loaded == LoadedBeforeTasks(p, status, names, isValid);
    var cur := loaded;
    ran := [];
    var j := 0;
    while j < |p.blocked|
      invariant 0 <= j <= |p.blocked|
      invariant cur.state == Loaded && cur.blocked == p.blocked
      invariant ran == p.blocked[..j]
      invariant RunTasks(loaded, p.blocked, run) == RunTasks(cur, p.blocked[j..], run)
    {
      LoadedIsAbsorbing(cur, run(p.blocked[j]));
      assert p.blocked[j..][1..] == p.blocked[j + 1..];
      cur := ApplyAll(cur, run(p.blocked[j]));
      ran := ran + [p.blocked[j]];
      j := j + 1;
    }
    r := cur.(blocked := []);
  }

  /** The loop over the record iterator: inserts `atoi(name)` for every name
      that is a valid session id. */
  method ReadRecordNames(ids: set<nat>, names: seq<string>, isValid: string -> bool) returns (r: set<nat>)
    ensures r == ids + StoredIds(names, isValid)
  {
    r := ids;
    var i := 0;
    while i < |names|
      invariant 0 <= i <= |names|
      invariant r == ids + StoredIds(names[..i], isValid)
    {
      if isValid(names[i]) {
        r := r + {SessionKey(names[i])};
      }
      assert names[..i + 1][..i] == names[..i];
      i := i + 1;
    }
    assert names[..i] == names;
  }

  /** Once LOADED, no call moves the state back and no call queues a task:
      a Defer* made by a task running at load completion is not re-queued. */
  lemma {:induction false} LoadedIsAbsorbing(p: Persistence, cs: seq<Call>)
    requires p.state == Loaded
    ensures ApplyAll(p, cs).state == Loaded
    ensures ApplyAll(p, cs).blocked == p.blocked
    decreases |cs|
  {
    if cs != [] {
      LoadedIsAbsorbing(Apply(p, cs[0]), cs[1..]);
    }
  }

  /** When enumeration cannot be started, the state goes straight to LOADED
      and tasks queued before that are neither run nor dropped by any later
      call: only load completion runs blocked tasks. */
  lemma QueuedBeforeFailedEnumerationStayQueued(p: Persistence, cs: seq<Call>)
    requires p.state == Uninitialized
    ensures ApplyAll(EnsureInitialized(p, false), cs).state == Loaded
    ensures ApplyAll(EnsureInitialized(p, false), cs).blocked == p.blocked
  {
    LoadedIsAbsorbing(EnsureInitialized(p, false), cs);
  }

  /** EnsureInitialized is idempotent. */
  lemma EnsureInitializedIdempotent(p: Persistence, first: bool, second: bool)
    ensures EnsureInitialized(EnsureInitialized(p, first), second) == EnsureInitialized(p, first)
  {
  }

  /** Ids handed out by successive GetNewSessionId calls, whatever else
      happens between them, are strictly increasing, never below the counter
      at the start, and below the counter at the end. */
  lemma {:induction false} IssuedIdsIncrease(p: Persistence, cs: seq<Call>)
    ensures forall i, j :: 0 <= i < j < |IssuedIds(p, cs)| ==> IssuedIds(p, cs)[i] < IssuedIds(p, cs)[j]
    ensures forall i :: 0 <= i < |IssuedIds(p, cs)| ==>
              p.nextSessionId <= IssuedIds(p, cs)[i] < ApplyAll(p, cs).nextSessionId
    ensures p.nextSessionId <= ApplyAll(p, cs).nextSessionId
    decreases |cs|
  {
    if cs != [] {
      var q := Apply(p, cs[0]);
      IssuedIdsIncrease(q, cs[1..]);
      assert p.nextSessionId <= q.nextSessionId;
      if cs[0].NewSessionIdCall? {
        assert q.nextSessionId == GetNewSessionId(p, cs[0].sessionType).id + 1;
      }
    }
  }

  /** A session id just handed out is recognised as persistent exactly when
      the session was created persistent (while the counter stays within
      uint32). */
  lemma NewIdIsPersistentIffPersistentSession(p: Persistence, sessionType: SessionType)
    requires GetNewSessionId(p, sessionType).id < Uint32Modulus
    ensures var r := GetNewSessionId(p, sessionType);
            IsPersistentSessionId(r.after, r.sessionId) <==> sessionType == PersistentSession
  {
    KeyOfRender(GetNewSessionId(p, sessionType).id);
  }

  /** The key of a rendered id is the id itself, within uint32 range. */
  lemma KeyOfRender(n: nat)
    requires n < Uint32Modulus
    ensures SessionKey(Render(n)) == n
  {
    AtoiOfRender(n);
  }

  /** A rendered id within uint32 range is recognised as persistent exactly
      when it is in the persisted set. */
  lemma RenderedIdIsPersistentIffStored(p: Persistence, n: nat)
    requires n < Uint32Modulus
    ensures n in p.ids ==> IsPersistentSessionId(p, Render(n))
    ensures IsPersistentSessionId(p, Render(n)) ==> n in p.ids
  {
    KeyOfRender(n);
  }

  /** Creating a persistent session and then removing it restores the set of
      persisted ids. */
  lemma CreateThenRemoveRestoresIds(p: Persistence, issued: Issued)
    requires issued == GetNewSessionId(p, PersistentSession)
    requires issued.id < Uint32Modulus
    ensures PersistentSessionRemoved(issued.after, issued.sessionId).ids == p.ids
  {
    KeyOfRender(issued.id);
    assert issued.after.ids == p.ids + {issued.id} && issued.id !in p.ids;
  }

  /** The ids read at load completion are exactly the keys of the valid names. */
  lemma StoredIdsAreValidNames(names: seq<string>, isValid: string -> bool, k: nat)
    ensures k in StoredIds(names, isValid) <==>
            exists i :: 0 <= i < |names| && isValid(names[i]) && SessionKey(names[i]) == k
  {
    if k in StoredIds(names, isValid) {
      StoredIdsSound(names, isValid, k);
    }
    if exists i :: 0 <= i < |names| && isValid(names[i]) && SessionKey(names[i]) == k {
      var i :| 0 <= i < |names| && isValid(names[i]) && SessionKey(names[i]) == k;
      StoredIdsComplete(names, isValid, i);
    }
  }

  lemma {:induction false} StoredIdsSound(names: seq<string>, isValid: string -> bool, k: nat)
    requires k in StoredIds(names, isValid)
    ensures exists i :: 0 <= i < |names| && isValid(names[i]) && SessionKey(names[i]) == k
    decreases |names|
  {
    var n := |names| - 1;
    var front := names[..n];
    if k in StoredIds(front, isValid) {
      StoredIdsSound(front, isValid, k);
      var i :| 0 <= i < |front| && isValid(front[i]) && SessionKey(front[i]) == k;
      assert names[i] == front[i];
    } else {
      assert isValid(names[n]) && SessionKey(names[n]) == k;
    }
  }

  lemma {:induction false} StoredIdsComplete(names: seq<string>, isValid: string -> bool, i: nat)
    requires i < |names| && isValid(names[i])
    ensures SessionKey(names[i]) in StoredIds(names, isValid)
    decreases |names|
  {
    var n := |names| - 1;
    if i < n {
      var front := names[..n];
      assert front[i] == names[i];
      StoredIdsComplete(front, isValid, i);
    }
  }

  /** When the blocked tasks make no calls, load completion leaves exactly
      the stored ids plus the ones already known on success, and only those
      already known on failure. */
  lemma LoadCompletionIds(p: Persistence, status: bool, names: seq<string>,
                          isValid: string -> bool, run: BlockedTask -> seq<Call>)
    requires forall t :: t in p.blocked ==> run(t) == []
    ensures LoadCompleted(p, status, names, isValid, run).ids ==
            if status then p.ids + StoredIds(names, isValid) else p.ids
  {
    RunSilentTasks(LoadedBeforeTasks(p, status, names, isValid), p.blocked, run);
  }

  lemma {:induction false} RunSilentTasks(p: Persistence, tasks: seq<BlockedTask>, run: BlockedTask -> seq<Call>)
    requires forall t :: t in tasks ==> run(t) == []
    ensures RunTasks(p, tasks, run) == p
    decreases |tasks|
  {
    if tasks != [] {
      assert run(tasks[0]) == [];
      assert ApplyAll(p, run(tasks[0])) == p;
      RunSilentTasks(p, tasks[1..], run);
    }
  }

  lemma {:induction false} ApplyAllConcat(p: Persistence, a: seq<Call>, b: seq<Call>)
    ensures ApplyAll(p, a + b) == ApplyAll(ApplyAll(p, a), b)
    decreases |a|
  {
    if a != [] {
      assert (a + b)[0] == a[0] && (a + b)[1..] == a[1..] + b;
      ApplyAllConcat(Apply(p, a[0]), a[1..], b);
    } else {
      assert a + b == b;
    }
  }

  /** Running the tasks one after the other is applying their concatenated calls. */
  lemma {:induction false} RunTasksIsApplyAll(p: Persistence, tasks: seq<BlockedTask>, run: BlockedTask -> seq<Call>)
    ensures RunTasks(p, tasks, run) == ApplyAll(p, TaskCalls(tasks, run))
    decreases |tasks|
  {
    if tasks != [] {
      RunTasksIsApplyAll(ApplyAll(p, run(tasks[0])), tasks[1..], run);
      ApplyAllConcat(p, run(tasks[0]), TaskCalls(tasks[1..], run));
    }
  }

  /** Load completion ends LOADED with an empty queue, whatever the tasks do. */
  lemma LoadCompletedIsLoaded(p: Persistence, status: bool, names: seq<string>,
                              isValid: string -> bool, run: BlockedTask -> seq<Call>)
    ensures LoadCompleted(p, status, names, isValid, run).state == Loaded
    ensures LoadCompleted(p, status, names, isValid, run).blocked == []
    ensures LoadCompleted(p, status, names, isValid, run).nextSessionId ==
            ApplyAll(LoadedBeforeTasks(p, status, names, isValid), TaskCalls(p.blocked, run)).nextSessionId
  {
    var loaded := LoadedBeforeTasks(p, status, names, isValid);
    RunTasksIsApplyAll(loaded, p.blocked, run);
    LoadedIsAbsorbing(loaded, TaskCalls(p.blocked, run));
  }

  /* ---------------------------------------------------------------------
     Whole-process traces
     --------------------------------------------------------------------- */

  /** Something that happens to the bookkeeping from outside: a session
      manager calls an entry point, or the storage layer completes the
      record enumeration with a status and the record names. */
  datatype Event =
    | Called(call: Call)
    | EnumerationCompleted(status: bool, names: seq<string>)

  function Step(p: Persistence, e: Event, isValid: string -> bool, run: BlockedTask -> seq<Call>): Persistence {
    match e
    case Called(c) => Apply(p, c)
    case EnumerationCompleted(status, names) => LoadCompleted(p, status, names, isValid, run)
  }

  function Replay(p: Persistence, es: seq<Event>, isValid: string -> bool, run: BlockedTask -> seq<Call>): Persistence
    decreases |es|
  {
    if es == [] then p else Replay(Step(p, es[0], isValid, run), es[1..], isValid, run)
  }

  /** The ids GetNewSessionId hands out during one event: for a call, its own
      id if it is GetNewSessionId; for load completion, those handed out to
      the blocked tasks as they run. */
  function EventIssuedIds(p: Persistence, e: Event, isValid: string -> bool, run: BlockedTask -> seq<Call>): seq<nat> {
    match e
    case Called(c) => IssuedIds(p, [c])
    case EnumerationCompleted(status, names) =>
      IssuedIds(LoadedBeforeTasks(p, status, names, isValid), TaskCalls(p.blocked, run))
  }

  /** The ids handed out during a trace, in order. */
  function ReplayIssuedIds(p: Persistence, es: seq<Event>, isValid: string -> bool, run: BlockedTask -> seq<Call>): seq<nat>
    decreases |es|
  {
    if es == [] then []
    else EventIssuedIds(p, es[0], isValid, run) + ReplayIssuedIds(Step(p, es[0], isValid, run), es[1..], isValid, run)
  }

  predicate Increasing(s: seq<nat>) {
    forall i, j :: 0 <= i < j < |s| ==> s[i] < s[j]
  }

  predicate Within(s: seq<nat>, lo: nat, hi: nat) {
    forall i :: 0 <= i < |s| ==> lo <= s[i] < hi
  }

  lemma ConcatIncreasing(h: seq<nat>, t: seq<nat>, lo: nat, mid: nat, hi: nat)
    requires lo <= mid <= hi
    requires Increasing(h) && Within(h, lo, mid)
    requires Increasing(t) && Within(t, mid, hi)
    ensures Increasing(h + t) && Within(h + t, lo, hi)
  {
    forall i, j | 0 <= i < j < |h + t|
      ensures (h + t)[i] < (h + t)[j]
    {
      if j < |h| {
        assert (h + t)[i] == h[i] && (h + t)[j] == h[j];
      } else if i < |h| {
        assert (h + t)[i] == h[i] && (h + t)[j] == t[j - |h|];
      } else {
        assert (h + t)[i] == t[i - |h|] && (h + t)[j] == t[j - |h|];
      }
    }
    forall i | 0 <= i < |h + t|
      ensures lo <= (h + t)[i] < hi
    {
      if i < |h| {
        assert (h + t)[i] == h[i];
      } else {
        assert (h + t)[i] == t[i - |h|];
      }
    }
  }

  /** One event hands out increasing ids from the counter before it to the
      counter after it. */
  lemma EventIssuedIdsIncrease(p: Persistence, e: Event, isValid: string -> bool, run: BlockedTask -> seq<Call>)
    ensures var ids := EventIssuedIds(p, e, isValid, run);
            var q := Step(p, e, isValid, run);
            Increasing(ids) && Within(ids, p.nextSessionId, q.nextSessionId) && p.nextSessionId <= q.nextSessionId
  {
    match e
    case Called(c) =>
      IssuedIdsIncrease(p, [c]);
      assert ApplyAll(p, [c]) == ApplyAll(Apply(p, c), []);
    case EnumerationCompleted(status, names) =>
      var loaded := LoadedBeforeTasks(p, status, names, isValid);
      IssuedIdsIncrease(loaded, TaskCalls(p.blocked, run));
      LoadCompletedIsLoaded(p, status, names, isValid, run);
  }

  /** Over a whole trace, load completions included, the ids handed out are
      strictly increasing, never below the counter at the start, and below
      the counter at the end. */
  lemma {:induction false} ReplayIssuedIdsIncrease(p: Persistence, es: seq<Event>, isValid: string -> bool,
                                                   run: BlockedTask -> seq<Call>)
    ensures Increasing(ReplayIssuedIds(p, es, isValid, run))
    ensures Within(ReplayIssuedIds(p, es, isValid, run), p.nextSessionId, Replay(p, es, isValid, run).nextSessionId)
    ensures p.nextSessionId <= Replay(p, es, isValid, run).nextSessionId
    decreases |es|
  {
    if es != [] {
      var q := Step(p, es[0], isValid, run);
      EventIssuedIdsIncrease(p, es[0], isValid, run);
      ReplayIssuedIdsIncrease(q, es[1..], isValid, run);
      ConcatIncreasing(EventIssuedIds(p, es[0], isValid, run), ReplayIssuedIds(q, es[1..], isValid, run),
                       p.nextSessionId, q.nextSessionId, Replay(p, es, isValid, run).nextSessionId);
    }
  }

  /** From process start, whatever the session managers call and however the
      enumeration completes, every id handed out is at least 1 and no two
      handed-out session-id strings are equal. */
  lemma IssuedSessionIdsDistinct(es: seq<Event>, isValid: string -> bool, run: BlockedTask -> seq<Call>)
    ensures forall i :: 0 <= i < |ReplayIssuedIds(Initial, es, isValid, run)| ==> ReplayIssuedIds(Initial, es, isValid, run)[i] >= 1
    ensures forall i, j :: 0 <= i < j < |ReplayIssuedIds(Initial, es, isValid, run)| ==>
              Render(ReplayIssuedIds(Initial, es, isValid, run)[i]) != Render(ReplayIssuedIds(Initial, es, isValid, run)[j])
  {
    ReplayIssuedIdsIncrease(Initial, es, isValid, run);
    var ids := ReplayIssuedIds(Initial, es, isValid, run);
    forall i, j | 0 <= i < j < |ids|
      ensures Render(ids[i]) != Render(ids[j])
    {
      RenderInjective(ids[i], ids[j]);
    }
  }

  /** The load state only moves forward over a trace, and a trace that
      contains a load completion ends LOADED. */
  lemma {:induction false} StateOnlyMovesForward(p: Persistence, es: seq<Event>, isValid: string -> bool,
                                                 run: BlockedTask -> seq<Call>)
    ensures Rank(Replay(p, es, isValid, run).state) >= Rank(p.state)
    ensures (exists i :: 0 <= i < |es| && es[i].EnumerationCompleted?) ==> Replay(p, es, isValid, run).state == Loaded
    decreases |es|
  {
    if es != [] {
      var q := Step(p, es[0], isValid, run);
      if es[0].EnumerationCompleted? {
        LoadCompletedIsLoaded(p, es[0].status, es[0].names, isValid, run);
      }
      StateOnlyMovesForward(q, es[1..], isValid, run);
      if exists i :: 0 <= i < |es| && es[i].EnumerationCompleted? {
        var i :| 0 <= i < |es| && es[i].EnumerationCompleted?;
        if i > 0 {
          assert es[1..][i - 1].EnumerationCompleted?;
        } else {
          LoadedIsAbsorbingOverTrace(q, es[1..], isValid, run);
        }
      }
    }
  }

  /** Once LOADED, every later event keeps the state LOADED. */
  lemma {:induction false} LoadedIsAbsorbingOverTrace(p: Persistence, es: seq<Event>, isValid: string -> bool,
                                                      run: BlockedTask -> seq<Call>)
    requires p.state == Loaded
    ensures Replay(p, es, isValid, run).state == Loaded
    decreases |es|
  {
    if es != [] {
      if es[0].EnumerationCompleted? {
        LoadCompletedIsLoaded(p, es[0].status, es[0].names, isValid, run);
      } else {
        LoadedIsAbsorbing(p, [es[0].call]);
        assert ApplyAll(p, [es[0].call]) == ApplyAll(Apply(p, es[0].call), []);
      }
      LoadedIsAbsorbingOverTrace(Step(p, es[0], isValid, run), es[1..], isValid, run);
    }
  }
}
