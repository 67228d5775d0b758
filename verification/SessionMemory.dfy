/** The bounded memory of a session: one entry per root task, most recently created last, and a bounded list of
    attempts in each. */
module SessionMemory {
  import opened Wrappers
  import opened TaskModel

  /** What a record reads off a task: texts are already compacted, references already built. */
  datatype TaskInfo = TaskInfo(
    id: TaskId,
    root: Option<TaskId>,
    agent: Option<int>,
    goal: Option<string>,
    feedback: Option<string>,
    status: string,
    refs: seq<string>)
  {
    function Root(): TaskId {
      if root.Some? then root.value else id
    }
  }

  datatype Attempt = Attempt(
    id: TaskId,
    kind: string,
    feedback: Option<string>,
    status: string,
    result: Option<string>,
    refs: seq<string>)

  datatype Entry = Entry(
    root: TaskId,
    latestTask: TaskId,
    goal: string,
    latestStatus: string,
    latestResult: Option<string>,
    refs: seq<string>,
    attempts: seq<Attempt>)

  datatype Snapshot = Snapshot(agent: Option<int>, entries: seq<Entry>)

  datatype Caps = Caps(entries: int, attempts: int)

  datatype Event = Created(task: TaskInfo, kind: string) | Ended(task: TaskInfo, result: Option<string>)

  // ---------------------------------------------------------------------------- sequences

  /** `xs[-cap:]` when there are more than cap elements: a negative start counts from the end, and -0 is 0. */
  function Tail<T>(xs: seq<T>, cap: int): (tail: seq<T>)
    ensures cap >= 1 ==> |tail| <= cap
  {
    if |xs| <= cap then xs
    else if cap > 0 then xs[|xs| - cap..]
    else if -cap <= |xs| then xs[-cap..]
    else []
  }

  /** The first index that holds a value, or the length. */
  function IndexOf<T(==)>(xs: seq<T>, x: T): (i: nat)
    ensures i <= |xs|
    ensures i < |xs| ==> xs[i] == x
    ensures i < |xs| <==> x in xs
  {
    if xs == [] || xs[0] == x then 0 else 1 + IndexOf(xs[1..], x)
  }

  /** Python's `pop` of an index, when there is one. */
  function Pop<T>(xs: seq<T>, at: nat): seq<T> {
    if at < |xs| then xs[..at] + xs[at + 1..] else xs
  }

  /** The value once more, at the back. */
  function ToBack<T(==)>(xs: seq<T>, x: T): seq<T> {
    Pop(xs, IndexOf(xs, x)) + [x]
  }

  function RootsOf(entries: seq<Entry>): (roots: seq<TaskId>)
    ensures |roots| == |entries|
  {
    seq(|entries|, i requires 0 <= i < |entries| => entries[i].root)
  }

  // ------------------------------------------------------------------------------ records

  function NewAttempt(e: Event): Attempt
    requires e.Created?
  {
    Attempt(e.task.id, e.kind, e.task.feedback, e.task.status, None, e.task.refs)
  }

  /** An entry brought up to date by a creation of its root. */
  function Renewed(caps: Caps, base: Entry, e: Event): Entry
    requires e.Created?
  {
    var goal := if base.goal != "" then base.goal else TextOr(e.task.goal, "");
    base.(latestTask := e.task.id, goal := goal, latestStatus := e.task.status, refs := e.task.refs,
          attempts := Tail(base.attempts + [NewAttempt(e)], caps.attempts))
  }

  /** A first record needs a goal: the entry's summary is not optional, so a blank prompt is refused. */
  predicate Refused(entries: seq<Entry>, e: Event) {
    e.Created? && e.task.goal.None? && e.task.Root() !in RootsOf(entries)
  }

  /** The entry a root is admitted with, before its first attempt is listed. */
  function FirstEntry(task: TaskInfo): Entry
    requires task.goal.Some?
  {
    Entry(task.Root(), task.id, task.goal.value, task.status, None, task.refs, [])
  }

  function RecordCreated(caps: Caps, entries: seq<Entry>, e: Event): seq<Entry>
    requires e.Created?
  {
    if Refused(entries, e) then entries
    else
      var at := IndexOf(RootsOf(entries), e.task.Root());
      var base := if at < |entries| then entries[at]
                  else FirstEntry(e.task);
      Tail(Pop(entries, at) + [Renewed(caps, base, e)], caps.entries)
  }

  function AttemptIndex(attempts: seq<Attempt>, id: TaskId): (i: nat)
    ensures i <= |attempts|
    ensures i < |attempts| ==> attempts[i].id == id
    ensures forall k :: 0 <= k < i ==> attempts[k].id != id
  {
    if attempts == [] || attempts[0].id == id then 0 else 1 + AttemptIndex(attempts[1..], id)
  }

  function Concluded(entry: Entry, e: Event): Entry
    requires e.Ended?
  {
    var k := AttemptIndex(entry.attempts, e.task.id);
    entry.(latestTask := e.task.id, latestStatus := e.task.status, latestResult := e.result, refs := e.task.refs,
           attempts := if k < |entry.attempts| then
                         entry.attempts[k := entry.attempts[k].(status := e.task.status, result := e.result, refs := e.task.refs)]
                       else entry.attempts)
  }

  function RecordOutcome(entries: seq<Entry>, e: Event): seq<Entry>
    requires e.Ended?
  {
    var at := IndexOf(RootsOf(entries), e.task.Root());
    if at < |entries| then entries[at := Concluded(entries[at], e)] else entries
  }

  function Record(caps: Caps, entries: seq<Entry>, e: Event): seq<Entry> {
    if e.Created? then RecordCreated(caps, entries, e) else RecordOutcome(entries, e)
  }

  /** The snapshots by session; a session without one has an empty memory. */
  type Snapshots = map<int, Snapshot>

  function SnapshotOf(snapshots: Snapshots, session: int): Snapshot {
    if session in snapshots then snapshots[session] else Snapshot(None, [])
  }

  /** What a record stores: nothing for a task without a session, for a refused creation, or for an outcome of a root
      that is not remembered. */
  function Stored(caps: Caps, snapshots: Snapshots, session: Option<int>, e: Event): Snapshots {
    if session.None? then snapshots
    else
      var was := SnapshotOf(snapshots, session.value);
      if Refused(was.entries, e) || (e.Ended? && e.task.Root() !in RootsOf(was.entries)) then snapshots
      else
        snapshots[session.value :=
          Snapshot(if e.task.agent.Some? then e.task.agent else was.agent, Record(caps, was.entries, e))]
  }

  class SessionMemoryService {
    const caps: Caps
    var snapshots: Snapshots

    constructor (caps: Caps)
      ensures this.caps == caps && snapshots == map[]
    {
      this.caps := caps;
      snapshots := map[];
    }

    method RecordTaskCreated(session: Option<int>, task: TaskInfo, kind: string) returns (r: Result<bool, string>)
      modifies this
      ensures snapshots == Stored(caps, old(snapshots), session, Created(task, kind))
      ensures r.Err? <==> session.Some? && Refused(SnapshotOf(old(snapshots), session.value).entries, Created(task, kind))
    {
      if session.None? {
        return Ok(false);
      }
      var was := SnapshotOf(snapshots, session.value);
      var entries := was.entries;
      var agent := if task.agent.Some? then task.agent else was.agent;
      hide RootsOf, IndexOf, RecordCreated;
      var existing := IndexOf(RootsOf(entries), task.Root());
      if existing == |entries| && task.goal.None? {
        return Err("task_goal_summary");
      }
      entries := Renew(entries, existing, task, kind);
      snapshots := snapshots[session.value := Snapshot(agent, entries)];
      r := Ok(true);
    }

    /** Takes the entry out, or starts one, appends the attempt and puts the entry last. */
    method Renew(entries: seq<Entry>, existing: nat, task: TaskInfo, kind: string) returns (renewed: seq<Entry>)
      requires existing == IndexOf(RootsOf(entries), task.Root())
      requires existing < |entries| || task.goal.Some?
      ensures renewed == RecordCreated(caps, entries, Created(task, kind))
    {
      hide RootsOf, IndexOf, Tail;
      renewed := entries;
      var base;
      if existing < |entries| {
        base := entries[existing];
        renewed := entries[..existing] + entries[existing + 1..];
      } else {
        base := FirstEntry(task);
      }
      var attempts := base.attempts + [Attempt(task.id, kind, task.feedback, task.status, None, task.refs)];
      attempts := Tail(attempts, caps.attempts);
      renewed := renewed + [base.(latestTask := task.id, latestStatus := task.status, refs := task.refs, attempts := attempts,
                                  goal := if base.goal != "" then base.goal else TextOr(task.goal, ""))];
      renewed := Tail(renewed, caps.entries);
    }

    method RecordTaskOutcome(session: Option<int>, task: TaskInfo, result: Option<string>) returns (stored: bool)
      modifies this
      ensures snapshots == Stored(caps, old(snapshots), session, Ended(task, result))
      ensures stored <==> session.Some? && task.Root() in RootsOf(SnapshotOf(old(snapshots), session.value).entries)
    {
      if session.None? {
        return false;
      }
      var was := SnapshotOf(snapshots, session.value);
      var entries := was.entries;
      var at := IndexOf(RootsOf(entries), task.Root());
      if at == |entries| {
        return false;
      }
      var entry := entries[at];
      var attempts := entry.attempts;
      var k := AttemptIndex(attempts, task.id);
      if k < |attempts| {
        attempts := attempts[k := attempts[k].(status := task.status, result := result, refs := task.refs)];
      }
      entries := entries[at := entry.(latestTask := task.id, latestStatus := task.status, latestResult := result,
                                      refs := task.refs, attempts := attempts)];
      snapshots := snapshots[session.value := Snapshot(if task.agent.Some? then task.agent else was.agent, entries)];
      stored := true;
    }
  }

  // -------------------------------------------------------- one record, told from the tables

  ghost predicate Remembers(entries: seq<Entry>, root: TaskId) {
    exists i :: 0 <= i < |entries| && entries[i].root == root
  }

  /** A creation puts the entry of its root last, with its attempt last in it, if there is room for any. */
  ghost predicate CreatedLast(caps: Caps, was: seq<Entry>, entries: seq<Entry>, root: TaskId, task: TaskInfo, kind: string) {
    && (forall x :: x in entries && x.root != root ==> x in was)
    && (caps.entries >= 1 ==>
          var n := |entries| - 1;
          && n >= 0 && entries[n].root == root && entries[n].latestTask == task.id && entries[n].latestStatus == task.status
          && entries[n].refs == task.refs
          && (caps.attempts >= 1 ==>
                var m := |entries[n].attempts| - 1;
                m >= 0 && entries[n].attempts[m] == Attempt(task.id, kind, task.feedback, task.status, None, task.refs)))
  }

  /** An outcome rewrites the entry of its root where it stands and leaves the others. */
  ghost predicate EndedInPlace(was: seq<Entry>, entries: seq<Entry>, root: TaskId, task: TaskInfo, result: Option<string>) {
    && |entries| == |was|
    && (forall i :: 0 <= i < |was| ==> entries[i].root == was[i].root && entries[i].goal == was[i].goal)
    && (forall i :: 0 <= i < |was| && was[i].root != root ==> entries[i] == was[i])
    && exists i :: 0 <= i < |was| && was[i].root == root && entries[i].latestTask == task.id && entries[i].latestStatus == task.status
                   && entries[i].latestResult == result && entries[i].refs == task.refs
  }

  lemma RootIsRemembered(entries: seq<Entry>, root: TaskId)
    ensures root in RootsOf(entries) <==> Remembers(entries, root)
    ensures IndexOf(RootsOf(entries), root) < |entries| <==> Remembers(entries, root)
    ensures Remembers(entries, root) ==> entries[IndexOf(RootsOf(entries), root)].root == root
  {
    var roots := RootsOf(entries);
    assert forall i :: 0 <= i < |entries| ==> roots[i] == entries[i].root;
    hide RootsOf, IndexOf;
  }

  lemma TailEnds<T>(xs: seq<T>, x: T, cap: int)
    requires cap >= 1
    ensures var tail := Tail(xs + [x], cap); |tail| > 0 && tail[|tail| - 1] == x
  {
  }

  lemma PopKeeps<T>(xs: seq<T>, at: nat, x: T)
    requires x in Pop(xs, at)
    ensures x in xs
  {
  }

  lemma RenewedIs(caps: Caps, base: Entry, task: TaskInfo, kind: string)
    ensures
      var x := Renewed(caps, base, Created(task, kind));
      && x.root == base.root && x.latestTask == task.id && x.latestStatus == task.status && x.refs == task.refs
      && (caps.attempts >= 1 ==>
            var m := |x.attempts| - 1;
            m >= 0 && x.attempts[m] == Attempt(task.id, kind, task.feedback, task.status, None, task.refs))
  {
    if caps.attempts >= 1 {
      TailEnds(base.attempts, NewAttempt(Created(task, kind)), caps.attempts);
    }
    hide Tail;
  }

  lemma RecordsCreation(caps: Caps, was: seq<Entry>, root: TaskId, task: TaskInfo, kind: string)
    requires root == (match task.root case Some(r) => r case None => task.id)
    requires task.goal.Some? || Remembers(was, root)
    ensures CreatedLast(caps, was, RecordCreated(caps, was, Created(task, kind)), root, task, kind)
  {
    hide RootsOf, IndexOf, Remembers, Tail, Pop, Renewed;
    RootIsRemembered(was, root);
    var e := Created(task, kind);
    var at := IndexOf(RootsOf(was), root);
    var base := if at < |was| then was[at] else FirstEntry(task);
    assert base.root == root;
    hide FirstEntry;
    var rest, last := Pop(was, at), Renewed(caps, base, e);
    var kept := Tail(rest + [last], caps.entries);
    assert RecordCreated(caps, was, e) == kept;
    RenewedIs(caps, base, task, kind);
    forall x | x in kept && x.root != root ensures x in was {
      TailSubset(rest + [last], caps.entries, x);
      PopKeeps(was, at, x);
    }
    if caps.entries >= 1 {
      TailEnds(rest, last, caps.entries);
    }
  }

  lemma RecordsOutcome(was: seq<Entry>, root: TaskId, task: TaskInfo, result: Option<string>)
    requires root == (match task.root case Some(r) => r case None => task.id)
    requires Remembers(was, root)
    ensures EndedInPlace(was, RecordOutcome(was, Ended(task, result)), root, task, result)
  {
    RootIsRemembered(was, root);
    hide RootsOf, IndexOf, Remembers, AttemptIndex;
  }

  /** What a record stores. Without a session, for a first creation without a goal and for an outcome of a root that is
      not remembered, nothing; otherwise the entries of that session change as told, its agent is the task's if the task
      has one, and no other session is touched. */
  lemma StoredTells(caps: Caps, snapshots: Snapshots, session: Option<int>, e: Event)
    ensures session == None ==> Stored(caps, snapshots, session, e) == snapshots
    ensures session != None ==>
              var id, after := session.value, Stored(caps, snapshots, session, e);
              var was := if id in snapshots then snapshots[id].entries else [];
              var root := match e.task.root case Some(r) => r case None => e.task.id;
              if !Remembers(was, root) && (e.Ended? || e.task.goal == None) then after == snapshots
              else
                && id in after && after == snapshots[id := after[id]]
                && after[id].agent == (if e.task.agent != None then e.task.agent else if id in snapshots then snapshots[id].agent else None)
                && match e
                   case Created(task, kind) => CreatedLast(caps, was, after[id].entries, root, task, kind)
                   case Ended(task, result) => EndedInPlace(was, after[id].entries, root, task, result)
  {
    if session.Some? {
      var was := SnapshotOf(snapshots, session.value).entries;
      var root := match e.task.root case Some(r) => r case None => e.task.id;
      RootIsRemembered(was, root);
      if e.Created? && (e.task.goal.Some? || Remembers(was, root)) {
        RecordsCreation(caps, was, root, e.task, e.kind);
      }
      if e.Ended? && Remembers(was, root) {
        RecordsOutcome(was, root, e.task, e.result);
      }
      hide RootsOf, IndexOf, Remembers, RecordCreated, RecordOutcome, CreatedLast, EndedInPlace;
    }
  }

  /** A cap below one is no bound of that size: zero keeps everything, and a negative one drops that many from the front. */
  lemma TailOfSmallCap<T>(xs: seq<T>, cap: int)
    requires cap <= 0
    ensures |Tail(xs, cap)| == if -cap <= |xs| then |xs| + cap else 0
    ensures forall k :: 0 <= k < |Tail(xs, cap)| ==> Tail(xs, cap)[k] == xs[k - cap]
  {
  }

  // ------------------------------------------------- the specification: a view of the history

  /** The values of a sequence in the order of their last occurrence. */
  function LastOccurrences<T(==,!new)>(xs: seq<T>): (kept: seq<T>)
    ensures forall x :: x in kept <==> x in xs
  {
    if xs == [] then []
    else if xs[0] in xs[1..] then LastOccurrences(xs[1..])
    else [xs[0]] + LastOccurrences(xs[1..])
  }

  /** The roots of the tasks created in a session, in order. */
  function CreatedRoots(history: seq<Event>): seq<TaskId> {
    if history == [] then []
    else
      var n := |history| - 1;
      CreatedRoots(history[..n]) + if history[n].Created? then [history[n].task.Root()] else []
  }

  /** The roots a session remembers: the last ones by most recent creation. */
  function Remembered(caps: Caps, history: seq<Event>): seq<TaskId> {
    Tail(LastOccurrences(CreatedRoots(history)), caps.entries)
  }

  /** The events of a root since it was last admitted; none if it is not remembered. */
  function Stay(caps: Caps, history: seq<Event>, root: TaskId): seq<Event> {
    if history == [] || root !in Remembered(caps, history) then []
    else
      var n := |history| - 1;
      if history[n].task.Root() != root then Stay(caps, history[..n], root)
      else if root in Remembered(caps, history[..n]) then Stay(caps, history[..n], root) + [history[n]]
      else [history[n]]
  }

  function Creations(events: seq<Event>): (created: seq<Event>)
    ensures forall i :: 0 <= i < |created| ==> created[i].Created?
  {
    if events == [] then []
    else
      var n := |events| - 1;
      Creations(events[..n]) + if events[n].Created? then [events[n]] else []
  }

  /** The creations still listed start here. */
  function Window(cap: int, made: seq<Event>): (start: nat)
    ensures cap >= 0 ==> start <= |made|
  {
    if |made| > cap && cap >= 0 then |made| - cap else 0
  }

  function FirstFor(made: seq<Event>, id: TaskId): (k: nat)
    ensures k <= |made|
    ensures k < |made| ==> made[k].task.id == id
    ensures forall i :: 0 <= i < k ==> made[i].task.id != id
  {
    if made == [] || made[0].task.id == id then 0 else 1 + FirstFor(made[1..], id)
  }

  /** An outcome concerns the first creation of its task that is still listed. */
  predicate Concerns(cap: nat, made: seq<Event>, e: Event, j: nat) {
    e.Ended? && j == Window(cap, made) + FirstFor(made[Window(cap, made)..], e.task.id)
  }

  /** The latest event of a stay that tells about its j-th creation: the creation itself or the last outcome that
      concerned it. */
  function Latest(cap: nat, stay: seq<Event>, j: nat): (latest: Event)
    requires j < |Creations(stay)|
  {
    var n := |stay| - 1;
    var made := Creations(stay[..n]);
    if j == |made| || Concerns(cap, made, stay[n], j) then stay[n] else Latest(cap, stay[..n], j)
  }

  /** What an attempt should say: who and why from the creation, how it went from the latest event about it. */
  function Told(cap: nat, stay: seq<Event>, j: nat): Attempt
    requires j < |Creations(stay)|
  {
    var made, latest := Creations(stay)[j], Latest(cap, stay, j);
    Attempt(made.task.id, made.kind, made.task.feedback, latest.task.status,
            if latest.Ended? then latest.result else None, latest.task.refs)
  }

  /** The attempts tell the last creations of the stay. */
  ghost predicate Listed(cap: nat, attempts: seq<Attempt>, stay: seq<Event>) {
    var made := Creations(stay);
    && |attempts| == |made| - Window(cap, made)
    && forall k :: 0 <= k < |attempts| ==> attempts[k] == Told(cap, stay, Window(cap, made) + k)
  }

  function LastResult(events: seq<Event>): Option<string> {
    if events == [] then None
    else
      var n := |events| - 1;
      if events[n].Ended? then events[n].result else LastResult(events[..n])
  }

  /** An entry tells the stay of its root: the goal it was admitted with, its latest event and result, and the last
      creations as attempts, each with the last outcome that concerned it. */
  ghost predicate Tells(caps: Caps, entry: Entry, stay: seq<Event>) {
    && stay != [] && stay[0].Created? && stay[0].task.goal == Some(entry.goal)
    && entry.latestTask == stay[|stay| - 1].task.id && entry.latestStatus == stay[|stay| - 1].task.status
    && entry.refs == stay[|stay| - 1].task.refs
    && entry.latestResult == LastResult(stay)
    && caps.attempts >= 0 && Listed(caps.attempts, entry.attempts, stay)
  }

  function Replay(caps: Caps, history: seq<Event>): seq<Entry> {
    if history == [] then []
    else Record(caps, Replay(caps, history[..|history| - 1]), history[|history| - 1])
  }

  /** The history without the creations that were refused. */
  function Taken(caps: Caps, history: seq<Event>): seq<Event> {
    if history == [] then []
    else
      var n := |history| - 1;
      Taken(caps, history[..n]) + if Refused(Replay(caps, history[..n]), history[n]) then [] else [history[n]]
  }

  /** No creation was refused, and goals are texts that are not blank. */
  ghost predicate Recorded(caps: Caps, history: seq<Event>) {
    history == [] ||
    (var n := |history| - 1;
     && Recorded(caps, history[..n])
     && !Refused(Replay(caps, history[..n]), history[n])
     && history[n].task.goal != Some(""))
  }

  /** Compacting a text never yields an empty one. */
  ghost predicate Compacted(history: seq<Event>) {
    forall e :: e in history ==> e.task.goal != Some("")
  }

  ghost predicate Unique<T(!new)>(xs: seq<T>) {
    forall i, j :: 0 <= i < j < |xs| ==> xs[i] != xs[j]
  }

  // ---------------------------------------------------------------------- the LRU argument

  lemma {:induction false} LastOccurrencesUnique<T(!new)>(xs: seq<T>)
    ensures Unique(LastOccurrences(xs))
  {
    if xs != [] {
      LastOccurrencesUnique(xs[1..]);
      var rest := LastOccurrences(xs[1..]);
      assert forall k :: 0 <= k < |rest| ==> rest[k] in rest;
    }
  }

  lemma {:induction false} IndexOfSum<T>(p: seq<T>, q: seq<T>, x: T)
    ensures IndexOf(p + q, x) == if x in p then IndexOf(p, x) else |p| + IndexOf(q, x)
  {
    if p == [] {
      assert p + q == q;
    } else {
      assert (p + q)[1..] == p[1..] + q;
      IndexOfSum(p[1..], q, x);
    }
  }

  lemma PopInside<T>(p: seq<T>, q: seq<T>, x: T)
    requires x in p
    ensures Pop(p + q, IndexOf(p + q, x)) == Pop(p, IndexOf(p, x)) + q
  {
    IndexOfSum(p, q, x);
    hide IndexOf;
    var i := IndexOf(p, x);
    assert (p + q)[..i] == p[..i] && (p + q)[i + 1..] == p[i + 1..] + q;
  }

  lemma PopBeyond<T>(p: seq<T>, q: seq<T>, x: T)
    requires x !in p
    ensures Pop(p + q, IndexOf(p + q, x)) == p + Pop(q, IndexOf(q, x))
  {
    IndexOfSum(p, q, x);
    hide IndexOf;
    var i := IndexOf(q, x);
    if i < |q| {
      assert (p + q)[..|p| + i] == p + q[..i] && (p + q)[|p| + i + 1..] == q[i + 1..];
    }
  }

  lemma ToBackBehind<T>(a: T, rest: seq<T>, x: T)
    ensures a != x ==> ToBack([a] + rest, x) == [a] + ToBack(rest, x)
    ensures a == x && x !in rest ==> ToBack([a] + rest, x) == ToBack(rest, x)
  {
    if a == x {
      PopInside([a], rest, x);
      if x !in rest {
        assert Pop([a], 0) == [] && IndexOf([a], x) == 0;
        assert Pop(rest, IndexOf(rest, x)) == rest;
      }
    } else {
      PopBeyond([a], rest, x);
    }
    hide Pop, IndexOf;
  }

  /** A new occurrence moves its value to the back. */
  lemma {:induction false} OccursAgain<T(!new)>(xs: seq<T>, x: T)
    ensures LastOccurrences(xs + [x]) == ToBack(LastOccurrences(xs), x)
  {
    if xs == [] {
      assert xs + [x] == [x];
    } else {
      var a, rest := xs[0], LastOccurrences(xs[1..]);
      assert (xs + [x])[1..] == xs[1..] + [x] && (xs + [x])[0] == a;
      var again := LastOccurrences(xs[1..] + [x]);
      assert LastOccurrences(xs) == if a in xs[1..] then rest else [a] + rest;
      assert LastOccurrences(xs + [x]) == if a in xs[1..] + [x] then again else [a] + again;
      hide LastOccurrences, ToBack;
      OccursAgain(xs[1..], x);
      ToBackBehind(a, rest, x);
    }
  }

  lemma TailOfAppend<T>(p: seq<T>, q: seq<T>, cap: int)
    requires 1 <= cap <= |q|
    ensures Tail(p + q, cap) == Tail(q, cap)
  {
  }

  /** Eviction commutes with moving to the back: forgetting first changes nothing, if at least one place is kept. */
  lemma EvictionCommutes<T(!new)>(xs: seq<T>, x: T, cap: int)
    requires cap >= 1 && Unique(xs)
    ensures Tail(ToBack(xs, x), cap) == Tail(ToBack(Tail(xs, cap), x), cap)
  {
    if |xs| > cap {
      var n := |xs| - cap;
      var evicted, kept := xs[..n], xs[n..];
      assert xs == evicted + kept;
      if x in evicted {
        PopInside(evicted, kept, x);
        assert x !in kept;
        assert ToBack(xs, x) == Pop(evicted, IndexOf(evicted, x)) + (kept + [x]);
        TailOfAppend(Pop(evicted, IndexOf(evicted, x)), kept + [x], cap);
      } else {
        PopBeyond(evicted, kept, x);
        assert ToBack(xs, x) == evicted + ToBack(kept, x);
        TailOfAppend(evicted, ToBack(kept, x), cap);
      }
    }
  }

  lemma RootsOfPop(entries: seq<Entry>, at: nat, last: Entry)
    ensures RootsOf(Pop(entries, at) + [last]) == Pop(RootsOf(entries), at) + [last.root]
  {
    var rest := Pop(entries, at);
    assert RootsOf(rest) == Pop(RootsOf(entries), at);
    hide Pop;
    assert RootsOf(rest + [last]) == RootsOf(rest) + [last.root];
  }

  lemma RootsOfTail(entries: seq<Entry>, cap: int)
    ensures RootsOf(Tail(entries, cap)) == Tail(RootsOf(entries), cap)
  {
  }

  lemma RootsOfRecord(caps: Caps, entries: seq<Entry>, e: Event)
    requires !Refused(entries, e)
    ensures
      var roots := RootsOf(entries);
      RootsOf(Record(caps, entries, e)) ==
      if e.Created? then Tail(ToBack(roots, e.task.Root()), caps.entries) else roots
  {
    var at := IndexOf(RootsOf(entries), e.task.Root());
    if e.Created? {
      var base := if at < |entries| then entries[at]
                  else FirstEntry(e.task);
      assert base.root == e.task.Root();
      RootsOfPop(entries, at, Renewed(caps, base, e));
      RootsOfTail(Pop(entries, at) + [Renewed(caps, base, e)], caps.entries);
    }
  }

  lemma RememberedUnique(caps: Caps, history: seq<Event>)
    ensures Unique(Remembered(caps, history))
  {
    LastOccurrencesUnique(CreatedRoots(history));
  }

  /** The remembered roots are the last ones of the history by most recent creation, each once. */
  lemma {:induction false} MemoryIsLru(caps: Caps, history: seq<Event>)
    requires caps.entries >= 1 && Recorded(caps, history)
    ensures RootsOf(Replay(caps, history)) == Remembered(caps, history)
    ensures |Remembered(caps, history)| <= caps.entries
  {
    LastOccurrencesUnique(CreatedRoots(history));
    if history != [] {
      hide LastOccurrences, ToBack, Record, RootsOf;
      var n := |history| - 1;
      var e, roots := history[n], CreatedRoots(history[..n]);
      assert CreatedRoots(history) == if e.Created? then roots + [e.task.Root()] else roots;
      hide CreatedRoots, Tail;
      MemoryIsLru(caps, history[..n]);
      RootsOfRecord(caps, Replay(caps, history[..n]), e);
      if e.Created? {
        OccursAgain(roots, e.task.Root());
        LastOccurrencesUnique(roots);
        EvictionCommutes(LastOccurrences(roots), e.task.Root(), caps.entries);
      }
    }
  }

  // -------------------------------------------------------------------- what entries hold

  lemma CreationsExtend(stay: seq<Event>, e: Event)
    ensures Creations(stay + [e]) == if e.Created? then Creations(stay) + [e] else Creations(stay)
  {
    assert (stay + [e])[..|stay|] == stay;
  }

  lemma LatestExtends(cap: nat, stay: seq<Event>, e: Event, j: nat)
    requires j < |Creations(stay)|
    ensures j < |Creations(stay + [e])| && Creations(stay + [e])[j] == Creations(stay)[j]
    ensures Latest(cap, stay + [e], j) == if Concerns(cap, Creations(stay), e, j) then e else Latest(cap, stay, j)
  {
    CreationsExtend(stay, e);
    assert (stay + [e])[..|stay|] == stay && (stay + [e])[|stay|] == e;
    hide Concerns;
  }

  lemma ToldExtends(cap: nat, stay: seq<Event>, e: Event, j: nat)
    requires j < |Creations(stay)|
    ensures j < |Creations(stay + [e])|
    ensures
      var told := Told(cap, stay, j);
      Told(cap, stay + [e], j) ==
      if Concerns(cap, Creations(stay), e, j) then told.(status := e.task.status, result := e.result, refs := e.task.refs)
      else told
  {
    LatestExtends(cap, stay, e, j);
    hide Creations, Latest;
  }

  lemma ToldNew(cap: nat, stay: seq<Event>, e: Event)
    requires e.Created?
    ensures Creations(stay + [e]) == Creations(stay) + [e]
    ensures Latest(cap, stay + [e], |Creations(stay)|) == e
    ensures Told(cap, stay + [e], |Creations(stay)|) == NewAttempt(e)
  {
    CreationsExtend(stay, e);
    assert (stay + [e])[..|stay|] == stay && (stay + [e])[|stay|] == e;
    assert Latest(cap, stay + [e], |Creations(stay)|) == e;
    hide Creations, Latest;
  }

  lemma TailAt<T>(xs: seq<T>, cap: int)
    requires cap >= 1
    ensures |Tail(xs, cap)| == if |xs| > cap then cap else |xs|
    ensures forall k :: 0 <= k < |Tail(xs, cap)| ==> Tail(xs, cap)[k] == xs[|xs| - |Tail(xs, cap)| + k]
  {
  }

  /** The attempts of an entry with a new one tell a stay with a new creation, before the oldest is dropped. */
  lemma AllTold(cap: nat, attempts: seq<Attempt>, stay: seq<Event>, e: Event, start: nat, i: nat)
    requires e.Created? && Listed(cap, attempts, stay) && start == Window(cap, Creations(stay)) && i <= |attempts|
    ensures |Creations(stay + [e])| == |Creations(stay)| + 1
    ensures start + i < |Creations(stay + [e])|
    ensures (if i < |attempts| then attempts[i] else NewAttempt(e)) == Told(cap, stay + [e], start + i)
  {
    hide Creations, Told, Latest, NewAttempt, Window;
    ToldNew(cap, stay, e);
    if i < |attempts| {
      ToldExtends(cap, stay, e, start + i);
    }
  }

  lemma WindowMoves(cap: nat, made: seq<Event>, e: Event)
    requires cap >= 1
    ensures Window(cap, made) <= Window(cap, made + [e]) <= |made|
    ensures |made| + 1 - Window(cap, made + [e]) == if |made| + 1 - Window(cap, made) > cap then cap else |made| + 1 - Window(cap, made)
  {
  }

  lemma ListedRenewed(cap: nat, attempts: seq<Attempt>, stay: seq<Event>, e: Event)
    requires cap >= 1 && e.Created? && Listed(cap, attempts, stay)
    ensures Listed(cap, Tail(attempts + [NewAttempt(e)], cap), stay + [e])
  {
    var made := Creations(stay);
    hide Creations, Told, Tail, NewAttempt, Window;
    var all := attempts + [NewAttempt(e)];
    var kept := Tail(all, cap);
    TailAt(all, cap);
    CreationsExtend(stay, e);
    WindowMoves(cap, made, e);
    var start, start' := Window(cap, made), Window(cap, made + [e]);
    forall k | 0 <= k < |kept| ensures kept[k] == Told(cap, stay + [e], start' + k) {
      var i := start' - start + k;
      AllTold(cap, attempts, stay, e, start, i);
      assert kept[k] == all[i] == if i < |attempts| then attempts[i] else NewAttempt(e);
    }
  }

  lemma FirstForAgrees(attempts: seq<Attempt>, made: seq<Event>, id: TaskId)
    requires |attempts| == |made| && forall k :: 0 <= k < |made| ==> attempts[k].id == made[k].task.id
    ensures AttemptIndex(attempts, id) == FirstFor(made, id)
  {
    var a, f := AttemptIndex(attempts, id), FirstFor(made, id);
    assert f < |made| ==> attempts[f].id == id;
    assert a < |made| ==> made[a].task.id == id;
  }

  lemma ListedConcluded(cap: nat, entry: Entry, stay: seq<Event>, e: Event)
    requires e.Ended? && Listed(cap, entry.attempts, stay)
    ensures Listed(cap, Concluded(entry, e).attempts, stay + [e])
  {
    var made, stay' := Creations(stay), stay + [e];
    hide Creations, Told;
    CreationsExtend(stay, e);
    var start := Window(cap, made);
    assert forall k :: 0 <= k < |entry.attempts| ==> entry.attempts[k].id == made[start..][k].task.id by {
      ToldIds(cap, stay);
    }
    FirstForAgrees(entry.attempts, made[start..], e.task.id);
    hide AttemptIndex, FirstFor;
    var listed := Concluded(entry, e).attempts;
    forall k | 0 <= k < |listed| ensures listed[k] == Told(cap, stay', start + k) {
      ToldExtends(cap, stay, e, start + k);
    }
  }

  lemma ToldIds(cap: nat, stay: seq<Event>)
    ensures forall j: nat :: j < |Creations(stay)| ==> Told(cap, stay, j).id == Creations(stay)[j].task.id
  {
    hide Creations, Latest;
  }

  lemma RenewedTells(caps: Caps, base: Entry, stay: seq<Event>, e: Event)
    requires caps.attempts >= 1 && e.Created? && base.goal != ""
    requires Tells(caps, base, stay)
    ensures Tells(caps, Renewed(caps, base, e), stay + [e])
  {
    assert (stay + [e])[..|stay|] == stay;
    assert LastResult(stay + [e]) == LastResult(stay);
    hide LastResult, Listed, Tail;
    ListedRenewed(caps.attempts, base.attempts, stay, e);
  }

  lemma AdmittedTells(caps: Caps, e: Event)
    requires caps.attempts >= 1 && e.Created? && e.task.goal.Some? && e.task.goal.value != ""
    ensures Tells(caps, Renewed(caps, FirstEntry(e.task), e), [e])
  {
    assert Listed(caps.attempts, [], []);
    ListedRenewed(caps.attempts, [], [], e);
    assert [] + [e] == [e] && [e][..0] == [];
    assert LastResult([e]) == LastResult([]);
    hide Listed, LastResult, Tail;
  }

  lemma ConcludedTells(caps: Caps, entry: Entry, stay: seq<Event>, e: Event)
    requires e.Ended? && Tells(caps, entry, stay)
    ensures Tells(caps, Concluded(entry, e), stay + [e])
  {
    assert (stay + [e])[..|stay|] == stay;
    assert LastResult(stay + [e]) == e.result;
    ListedConcluded(caps.attempts, entry, stay, e);
    hide LastResult, Listed, AttemptIndex;
  }

  lemma TailSubset<T>(xs: seq<T>, cap: int, x: T)
    requires x in Tail(xs, cap)
    ensures x in xs
  {
  }

  /** Where the entries of a new memory come from: the touched root's entry is rewritten, the others are kept. */
  lemma RecordedEntries(caps: Caps, entries: seq<Entry>, e: Event, x: Entry)
    requires Unique(RootsOf(entries)) && x in Record(caps, entries, e) && !Refused(entries, e)
    ensures
      var at := IndexOf(RootsOf(entries), e.task.Root());
      || (x in entries && x.root != e.task.Root())
      || (e.Ended? && at < |entries| && x == Concluded(entries[at], e))
      || (e.Created? && at < |entries| && x == Renewed(caps, entries[at], e))
      || (e.Created? && at == |entries| && e.task.goal.Some?
          && x == Renewed(caps, FirstEntry(e.task), e))
  {
    var roots := RootsOf(entries);
    var at := IndexOf(roots, e.task.Root());
    forall k | 0 <= k < |entries| && k != at ensures entries[k].root != e.task.Root() {
      assert roots[k] == entries[k].root;
      if at < |roots| {
        assert roots[at] == e.task.Root();
      }
    }
    hide RootsOf, Unique, IndexOf, Renewed, Concluded;
    if e.Created? {
      var base := if at < |entries| then entries[at] else FirstEntry(e.task);
      assert x in Pop(entries, at) ==> x in entries && x.root != e.task.Root();
      hide Pop, FirstEntry;
      TailSubset(Pop(entries, at) + [Renewed(caps, base, e)], caps.entries, x);
      hide Tail;
    }
  }

  lemma {:induction false} EntriesTellHistory(caps: Caps, history: seq<Event>, x: Entry)
    requires caps.entries >= 1 && caps.attempts >= 1 && Recorded(caps, history) && x in Replay(caps, history)
    ensures x.goal != "" && x.root in Remembered(caps, history) && Tells(caps, x, Stay(caps, history, x.root))
  {
    var n := |history| - 1;
    var e, before, entries := history[n], history[..n], Replay(caps, history[..n]);
    MemoryIsLru(caps, before);
    MemoryIsLru(caps, history);
    RememberedUnique(caps, before);
    RecordedEntries(caps, entries, e, x);
    var at := IndexOf(RootsOf(entries), e.task.Root());
    assert x.root in Remembered(caps, history) by { RootIsListed(Replay(caps, history), x); }
    hide Record, Remembered, Tells;
    if x in entries && x.root != e.task.Root() {
      EntriesTellHistory(caps, before, x);
    } else if at < |entries| {
      assert entries[at] in entries && RootsOf(entries)[at] == entries[at].root;
      EntriesTellHistory(caps, before, entries[at]);
      hide RootsOf, IndexOf;
      if e.Created? {
        RenewedTells(caps, entries[at], Stay(caps, before, entries[at].root), e);
      } else {
        ConcludedTells(caps, entries[at], Stay(caps, before, entries[at].root), e);
      }
    } else {
      AdmittedTells(caps, e);
    }
  }

  /** No task is created twice. */
  ghost predicate TasksDiffer(made: seq<Event>) {
    forall a, b :: 0 <= a < b < |made| ==> made[a].task.id != made[b].task.id
  }

  /** When no task is created twice in a stay, what an attempt says is simply the last event of its task. */
  lemma {:induction false} LatestIsLast(cap: nat, stay: seq<Event>, j: nat) returns (m: nat)
    requires cap >= 1 && Window(cap, Creations(stay)) <= j < |Creations(stay)| && TasksDiffer(Creations(stay))
    ensures m < |stay| && Latest(cap, stay, j) == stay[m] && stay[m].task.id == Creations(stay)[j].task.id
    ensures forall k :: m < k < |stay| ==> stay[k].task.id != Creations(stay)[j].task.id
  {
    var n := |stay| - 1;
    var before, e := stay[..n], stay[n];
    var made := Creations(before);
    assert stay == before + [e];
    CreationsExtend(before, e);
    if j == |made| {
      ToldNew(cap, before, e);
      m := n;
      return;
    }
    hide Latest, Creations, Concerns, Window;
    StillListed(cap, made, e);
    LatestExtends(cap, before, e, j);
    EventMisses(cap, made, e, j);
    if Concerns(cap, made, e, j) {
      m := n;
    } else {
      m := LatestIsLast(cap, before, j);
    }
  }

  lemma StillListed(cap: nat, made: seq<Event>, e: Event)
    ensures Window(cap, made) <= Window(cap, made + [e])
    ensures TasksDiffer(made + [e]) ==> TasksDiffer(made)
  {
    assert forall a :: 0 <= a < |made| ==> (made + [e])[a] == made[a];
  }

  lemma EventMisses(cap: nat, made: seq<Event>, e: Event, j: nat)
    requires TasksDiffer(made) && Window(cap, made) <= j < |made|
    ensures e.Ended? ==> (Concerns(cap, made, e, j) <==> e.task.id == made[j].task.id)
    ensures e.Created? && TasksDiffer(made + [e]) ==> e.task.id != made[j].task.id
  {
    var start := Window(cap, made);
    var first := FirstFor(made[start..], e.task.id);
    assert made[start..][j - start] == made[j];
    assert first < |made[start..]| ==> made[start + first].task.id == e.task.id;
    assert (made + [e])[j] == made[j] && (made + [e])[|made|] == e;
  }

  lemma RootIsListed(entries: seq<Entry>, x: Entry)
    requires x in entries
    ensures x.root in RootsOf(entries)
  {
    var k :| 0 <= k < |entries| && entries[k] == x;
    assert RootsOf(entries)[k] == x.root;
  }

  /** Refused creations leave no trace. */
  lemma {:induction false} RefusedLeaveNoTrace(caps: Caps, history: seq<Event>)
    requires Compacted(history)
    ensures Replay(caps, history) == Replay(caps, Taken(caps, history)) && Recorded(caps, Taken(caps, history))
  {
    if history != [] {
      var n := |history| - 1;
      var earlier, e := Taken(caps, history[..n]), history[n];
      assert e in history && forall x :: x in history[..n] ==> x in history;
      RefusedLeaveNoTrace(caps, history[..n]);
      UnstoredChangesNothing(caps, Replay(caps, earlier), e);
      ReplayExtends(caps, earlier, e);
      assert (earlier + [e])[..|earlier|] == earlier && earlier + [] == earlier;
      hide Record, Refused;
    }
  }

  /** The memory refines the history: its entries are the remembered roots in order, and each tells its root's stay,
      whatever was recorded. */
  lemma MemoryRefinesHistory(caps: Caps, all: seq<Event>)
    requires caps.entries >= 1 && caps.attempts >= 1 && Compacted(all)
    ensures
      var entries, roots := Replay(caps, all), Remembered(caps, Taken(caps, all));
      && |entries| == |roots| <= caps.entries && Unique(roots)
      && forall i :: 0 <= i < |entries| ==>
           entries[i].root == roots[i] && Tells(caps, entries[i], Stay(caps, Taken(caps, all), roots[i]))
           && |entries[i].attempts| <= caps.attempts
  {
    RefusedLeaveNoTrace(caps, all);
    RecordedHistoryIsRefined(caps, Taken(caps, all));
  }

  lemma RecordedHistoryIsRefined(caps: Caps, history: seq<Event>)
    requires caps.entries >= 1 && caps.attempts >= 1 && Recorded(caps, history)
    ensures
      var entries, roots := Replay(caps, history), Remembered(caps, history);
      && |entries| == |roots| <= caps.entries && Unique(roots)
      && forall i :: 0 <= i < |entries| ==>
           entries[i].root == roots[i] && Tells(caps, entries[i], Stay(caps, history, roots[i]))
           && |entries[i].attempts| <= caps.attempts
  {
    MemoryIsLru(caps, history);
    RememberedUnique(caps, history);
    var entries := Replay(caps, history);
    forall i | 0 <= i < |entries|
      ensures entries[i].root == Remembered(caps, history)[i]
      ensures Tells(caps, entries[i], Stay(caps, history, entries[i].root))
    {
      assert RootsOf(entries)[i] == entries[i].root;
      EntriesTellHistory(caps, history, entries[i]);
    }
    hide Replay, Remembered, Stay;
  }

  lemma {:induction false} ReplayBounded(caps: Caps, history: seq<Event>)
    requires caps.entries >= 1
    ensures |Replay(caps, history)| <= caps.entries
  {
    if history != [] {
      ReplayBounded(caps, history[..|history| - 1]);
    }
  }

  /** The bound needs a positive cap: with a cap of zero the slice keeps everything, and a single record breaks any
      cap below one. */
  lemma BoundNeedsPositiveCap(caps: Caps)
    ensures (forall history :: |Replay(caps, history)| <= caps.entries) <==> caps.entries >= 1
  {
    if caps.entries >= 1 {
      forall history ensures |Replay(caps, history)| <= caps.entries {
        ReplayBounded(caps, history);
      }
    } else {
      var e := Created(TaskInfo(1, None, None, Some("goal"), None, "queued", []), "create");
      assert [e][..0] == [];
      assert Replay(caps, []) == [];
      RootsOfRecord(caps, [], e);
      assert |RootsOf(Replay(caps, [e]))| == |Replay(caps, [e])|;
      assert Replay(caps, [e]) == Record(caps, [], e);
      assert |Replay(caps, [e])| >= 0;
    }
  }

  // ---------------------------------------------------------------------- sessions together

  datatype Call = Call(session: Option<int>, event: Event)

  function AfterCalls(caps: Caps, calls: seq<Call>): Snapshots {
    if calls == [] then map[]
    else
      var n := |calls| - 1;
      Stored(caps, AfterCalls(caps, calls[..n]), calls[n].session, calls[n].event)
  }

  /** The events of one session. */
  function EventsOf(calls: seq<Call>, session: int): (events: seq<Event>)
    ensures forall e :: e in events ==> exists i :: 0 <= i < |calls| && calls[i].event == e
  {
    if calls == [] then []
    else
      var n := |calls| - 1;
      EventsOf(calls[..n], session) + if calls[n].session == Some(session) then [calls[n].event] else []
  }

  /** Each session remembers its own events only. */
  lemma {:induction false} SessionsAreIndependent(caps: Caps, calls: seq<Call>, session: int)
    ensures SnapshotOf(AfterCalls(caps, calls), session).entries == Replay(caps, EventsOf(calls, session))
  {
    if calls != [] {
      var n := |calls| - 1;
      var e, earlier := calls[n].event, EventsOf(calls[..n], session);
      assert EventsOf(calls, session) == if calls[n].session == Some(session) then earlier + [e] else earlier;
      hide Record, RootsOf, Replay, Refused, EventsOf;
      SessionsAreIndependent(caps, calls[..n], session);
      ReplayExtends(caps, earlier, e);
      UnstoredChangesNothing(caps, Replay(caps, earlier), e);
      StoredEntries(caps, AfterCalls(caps, calls[..n]), calls[n].session, e, session);
    }
  }

  lemma ReplayExtends(caps: Caps, history: seq<Event>, e: Event)
    ensures Replay(caps, history + [e]) == Record(caps, Replay(caps, history), e)
  {
  }

  lemma StoredEntries(caps: Caps, snapshots: Snapshots, session: Option<int>, e: Event, of: int)
    ensures SnapshotOf(Stored(caps, snapshots, session, e), of).entries ==
            if session == Some(of) then Record(caps, SnapshotOf(snapshots, of).entries, e) else SnapshotOf(snapshots, of).entries
  {
  }

  lemma UnstoredChangesNothing(caps: Caps, entries: seq<Entry>, e: Event)
    ensures Refused(entries, e) || (e.Ended? && e.task.Root() !in RootsOf(entries)) ==> Record(caps, entries, e) == entries
  {
  }
}
