/** The CLI state in its ConfigMap: mutations, the optimistic retry loop around them, and what holds
    for any interleaving of clients. */
module StateStore {
  import opened Text
  import opened Cluster

  type State = map<EntryKey, Entry>

  /* ---- Mutations ---- */

  // What a command wants to do. Persist's closure overwrites the baseline of its captured entry, so
  // the operation itself changes from attempt to attempt.
  datatype Op = Persist(key: EntryKey, entry: Entry) | Remove(keys: seq<EntryKey>)

  // The entry Persist stores: the first non-blank baseline of the key is kept
  function Captured(op: Op, state: State): Entry
    requires op.Persist?
  {
    if op.key in state && !Blank(state[op.key].baselineTag)
    then op.entry.(baselineTag := state[op.key].baselineTag)
    else op.entry
  }

  predicate AlreadyThere(op: Op, state: State)
    requires op.Persist?
  {
    op.key in state && state[op.key].patchedToTag == op.entry.patchedToTag &&
    state[op.key].baselineTag == op.entry.baselineTag
  }

  // The new state, when there is one
  function Mutated(op: Op, state: State): Option<State> {
    match op
    case Persist(key, _) => if AlreadyThere(op, state) then None else Some(state[key := Captured(op, state)])
    case Remove(keys) =>
      if exists k | k in keys :: k in state then Some(state - (set k | k in keys)) else None
  }

  // What the closure has become after it looked at a state
  function After(op: Op, state: State): Op {
    if op.Persist? && !AlreadyThere(op, state) then op.(entry := Captured(op, state)) else op
  }

  class Closure {
    var op: Op

    constructor (op: Op)
      ensures this.op == op
    {
      this.op := op;
    }

    method Mutate(state: State) returns (changed: bool, next: State)
      modifies this
      ensures op == After(old(op), state)
      ensures changed == Mutated(old(op), state).Some?
      ensures next == if changed then Mutated(old(op), state).value else state
    {
      next := state;
      match op {
        case Persist(key, entry) =>
          if key in state {
            var existing := state[key];
            if existing.patchedToTag == entry.patchedToTag && existing.baselineTag == entry.baselineTag {
              return false, state;
            }
            if !Blank(existing.baselineTag) {
              op := Persist(key, entry.(baselineTag := existing.baselineTag));
            }
          }
          next := state[key := op.entry];
          changed := true;
        case Remove(keys) =>
          changed := false;
          for i := 0 to |keys|
            invariant op == old(op)
            invariant changed == exists k | k in keys[..i] :: k in state
            invariant next == state - (set k | k in keys[..i])
          {
            assert keys[..i + 1] == keys[..i] + [keys[i]];
            if keys[i] in next {
              next := next - {keys[i]};
              changed := true;
            }
          }
          assert keys[..|keys|] == keys;
          if !changed { assert state - (set k | k in keys) == state; }
      }
    }
  }

  /* ---- The ConfigMap ---- */

  // An absent ConfigMap has no version, and its data is empty
  datatype Store = Store(data: State, version: Option<nat>, next: nat)

  predicate Proper(s: Store) {
    (s.version.None? ==> s.data == map[]) && (s.version.Some? ==> s.version.value < s.next)
  }

  function Overwrite(s: Store, state: State): Store {
    Store(state, Some(s.next), s.next + 1)
  }

  function OverwriteAll(s: Store, states: seq<State>): Store
    decreases |states|
  {
    if states == [] then s else OverwriteAll(Overwrite(s, states[0]), states[1..])
  }

  datatype SaveResult = Accepted | Conflict | SaveError

  // SaveStateConfigMapDataWithResourceVersion
  function Saved(s: Store, state: State, expected: Option<nat>, luck: Luck): (Store, SaveResult) {
    if luck.Broken? then (if luck.landed && s.version == expected then Overwrite(s, state) else s, SaveError)
    else if s.version == expected then (Overwrite(s, state), Accepted)
    else (s, Conflict)
  }

  class ConfigMap {
    var data: State
    var version: Option<nat>
    var next: nat

    ghost function Snapshot(): Store
      reads this
    {
      Store(data, version, next)
    }

    constructor ()
      ensures Snapshot() == Store(map[], None, 0) && Proper(Snapshot())
    {
      data, version, next := map[], None, 0;
    }

    method Load() returns (state: State, resourceVersion: Option<nat>)
      ensures state == Snapshot().data && resourceVersion == Snapshot().version
    {
      return data, version;
    }

    // Creates the object if none was read, else replaces the version that was read
    method Save(state: State, expected: Option<nat>, luck: Luck) returns (r: SaveResult)
      modifies this
      ensures (Snapshot(), r) == Saved(old(Snapshot()), state, expected, luck)
    {
      if luck.Broken? && !luck.landed {
        return SaveError;
      }
      if version.None? {
        if expected.Some? {
          return if luck.Broken? then SaveError else Conflict;
        }
      } else if expected.None? || version.value != expected.value {
        return if luck.Broken? then SaveError else Conflict;
      }
      data, version, next := state, Some(next), next + 1;
      return if luck.Broken? then SaveError else Accepted;
    }

    // Other clients' writes
    method Interfere(states: seq<State>)
      modifies this
      ensures Snapshot() == OverwriteAll(old(Snapshot()), states)
    {
      for i := 0 to |states|
        invariant OverwriteAll(Snapshot(), states[i..]) == OverwriteAll(old(Snapshot()), states)
      {
        assert states[i..][0] == states[i] && states[i..][1..] == states[i + 1..];
        data, version, next := states[i], Some(next), next + 1;
      }
    }
  }

  /* ---- The retry loop ---- */

  const UPDATE_ATTEMPTS: nat := 5

  datatype UpdateResult = Unchanged | Done | OutOfAttempts | LoadError | Error

  // What meets one attempt: whether it can load, what others write before it saves, and its luck
  datatype Attempt = Attempt(loads: bool, rivals: seq<State>, luck: Luck)

  // Update as the attempts it has left
  function Retried(s: Store, op: Op, attempts: seq<Attempt>): (Store, Op, UpdateResult)
    decreases |attempts|
  {
    if attempts == [] then (s, op, OutOfAttempts)
    else if !attempts[0].loads then (s, op, LoadError)
    else if Mutated(op, s.data).None? then (s, op, Unchanged)
    else
      var (s', r) := Saved(OverwriteAll(s, attempts[0].rivals), Mutated(op, s.data).value, s.version, attempts[0].luck);
      match r
      case Accepted => (s', After(op, s.data), Done)
      case SaveError => (s', After(op, s.data), Error)
      case Conflict => Retried(s', After(op, s.data), attempts[1..])
  }

  method Update(store: ConfigMap, closure: Closure, attempts: seq<Attempt>) returns (r: UpdateResult)
    requires |attempts| == UPDATE_ATTEMPTS
    modifies store, closure
    ensures (store.Snapshot(), closure.op, r) == Retried(old(store.Snapshot()), old(closure.op), attempts)
  {
    for i := 0 to UPDATE_ATTEMPTS
      invariant Retried(store.Snapshot(), closure.op, attempts[i..]) ==
                Retried(old(store.Snapshot()), old(closure.op), attempts)
    {
      var attempt := attempts[i];
      assert attempts[i..][0] == attempt && attempts[i..][1..] == attempts[i + 1..];
      if !attempt.loads {
        return LoadError;
      }
      var state, resourceVersion := store.Load();
      var changed, next := closure.Mutate(state);
      if !changed {
        return Unchanged;
      }
      store.Interfere(attempt.rivals);
      var saved := store.Save(next, resourceVersion, attempt.luck);
      match saved {
        case Accepted => return Done;
        case SaveError => return Error;
        case Conflict =>
      }
    }
    assert attempts[UPDATE_ATTEMPTS..] == [];
    return OutOfAttempts;
  }

  /* ---- Any interleaving of clients ---- */

  // A client about to load, or holding a mutated copy it is about to save; `asked` is the operation
  // its closure was when it mutated that copy
  datatype Client =
    | Ready(op: Op, left: nat)
    | Holding(op: Op, asked: Op, left: nat, state: State, version: Option<nat>)
    | Stopped(result: UpdateResult)

  datatype System = System(store: Store, clients: map<nat, Client>)

  datatype Move =
    | Start(id: nat, op: Op)
    | Load(id: nat, loads: bool)
    | Save(id: nat, luck: Luck)
    | Drop  // someone deletes the ConfigMap

  predicate CanMove(sys: System, m: Move) {
    match m
    case Start(id, _) => id in sys.clients ==> sys.clients[id].Stopped?
    case Load(id, _) => id in sys.clients && sys.clients[id].Ready?
    case Save(id, _) => id in sys.clients && sys.clients[id].Holding?
    case Drop => true
  }

  function Loaded(s: Store, op: Op, left: nat, loads: bool): Client {
    if left == 0 then Stopped(OutOfAttempts)
    else if !loads then Stopped(LoadError)
    else if Mutated(op, s.data).None? then Stopped(Unchanged)
    else Holding(After(op, s.data), op, left - 1, Mutated(op, s.data).value, s.version)
  }

  function Moved(sys: System, m: Move): System
    requires CanMove(sys, m)
  {
    match m
    case Start(id, op) => sys.(clients := sys.clients[id := Ready(op, UPDATE_ATTEMPTS)])
    case Load(id, loads) =>
      var client := sys.clients[id];
      sys.(clients := sys.clients[id := Loaded(sys.store, client.op, client.left, loads)])
    case Save(id, luck) =>
      var client := sys.clients[id];
      var (store, r) := Saved(sys.store, client.state, client.version, luck);
      var next :=
        match r
        case Accepted => Stopped(Done)
        case SaveError => Stopped(Error)
        case Conflict => Ready(client.op, client.left);
      System(store, sys.clients[id := next])
    case Drop => sys.(store := Store(map[], None, sys.store.next))
  }

  // A copy whose version is still current is the mutation of what is stored
  predicate Faithful(s: Store, client: Client) {
    client.Holding? ==>
      (if client.version.Some? then client.version.value < s.next
       else Mutated(client.asked, map[]) == Some(client.state)) &&
      (client.version == s.version ==> Mutated(client.asked, s.data) == Some(client.state))
  }

  ghost predicate Serial(sys: System) {
    Proper(sys.store) && forall id | id in sys.clients :: Faithful(sys.store, sys.clients[id])
  }

  lemma MoveKeepsSerial(sys: System, m: Move)
    requires Serial(sys) && CanMove(sys, m)
    ensures Serial(Moved(sys, m))
  {
    hide Mutated;
    hide After;
  }

  ghost predicate Possible(sys: System, run: seq<Move>)
    decreases |run|
  {
    run == [] || (CanMove(sys, run[0]) && Possible(Moved(sys, run[0]), run[1..]))
  }

  ghost function End(sys: System, run: seq<Move>): System
    requires Possible(sys, run)
    decreases |run|
  {
    if run == [] then sys else End(Moved(sys, run[0]), run[1..])
  }

  lemma {:induction false} RunKeepsSerial(sys: System, run: seq<Move>)
    requires Serial(sys) && Possible(sys, run)
    ensures Serial(End(sys, run))
    decreases |run|
  {
    hide Serial;
    hide Moved;
    if run == [] {
    } else {
      MoveKeepsSerial(sys, run[0]);
      RunKeepsSerial(Moved(sys, run[0]), run[1..]);
    }
  }

  /** No lost updates: under any interleaving, whatever is stored changes only when the ConfigMap is
      deleted or by a save, acknowledged or not, that stores that client's mutation of exactly what
      is stored at that instant. */
  lemma NoLostUpdates(sys: System, run: seq<Move>, m: Move)
    requires Serial(sys) && Possible(sys, run) && CanMove(End(sys, run), m)
    ensures var before, after := End(sys, run), Moved(End(sys, run), m);
            after.store == before.store || m.Drop? ||
            (m.Save? && before.clients[m.id].version == before.store.version &&
             Mutated(before.clients[m.id].asked, before.store.data) == Some(after.store.data))
    ensures var before, after := End(sys, run), Moved(End(sys, run), m);
            m.Save? && after.clients[m.id] == Stopped(Done) ==>
              Mutated(before.clients[m.id].asked, before.store.data) == Some(after.store.data)
  {
    RunKeepsSerial(sys, run);
    var before := End(sys, run);
    if m.Save? { assert Faithful(before.store, before.clients[m.id]); }
    hide Mutated;
    hide After;
    hide Serial;
  }

  /* ---- The first baseline ---- */

  predicate HasBaseline(state: State, key: EntryKey, baseline: string) {
    key in state && state[key].baselineTag == baseline && !Blank(baseline)
  }

  lemma MutationKeepsBaseline(op: Op, state: State, key: EntryKey, baseline: string)
    requires HasBaseline(state, key, baseline) && Mutated(op, state).Some? && key in Mutated(op, state).value
    ensures HasBaseline(Mutated(op, state).value, key, baseline)
  {
    hide Blank;
  }

  // The key is in the state all along
  ghost predicate StaysIn(sys: System, run: seq<Move>, key: EntryKey)
    requires Possible(sys, run)
    decreases |run|
  {
    key in sys.store.data && (run != [] ==> StaysIn(Moved(sys, run[0]), run[1..], key))
  }

  /** The first non-blank baseline of a key stays until the key is removed, whatever the clients that
      patch the key again were told. */
  lemma {:induction false} FirstBaselineStays(sys: System, run: seq<Move>, key: EntryKey, baseline: string)
    requires Serial(sys) && Possible(sys, run) && StaysIn(sys, run, key) && HasBaseline(sys.store.data, key, baseline)
    ensures HasBaseline(End(sys, run).store.data, key, baseline)
    decreases |run|
  {
    hide Serial;
    hide Moved;
    hide HasBaseline;
    hide Mutated;
    if run == [] {
    } else {
      var m := run[0];
      NoLostUpdates(sys, [], m);
      MoveKeepsSerial(sys, m);
      var next := Moved(sys, m);
      InAtStart(next, run[1..], key);
      if next.store == sys.store {
      } else if m.Drop? {
        DropEmpties(sys);
      } else {
        MutationKeepsBaseline(sys.clients[m.id].asked, sys.store.data, key, baseline);
      }
      FirstBaselineStays(next, run[1..], key, baseline);
    }
  }

  lemma InAtStart(sys: System, run: seq<Move>, key: EntryKey)
    requires Possible(sys, run) && StaysIn(sys, run, key)
    ensures key in sys.store.data
  {
    hide Moved;
    hide CanMove;
  }

  lemma DropEmpties(sys: System)
    ensures Moved(sys, Drop).store.data == map[]
  {
  }

  /* ---- The loop is such a client ---- */

  lemma {:induction false} RivalsChangeVersion(s: Store, rivals: seq<State>)
    requires Proper(s)
    ensures Proper(OverwriteAll(s, rivals)) && OverwriteAll(s, rivals).next == s.next + |rivals|
    ensures rivals != [] ==> OverwriteAll(s, rivals).version == Some(s.next + |rivals| - 1)
    decreases |rivals|
  {
    if rivals == [] {
    } else {
      RivalsChangeVersion(Overwrite(s, rivals[0]), rivals[1..]);
    }
  }

  // The store and the operation of the attempt whose save was accepted
  function Winning(s: Store, op: Op, attempts: seq<Attempt>): (Store, Op)
    decreases |attempts|
  {
    if attempts == [] || !attempts[0].loads || Mutated(op, s.data).None? then (s, op)
    else
      var (s', r) := Saved(OverwriteAll(s, attempts[0].rivals), Mutated(op, s.data).value, s.version, attempts[0].luck);
      if r.Conflict? then Winning(s', After(op, s.data), attempts[1..]) else (s, op)
  }

  /** An accepted Update stored the mutation of what was stored when it was accepted. */
  lemma {:induction false} LoopSerializes(s: Store, op: Op, attempts: seq<Attempt>)
    requires Proper(s) && Retried(s, op, attempts).2 == Done
    ensures var (before, asked) := Winning(s, op, attempts);
            Mutated(asked, before.data).Some? &&
            Retried(s, op, attempts).0 == Overwrite(before, Mutated(asked, before.data).value)
    decreases |attempts|
  {
    hide Mutated;
    hide After;
    var rivals := attempts[0].rivals;
    RivalsChangeVersion(s, rivals);
    var mid := OverwriteAll(s, rivals);
    if mid.version != s.version && attempts[0].luck.Answered? {
      LoopSerializes(mid, After(op, s.data), attempts[1..]);
    } else {
      assert rivals == [];
    }
    hide OverwriteAll;
  }

  /* ---- A retry is not a fresh call ---- */

  // The states an Update looked at
  function Looked(s: Store, op: Op, attempts: seq<Attempt>): seq<State>
    decreases |attempts|
  {
    if attempts == [] || !attempts[0].loads then []
    else if Mutated(op, s.data).None? then [s.data]
    else
      var (s', r) := Saved(OverwriteAll(s, attempts[0].rivals), Mutated(op, s.data).value, s.version, attempts[0].luck);
      [s.data] + (if r.Conflict? then Looked(s', After(op, s.data), attempts[1..]) else [])
  }

  // The last non-blank baseline of a key among some states
  function LastBaseline(states: seq<State>, key: EntryKey, otherwise: string): string
    decreases |states|
  {
    if states == [] then otherwise
    else
      var last := states[|states| - 1];
      if key in last && !Blank(last[key].baselineTag) then last[key].baselineTag
      else LastBaseline(states[..|states| - 1], key, otherwise)
  }

  lemma {:induction false} LastBaselineGrows(first: State, states: seq<State>, key: EntryKey, otherwise: string)
    ensures LastBaseline([first] + states, key, otherwise) ==
            LastBaseline(states, key, LastBaseline([first], key, otherwise))
    decreases |states|
  {
    hide Blank;
    if states == [] {
      assert [first] + states == [first];
    } else {
      var all := [first] + states;
      assert all[|all| - 1] == states[|states| - 1] && all[..|all| - 1] == [first] + states[..|states| - 1];
      LastBaselineGrows(first, states[..|states| - 1], key, otherwise);
    }
  }

  // What a Persist would store now, after all its attempts
  lemma {:induction false} RetriesRemember(s: Store, op: Op, attempts: seq<Attempt>)
    requires op.Persist? && Retried(s, op, attempts).2 == Done
    ensures var seen := Looked(s, op, attempts);
            seen != [] && Retried(s, op, attempts).1.Persist? && Retried(s, op, attempts).1.key == op.key &&
            Retried(s, op, attempts).1.entry ==
              op.entry.(baselineTag := LastBaseline(seen, op.key, op.entry.baselineTag))
    decreases |attempts|
  {
    hide Blank;
    hide AlreadyThere;
    var (s', r) := Saved(OverwriteAll(s, attempts[0].rivals), Mutated(op, s.data).value, s.version, attempts[0].luck);
    var next := After(op, s.data);
    assert next.entry == op.entry.(baselineTag := LastBaseline([s.data], op.key, op.entry.baselineTag)) by {
      assert [s.data][..0] == [];
    }
    if r.Conflict? {
      RetriesRemember(s', next, attempts[1..]);
      LastBaselineGrows(s.data, Looked(s', next, attempts[1..]), op.key, op.entry.baselineTag);
    }
    hide OverwriteAll;
  }

  // The accepted attempt is the last one that looked
  lemma {:induction false} WinnerIsLast(s: Store, op: Op, attempts: seq<Attempt>)
    requires op.Persist? && Retried(s, op, attempts).2 == Done
    ensures var (before, asked) := Winning(s, op, attempts);
            var seen := Looked(s, op, attempts);
            asked.Persist? && asked.key == op.key && Mutated(asked, before.data).Some? &&
            Retried(s, op, attempts).1 == After(asked, before.data) && seen != [] && seen[|seen| - 1] == before.data
    decreases |attempts|
  {
    hide Blank;
    hide AlreadyThere;
    var (s', r) := Saved(OverwriteAll(s, attempts[0].rivals), Mutated(op, s.data).value, s.version, attempts[0].luck);
    if r.Conflict? { WinnerIsLast(s', After(op, s.data), attempts[1..]); }
    hide OverwriteAll;
  }

  /** What an accepted Persist stores under its key: the first baseline if the key has one, and
      otherwise the last one any of its attempts saw, even if the key was removed since. It is what
      a fresh call would store exactly when the key still has a baseline, or none was seen but its own. */
  lemma RetryIsFreshExactly(s: Store, op: Op, attempts: seq<Attempt>)
    requires Proper(s) && op.Persist? && Retried(s, op, attempts).2 == Done
    ensures var (before, _) := Winning(s, op, attempts);
            var seen := LastBaseline(Looked(s, op, attempts), op.key, op.entry.baselineTag);
            var final := Retried(s, op, attempts).0.data;
            op.key in final && final == before.data[op.key := op.entry.(baselineTag := seen)] &&
            (final[op.key] == Captured(op, before.data) <==>
             (op.key in before.data && !Blank(before.data[op.key].baselineTag)) || seen == op.entry.baselineTag)
  {
    LoopSerializes(s, op, attempts);
    RetriesRemember(s, op, attempts);
    WinnerIsLast(s, op, attempts);
    hide Blank;
    hide Retried;
    hide Winning;
    hide Looked;
  }

  /** So a removed baseline can come back: a Persist that meets a removal between its first load and
      its save stores the baseline that was removed, not its own. */
  lemma RemovedBaselineReturns(s: Store, key: EntryKey, entry: Entry, rest: seq<Attempt>)
    requires Proper(s) && key in s.data && !Blank(s.data[key].baselineTag)
    requires s.data[key].baselineTag != entry.baselineTag
    ensures var old', removed := s.data[key].baselineTag, s.data - {key};
            var attempts := [Attempt(true, [removed], Answered), Attempt(true, [], Answered)] + rest;
            var (s', _, r) := Retried(s, Persist(key, entry), attempts);
            r == Done && s'.data == removed[key := entry.(baselineTag := old')] &&
            Mutated(Persist(key, entry), removed) == Some(removed[key := entry])
  {
    hide Blank;
    var op, removed := Persist(key, entry), s.data - {key};
    var attempts := [Attempt(true, [removed], Answered), Attempt(true, [], Answered)] + rest;
    assert attempts[1..] == [Attempt(true, [], Answered)] + rest;
    var again := After(op, s.data);
    assert again == Persist(key, entry.(baselineTag := s.data[key].baselineTag));
    var mid := Overwrite(s, removed);
    assert OverwriteAll(s, [removed]) == mid by { assert [removed][1..] == []; }
    assert Saved(mid, Mutated(op, s.data).value, s.version, Answered) == (mid, Conflict);
    assert Retried(s, op, attempts) == Retried(mid, again, attempts[1..]);
    assert OverwriteAll(mid, []) == mid;
  }
}
