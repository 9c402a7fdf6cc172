/** The cache object of agent/idempotency.go, updated in place. Every method is proved against the
    functions of CommandCache.dfy, on which the run theorems rest. */
module CommandResultCaches {
  import opened Base
  import opened CommandCache
  import opened StateFiles

  const MAX_CURSOR_BYTES: nat := 4096

  datatype CursorFile = CursorFile(version: int, bindingId: string, cursor: string)

  datatype Document = Commands(state: StateFile) | Cursor(position: CursorFile)

  /** The outcome of one state write: the call that failed, and the name `CreateTemp` chose. */
  datatype Attempt = Attempt(temp: string, fault: Option<Call>)

  predicate Landed(a: Attempt) {
    a.fault.None? || Position(a.fault.value) > Position(Rename)
  }

  // ---------- sort.Strings ----------

  function InsertId(x: Id, s: seq<Id>): seq<Id> {
    if s == [] then [x] else if LexLeq(x, s[0]) then [x] + s else [s[0]] + InsertId(x, s[1..])
  }

  function SortStrings(s: seq<Id>): seq<Id> {
    if s == [] then [] else InsertId(s[0], SortStrings(s[1..]))
  }

  lemma {:induction false} InsertElements(x: Id, s: seq<Id>)
    ensures Elements(InsertId(x, s)) == {x} + Elements(s)
  {
    assert Elements([x]) == {x};
    if s == [] {
    } else if LexLeq(x, s[0]) {
      ElementsOfSum([x], s);
    } else {
      InsertElements(x, s[1..]);
      ElementsOfSum([s[0]], InsertId(x, s[1..]));
      ElementsOfSum([s[0]], s[1..]);
      assert s == [s[0]] + s[1..];
      assert Elements([s[0]]) == {s[0]};
    }
  }

  lemma ConsDistinct(x: Id, s: seq<Id>)
    requires Distinct(s) && x !in Elements(s)
    ensures Distinct([x] + s)
  {
    assert Elements([x]) == {x};
    DistinctSum([x], s);
  }

  lemma {:induction false} InsertDistinct(x: Id, s: seq<Id>)
    requires Distinct(s) && x !in Elements(s)
    ensures Distinct(InsertId(x, s))
  {
    if s == [] {
    } else if LexLeq(x, s[0]) {
      ConsDistinct(x, s);
    } else {
      DistinctTail(s);
      InsertDistinct(x, s[1..]);
      InsertElements(x, s[1..]);
      ConsDistinct(s[0], InsertId(x, s[1..]));
    }
  }

  lemma ConsKeepsSorted(x: Id, s: seq<Id>)
    requires Sorted(s) && forall y <- Elements(s) :: LexLeq(x, y)
    ensures Sorted([x] + s)
  {
    LexTotal(x, x);
    var r := [x] + s;
    forall i, j | 0 <= i <= j < |r| ensures LexLeq(r[i], r[j]) {
      if i > 0 {
        assert r[i] == s[i - 1] && r[j] == s[j - 1];
      } else if j > 0 {
        assert s[j - 1] in Elements(s);
      }
    }
  }

  lemma HeadIsLeast(s: seq<Id>)
    requires Sorted(s) && s != []
    ensures forall y <- Elements(s) :: LexLeq(s[0], y)
    ensures Sorted(s[1..])
  {
    forall y <- Elements(s) ensures LexLeq(s[0], y) {
      var i :| 0 <= i < |s| && s[i] == y;
      assert LexLeq(s[0], s[i]);
    }
    forall i, j | 0 <= i <= j < |s[1..]| ensures LexLeq(s[1..][i], s[1..][j]) {
      assert LexLeq(s[i + 1], s[j + 1]);
    }
  }

  lemma {:induction false} InsertSorted(x: Id, s: seq<Id>)
    requires Sorted(s)
    ensures Sorted(InsertId(x, s))
  {
    LexTotal(x, x);
    if s != [] {
      HeadIsLeast(s);
      if LexLeq(x, s[0]) {
        forall y <- Elements(s) ensures LexLeq(x, y) {
          LexTransitive(x, s[0], y);
        }
        ConsKeepsSorted(x, s);
      } else {
        LexTotal(x, s[0]);
        InsertSorted(x, s[1..]);
        InsertElements(x, s[1..]);
        forall y <- Elements(s[1..]) ensures y in Elements(s) {
        }
        ConsKeepsSorted(s[0], InsertId(x, s[1..]));
      }
    }
  }

  /** Whatever order the map is iterated in, sorting its keys gives `SortedIds`. */
  lemma {:induction false} SortKeepsIds(s: seq<Id>)
    requires Distinct(s)
    ensures Elements(SortStrings(s)) == Elements(s) && Distinct(SortStrings(s)) && Sorted(SortStrings(s))
  {
    if s != [] {
      DistinctTail(s);
      SortKeepsIds(s[1..]);
      InsertElements(s[0], SortStrings(s[1..]));
      InsertDistinct(s[0], SortStrings(s[1..]));
      InsertSorted(s[0], SortStrings(s[1..]));
    }
  }

  lemma SortIsSortedIds(s: seq<Id>)
    requires Distinct(s)
    ensures SortStrings(s) == SortedIds(Elements(s))
  {
    SortKeepsIds(s);
    SortedIdsSorted(Elements(s));
    SortedUnique(SortStrings(s), SortedIds(Elements(s)));
  }

  // ---------- the object ----------

  /** `pendingCommandResult`: `done` is the closed channel that releases waiters. */
  class PendingResult {
    var done: bool
    var result: Option<Reply>

    constructor ()
      ensures !done && result == None
    {
      done, result := false, None;
    }

    /** `wait`: the result once it exists; `cancelled` says whether the context ended first. */
    method Wait(cancelled: bool) returns (r: Option<Reply>)
      requires done ==> result.Some?
      ensures r.Some? ==> done && r == result
      ensures done && !cancelled ==> r == result
    {
      r := if done && !cancelled then result else None;
    }
  }

  class CommandResultCache {
    const limit: nat
    const bindingId: string
    const statePath: string
    const cursorPath: string
    const disk: StateDirectory<Document>
    var cursor: string
    var completed: map<Id, Reply>
    var order: seq<Id>
    var pending: map<Id, PendingResult>

    ghost function Value(): Cache
      reads this
    {
      Cache(limit, order, completed, pending.Keys)
    }

    ghost predicate Ok()
      reads this, pending.Values
    {
      && Valid(Value())
      && (forall a, b :: a in pending && b in pending && a != b ==> pending[a] != pending[b])
      && (forall id <- pending :: !pending[id].done)
      && (statePath == cursorPath ==> statePath == "")
    }

    /** The state file holds exactly this cache. */
    ghost predicate Holds(c: Cache)
      reads disk
    {
      statePath in disk.files
      && disk.files[statePath] == Whole(Commands(StateFile(STATE_VERSION, bindingId, Snapshot(c))))
    }

    predicate Usable(a: Attempt)
      reads disk
    {
      a.temp != statePath && a.temp != cursorPath && a.temp !in disk.files
    }

    constructor Make(limit: int, bindingId: string, statePath: string, cursorPath: string,
                     disk: StateDirectory<Document>)
      requires statePath == cursorPath ==> statePath == ""
      ensures Ok() && Value() == Empty(limit) && cursor == ""
      ensures this.bindingId == bindingId && this.statePath == statePath && this.cursorPath == cursorPath
              && this.disk == disk
    {
      this.limit := if limit < 1 then 1 else limit;
      this.bindingId, this.statePath, this.cursorPath, this.disk := bindingId, statePath, cursorPath, disk;
      cursor, completed, order, pending := "", map[], [], map[];
    }

    method TrimLocked()
      modifies `order, `completed
      ensures Value() == Trim(old(Value()))
    {
      while |order| > limit
        invariant Trim(Value()) == Trim(old(Value()))
        decreases |order|
      {
        var oldest := order[0];
        order := order[1..];
        completed := completed - {oldest};
      }
    }

    /** The persisted list: terminal results in order, then the accepted ids sorted. */
    method Entries() returns (entries: seq<Entry>)
      requires Valid(Value())
      ensures entries == Snapshot(Value())
    {
      entries := [];
      for i := 0 to |order|
        invariant entries == TerminalEntries(Value())[..i]
      {
        assert order[i] in Elements(order);
        entries := entries + [Entry(order[i], CommandCache.Terminal, Some(completed[order[i]]))];
      }
      assert TerminalEntries(Value())[..|order|] == TerminalEntries(Value());
      var pendingIds: seq<Id> := [];
      var rest := pending.Keys;
      while rest != {}
        invariant rest <= pending.Keys
        invariant Distinct(pendingIds) && Elements(pendingIds) == pending.Keys - rest
        decreases rest
      {
        var id :| id in rest;
        assert Elements([id]) == {id};
        DistinctSum(pendingIds, [id]);
        pendingIds, rest := pendingIds + [id], rest - {id};
      }
      SortIsSortedIds(pendingIds);
      assert Elements(pendingIds) == pending.Keys;
      pendingIds := SortStrings(pendingIds);
      assert pendingIds == SortedIds(Value().pending);
      ghost var terminals := entries;
      for i := 0 to |pendingIds|
        invariant entries == terminals + AcceptedEntries(pendingIds)[..i]
      {
        entries := entries + [AcceptedEntry(pendingIds[i])];
      }
      assert AcceptedEntries(pendingIds)[..|pendingIds|] == AcceptedEntries(pendingIds);
    }

    method PersistLocked(a: Attempt) returns (failed: bool)
      requires Valid(Value()) && Usable(a)
      modifies disk
      ensures failed <==> statePath != "" && a.fault.Some?
      ensures disk.files == if statePath != "" && Landed(a)
                            then old(disk.files)[statePath :=
                                   Whole(Commands(StateFile(STATE_VERSION, bindingId, Snapshot(Value()))))]
                            else old(disk.files)
    {
      if statePath == "" {
        return false;
      }
      var entries := Entries();
      var document := Commands(StateFile(STATE_VERSION, bindingId, entries));
      ghost var images;
      failed, images := disk.AtomicWrite(statePath, a.temp, document, a.fault);
    }

    method PersistCursorLocked(a: Attempt) returns (failed: bool)
      requires Usable(a)
      modifies disk
      ensures failed <==> cursorPath != "" && a.fault.Some?
      ensures disk.files == if cursorPath != "" && Landed(a)
                            then old(disk.files)[cursorPath := Whole(Cursor(CursorFile(1, bindingId, cursor)))]
                            else old(disk.files)
    {
      if cursorPath == "" {
        return false;
      }
      ghost var images;
      failed, images := disk.AtomicWrite(cursorPath, a.temp, Cursor(CursorFile(1, bindingId, cursor)), a.fault);
    }

    /** `begin`: a cached reply, the pending result to wait for, or ownership, in that order; and
        ownership only after the state file holds the id. */
    method Begin(id: Id, a: Attempt) returns (cached: Option<Reply>, waiting: PendingResult?, owner: bool, failed: bool)
      requires Ok() && id != "" && Usable(a)
      modifies this`pending, disk
      ensures Ok()
      ensures match BeginAnswerFor(old(Value()), id)
              case Cached(reply) => cached == Some(reply) && waiting == null && !owner && !failed
              case InFlight => cached == None && waiting == old(pending)[id] && !owner && !failed
              case Owner => cached == None && owner == !failed && (failed <==> statePath != "" && a.fault.Some?)
      ensures owner ==> waiting != null && fresh(waiting) && pending == old(pending)[id := waiting]
      ensures owner ==> Value() == WithPending(old(Value()), id)
      ensures !owner ==> pending == old(pending) && Value() == old(Value())
      ensures owner && statePath != "" ==> Holds(Value())
      ensures !BeginAnswerFor(old(Value()), id).Owner? ==> disk.files == old(disk.files)
      ensures failed && !Landed(a) ==> disk.files == old(disk.files)
      ensures failed && Landed(a) ==> Holds(WithPending(old(Value()), id))
    {
      if id in completed {
        return Some(completed[id]), null, false, false;
      }
      if id in pending {
        return None, pending[id], false, false;
      }
      var p := new PendingResult();
      pending := pending[id := p];
      assert Value() == WithPending(old(Value()), id);
      failed := PersistLocked(a);
      if failed {
        pending := pending - {id};
        assert pending == old(pending);
        return None, null, false, true;
      }
      return None, p, true, false;
    }

    /** The in-memory half of `complete`. */
    method RecordResult(id: Id, result: Reply)
      requires Valid(Value()) && id != "" && IsTerminal(result, id)
      modifies this`pending, this`completed, this`order
      ensures Value() == CommandCache.Complete(old(Value()), id, result) && Valid(Value())
      ensures pending == old(pending) - {id}
    {
      CompleteValid(Value(), id, result);
      pending := pending - {id};
      if id !in completed {
        order := order + [id];
      }
      completed := completed[id := result];
      assert pending.Keys == old(pending.Keys) - {id};
      TrimLocked();
    }

    /** `complete`: the result is in memory, and the waiters have it, whatever the write does. */
    method Complete(id: Id, result: Reply, a: Attempt) returns (failed: bool)
      requires Ok() && id != "" && IsTerminal(result, id) && Usable(a)
      modifies this`pending, this`completed, this`order, disk, if id in pending then {pending[id]} else {}
      ensures Ok() && Value() == CommandCache.Complete(old(Value()), id, result)
      ensures pending == old(pending) - {id}
      ensures id in old(pending) ==> old(pending)[id].done && old(pending)[id].result == Some(result)
      ensures failed <==> statePath != "" && a.fault.Some?
      ensures statePath != "" && Landed(a) ==> Holds(Value())
      ensures !Landed(a) ==> disk.files == old(disk.files)
    {
      ghost var before := Value();
      var waiting: PendingResult? := if id in pending then pending[id] else null;
      if waiting != null {
        waiting.result := Some(result);
      }
      RecordResult(id, result);
      failed := PersistLocked(a);
      if waiting != null {
        waiting.done := true;
      }
      assert Value() == CommandCache.Complete(before, id, result);
    }

    /** `load` into a new cache: no file is an empty cache; otherwise the file is taken over or refused
        exactly as `CommandCache.Load` says. An unreadable file is an error too. */
    method Load() returns (failed: bool)
      requires Ok() && completed == map[] && order == [] && pending == map[]
      modifies this`completed, this`order
      ensures Ok()
      ensures statePath !in disk.files ==> !failed && Value() == old(Value())
      ensures statePath in disk.files && (disk.files[statePath].Torn? || disk.files[statePath].content.Cursor?)
              ==> failed
      ensures statePath in disk.files && disk.files[statePath].Whole? && disk.files[statePath].content.Commands? ==>
                var loaded := CommandCache.Load(limit, bindingId, disk.files[statePath].content.state);
                && (failed <==> loaded.Err?)
                && (!failed ==> Value() == loaded.value)
    {
      if statePath !in disk.files {
        return false;
      }
      var blob := disk.files[statePath];
      if blob.Torn? || blob.content.Cursor? {
        return true;
      }
      var state := blob.content.state;
      if state.version != STATE_VERSION || state.bindingId != bindingId {
        return true;
      }
      LoadAccepts(limit, bindingId, state);
      var i := 0;
      var newOrder: seq<Id>, newCompleted: map<Id, Reply> := [], map[];
      while i < |state.commands|
        invariant 0 <= i <= |state.commands|
        invariant Absorb(Empty(limit), state.commands) ==
                  Absorb(Cache(limit, newOrder, newCompleted, {}), state.commands[i..])
      {
        var entry := state.commands[i];
        assert state.commands[i..][1..] == state.commands[i + 1..];
        if entry.commandId == "" || entry.commandId in newCompleted || EntryReply(entry).Err? {
          return true;
        }
        newOrder := newOrder + [entry.commandId];
        newCompleted := newCompleted[entry.commandId := EntryReply(entry).value];
        i := i + 1;
      }
      assert state.commands[i..] == [];
      completed, order := newCompleted, newOrder;
      assert Value() == Cache(limit, newOrder, newCompleted, {});
      TrimLocked();
      assert CommandCache.Load(limit, bindingId, state) == Result.Ok(Value());
      failed := false;
    }

    /** `saveJournalCursor`: memory follows the write, except that a failed write may still have landed. */
    method SaveJournalCursor(position: string, a: Attempt) returns (failed: bool)
      requires Usable(a)
      modifies this`cursor, disk
      ensures failed <==> position != "" && (|position| > MAX_CURSOR_BYTES ||
                            (position != old(cursor) && cursorPath != "" && a.fault.Some?))
      ensures cursor == if failed || position == "" then old(cursor) else position
      ensures disk.files == old(disk.files) ||
              (cursorPath != "" && position != "" && |position| <= MAX_CURSOR_BYTES
               && disk.files == old(disk.files)[cursorPath := Whole(Cursor(CursorFile(1, bindingId, position)))])
      ensures !failed && cursorPath != "" && position != "" && position != old(cursor) ==>
                cursorPath in disk.files && disk.files[cursorPath] == Whole(Cursor(CursorFile(1, bindingId, position)))
    {
      if position == "" {
        return false;
      }
      if |position| > MAX_CURSOR_BYTES {
        return true;
      }
      if position == cursor {
        return false;
      }
      var previous := cursor;
      cursor := position;
      failed := PersistCursorLocked(a);
      if failed {
        cursor := previous;
      }
    }

    /** `loadCursor`: no file leaves the cursor empty; a file for another binding, of another version, too
        long or unreadable is refused. */
    method LoadCursor() returns (failed: bool)
      modifies this`cursor
      ensures failed <==> cursorPath in disk.files && !Readable(disk.files[cursorPath], bindingId)
      ensures cursor == if cursorPath in disk.files && !failed then disk.files[cursorPath].content.position.cursor
                        else old(cursor)
    {
      failed := cursorPath in disk.files && !Readable(disk.files[cursorPath], bindingId);
      if cursorPath in disk.files && !failed {
        cursor := disk.files[cursorPath].content.position.cursor;
      }
    }
  }

  /** A cursor file of this version and binding, not too long. */
  predicate Readable(blob: Blob<Document>, bindingId: string) {
    && blob.Whole? && blob.content.Cursor?
    && blob.content.position.version == 1 && blob.content.position.bindingId == bindingId
    && |blob.content.position.cursor| <= MAX_CURSOR_BYTES
  }

  /** What `load` makes of the directory: no file is an empty cache, an unreadable one an error. */
  ghost function Stored(files: map<string, Blob<Document>>, statePath: string, limit: int,
                        bindingId: string): Option<Cache> {
    if statePath !in files then Some(Empty(limit))
    else if files[statePath].Torn? || files[statePath].content.Cursor? then None
    else match CommandCache.Load(limit, bindingId, files[statePath].content.state)
      case Ok(c) => Some(c)
      case Err(_) => None
  }

  /** What `loadCursor` makes of the directory: no file is an empty cursor, an unreadable one an error. */
  ghost function StoredCursor(files: map<string, Blob<Document>>, cursorPath: string,
                              bindingId: string): Option<string> {
    if cursorPath !in files then Some("")
    else if Readable(files[cursorPath], bindingId) then Some(files[cursorPath].content.position.cursor)
    else None
  }

  /** What an earlier process left comes back as its reloaded cache; a first start has an empty one. */
  lemma StoredIsReloaded(files: map<string, Blob<Document>>, statePath: string, limit: int, bindingId: string,
                         before: Cache)
    requires Valid(before) && before.limit == Empty(limit).limit && statePath in files
    requires files[statePath] == Whole(Commands(StateFile(STATE_VERSION, bindingId, Snapshot(before))))
    ensures Stored(files, statePath, limit, bindingId) == Some(Reload(before))
  {
    SnapshotRoundTrip(before, bindingId);
    assert Load(limit, bindingId, StateFile(STATE_VERSION, bindingId, Snapshot(before))) ==
           Load(before.limit, bindingId, StateFile(STATE_VERSION, bindingId, Snapshot(before)));
  }

  /** `openCommandResultCache` on any directory. It succeeds exactly when both files can be loaded and both
      writes succeed; the new process then starts with exactly the stored cache and cursor, and the files
      hold them. Otherwise each file is as it was, or holds what was stored if its write landed. */
  method Open(limit: int, bindingId: string, statePath: string, cursorPath: string, disk: StateDirectory<Document>,
              state: Attempt, position: Attempt)
    returns (cache: CommandResultCache, failed: bool)
    requires statePath != "" && cursorPath != "" && statePath != cursorPath && state.temp != position.temp
    requires forall a <- [state, position] :: a.temp != statePath && a.temp != cursorPath && a.temp !in disk.files
    modifies disk
    ensures var stored := Stored(old(disk.files), statePath, limit, bindingId);
            var cursor := StoredCursor(old(disk.files), cursorPath, bindingId);
            && (!failed <==> stored.Some? && cursor.Some? && state.fault.None? && position.fault.None?)
            && (forall path :: path != statePath && path != cursorPath ==> SameFile(disk.files, old(disk.files), path))
            && FileOf(disk.files, statePath) ==
               (if stored.Some? && cursor.Some? && Landed(state)
                then Some(Whole(Commands(StateFile(STATE_VERSION, bindingId, Snapshot(stored.value)))))
                else FileOf(old(disk.files), statePath))
            && FileOf(disk.files, cursorPath) ==
               (if stored.Some? && cursor.Some? && state.fault.None? && Landed(position)
                then Some(Whole(Cursor(CursorFile(1, bindingId, cursor.value))))
                else FileOf(old(disk.files), cursorPath))
            && (!failed ==> fresh(cache) && cache.Ok() && cache.Value() == stored.value && cache.disk == disk
                            && cache.cursor == cursor.value && cache.bindingId == bindingId
                            && cache.statePath == statePath && cache.cursorPath == cursorPath)
  {
    cache := new CommandResultCache.Make(limit, bindingId, statePath, cursorPath, disk);
    assert state in [state, position] && position in [state, position];
    assert cache.limit == Empty(limit).limit;
    failed := cache.Load();
    if !failed {
      failed := cache.LoadCursor();
    }
    if !failed {
      failed := cache.PersistLocked(state);
    }
    if !failed {
      failed := cache.PersistCursorLocked(position);
    }
  }
}
