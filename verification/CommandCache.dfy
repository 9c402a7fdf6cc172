/** The host agent's durable result cache as a value: what `begin`, `complete`, `trimLocked`,
    `persistLocked` and `load` of agent/idempotency.go compute. The class in
    CommandResultCache.dfy is proved against these functions, and the agent's step machine
    (HostAgent.dfy) runs on them. */
module CommandCache {
  import opened Base

  type Id = string

  const UNKNOWN_OUTCOME := "agent restarted before the command outcome was recorded; outcome unknown"
  const STATE_VERSION := 1

  datatype Kind = CommandAck | CommandCompleted | CommandFailed

  /** A message about one command; the terminal ones are the cached results. */
  datatype Reply = Reply(kind: Kind, commandId: Id, output: string, error: string)

  datatype EntryStatus = Accepted | Terminal | Unrecognised

  /** One persisted command. `UpdatedAt` is not part of the model. */
  datatype Entry = Entry(commandId: Id, status: EntryStatus, result: Option<Reply>)

  datatype StateFile = StateFile(version: int, bindingId: string, commands: seq<Entry>)

  datatype LoadError =
    | UnsupportedVersion | WrongBinding | EmptyCommandId | DuplicateCommandId | InvalidResult | InvalidStatus

  datatype Cache = Cache(limit: nat, order: seq<Id>, completed: map<Id, Reply>, pending: set<Id>)

  predicate IsTerminal(r: Reply, id: Id) {
    r.commandId == id && (r.kind == CommandCompleted || r.kind == CommandFailed)
  }

  function UnknownOutcome(id: Id): Reply {
    Reply(CommandFailed, id, "", UNKNOWN_OUTCOME)
  }

  ghost predicate Valid(c: Cache) {
    && 1 <= c.limit
    && |c.order| <= c.limit
    && Distinct(c.order)
    && Elements(c.order) == c.completed.Keys
    && c.pending !! c.completed.Keys
    && "" !in c.completed && "" !in c.pending
    && forall id <- c.completed :: IsTerminal(c.completed[id], id)
  }

  function Empty(limit: int): Cache {
    Cache(if limit < 1 then 1 else limit, [], map[], {})
  }

  ghost function Ids(c: Cache): set<Id> {
    c.completed.Keys + c.pending
  }

  // ---------- trimming ----------

  function Trim(c: Cache): Cache
    decreases |c.order|
  {
    if |c.order| > c.limit then
      Trim(c.(order := c.order[1..], completed := c.completed - {c.order[0]}))
    else
      c
  }

  /** Trimming keeps exactly the newest `limit` results, with their replies. */
  lemma {:induction false} TrimKeepsNewest(c: Cache)
    requires Distinct(c.order) && Elements(c.order) == c.completed.Keys
    ensures Trim(c).order == Newest(c.order, c.limit)
    ensures Trim(c).completed.Keys == Elements(Newest(c.order, c.limit))
    ensures forall id <- Trim(c).completed :: id in c.completed && Trim(c).completed[id] == c.completed[id]
    ensures Trim(c).pending == c.pending && Trim(c).limit == c.limit
    decreases |c.order|
  {
    if |c.order| > c.limit {
      var rest := c.(order := c.order[1..], completed := c.completed - {c.order[0]});
      assert c.order == [c.order[0]] + rest.order;
      assert Elements(rest.order) == rest.completed.Keys;
      TrimKeepsNewest(rest);
    }
  }

  lemma {:induction false} TrimValid(c: Cache)
    requires 1 <= c.limit && Valid(c.(limit := c.limit + |c.order|))
    ensures Valid(Trim(c))
  {
    TrimKeepsNewest(c);
    NewestDistinct(c.order, c.limit);
    assert Trim(c).completed.Keys <= c.completed.Keys;
  }

  // ---------- begin and complete ----------

  datatype BeginAnswer = Cached(reply: Reply) | InFlight | Owner

  /** What `begin` answers when its write succeeds. */
  function BeginAnswerFor(c: Cache, id: Id): BeginAnswer {
    if id in c.completed then Cached(c.completed[id])
    else if id in c.pending then InFlight
    else Owner
  }

  function WithPending(c: Cache, id: Id): Cache {
    c.(pending := c.pending + {id})
  }

  function Complete(c: Cache, id: Id, reply: Reply): Cache {
    Trim(c.(pending := c.pending - {id},
            order := if id in c.completed then c.order else c.order + [id],
            completed := c.completed[id := reply]))
  }

  lemma {:induction false} TrimPending(c: Cache)
    ensures Trim(c).pending == c.pending && Trim(c).limit == c.limit
    decreases |c.order|
  {
    if |c.order| > c.limit {
      TrimPending(c.(order := c.order[1..], completed := c.completed - {c.order[0]}));
    }
  }

  lemma CompletePending(c: Cache, id: Id, reply: Reply)
    ensures Complete(c, id, reply).pending == c.pending - {id} && Complete(c, id, reply).limit == c.limit
  {
    TrimPending(c.(pending := c.pending - {id},
                   order := if id in c.completed then c.order else c.order + [id],
                   completed := c.completed[id := reply]));
  }

  lemma CompleteValid(c: Cache, id: Id, reply: Reply)
    requires Valid(c) && id != "" && IsTerminal(reply, id)
    ensures Valid(Complete(c, id, reply))
    ensures Complete(c, id, reply).pending == c.pending - {id}
    ensures Complete(c, id, reply).limit == c.limit
    ensures id !in c.completed ==> Complete(c, id, reply).order == Newest(c.order + [id], c.limit)
    ensures forall x <- Complete(c, id, reply).completed ::
              if x == id then Complete(c, id, reply).completed[x] == reply
              else x in c.completed && Complete(c, id, reply).completed[x] == c.completed[x]
  {
    var full := c.(pending := c.pending - {id},
                   order := if id in c.completed then c.order else c.order + [id],
                   completed := c.completed[id := reply]);
    ElementsOfSum(c.order, [id]);
    assert Elements([id]) == {id};
    assert Elements(full.order) == full.completed.Keys;
    if id !in c.completed {
      assert id !in Elements(c.order);
    }
    assert Valid(full.(limit := full.limit + |full.order|));
    TrimValid(full);
    TrimKeepsNewest(full);
  }

  // ---------- the persisted form ----------

  predicate LexLeq(a: Id, b: Id) {
    a == [] || (b != [] && (a[0] < b[0] || (a[0] == b[0] && LexLeq(a[1..], b[1..]))))
  }

  lemma {:induction false} LexTotal(a: Id, b: Id)
    ensures LexLeq(a, b) || LexLeq(b, a)
    ensures LexLeq(a, b) && LexLeq(b, a) ==> a == b
  {
    if a != [] && b != [] {
      LexTotal(a[1..], b[1..]);
      assert a == [a[0]] + a[1..] && b == [b[0]] + b[1..];
    }
  }

  lemma {:induction false} LexTransitive(a: Id, b: Id, c: Id)
    requires LexLeq(a, b) && LexLeq(b, c)
    ensures LexLeq(a, c)
  {
    if a != [] && a[0] == b[0] && b[0] == c[0] {
      LexTransitive(a[1..], b[1..], c[1..]);
    }
  }

  ghost predicate Sorted(s: seq<Id>) {
    forall i, j :: 0 <= i <= j < |s| ==> LexLeq(s[i], s[j])
  }

  lemma {:induction false} LeastExists(ids: set<Id>)
    requires ids != {}
    ensures exists least :: least in ids && forall x <- ids :: LexLeq(least, x)
  {
    var some :| some in ids;
    var rest := ids - {some};
    LexTotal(some, some);
    if rest == {} {
      assert ids == {some};
    } else {
      LeastExists(rest);
      var least :| least in rest && forall x <- rest :: LexLeq(least, x);
      LexTotal(some, least);
      var either := if LexLeq(some, least) then some else least;
      forall x | x in ids ensures LexLeq(either, x) {
        if x != some {
          assert x in rest;
          LexTransitive(either, least, x);
        }
      }
      hide LexLeq;
      assert either in ids;
    }
  }

  /** The ids of a set in the order `sort.Strings` gives them (UTF-8 keeps code point order). */
  ghost function SortedIds(ids: set<Id>): (r: seq<Id>)
    ensures Elements(r) == ids && Distinct(r)
  {
    if ids == {} then [] else
      var least := LeastOf(ids);
      var rest := SortedIds(ids - {least});
      assert Elements([least]) == {least};
      DistinctSum([least], rest);
      [least] + rest
  }

  ghost function LeastOf(ids: set<Id>): (least: Id)
    requires ids != {}
    ensures least in ids && forall x <- ids :: LexLeq(least, x)
  {
    LeastExists(ids);
    var least :| least in ids && forall x <- ids :: LexLeq(least, x);
    least
  }

  lemma {:induction false} SortedIdsSorted(ids: set<Id>)
    ensures Sorted(SortedIds(ids))
  {
    if ids != {} {
      var least := LeastOf(ids);
      var rest := SortedIds(ids - {least});
      SortedIdsSorted(ids - {least});
      var r := [least] + rest;
      forall i, j | 0 <= i <= j < |r| ensures LexLeq(r[i], r[j]) {
        if i > 0 {
          assert r[i] == rest[i - 1] && r[j] == rest[j - 1];
        } else if j > 0 {
          assert r[j] == rest[j - 1] && r[j] in Elements(rest);
        }
      }
    }
  }

  lemma FirstIsElement(s: seq<Id>)
    requires s != []
    ensures Elements(s) != {}
  {
    assert s[0] in Elements(s);
  }

  /** `SortedIds` is the only sorted, repetition-free enumeration of the set. */
  lemma {:induction false} SortedUnique(a: seq<Id>, b: seq<Id>)
    requires Sorted(a) && Sorted(b) && Distinct(a) && Distinct(b) && Elements(a) == Elements(b)
    ensures a == b
  {
    if a == [] {
      if b != [] {
        FirstIsElement(b);
      }
    } else {
      assert a[0] in Elements(b);
      assert b != [];
      assert b[0] in Elements(a);
      var i :| 0 <= i < |b| && b[i] == a[0];
      var j :| 0 <= j < |a| && a[j] == b[0];
      assert LexLeq(b[0], b[i]) && LexLeq(a[0], a[j]);
      LexTotal(a[0], b[0]);
      assert a == [a[0]] + a[1..] && b == [b[0]] + b[1..];
      forall x ensures x in Elements(a[1..]) <==> x in Elements(b[1..]) {
        assert x in Elements(a) <==> x in Elements(b);
      }
      assert Elements(a[1..]) == Elements(b[1..]);
      SortedUnique(a[1..], b[1..]);
    }
  }

  function AcceptedEntry(id: Id): Entry {
    Entry(id, Accepted, None)
  }

  ghost function TerminalEntries(c: Cache): seq<Entry> {
    seq(|c.order|, i requires 0 <= i < |c.order| =>
      Entry(c.order[i], Terminal, if c.order[i] in c.completed then Some(c.completed[c.order[i]]) else None))
  }

  ghost function AcceptedEntries(ids: seq<Id>): seq<Entry> {
    seq(|ids|, i requires 0 <= i < |ids| => AcceptedEntry(ids[i]))
  }

  /** What `persistLocked` writes: terminal results oldest first, then the accepted ids sorted. */
  ghost function Snapshot(c: Cache): seq<Entry> {
    TerminalEntries(c) + AcceptedEntries(SortedIds(c.pending))
  }

  // ---------- loading ----------

  /** The cached reply a persisted entry turns into, or why the file is refused. */
  function EntryReply(e: Entry): Result<Reply, LoadError> {
    match e.status
    case Accepted => Ok(UnknownOutcome(e.commandId))
    case Terminal =>
      if e.result.Some? && IsTerminal(e.result.value, e.commandId) then Ok(e.result.value) else Err(InvalidResult)
    case Unrecognised => Err(InvalidStatus)
  }

  /** The loop of `load`, from a cache that already holds the entries before these. */
  function Absorb(c: Cache, entries: seq<Entry>): Result<Cache, LoadError>
    decreases |entries|
  {
    if entries == [] then Ok(Trim(c))
    else
      var e := entries[0];
      if e.commandId == "" then Err(EmptyCommandId)
      else if e.commandId in c.completed then Err(DuplicateCommandId)
      else match EntryReply(e)
        case Err(error) => Err(error)
        case Ok(reply) =>
          Absorb(c.(order := c.order + [e.commandId], completed := c.completed[e.commandId := reply]), entries[1..])
  }

  function Load(limit: int, bindingId: string, file: StateFile): Result<Cache, LoadError> {
    if file.version != STATE_VERSION then Err(UnsupportedVersion)
    else if file.bindingId != bindingId then Err(WrongBinding)
    else Absorb(Empty(limit), file.commands)
  }

  /** An entry of an accepted command, or of one with a result about it. */
  ghost predicate WellFormedEntry(e: Entry) {
    && e.commandId != ""
    && (e.status == Accepted
        || (e.status == Terminal && e.result.Some? && e.result.value.commandId == e.commandId
            && (e.result.value.kind == CommandCompleted || e.result.value.kind == CommandFailed)))
  }

  ghost predicate WellFormed(entries: seq<Entry>) {
    (forall e <- entries :: WellFormedEntry(e)) && Distinct(EntryIds(entries))
  }

  ghost function EntryIds(entries: seq<Entry>): seq<Id> {
    seq(|entries|, i requires 0 <= i < |entries| => entries[i].commandId)
  }

  /** The cache after taking every entry over, before trimming. */
  ghost function Extend(c: Cache, entries: seq<Entry>): Cache
    requires forall e <- entries :: EntryReply(e).Ok?
    decreases |entries|
  {
    if entries == [] then c
    else
      var e := entries[0];
      Extend(c.(order := c.order + [e.commandId], completed := c.completed[e.commandId := EntryReply(e).value]),
             entries[1..])
  }

  lemma IdsOfTail(entries: seq<Entry>)
    requires entries != []
    ensures EntryIds(entries) == [entries[0].commandId] + EntryIds(entries[1..])
    ensures Elements(EntryIds(entries)) == {entries[0].commandId} + Elements(EntryIds(entries[1..]))
    ensures Distinct(EntryIds(entries)) <==>
              Distinct(EntryIds(entries[1..])) && entries[0].commandId !in Elements(EntryIds(entries[1..]))
    ensures forall e :: e in entries <==> e == entries[0] || e in entries[1..]
  {
    var id, tail := entries[0].commandId, EntryIds(entries[1..]);
    assert EntryIds(entries) == [id] + tail;
    assert entries == [entries[0]] + entries[1..];
    hide EntryIds;
    ConsFacts(id, tail);
  }

  lemma ConsFacts(id: Id, tail: seq<Id>)
    ensures Elements([id] + tail) == {id} + Elements(tail)
    ensures Distinct([id] + tail) <==> Distinct(tail) && id !in Elements(tail)
  {
    var s := [id] + tail;
    ElementsOfSum([id], tail);
    assert Elements([id]) == {id};
    if Distinct(s) {
      DistinctTail(s);
      assert s[1..] == tail;
    } else if Distinct(tail) && id !in Elements(tail) {
      DistinctSum([id], tail);
    }
  }

  /** Loading accepts exactly the well-formed entries whose ids are not held yet. */
  lemma {:induction false} AbsorbAccepts(c: Cache, entries: seq<Entry>)
    ensures Absorb(c, entries).Ok? <==> WellFormed(entries) && Elements(EntryIds(entries)) !! c.completed.Keys
    ensures Absorb(c, entries).Ok? ==> Absorb(c, entries).value == Trim(Extend(c, entries))
    decreases |entries|
  {
    if entries != [] {
      var e := entries[0];
      IdsOfTail(entries);
      if e.commandId != "" && e.commandId !in c.completed && EntryReply(e).Ok? {
        AbsorbAccepts(c.(order := c.order + [e.commandId],
                         completed := c.completed[e.commandId := EntryReply(e).value]),
                      entries[1..]);
      } else {
        assert e in entries;
      }
    }
  }

  /** What taking entries over adds: their ids in file order, each with its entry's reply. */
  lemma {:induction false} ExtendHolds(c: Cache, entries: seq<Entry>)
    requires WellFormed(entries) && Elements(EntryIds(entries)) !! c.completed.Keys
    ensures Extend(c, entries).order == c.order + EntryIds(entries)
    ensures Extend(c, entries).completed.Keys == c.completed.Keys + Elements(EntryIds(entries))
    ensures forall id <- c.completed :: Extend(c, entries).completed[id] == c.completed[id]
    ensures forall e <- entries :: e.commandId in Extend(c, entries).completed
                                   && Extend(c, entries).completed[e.commandId] == EntryReply(e).value
    ensures Extend(c, entries).limit == c.limit && Extend(c, entries).pending == c.pending
    decreases |entries|
  {
    if entries == [] {
      assert c.order + EntryIds(entries) == c.order;
    } else {
      var e := entries[0];
      IdsOfTail(entries);
      assert WellFormedEntry(e);
      var next := c.(order := c.order + [e.commandId], completed := c.completed[e.commandId := EntryReply(e).value]);
      ExtendHolds(next, entries[1..]);
      assert next.order + EntryIds(entries[1..]) == c.order + EntryIds(entries);
    }
  }

  lemma {:induction false} RepliesAreTerminal(entries: seq<Entry>, id: Id)
    requires WellFormed(entries) && id in Elements(EntryIds(entries))
    ensures id != "" && exists e <- entries :: e.commandId == id && IsTerminal(EntryReply(e).value, id)
  {
    var i :| 0 <= i < |entries| && EntryIds(entries)[i] == id;
    assert entries[i] in entries;
  }

  lemma {:induction false} AbsorbErrors(c: Cache, entries: seq<Entry>) returns (i: nat)
    requires Absorb(c, entries).Err?
    ensures i < |entries|
    ensures forall j :: 0 <= j < i ==> WellFormedEntry(entries[j]) && entries[j].commandId !in c.completed
    ensures var e, error := entries[i], Absorb(c, entries).error;
            if e.commandId == "" then error == EmptyCommandId
            else if e.commandId in c.completed || e.commandId in EntryIds(entries[..i]) then error == DuplicateCommandId
            else !WellFormedEntry(e) && error == if e.status == Unrecognised then InvalidStatus else InvalidResult
    decreases |entries|
  {
    var e := entries[0];
    if e.commandId == "" || e.commandId in c.completed || EntryReply(e).Err? {
      return 0;
    }
    var next := c.(order := c.order + [e.commandId], completed := c.completed[e.commandId := EntryReply(e).value]);
    var k := AbsorbErrors(next, entries[1..]);
    i := k + 1;
    assert entries[1..][k] == entries[i];
    assert forall j :: 0 < j < i ==> entries[j] == entries[1..][j - 1];
    assert entries[..i] == [e] + entries[1..][..k];
    IdsOfTail(entries[..i]);
    assert entries[..i][1..] == entries[1..][..k];
    assert forall x :: x in EntryIds(entries[..i]) <==> x == e.commandId || x in EntryIds(entries[1..][..k]);
  }

  /** Why a file is refused: its version, then its binding, then the first entry that is not in order. */
  lemma LoadErrors(limit: int, bindingId: string, file: StateFile)
    requires Load(limit, bindingId, file).Err?
    ensures var error := Load(limit, bindingId, file).error;
            if file.version != 1 then error == UnsupportedVersion
            else if file.bindingId != bindingId then error == WrongBinding
            else exists i: nat ::
                   && i < |file.commands| && (forall j :: 0 <= j < i ==> WellFormedEntry(file.commands[j]))
                   && var e := file.commands[i];
                   if e.commandId == "" then error == EmptyCommandId
                   else if e.commandId in EntryIds(file.commands[..i]) then error == DuplicateCommandId
                   else
                     !WellFormedEntry(e) && error == if e.status == Unrecognised then InvalidStatus else InvalidResult
  {
    if file.version == 1 && file.bindingId == bindingId {
      var i := AbsorbErrors(Empty(limit), file.commands);
    }
  }

  lemma LoadAccepts(limit: int, bindingId: string, file: StateFile)
    ensures Load(limit, bindingId, file).Ok? <==>
              file.version == 1 && file.bindingId == bindingId && WellFormed(file.commands)
    ensures Load(limit, bindingId, file).Ok? ==>
              && Valid(Load(limit, bindingId, file).value)
              && Load(limit, bindingId, file).value.order == Newest(EntryIds(file.commands), Empty(limit).limit)
              && Load(limit, bindingId, file).value.pending == {}
              && Load(limit, bindingId, file).value.limit == Empty(limit).limit
  {
    AbsorbAccepts(Empty(limit), file.commands);
    hide Absorb;
    if Load(limit, bindingId, file).Ok? {
      hide WellFormed;
      ExtendedFromEmpty(limit, file.commands);
      var all := Extend(Empty(limit), file.commands);
      hide Extend;
      TrimmedIsValid(all);
    }
  }

  /** Entries taken over by an empty cache. */
  lemma ExtendedFromEmpty(limit: int, entries: seq<Entry>)
    requires WellFormed(entries)
    ensures var all := Extend(Empty(limit), entries);
            && all.order == EntryIds(entries) && Distinct(all.order) && Elements(all.order) == all.completed.Keys
            && all.pending == {} && all.limit == Empty(limit).limit
            && (forall e <- entries :: EntryReply(e).Ok? && e.commandId in all.completed
                                       && all.completed[e.commandId] == EntryReply(e).value)
            && forall id <- all.completed :: id != "" && IsTerminal(all.completed[id], id)
  {
    ExtendHolds(Empty(limit), entries);
    assert Empty(limit).order + EntryIds(entries) == EntryIds(entries);
    assert {} + Elements(EntryIds(entries)) == Elements(EntryIds(entries));
    var all := Extend(Empty(limit), entries);
    forall id <- all.completed ensures id != "" && IsTerminal(all.completed[id], id) {
      RepliesAreTerminal(entries, id);
    }
  }

  lemma TrimmedIsValid(all: Cache)
    requires 1 <= all.limit && Distinct(all.order) && Elements(all.order) == all.completed.Keys && all.pending == {}
    requires forall id <- all.completed :: id != "" && IsTerminal(all.completed[id], id)
    ensures Valid(Trim(all)) && Trim(all).order == Newest(all.order, all.limit)
    ensures Trim(all).pending == {} && Trim(all).limit == all.limit
  {
    assert Valid(all.(limit := all.limit + |all.order|));
    TrimValid(all);
    TrimKeepsNewest(all);
  }

  /** Every loaded id has the reply of its entry: an unknown outcome for an accepted one, else its result. */
  lemma LoadReplies(limit: int, bindingId: string, file: StateFile, e: Entry)
    requires Load(limit, bindingId, file).Ok? && e in file.commands
    requires e.commandId in Load(limit, bindingId, file).value.completed
    ensures e.status == Accepted || (e.status == Terminal && e.result.Some?)
    ensures Load(limit, bindingId, file).value.completed[e.commandId] ==
            if e.status == Accepted then UnknownOutcome(e.commandId) else e.result.value
  {
    AbsorbAccepts(Empty(limit), file.commands);
    assert WellFormed(file.commands) && WellFormedEntry(e);
    assert Load(limit, bindingId, file).value == Trim(Extend(Empty(limit), file.commands));
    hide Load;
    hide Absorb;
    TrimmedReplies(limit, file.commands, e);
  }

  lemma TrimmedReplies(limit: int, entries: seq<Entry>, e: Entry)
    requires WellFormed(entries) && e in entries
    requires EntryReply(e).Ok? ==> e.commandId in Trim(Extend(Empty(limit), entries)).completed
    ensures EntryReply(e).Ok? && Trim(Extend(Empty(limit), entries)).completed[e.commandId] == EntryReply(e).value
  {
    ExtendedFromEmpty(limit, entries);
    var all := Extend(Empty(limit), entries);
    hide *;
    TrimKeepsNewest(all);
  }

  // ---------- snapshot round trip ----------

  /** Every in-flight id turned into a failure of unknown outcome, behind the terminal results. */
  ghost function Settled(c: Cache): Cache {
    c.(order := c.order + SortedIds(c.pending),
       completed := c.completed + (map id | id in c.pending :: UnknownOutcome(id)),
       pending := {})
  }

  /** The cache an agent restarts with when `c` was the last persisted one. */
  ghost function Reload(c: Cache): Cache {
    Trim(Settled(c))
  }

  lemma SnapshotIds(c: Cache)
    requires Valid(c)
    ensures EntryIds(Snapshot(c)) == c.order + SortedIds(c.pending)
    ensures Distinct(EntryIds(Snapshot(c)))
    ensures Elements(EntryIds(Snapshot(c))) == c.completed.Keys + c.pending
  {
    assert EntryIds(Snapshot(c)) == c.order + SortedIds(c.pending);
    DistinctSum(c.order, SortedIds(c.pending));
  }

  lemma SnapshotEntry(c: Cache, e: Entry)
    requires Valid(c) && e in Snapshot(c)
    ensures e.commandId != "" && EntryReply(e).Ok?
    ensures e.commandId in Settled(c).completed && EntryReply(e).value == Settled(c).completed[e.commandId]
  {
    var ids := SortedIds(c.pending);
    var i :| 0 <= i < |Snapshot(c)| && Snapshot(c)[i] == e;
    if i < |c.order| {
      assert c.order[i] in Elements(c.order);
    } else {
      assert ids[i - |c.order|] in Elements(ids);
      assert e == AcceptedEntry(ids[i - |c.order|]);
    }
  }

  lemma EntryOfId(entries: seq<Entry>, id: Id) returns (e: Entry)
    requires id in Elements(EntryIds(entries))
    ensures e in entries && e.commandId == id
  {
    var i :| 0 <= i < |entries| && EntryIds(entries)[i] == id;
    e := entries[i];
  }

  /** Two maps over the ids of the entries that both give every entry its reply are equal. */
  lemma RepliesDetermined(entries: seq<Entry>, a: map<Id, Reply>, b: map<Id, Reply>)
    requires forall e <- entries :: EntryReply(e).Ok?
    requires a.Keys == Elements(EntryIds(entries)) == b.Keys
    requires forall e <- entries :: e.commandId in a && a[e.commandId] == EntryReply(e).value
    requires forall e <- entries :: e.commandId in b && b[e.commandId] == EntryReply(e).value
    ensures a == b
  {
    forall id <- a ensures a[id] == b[id] {
      var e := EntryOfId(entries, id);
    }
  }

  /** From an empty cache, entries determine the extended cache completely. */
  lemma ExtendFromEmpty(limit: int, entries: seq<Entry>, want: Cache)
    requires WellFormed(entries)
    requires want.limit == Empty(limit).limit && want.pending == {}
    requires want.order == EntryIds(entries) && want.completed.Keys == Elements(EntryIds(entries))
    requires forall e <- entries :: e.commandId in want.completed && want.completed[e.commandId] == EntryReply(e).value
    ensures Extend(Empty(limit), entries) == want
  {
    ExtendHolds(Empty(limit), entries);
    assert Empty(limit).order + EntryIds(entries) == EntryIds(entries);
    RepliesDetermined(entries, Extend(Empty(limit), entries).completed, want.completed);
  }

  lemma SnapshotWellFormed(c: Cache)
    requires Valid(c)
    ensures WellFormed(Snapshot(c))
    ensures forall e <- Snapshot(c) ::
              e.commandId in Settled(c).completed && Settled(c).completed[e.commandId] == EntryReply(e).value
  {
    SnapshotIds(c);
    forall e <- Snapshot(c)
      ensures e.commandId != "" && EntryReply(e).Ok?
      ensures e.commandId in Settled(c).completed && Settled(c).completed[e.commandId] == EntryReply(e).value
    {
      SnapshotEntry(c, e);
    }
  }

  /** Reading a snapshot back, before trimming, gives exactly the settled cache. */
  lemma SnapshotExtends(c: Cache)
    requires Valid(c)
    ensures Extend(Empty(c.limit), Snapshot(c)) == Settled(c)
  {
    SnapshotIds(c);
    SnapshotWellFormed(c);
    SettledShape(c);
    ExtendFromEmpty(c.limit, Snapshot(c), Settled(c));
  }

  /** Round trip: reading back what was written gives the old results in their order, then each
      in-flight id as the unknown-outcome failure, trimmed to the newest `limit`. */
  lemma SnapshotRoundTrip(c: Cache, bindingId: string)
    requires Valid(c)
    ensures Load(c.limit, bindingId, StateFile(STATE_VERSION, bindingId, Snapshot(c))) == Ok(Reload(c))
    ensures Valid(Reload(c)) && Reload(c).limit == c.limit && Reload(c).pending == {}
    ensures Reload(c).order == Newest(c.order + SortedIds(c.pending), c.limit)
    ensures forall id <- Reload(c).completed ::
              if id in c.pending then Reload(c).completed[id] == UnknownOutcome(id)
              else id in c.completed && Reload(c).completed[id] == c.completed[id]
  {
    var file := StateFile(STATE_VERSION, bindingId, Snapshot(c));
    SnapshotWellFormed(c);
    SnapshotExtends(c);
    AbsorbAccepts(Empty(c.limit), file.commands);
    LoadAccepts(c.limit, bindingId, file);
    SettledShape(c);
    TrimKeepsNewest(Settled(c));
  }

  lemma SettledShape(c: Cache)
    requires Valid(c)
    ensures Distinct(Settled(c).order) && Elements(Settled(c).order) == Settled(c).completed.Keys
    ensures Settled(c).completed.Keys == Ids(c)
  {
    DistinctSum(c.order, SortedIds(c.pending));
  }
}
