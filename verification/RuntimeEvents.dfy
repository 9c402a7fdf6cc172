/** The table `server_runtime_events`: insert-or-ignore on (binding, cursor), the 2000-row retention
    delete, and the newest-k listing. */
module RuntimeEvents {
  import opened Base

  const RETAINED: nat := 2000
  const MAX_TYPE: nat := 64
  const MAX_MESSAGE: nat := 16384
  const MAX_CURSOR: nat := 2000

  datatype Event = Event(sequence: nat, binding: string, kind: string, message: string, cursor: Option<string>)

  /** Rows in order of their sequence numbers; `next` is the next AUTOINCREMENT value. */
  datatype Table = Table(rows: seq<Event>, next: nat)

  /** `cursor?.slice(0, 2000) || null` */
  function StoredCursor(cursor: Option<string>): Option<string> {
    if cursor.None? || cursor.value == "" then None else Some(Cut(cursor.value, MAX_CURSOR))
  }

  function Of(rows: seq<Event>, binding: string): seq<Event> {
    if rows == [] then []
    else Of(rows[..|rows| - 1], binding) + (if rows[|rows| - 1].binding == binding then [rows[|rows| - 1]] else [])
  }

  /** The DELETE statement: rows of the binding survive if their sequence is in `keep`. */
  function Retain(rows: seq<Event>, binding: string, keep: set<nat>): seq<Event> {
    if rows == [] then []
    else
      var last := rows[|rows| - 1];
      Retain(rows[..|rows| - 1], binding, keep)
      + (if last.binding == binding && last.sequence !in keep then [] else [last])
  }

  function Sequences(rows: seq<Event>): set<nat> {
    set e <- rows :: e.sequence
  }

  predicate Ignored(t: Table, binding: string, cursor: Option<string>) {
    cursor.Some? && exists e <- t.rows :: e.binding == binding && e.cursor == cursor
  }

  function NewEvent(t: Table, binding: string, kind: string, message: string, cursor: Option<string>): Event {
    Event(t.next, binding, Cut(kind, MAX_TYPE), Cut(message, MAX_MESSAGE), StoredCursor(cursor))
  }

  /** The row an event is stored as: its type and message cut at their ends, and no cursor for an absent or
      an empty one. */
  ghost predicate Records(e: Event, binding: string, kind: string, message: string, cursor: Option<string>) {
    && e.binding == binding
    && e.kind <= kind && |e.kind| == Min(|kind|, 64)
    && e.message <= message && |e.message| == Min(|message|, 16384)
    && (e.cursor.None? <==> cursor.None? || cursor.value == "")
    && (e.cursor.Some? ==> e.cursor.value <= cursor.value && |e.cursor.value| == Min(|cursor.value|, 2000))
  }

  /** An event of this binding that is stored has the cursor, as far as cursors are stored. */
  ghost predicate Repeated(rows: seq<Event>, binding: string, cursor: Option<string>) {
    cursor.Some? && cursor.value != "" &&
    exists row <- rows, stored ::
      row.binding == binding && row.cursor == Some(stored)
      && stored <= cursor.value && |stored| == Min(|cursor.value|, 2000)
  }

  /** Which event is stored, if one is. */
  lemma AppendRecords(t: Table, b: string, kind: string, message: string, cursor: Option<string>)
    ensures var (u, e) := Append(t, b, kind, message, cursor);
            && (e.None? <==> Repeated(t.rows, b, cursor))
            && (e.None? ==> u == t)
            && (e.Some? ==> Records(e.value, b, kind, message, cursor) && e.value.sequence == t.next
                            && u.next == t.next + 1)
  {
    if Repeated(t.rows, b, cursor) {
      var row, text :| row in t.rows && row.binding == b && row.cursor == Some(text)
        && text <= cursor.value && |text| == Min(|cursor.value|, 2000);
      assert text == cursor.value[..|text|] == Cut(cursor.value, MAX_CURSOR);
    }
  }

  /** The INSERT statement alone. */
  function Insert(t: Table, binding: string, kind: string, message: string, cursor: Option<string>): Table {
    Table(t.rows + [NewEvent(t, binding, kind, message, cursor)], t.next + 1)
  }

  /** `appendEvent`: the table afterwards and the event, or nothing if the insert was ignored. */
  function Append(t: Table, binding: string, kind: string, message: string, cursor: Option<string>)
      : (Table, Option<Event>) {
    if Ignored(t, binding, StoredCursor(cursor)) then (t, None)
    else
      var u := Insert(t, binding, kind, message, cursor);
      (u.(rows := Retain(u.rows, binding, Sequences(Newest(Of(u.rows, binding), RETAINED)))),
       Some(NewEvent(t, binding, kind, message, cursor)))
  }

  function Reverse<T>(s: seq<T>): (r: seq<T>)
    ensures |r| == |s| && forall i :: 0 <= i < |s| ==> r[i] == s[|s| - 1 - i]
  {
    if s == [] then [] else [s[|s| - 1]] + Reverse(s[..|s| - 1])
  }

  /** `listEvents`: newest first up to the limit, then turned round. */
  function ListEvents(t: Table, binding: string, limit: nat): seq<Event> {
    var descending := Reverse(Of(t.rows, binding));
    Reverse(descending[..Min(limit, |descending|)])
  }

  // ---------- the table refines one append-only log per binding ----------

  ghost predicate Ascending(rows: seq<Event>) {
    forall i, j :: 0 <= i < j < |rows| ==> rows[i].sequence < rows[j].sequence
  }

  ghost predicate UniqueCursors(rows: seq<Event>) {
    forall i, j :: 0 <= i < j < |rows| && rows[i].cursor.Some? ==> rows[i].cursor != rows[j].cursor
  }

  type Log = seq<Event>

  /** `accepted(b)` is every event ever accepted for binding `b`, in order, and `kept(b)` how many of them
      the table may hold: 2000, and one more for every append since that died before its DELETE. */
  ghost predicate Represents(t: Table, accepted: string -> Log, kept: string -> nat) {
    && Ascending(t.rows)
    && (forall e <- t.rows :: e.sequence < t.next)
    && (forall b: string ::
          kept(b) >= 2000 && Of(t.rows, b) == Newest(accepted(b), kept(b)) && UniqueCursors(Of(t.rows, b)))
  }

  ghost function Keeping(kept: string -> nat, b: string, n: nat): string -> nat {
    (c: string) => if c == b then n else kept(c)
  }

  lemma {:induction false} OfMembers(rows: seq<Event>, b: string)
    ensures forall e :: e in Of(rows, b) <==> e in rows && e.binding == b
  {
    if rows != [] {
      var front, last := rows[..|rows| - 1], rows[|rows| - 1];
      OfMembers(front, b);
      assert rows == front + [last];
      assert Of(rows, b) == Of(front, b) + if last.binding == b then [last] else [];
      hide Of;
    }
  }

  lemma LastIsGreatest(rows: seq<Event>, e: Event)
    requires Ascending(rows) && rows != [] && e in rows[..|rows| - 1]
    ensures e.sequence < rows[|rows| - 1].sequence
  {
    var i :| 0 <= i < |rows| - 1 && rows[i] == e;
  }

  lemma {:induction false} OfAscending(rows: seq<Event>, b: string)
    requires Ascending(rows)
    ensures Ascending(Of(rows, b))
  {
    if rows != [] {
      var front, last := rows[..|rows| - 1], rows[|rows| - 1];
      OfAscending(front, b);
      OfMembers(front, b);
      assert Of(rows, b) == Of(front, b) + if last.binding == b then [last] else [];
      hide Of;
      forall e | e in Of(front, b) ensures e.sequence < last.sequence {
        LastIsGreatest(rows, e);
      }
    }
  }

  lemma {:induction false} RetainMembers(rows: seq<Event>, b: string, keep: set<nat>)
    ensures forall e :: e in Retain(rows, b, keep) <==> e in rows && (e.binding == b ==> e.sequence in keep)
    ensures Ascending(rows) ==> Ascending(Retain(rows, b, keep))
  {
    if rows != [] {
      var front, last := rows[..|rows| - 1], rows[|rows| - 1];
      RetainMembers(front, b, keep);
      assert rows == front + [last];
      assert Ascending(rows) ==> Ascending(front);
    }
  }

  /** The rows of a sequence whose number is in `keep`. */
  function Picked(rows: seq<Event>, keep: set<nat>): seq<Event> {
    if rows == [] then []
    else Picked(rows[..|rows| - 1], keep) + (if rows[|rows| - 1].sequence in keep then [rows[|rows| - 1]] else [])
  }

  lemma {:induction false} OfRetain(rows: seq<Event>, b: string, keep: set<nat>, c: string)
    ensures Of(Retain(rows, b, keep), c) == if c == b then Picked(Of(rows, b), keep) else Of(rows, c)
  {
    if rows != [] {
      var front, last := rows[..|rows| - 1], rows[|rows| - 1];
      OfRetain(front, b, keep, c);
      OfSum(Retain(front, b, keep), if last.binding == b && last.sequence !in keep then [] else [last], c);
      PickedSum(Of(front, b), last, keep);
      assert Of(front, c) + [] == Of(front, c);
    }
  }

  lemma OfSum(rows: seq<Event>, more: seq<Event>, c: string)
    requires |more| <= 1
    ensures Of(rows + more, c) == Of(rows, c) + (if more != [] && more[0].binding == c then more else [])
  {
    if more == [] {
      assert rows + more == rows;
      assert Of(rows, c) + [] == Of(rows, c);
    } else {
      assert more == [more[0]];
      assert (rows + more)[..|rows + more| - 1] == rows;
      assert Of(rows, c) + [] == Of(rows, c);
    }
  }

  lemma PickedSum(rows: seq<Event>, last: Event, keep: set<nat>)
    ensures Picked(rows + [last], keep) == Picked(rows, keep) + (if last.sequence in keep then [last] else [])
  {
    assert (rows + [last])[..|rows|] == rows;
  }

  /** Keeping the sequence numbers of the newest k rows keeps exactly those rows. */
  lemma {:induction false} PickedNewest(rows: seq<Event>, k: nat)
    requires Ascending(rows)
    ensures Picked(rows, Sequences(Newest(rows, k))) == Newest(rows, k)
  {
    PickedFrom(rows, if |rows| <= k then 0 else |rows| - k);
  }

  lemma {:induction false} PickedFrom(rows: seq<Event>, from: nat)
    requires Ascending(rows) && from <= |rows|
    ensures Picked(rows, Sequences(rows[from..])) == rows[from..]
  {
    var keep := Sequences(rows[from..]);
    forall i | 0 <= i < |rows| ensures rows[i].sequence in keep <==> from <= i {
      if from <= i {
        assert rows[from..][i - from] == rows[i];
      }
    }
    PickedBy(rows, from, keep, |rows|);
    assert rows[..|rows|] == rows;
  }

  lemma {:induction false} PickedBy(rows: seq<Event>, from: nat, keep: set<nat>, n: nat)
    requires from <= |rows| && n <= |rows|
    requires forall i :: 0 <= i < |rows| ==> (rows[i].sequence in keep <==> from <= i)
    ensures Picked(rows[..n], keep) == if n <= from then [] else rows[from..n]
  {
    if n > 0 {
      PickedBy(rows, from, keep, n - 1);
      assert rows[..n] == rows[..n - 1] + [rows[n - 1]];
      PickedSum(rows[..n - 1], rows[n - 1], keep);
      hide Picked;
      assert from < n ==> rows[from..n] == rows[from..n - 1] + [rows[n - 1]];
    }
  }

  /** What one append does to each binding's rows: the binding keeps its newest 2000, others are untouched. */
  lemma AppendRows(t: Table, b: string, kind: string, message: string, cursor: Option<string>, c: string)
    requires Ascending(t.rows) && (forall e <- t.rows :: e.sequence < t.next)
    requires !Ignored(t, b, StoredCursor(cursor))
    ensures Of(Append(t, b, kind, message, cursor).0.rows, c) ==
            if c == b then Newest(Of(t.rows, b) + [NewEvent(t, b, kind, message, cursor)], RETAINED) else Of(t.rows, c)
    ensures Ascending(Append(t, b, kind, message, cursor).0.rows)
    ensures forall e <- Append(t, b, kind, message, cursor).0.rows :: e.sequence < t.next + 1
  {
    var e := NewEvent(t, b, kind, message, cursor);
    var rows := t.rows + [e];
    var keep := Sequences(Newest(Of(rows, b), RETAINED));
    assert Ascending(rows);
    OfRetain(rows, b, keep, c);
    OfSum(t.rows, [e], c);
    OfSum(t.rows, [e], b);
    OfAscending(rows, b);
    PickedNewest(Of(rows, b), RETAINED);
    RetainMembers(rows, b, keep);
  }

  ghost function Extended(accepted: string -> Log, b: string, e: Event): string -> Log {
    (c: string) => if c == b then accepted(c) + [e] else accepted(c)
  }

  /** Refinement: an accepted event extends its binding's log by one, an ignored one changes nothing,
      and the stored rows are the newest 2000 of that log; those of every other binding stay as they are. */
  lemma AppendRefines(t: Table, accepted: string -> Log, kept: string -> nat,
                      b: string, kind: string, message: string, cursor: Option<string>)
    requires Represents(t, accepted, kept)
    ensures var (u, e) := Append(t, b, kind, message, cursor);
            if Repeated(t.rows, b, cursor) then u == t && e == None
            else && e.Some? && e.value.sequence == t.next && Records(e.value, b, kind, message, cursor)
                 && Represents(u, Extended(accepted, b, e.value), Keeping(kept, b, 2000))
  {
    AppendRecords(t, b, kind, message, cursor);
    if !Ignored(t, b, StoredCursor(cursor)) {
      var u := Append(t, b, kind, message, cursor).0;
      var e := NewEvent(t, b, kind, message, cursor);
      forall c: string
        ensures Of(u.rows, c) == Newest(Extended(accepted, b, e)(c), Keeping(kept, b, RETAINED)(c))
                && UniqueCursors(Of(u.rows, c))
      {
        AppendRows(t, b, kind, message, cursor, c);
        if c == b {
          NewestOfNewest(accepted(b), [e], kept(b), RETAINED);
          OfMembers(t.rows, b);
          CursorsStayUnique(Of(t.rows, b), e, RETAINED);
        }
      }
      AppendRows(t, b, kind, message, cursor, b);
    }
  }

  /** What the INSERT alone does to each binding's rows. */
  lemma InsertRows(t: Table, b: string, kind: string, message: string, cursor: Option<string>, c: string)
    requires Ascending(t.rows) && (forall e <- t.rows :: e.sequence < t.next)
    requires !Ignored(t, b, StoredCursor(cursor)) && UniqueCursors(Of(t.rows, c))
    ensures var u, e := Insert(t, b, kind, message, cursor), NewEvent(t, b, kind, message, cursor);
            Of(u.rows, c) == (if c == b then Of(t.rows, b) + [e] else Of(t.rows, c)) && UniqueCursors(Of(u.rows, c))
  {
    var e := NewEvent(t, b, kind, message, cursor);
    OfSum(t.rows, [e], c);
    if c == b {
      OfMembers(t.rows, b);
      hide Of;
      CursorsStayUnique(Of(t.rows, b), e, |Of(t.rows, b)| + 1);
    }
  }

  lemma NewestPlusOne<T>(s: seq<T>, x: T, k: nat)
    ensures Newest(s, k) + [x] == Newest(s + [x], k + 1)
  {
  }

  /** If the process dies between the INSERT and the DELETE, one row more than before is kept, until the
      next append to the binding. */
  lemma InterruptedAppendRefines(t: Table, accepted: string -> Log, kept: string -> nat,
                                 b: string, kind: string, message: string, cursor: Option<string>)
    requires Represents(t, accepted, kept) && !Repeated(t.rows, b, cursor)
    ensures var e := NewEvent(t, b, kind, message, cursor);
            Records(e, b, kind, message, cursor) &&
            Represents(Insert(t, b, kind, message, cursor), Extended(accepted, b, e), Keeping(kept, b, kept(b) + 1))
  {
    AppendRecords(t, b, kind, message, cursor);
    assert !Ignored(t, b, StoredCursor(cursor));
    hide *;
    InsertRefines(t, accepted, kept, b, kind, message, cursor);
  }

  lemma InsertRefines(t: Table, accepted: string -> Log, kept: string -> nat,
                      b: string, kind: string, message: string, cursor: Option<string>)
    requires Represents(t, accepted, kept) && !Ignored(t, b, StoredCursor(cursor))
    ensures var e := NewEvent(t, b, kind, message, cursor);
            Represents(Insert(t, b, kind, message, cursor), Extended(accepted, b, e), Keeping(kept, b, kept(b) + 1))
  {
    var e := NewEvent(t, b, kind, message, cursor);
    var u := Insert(t, b, kind, message, cursor);
    forall c: string
      ensures Of(u.rows, c) == Newest(Extended(accepted, b, e)(c), Keeping(kept, b, kept(b) + 1)(c))
              && UniqueCursors(Of(u.rows, c))
    {
      InsertRows(t, b, kind, message, cursor, c);
      NewestPlusOne(accepted(b), e, kept(b));
    }
    hide Of;
    hide UniqueCursors;
    hide Newest;
  }

  lemma NewestOfNewest<T>(s: seq<T>, t: seq<T>, outer: nat, inner: nat)
    requires inner <= outer
    ensures Newest(Newest(s, outer) + t, inner) == Newest(s + t, inner)
  {
  }

  lemma CursorsStayUnique(rows: seq<Event>, e: Event, k: nat)
    requires UniqueCursors(rows) && (e.cursor.Some? ==> forall x <- rows :: x.cursor != e.cursor)
    ensures UniqueCursors(Newest(rows + [e], k))
  {
    var n := Newest(rows + [e], k);
    var shift := |rows| + 1 - |n|;
    forall i, j | 0 <= i < j < |n| && n[i].cursor.Some? ensures n[i].cursor != n[j].cursor {
      assert n[i] == (rows + [e])[i + shift] && n[j] == (rows + [e])[j + shift];
      assert n[i] in rows;
    }
  }

  lemma EmptyRepresents()
    ensures Represents(Table([], 1), b => [], b => RETAINED)
  {
  }

  lemma {:induction false} TwiceReversed<T>(s: seq<T>, n: nat, taken: seq<T>, r: seq<T>)
    requires |taken| == |r| == n <= |s|
    requires forall k :: 0 <= k < n ==> taken[k] == s[|s| - 1 - k]
    requires forall i :: 0 <= i < n ==> r[i] == taken[n - 1 - i]
    ensures r == s[|s| - n..]
  {
    forall i | 0 <= i < n ensures r[i] == s[|s| - n..][i] {
      assert r[i] == taken[n - 1 - i];
    }
  }

  lemma {:induction false} ReverseTakeReverse<T>(s: seq<T>, limit: nat)
    ensures Reverse(Reverse(s)[..Min(limit, |s|)]) == Newest(s, limit)
  {
    var n := Min(limit, |s|);
    var back := Reverse(s);
    var taken := back[..n];
    var r := Reverse(taken);
    hide Reverse;
    assert forall k :: 0 <= k < n ==> taken[k] == back[k];
    TwiceReversed(s, n, taken, r);
    assert s[|s| - n..] == Newest(s, limit);
  }

  lemma NewestTwice<T>(s: seq<T>, outer: nat, inner: nat)
    ensures Newest(Newest(s, outer), inner) == Newest(s, Min(inner, outer))
  {
  }

  /** Listing k events gives the newest k ever accepted for the binding, oldest first, but no more than are
      kept; for k up to 2000 that is the newest k whether or not an append was interrupted. */
  lemma ListIsNewestAccepted(t: Table, accepted: string -> Log, kept: string -> nat, b: string, limit: nat)
    requires Represents(t, accepted, kept)
    ensures ListEvents(t, b, limit) == Newest(accepted(b), Min(limit, kept(b)))
    ensures limit <= 2000 ==> ListEvents(t, b, limit) == Newest(accepted(b), limit)
  {
    ReverseTakeReverse(Of(t.rows, b), limit);
    NewestTwice(accepted(b), kept(b), limit);
  }

  /** The store object of server-agent.store.ts, event part. */
  class RuntimeEventStore {
    var table: Table
    ghost var accepted: string -> Log
    ghost var kept: string -> nat

    ghost predicate Ok()
      reads this
    {
      Represents(table, accepted, kept)
    }

    constructor ()
      ensures Ok() && forall b: string :: accepted(b) == []
    {
      table := Table([], 1);
      accepted, kept := b => [], b => RETAINED;
      new;
      EmptyRepresents();
    }

    method AppendEvent(binding: string, kind: string, message: string,
                       cursor: Option<string>)
      returns (event: Option<Event>)
      requires Ok()
      modifies this
      ensures Ok()
      ensures event.None? <==> Repeated(old(table).rows, binding, cursor)
      ensures event.None? ==> table == old(table) && accepted == old(accepted) && kept == old(kept)
      ensures event.Some? ==>
                && Records(event.value, binding, kind, message, cursor) && event.value.sequence == old(table).next
                && accepted == Extended(old(accepted), binding, event.value)
                && kept == Keeping(old(kept), binding, 2000)
    {
      AppendRefines(table, accepted, kept, binding, kind, message, cursor);
      AppendRecords(table, binding, kind, message, cursor);
      var stored := StoredCursor(cursor);
      if stored.Some? && exists e <- table.rows :: e.binding == binding && e.cursor == stored {
        return None;
      }
      var e := NewEvent(table, binding, kind, message, cursor);
      table := Insert(table, binding, kind, message, cursor);
      table := table.(rows := Retain(table.rows, binding, Sequences(Newest(Of(table.rows, binding), RETAINED))));
      accepted, kept := Extended(accepted, binding, e), Keeping(kept, binding, RETAINED);
      return Some(e);
    }

    method List(binding: string, limit: nat) returns (events: seq<Event>)
      requires Ok()
      ensures events == Newest(accepted(binding), Min(limit, kept(binding)))
    {
      ListIsNewestAccepted(table, accepted, kept, binding, limit);
      events := ListEvents(table, binding, limit);
    }
  }
}
