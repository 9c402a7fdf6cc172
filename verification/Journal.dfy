/** Journal delivery as stop-and-wait replication: the agent's stream sends one line, waits for
    `log.ack`, persists the cursor, and goes on; the panel stores lines by cursor and acknowledges.
    Streams of earlier connections may still be running beside the current one.

    A cursor is represented by the number of journal lines up to and including the one it names, so
    that 0 stands for a cursor before the modelled journal. */
module Journal {
  import opened Base
  import E = RuntimeEvents

  type Session = nat

  /** Where one stream stands with the line it is delivering. */
  datatype Phase =
    | Stopped                     // journalctl not running: the cursor is read again before it starts
    | Ready
    | Waiting(acked: bool)        // in sendLog, the channel in logAcks closed or not
    | Confirmed                   // sendLog has returned nil, persistCursor not yet called

  datatype Stream = Stream(session: Session, next: nat, phase: Phase)

  /** `inserted`: the lines the panel has inserted, in order, repetitions included (history). */
  datatype World = World(
    journal: seq<string>,
    streams: seq<Stream>, memory: Option<nat>, disk: nat, sessions: nat,
    up: map<Session, seq<nat>>, down: map<Session, seq<nat>>,
    table: E.Table, inserted: seq<nat>)

  datatype Action =
    | Grow(cursor: string)
    | Boot
    | Crash(landing: Option<nat>)
    | Connect
    | Begin(begun: nat)
    | Leave(left: nat)
    | End(ended: nat)
    | Send(sent: nat, wire: bool)
    | Arrive(from: Session, kind: string, text: string, ackLeaves: bool)
    | Lose(lost: Session)
    | Acknowledge(to: Session)
    | Confirm(confirmed: nat)
    | GiveUp(given: nat)
    | Persist(persisted: nat, write: WriteOutcome)
    | Publish(otherBinding: string, otherKind: string, otherText: string)
    // the panel dies between the INSERT and the DELETE of `appendEvent`
    | ArriveTorn(tornFrom: Session, tornKind: string, tornText: string)
    | PublishTorn(tornBinding: string, publishedKind: string, publishedText: string)

  /** A run starts with a valid persisted cursor at line `base` and nothing inserted since. */
  ghost predicate IsStart(w: World, binding: string, base: nat) {
    && JournalOk(w.journal) && base <= |w.journal|
    && w.streams == [] && w.memory == None && w.disk == base && w.sessions == 0
    && w.up == map[] && w.down == map[] && w.inserted == []
    && (forall e <- w.table.rows :: e.binding == binding && e.cursor.Some? ==> e.cursor.value in w.journal[..base])
  }

  /** journald gives every line its own cursor, shorter than what the panel keeps of it. */
  ghost predicate JournalOk(journal: seq<string>) {
    && (forall c <- journal :: c != "" && |c| <= E.MAX_CURSOR)
    && (forall i, j :: 0 <= i < j < |journal| ==> journal[i] != journal[j])
  }

  ghost predicate Enabled(w: World, a: Action) {
    match a
    case Grow(cursor) => JournalOk(w.journal + [cursor])
    case Boot => w.memory.None?
    case Crash(landing) =>
      && w.memory.Some?
      && (landing.Some? ==> landing.value < |w.streams| && w.streams[landing.value].phase == Confirmed)
    case Connect => w.memory.Some?
    case Begin(i) => w.memory.Some? && i < |w.streams| && w.streams[i].phase == Stopped
    case Leave(i) => i < |w.streams|
    case End(i) => i < |w.streams| && w.streams[i].phase == Ready
    case Send(i, _) => i < |w.streams| && w.streams[i].phase == Ready && w.streams[i].next < |w.journal|
    case Arrive(s, _, _, _) => s in w.up && w.up[s] != [] && w.up[s][0] < |w.journal|
    case Lose(s) => s in w.up && w.up[s] != []
    case Acknowledge(s) => s in w.down && w.down[s] != []
    case Confirm(i) => i < |w.streams| && w.streams[i].phase == Waiting(true)
    case GiveUp(i) => i < |w.streams| && w.streams[i].phase.Waiting?
    case Persist(i, _) => w.memory.Some? && i < |w.streams| && w.streams[i].phase == Confirmed
    case Publish(_, _, _) => true
    case ArriveTorn(s, _, _) => s in w.up && w.up[s] != [] && w.up[s][0] < |w.journal|
    case PublishTorn(_, _, _) => true
  }

  function Remove(streams: seq<Stream>, i: nat): seq<Stream>
    requires i < |streams|
  {
    streams[..i] + streams[i + 1..]
  }

  /** `ackLog`: closes the channel of this cursor in this session's `logAcks`, if there is one. */
  function Acked(streams: seq<Stream>, session: Session, line: nat): (r: seq<Stream>)
    ensures |r| == |streams|
  {
    seq(|streams|, i requires 0 <= i < |streams| =>
      var s := streams[i];
      if s.session == session && s.next == line && s.phase.Waiting? then s.(phase := Waiting(true)) else s)
  }

  /** `log` of the panel: insert or ignore, then acknowledge either way. */
  ghost function Arrived(w: World, binding: string, a: Action): World
    requires a.Arrive? && Enabled(w, a)
  {
    var line := w.up[a.from][0];
    var (table, event) := E.Append(w.table, binding, a.kind, a.text, Some(w.journal[line]));
    w.(up := w.up[a.from := w.up[a.from][1..]],
       down := if a.ackLeaves && a.from in w.down then w.down[a.from := w.down[a.from] + [line]] else w.down,
       table := table,
       inserted := if event.Some? then w.inserted + [line] else w.inserted)
  }

  /** `log` of a panel that dies once the line is stored: nothing is deleted, nothing acknowledged. */
  ghost function ArrivedTorn(w: World, binding: string, a: Action): World
    requires a.ArriveTorn? && Enabled(w, a)
  {
    var line := w.up[a.tornFrom][0];
    var v := w.(up := w.up[a.tornFrom := w.up[a.tornFrom][1..]]);
    if E.Ignored(w.table, binding, E.StoredCursor(Some(w.journal[line]))) then v
    else v.(table := E.Insert(w.table, binding, a.tornKind, a.tornText, Some(w.journal[line])),
            inserted := w.inserted + [line])
  }

  /** `saveJournalCursor`: a failed write restores the cursor in memory. */
  function Saved(w: World, line: nat, write: WriteOutcome): World {
    if w.memory == Some(line + 1) then w
    else w.(memory := if write == Written then Some(line + 1) else w.memory,
            disk := if write == FailedBeforeRename then w.disk else line + 1)
  }

  ghost function Next(w: World, binding: string, a: Action): World
    requires Enabled(w, a)
  {
    match a
    case Grow(cursor) => w.(journal := w.journal + [cursor])
    case Boot => w.(memory := Some(w.disk))
    case Crash(landing) =>
      w.(streams := [], memory := None, disk := if landing.Some? then w.streams[landing.value].next + 1 else w.disk)
    case Connect =>
      w.(streams := w.streams + [Stream(w.sessions, 0, Stopped)], sessions := w.sessions + 1,
         up := w.up[w.sessions := []], down := w.down[w.sessions := []])
    case Begin(i) => w.(streams := w.streams[i := w.streams[i].(next := w.memory.value, phase := Ready)])
    case Leave(i) => w.(streams := Remove(w.streams, i))
    // journalctl ends between two lines: the loop starts over and reads the cursor again
    case End(i) => w.(streams := w.streams[i := w.streams[i].(phase := Stopped)])
    case Send(i, wire) =>
      var s := w.streams[i];
      w.(streams := w.streams[i := s.(phase := Waiting(false))],
         up := if wire && s.session in w.up then w.up[s.session := w.up[s.session] + [s.next]] else w.up)
    case Arrive(_, _, _, _) => Arrived(w, binding, a)
    case Lose(s) => w.(up := w.up[s := w.up[s][1..]])
    case Acknowledge(s) => w.(streams := Acked(w.streams, s, w.down[s][0]), down := w.down[s := w.down[s][1..]])
    case Confirm(i) => w.(streams := w.streams[i := w.streams[i].(phase := Confirmed)])
    case GiveUp(i) => w.(streams := w.streams[i := w.streams[i].(phase := Stopped)])
    case Persist(i, write) =>
      var s := w.streams[i];
      var failed := w.memory != Some(s.next + 1) && write != Written;
      Saved(w.(streams := w.streams[i := if failed then s.(phase := Stopped)
                                    else s.(next := s.next + 1, phase := Ready)]),
            s.next, write)
    case Publish(other, kind, text) => w.(table := E.Append(w.table, other, kind, text, None).0)
    case ArriveTorn(_, _, _) => ArrivedTorn(w, binding, a)
    case PublishTorn(other, kind, text) => w.(table := E.Insert(w.table, other, kind, text, None))
  }

  // ---------- agreement ----------

  /** The lines of `inserted` that were not in it before. */
  function FirstTimes(inserted: seq<nat>): seq<nat> {
    if inserted == [] then []
    else
      var front, last := inserted[..|inserted| - 1], inserted[|inserted| - 1];
      FirstTimes(front) + (if last in front then [] else [last])
  }

  /** One more than the highest line inserted, counting everything before `base` as stored. */
  function Frontier(base: nat, inserted: seq<nat>): nat {
    base + |FirstTimes(inserted)|
  }

  /** First-time insertions are base, base + 1, ... without a gap, and nothing else is inserted. */
  ghost predicate GapFree(base: nat, inserted: seq<nat>) {
    && (forall i :: 0 <= i < |FirstTimes(inserted)| ==> FirstTimes(inserted)[i] == base + i)
    && (forall k: nat :: k in inserted <==> base <= k < Frontier(base, inserted))
  }

  ghost predicate StreamOk(s: Stream, low: nat, n: nat) {
    match s.phase
    case Stopped => true
    case Ready => low <= s.next <= n
    case Waiting(acked) => low <= s.next <= n && (acked ==> s.next < n)
    case Confirmed => low <= s.next < n
  }

  ghost predicate Inv(w: World, binding: string, base: nat) {
    var n := Frontier(base, w.inserted);
    && JournalOk(w.journal) && n <= |w.journal|
    && GapFree(base, w.inserted)
    && base <= w.disk <= n
    && (w.memory.Some? ==> base <= w.memory.value <= n)
    && (forall s <- w.streams :: StreamOk(s, base, n))
    && (forall s <- w.up :: forall k <- w.up[s] :: base <= k <= n)
    && (forall s <- w.down :: forall k <- w.down[s] :: base <= k < n)
    && (forall e <- w.table.rows :: e.binding == binding && e.cursor.Some? ==>
          exists k :: 0 <= k < n && w.journal[k] == e.cursor.value)
  }

  lemma StartInv(w: World, binding: string, base: nat)
    requires IsStart(w, binding, base)
    ensures Inv(w, binding, base)
  {
    forall e <- w.table.rows | e.binding == binding && e.cursor.Some?
      ensures exists k :: 0 <= k < base && w.journal[k] == e.cursor.value
    {
      var k :| 0 <= k < |w.journal[..base]| && w.journal[..base][k] == e.cursor.value;
      assert w.journal[k] == e.cursor.value;
    }
  }

  /** Inserting line `k` at or below the frontier: either a repetition, or exactly the next line. */
  lemma InsertLine(base: nat, inserted: seq<nat>, k: nat)
    requires GapFree(base, inserted) && base <= k <= Frontier(base, inserted)
    ensures GapFree(base, inserted + [k])
    ensures Frontier(base, inserted + [k]) == if k == Frontier(base, inserted) then k + 1 else Frontier(base, inserted)
  {
    var all := inserted + [k];
    assert all[..|all| - 1] == inserted && all[|all| - 1] == k;
    assert FirstTimes(all) == FirstTimes(inserted) + (if k in inserted then [] else [k]);
    forall x: nat ensures x in all <==> x in inserted || x == k {
    }
  }

  /** Append to the table keeps rows it does not add. */
  lemma AppendMembers(t: E.Table, b: string, kind: string, text: string, cursor: Option<string>)
    ensures forall e <- E.Append(t, b, kind, text, cursor).0.rows ::
              e in t.rows || (e.binding == b && e.cursor == E.StoredCursor(cursor)
                              && E.Append(t, b, kind, text, cursor).1.Some?)
  {
    var rows := t.rows + [E.NewEvent(t, b, kind, text, cursor)];
    E.RetainMembers(rows, b, E.Sequences(Newest(E.Of(rows, b), E.RETAINED)));
  }

  lemma TableKeeps(w: World, v: World, binding: string, n: nat)
    requires forall e <- w.table.rows :: e.binding == binding && e.cursor.Some? ==>
               exists k :: 0 <= k < n && k < |w.journal| && w.journal[k] == e.cursor.value
    requires w.journal <= v.journal && n <= |w.journal|
    requires forall e <- v.table.rows :: e in w.table.rows || e.binding != binding || e.cursor.None?
    ensures forall e <- v.table.rows :: e.binding == binding && e.cursor.Some? ==>
              exists k :: 0 <= k < n && v.journal[k] == e.cursor.value
  {
    forall e <- v.table.rows | e.binding == binding && e.cursor.Some?
      ensures exists k :: 0 <= k < n && v.journal[k] == e.cursor.value
    {
      var k :| 0 <= k < n && w.journal[k] == e.cursor.value;
      assert v.journal[k] == e.cursor.value;
    }
  }

  // ---------- the steps ----------

  lemma ArriveKeeps(w: World, binding: string, base: nat, a: Action)
    requires Inv(w, binding, base) && Enabled(w, a) && a.Arrive?
    ensures Inv(Next(w, binding, a), binding, base)
  {
    var n := Frontier(base, w.inserted);
    var line := w.up[a.from][0];
    assert line in w.up[a.from] && w.journal[line] in w.journal;
    var v := Next(w, binding, a);
    var cursor := Some(w.journal[line]);
    assert E.StoredCursor(cursor) == cursor;
    AppendMembers(w.table, binding, a.kind, a.text, cursor);
    if E.Ignored(w.table, binding, cursor) {
      IgnoredWasInserted(w, binding, base, line);
      assert v.inserted == w.inserted && line < n;
    } else {
      InsertLine(base, w.inserted, line);
      assert v.inserted == w.inserted + [line];
    }
    var m := Frontier(base, v.inserted);
    assert n <= m && line < m <= |w.journal|;
    ChannelsKeep(w, v, a.from, base, n, m);
    forall s <- v.streams ensures StreamOk(s, base, m) {
      assert StreamOk(s, base, n);
    }
    forall e <- v.table.rows | e.binding == binding && e.cursor.Some?
      ensures exists k :: 0 <= k < m && v.journal[k] == e.cursor.value
    {
      if e in w.table.rows {
        var k :| 0 <= k < n && w.journal[k] == e.cursor.value;
        assert v.journal[k] == e.cursor.value;
      } else {
        assert v.journal[line] == e.cursor.value;
      }
    }
  }

  /** A line the table ignores was inserted before: cursors name lines. */
  lemma IgnoredWasInserted(w: World, binding: string, base: nat, line: nat)
    requires Inv(w, binding, base) && line < |w.journal|
    requires E.Ignored(w.table, binding, Some(w.journal[line]))
    ensures line < Frontier(base, w.inserted)
  {
    var e :| e in w.table.rows && e.binding == binding && e.cursor == Some(w.journal[line]);
    var k :| 0 <= k < Frontier(base, w.inserted) && w.journal[k] == e.cursor.value;
    assert k == line;
  }

  lemma ArriveTornKeeps(w: World, binding: string, base: nat, a: Action)
    requires Inv(w, binding, base) && Enabled(w, a) && a.ArriveTorn?
    ensures Inv(Next(w, binding, a), binding, base)
  {
    var n := Frontier(base, w.inserted);
    var line := w.up[a.tornFrom][0];
    assert line in w.up[a.tornFrom] && w.journal[line] in w.journal;
    var v := Next(w, binding, a);
    var cursor := Some(w.journal[line]);
    assert E.StoredCursor(cursor) == cursor;
    if E.Ignored(w.table, binding, cursor) {
      IgnoredWasInserted(w, binding, base, line);
      assert v.inserted == w.inserted && line < n;
    } else {
      InsertLine(base, w.inserted, line);
      assert v.inserted == w.inserted + [line];
    }
    var m := Frontier(base, v.inserted);
    assert n <= m && line < m <= |w.journal|;
    ChannelsKeep(w, v, a.tornFrom, base, n, m);
    forall s <- v.streams ensures StreamOk(s, base, m) {
      assert StreamOk(s, base, n);
    }
    forall e <- v.table.rows | e.binding == binding && e.cursor.Some?
      ensures exists k :: 0 <= k < m && v.journal[k] == e.cursor.value
    {
      if e in w.table.rows {
        var k :| 0 <= k < n && w.journal[k] == e.cursor.value;
        assert v.journal[k] == e.cursor.value;
      } else {
        assert v.journal[line] == e.cursor.value;
      }
    }
  }

  lemma ChannelsKeep(w: World, v: World, from: Session, base: nat, n: nat, m: nat)
    requires from in w.up && w.up[from] != [] && n <= m && base <= w.up[from][0] < m
    requires forall s <- w.up :: forall k <- w.up[s] :: base <= k <= n
    requires forall s <- w.down :: forall k <- w.down[s] :: base <= k < n
    requires v.up == w.up[from := w.up[from][1..]]
    requires v.down == w.down || (from in w.down && v.down == w.down[from := w.down[from] + [w.up[from][0]]])
    ensures forall s <- v.up :: forall k <- v.up[s] :: base <= k <= m
    ensures forall s <- v.down :: forall k <- v.down[s] :: base <= k < m
  {
    forall s <- v.up ensures forall k <- v.up[s] :: base <= k <= m {
      forall k <- v.up[s] ensures base <= k <= m {
        assert k in w.up[s];
      }
    }
    forall s <- v.down ensures forall k <- v.down[s] :: base <= k < m {
      forall k <- v.down[s] ensures base <= k < m {
        assert k in w.down[s] || k == w.up[from][0];
      }
    }
  }

  /** The steps that only move streams and frames. */
  lemma StreamsKeep(w: World, v: World, base: nat, n: nat, i: nat, s: Stream)
    requires i < |w.streams| && v.streams == w.streams[i := s] && StreamOk(s, base, n)
    requires forall x <- w.streams :: StreamOk(x, base, n)
    ensures forall x <- v.streams :: StreamOk(x, base, n)
  {
  }

  lemma SendKeeps(w: World, binding: string, base: nat, a: Action)
    requires Inv(w, binding, base) && Enabled(w, a) && a.Send?
    ensures Inv(Next(w, binding, a), binding, base)
  {
    var n, v := Frontier(base, w.inserted), Next(w, binding, a);
    var s := w.streams[a.sent];
    assert StreamOk(s, base, n);
    StreamsKeep(w, v, base, n, a.sent, s.(phase := Waiting(false)));
    forall t <- v.up ensures forall k <- v.up[t] :: base <= k <= n {
      forall k <- v.up[t] ensures base <= k <= n {
        assert k in w.up[t] || k == s.next;
      }
    }
  }

  lemma AcknowledgeKeeps(w: World, binding: string, base: nat, a: Action)
    requires Inv(w, binding, base) && Enabled(w, a) && a.Acknowledge?
    ensures Inv(Next(w, binding, a), binding, base)
  {
    var n, v := Frontier(base, w.inserted), Next(w, binding, a);
    var line := w.down[a.to][0];
    assert line in w.down[a.to];
    forall x <- v.streams ensures StreamOk(x, base, n) {
      var i :| 0 <= i < |v.streams| && v.streams[i] == x;
      assert StreamOk(w.streams[i], base, n);
    }
    forall t <- v.down ensures forall k <- v.down[t] :: base <= k < n {
      forall k <- v.down[t] ensures base <= k < n {
        assert k in w.down[t];
      }
    }
  }

  lemma PersistKeeps(w: World, binding: string, base: nat, a: Action)
    requires Inv(w, binding, base) && Enabled(w, a) && a.Persist?
    ensures Inv(Next(w, binding, a), binding, base)
  {
    var n, v := Frontier(base, w.inserted), Next(w, binding, a);
    assert StreamOk(w.streams[a.persisted], base, n);
    StreamsKeep(w, v, base, n, a.persisted, v.streams[a.persisted]);
  }

  lemma LocalKeeps(w: World, binding: string, base: nat, a: Action)
    requires Inv(w, binding, base) && Enabled(w, a)
    requires a.Boot? || a.Crash? || a.Connect? || a.Begin? || a.Leave? || a.End? || a.Confirm? || a.GiveUp?
    ensures Inv(Next(w, binding, a), binding, base)
  {
    var n, v := Frontier(base, w.inserted), Next(w, binding, a);
    match a {
      case Crash(landing) => if landing.Some? { assert StreamOk(w.streams[landing.value], base, n); }
      case Begin(i) => StreamsKeep(w, v, base, n, i, v.streams[i]);
      case Confirm(i) =>
        assert StreamOk(w.streams[i], base, n);
        StreamsKeep(w, v, base, n, i, v.streams[i]);
      case GiveUp(i) => StreamsKeep(w, v, base, n, i, v.streams[i]);
      case End(i) => StreamsKeep(w, v, base, n, i, v.streams[i]);
      case Leave(i) => assert forall s <- v.streams :: s in w.streams;
      case _ =>
    }
  }

  lemma OutsideKeeps(w: World, binding: string, base: nat, a: Action)
    requires Inv(w, binding, base) && Enabled(w, a) && (a.Grow? || a.Lose? || a.Publish? || a.PublishTorn?)
    ensures Inv(Next(w, binding, a), binding, base)
  {
    var n, v := Frontier(base, w.inserted), Next(w, binding, a);
    if a.Publish? {
      AppendMembers(w.table, a.otherBinding, a.otherKind, a.otherText, None);
    }
    TableKeeps(w, v, binding, n);
    forall t <- v.up ensures forall k <- v.up[t] :: base <= k <= n {
      forall k <- v.up[t] ensures base <= k <= n {
        assert k in w.up[t];
      }
    }
  }

  lemma StepKeepsInv(w: World, binding: string, base: nat, a: Action)
    requires Inv(w, binding, base) && Enabled(w, a)
    ensures Inv(Next(w, binding, a), binding, base)
  {
    match a {
      case Arrive(_, _, _, _) => ArriveKeeps(w, binding, base, a);
      case Send(_, _) => SendKeeps(w, binding, base, a);
      case Acknowledge(_) => AcknowledgeKeeps(w, binding, base, a);
      case Persist(_, _) => PersistKeeps(w, binding, base, a);
      case Grow(_) => OutsideKeeps(w, binding, base, a);
      case Lose(_) => OutsideKeeps(w, binding, base, a);
      case Publish(_, _, _) => OutsideKeeps(w, binding, base, a);
      case ArriveTorn(_, _, _) => ArriveTornKeeps(w, binding, base, a);
      case PublishTorn(_, _, _) => OutsideKeeps(w, binding, base, a);
      case _ => LocalKeeps(w, binding, base, a);
    }
  }

  /** A stream starts a line only at the cursor in memory, or after it has persisted the line before; a failed
      write stops it. */
  lemma ReadyOnlyAfter(w: World, binding: string, a: Action, i: nat)
    requires Enabled(w, a) && i < |w.streams| && !a.Leave? && !a.Crash?
    requires w.streams[i].phase != Ready && Next(w, binding, a).streams[i].phase == Ready
    ensures || (a == Begin(i) && w.memory == Some(Next(w, binding, a).streams[i].next))
            || (a.Persist? && a.persisted == i && Next(w, binding, a).memory == Some(w.streams[i].next + 1)
                && Next(w, binding, a).streams[i].next == w.streams[i].next + 1)
  {
    hide E.Append;
    hide E.Insert;
  }

  /** What becomes of the cursor file: a persisted line counts unless its write failed before the rename, also
      when the process dies right after it; and nothing else writes the file. */
  lemma DiskExactly(w: World, binding: string, a: Action)
    requires Enabled(w, a)
    ensures Next(w, binding, a).disk ==
            if a.Persist? && a.write != FailedBeforeRename && w.memory != Some(w.streams[a.persisted].next + 1) then
              w.streams[a.persisted].next + 1
            else if a.Crash? && a.landing.Some? then w.streams[a.landing.value].next + 1
            else w.disk
    ensures a.Crash? ==> Next(w, binding, a).streams == [] && Next(w, binding, a).memory == None
    ensures a.End? ==> Next(w, binding, a).streams[a.ended].phase == Stopped
  {
    hide E.Append;
    hide E.Insert;
  }

  ghost predicate IsRun(binding: string, base: nat, states: seq<World>, actions: seq<Action>) {
    && |states| == |actions| + 1
    && IsStart(states[0], binding, base)
    && forall i :: 0 <= i < |actions| ==>
         Enabled(states[i], actions[i]) && states[i + 1] == Next(states[i], binding, actions[i])
  }

  lemma {:induction false} RunInv(binding: string, base: nat, states: seq<World>, actions: seq<Action>, i: nat)
    requires IsRun(binding, base, states, actions) && i < |states|
    ensures Inv(states[i], binding, base)
  {
    if i == 0 {
      StartInv(states[0], binding, base);
    } else {
      RunInv(binding, base, states, actions, i - 1);
      StepKeepsInv(states[i - 1], binding, base, actions[i - 1]);
    }
  }

  /** Agreement, in every run: the lines the panel inserts for the first time are exactly the next ones
      of the journal, in order and without a gap, and every line up to the agent's persisted cursor has
      been inserted. */
  lemma JournalAgreement(binding: string, base: nat, states: seq<World>, actions: seq<Action>, i: nat)
    requires IsRun(binding, base, states, actions) && i < |states|
    ensures var w := states[i];
            && (forall j :: 0 <= j < |FirstTimes(w.inserted)| ==> FirstTimes(w.inserted)[j] == base + j)
            && (forall line: nat :: base <= line < w.disk ==> line in w.inserted)
            && (w.memory.Some? ==> forall line: nat :: base <= line < w.memory.value ==> line in w.inserted)
  {
    RunInv(binding, base, states, actions, i);
  }

  // ---------- the cursor may go back ----------

  ghost predicate Moves(w: World, binding: string, a: Action, v: World) {
    Enabled(w, a) && v == Next(w, binding, a)
  }

  ghost predicate IsChain(states: seq<World>, binding: string, actions: seq<Action>) {
    && |states| == |actions| + 1
    && forall i :: 0 <= i < |actions| ==> Moves(states[i], binding, actions[i], states[i + 1])
  }

  lemma ChainIsRun(states: seq<World>, binding: string, base: nat, actions: seq<Action>)
    requires IsChain(states, binding, actions) && IsStart(states[0], binding, base)
    ensures IsRun(binding, base, states, actions)
  {
    forall i | 0 <= i < |actions|
      ensures Enabled(states[i], actions[i]) && states[i + 1] == Next(states[i], binding, actions[i])
    {
      assert Moves(states[i], binding, actions[i], states[i + 1]);
    }
  }

  lemma JoinChains(s: seq<World>, a: seq<Action>, t: seq<World>, b: seq<Action>, binding: string)
    requires IsChain(s, binding, a) && IsChain(t, binding, b) && s[|a|] == t[0]
    ensures IsChain(s + t[1..], binding, a + b)
    ensures (s + t[1..])[0] == s[0] && (s + t[1..])[|a| + |b|] == t[|b|]
  {
    var states, actions := s + t[1..], a + b;
    forall i | 0 <= i < |actions| ensures Moves(states[i], binding, actions[i], states[i + 1]) {
      if i < |a| {
        assert Moves(s[i], binding, a[i], s[i + 1]);
      } else {
        assert Moves(t[i - |a|], binding, b[i - |a|], t[i - |a| + 1]);
      }
    }
  }

  function Delivering(i: nat, session: Session): seq<Action> {
    [Send(i, true), Arrive(session, "log.stdout", "", true), Acknowledge(session), Confirm(i)]
  }

  /** One line of stream `i` sent, stored, acknowledged; nothing else but the table and history moves. */
  lemma Deliver(w: World, binding: string, i: nat) returns (states: seq<World>)
    requires i < |w.streams| && w.streams[i].phase == Ready && w.streams[i].next < |w.journal|
    requires w.streams[i].session in w.up && w.up[w.streams[i].session] == []
    requires w.streams[i].session in w.down && w.down[w.streams[i].session] == []
    requires forall j :: 0 <= j < |w.streams| && j != i ==> w.streams[j].session != w.streams[i].session
    ensures IsChain(states, binding, Delivering(i, w.streams[i].session)) && states[0] == w
    ensures states[4] == w.(streams := w.streams[i := w.streams[i].(phase := Confirmed)],
                            table := states[4].table, inserted := states[4].inserted)
    ensures AtMost(states, |w.streams|)
  {
    var s := w.streams[i];
    var w1 := Next(w, binding, Send(i, true));
    assert w1.up[s.session] == [s.next];
    var w2 := ArrivesAlone(w1, binding, s.session, s.next);
    assert w2.up == w.up;
    var w3 := Next(w2, binding, Acknowledge(s.session));
    assert w3.streams == w.streams[i := s.(phase := Waiting(true))];
    assert w3.down == w.down;
    var w4 := Next(w3, binding, Confirm(i));
    assert w4.streams == w.streams[i := s.(phase := Confirmed)];
    states := [w, w1, w2, w3, w4];
  }

  /** The only frame of a socket arrives and is acknowledged. */
  lemma ArrivesAlone(w: World, binding: string, session: Session, line: nat) returns (v: World)
    requires session in w.up && w.up[session] == [line] && session in w.down && w.down[session] == []
    requires line < |w.journal|
    ensures Moves(w, binding, Arrive(session, "log.stdout", "", true), v)
    ensures v == w.(up := w.up[session := []], down := w.down[session := [line]], table := v.table,
                    inserted := v.inserted)
  {
    hide E.Append;
    v := Next(w, binding, Arrive(session, "log.stdout", "", true));
    assert [line][1..] == [] && [] + [line] == [line];
  }

  function TwoLines(): World {
    World(["a", "b"], [], None, 0, 0, map[], map[], E.Table([], 1), [])
  }

  /** Boot, connect, and deliver the first line, without persisting its cursor. */
  lemma FirstStream(binding: string) returns (states: seq<World>)
    ensures IsChain(states, binding, [Boot, Connect, Begin(0)] + Delivering(0, 0)) && states[0] == TwoLines()
    ensures states[7].streams == [Stream(0, 0, Confirmed)] && states[7].journal == ["a", "b"]
    ensures states[7].memory == Some(0) && states[7].sessions == 1
    ensures states[7].up == map[0 := []] && states[7].down == map[0 := []] && AtMost(states, 1)
  {
    var w1 := Next(TwoLines(), binding, Boot);
    var w2 := Next(w1, binding, Connect);
    var w3 := Next(w2, binding, Begin(0));
    assert w3.streams == [Stream(0, 0, Ready)];
    var sent := Deliver(w3, binding, 0);
    assert IsChain([TwoLines(), w1, w2, w3], binding, [Boot, Connect, Begin(0)]);
    JoinChains([TwoLines(), w1, w2, w3], [Boot, Connect, Begin(0)], sent, Delivering(0, 0), binding);
    states := [TwoLines(), w1, w2, w3] + sent[1..];
    JoinAtMost([TwoLines(), w1, w2, w3], sent, 1);
  }

  /** Reconnect: the new stream starts from the old cursor and delivers the first line again. */
  lemma SecondStream(w: World, binding: string) returns (states: seq<World>)
    requires w.streams == [Stream(0, 0, Confirmed)] && w.journal == ["a", "b"]
    requires w.memory == Some(0) && w.sessions == 1 && w.up == map[0 := []] && w.down == map[0 := []]
    ensures IsChain(states, binding, [Connect, Begin(1)] + Delivering(1, 1)) && states[0] == w
    ensures states[6].streams == [Stream(0, 0, Confirmed), Stream(1, 0, Confirmed)] && states[6].journal == w.journal
    ensures states[6].memory == Some(0) && states[6].up == states[6].down == map[0 := [], 1 := []] && AtMost(states, 2)
  {
    var w1 := Next(w, binding, Connect);
    var w2 := Next(w1, binding, Begin(1));
    assert w2.streams == [Stream(0, 0, Confirmed), Stream(1, 0, Ready)];
    var sent := Deliver(w2, binding, 1);
    assert IsChain([w, w1, w2], binding, [Connect, Begin(1)]);
    JoinChains([w, w1, w2], [Connect, Begin(1)], sent, Delivering(1, 1), binding);
    states := [w, w1, w2] + sent[1..];
    JoinAtMost([w, w1, w2], sent, 2);
  }

  /** The new stream persists both cursors; then the old stream persists the first one. */
  lemma PersistLate(w: World, binding: string) returns (states: seq<World>)
    requires w.streams == [Stream(0, 0, Confirmed), Stream(1, 0, Confirmed)] && w.journal == ["a", "b"]
    requires w.memory == Some(0) && w.up == w.down == map[0 := [], 1 := []]
    ensures IsChain(states, binding,
                    [Persist(1, Written)] + Delivering(1, 1) + [Persist(1, Written), Persist(0, Written)])
    ensures states[0] == w && states[6].disk == 2 && states[7].disk == 1 && AtMost(states, 2)
  {
    var w1 := Next(w, binding, Persist(1, Written));
    assert w1.streams == [Stream(0, 0, Confirmed), Stream(1, 1, Ready)];
    var sent := Deliver(w1, binding, 1);
    var w6 := Next(sent[4], binding, Persist(1, Written));
    assert w6.streams[0] == Stream(0, 0, Confirmed) && w6.memory == Some(2);
    var w7 := Next(w6, binding, Persist(0, Written));
    assert IsChain([w, w1], binding, [Persist(1, Written)]);
    JoinChains([w, w1], [Persist(1, Written)], sent, Delivering(1, 1), binding);
    assert IsChain([sent[4], w6, w7], binding, [Persist(1, Written), Persist(0, Written)]);
    JoinChains([w, w1] + sent[1..], [Persist(1, Written)] + Delivering(1, 1),
               [sent[4], w6, w7], [Persist(1, Written), Persist(0, Written)], binding);
    states := [w, w1] + sent[1..] + [sent[4], w6, w7][1..];
    JoinAtMost([w, w1], sent, 2);
    JoinAtMost([w, w1] + sent[1..], [sent[4], w6, w7], 2);
  }

  /** The persisted cursor is not monotone: a stream of an earlier connection can persist its line after
      the current stream has persisted a later one. Two streams are enough. */
  lemma CursorCanGoBack(binding: string) returns (states: seq<World>, actions: seq<Action>)
    ensures IsRun(binding, 0, states, actions) && AtMost(states, 2)
    ensures exists i :: 0 <= i < |actions| && states[i + 1].disk < states[i].disk
  {
    var first := FirstStream(binding);
    var second := SecondStream(first[7], binding);
    var third := PersistLate(second[6], binding);
    var a := [Boot, Connect, Begin(0)] + Delivering(0, 0);
    var b := [Connect, Begin(1)] + Delivering(1, 1);
    var c := [Persist(1, Written)] + Delivering(1, 1) + [Persist(1, Written), Persist(0, Written)];
    JoinChains(first, a, second, b, binding);
    JoinChains(first + second[1..], a + b, third, c, binding);
    JoinAtMost(first, second, 2);
    JoinAtMost(first + second[1..], third, 2);
    states, actions := first + second[1..] + third[1..], a + b + c;
    ChainIsRun(states, binding, 0, actions);
    assert states[19] == third[6] && states[20] == third[7];
  }

  // ---------- and when it cannot ----------

  /** At no point are more than `n` streams alive. */
  ghost predicate AtMost(states: seq<World>, n: nat) {
    forall i :: 0 <= i < |states| ==> |states[i].streams| <= n
  }

  lemma JoinAtMost(s: seq<World>, t: seq<World>, n: nat)
    requires AtMost(s, n) && AtMost(t, n) && t != []
    ensures AtMost(s + t[1..], n)
  {
    var all := s + t[1..];
    forall i | 0 <= i < |all| ensures |all[i].streams| <= n {
      if i >= |s| {
        assert all[i] == t[i - |s| + 1];
      }
    }
  }

  /** With a single stream, memory and file are at most one line apart, and the stream works on the line
      that memory names. */
  ghost predicate InStep(w: World) {
    && (w.memory.None? ==> w.streams == [])
    && (w.memory.Some? ==> w.memory.value <= w.disk <= w.memory.value + 1)
    && forall s <- w.streams :: s.phase == Stopped || w.memory == Some(s.next)
  }

  lemma SingleStreamStep(w: World, binding: string, a: Action)
    requires InStep(w) && Enabled(w, a) && |w.streams| <= 1 && |Next(w, binding, a).streams| <= 1
    ensures InStep(Next(w, binding, a)) && w.disk <= Next(w, binding, a).disk
  {
    hide E.Append;
    assert |w.streams| == 1 ==> w.streams[0] in w.streams;
  }

  lemma SingleStreamRunStep(binding: string, base: nat, states: seq<World>, actions: seq<Action>, i: nat)
    requires IsRun(binding, base, states, actions) && AtMost(states, 1) && i < |actions| && InStep(states[i])
    ensures InStep(states[i + 1]) && states[i].disk <= states[i + 1].disk
  {
    hide Next;
    hide Enabled;
    hide InStep;
    assert |states[i].streams| <= 1 && |states[i + 1].streams| <= 1;
    SingleStreamStep(states[i], binding, actions[i]);
  }

  lemma {:induction false} SingleStreamInStep(binding: string, base: nat, states: seq<World>, actions: seq<Action>,
                                              i: nat)
    requires IsRun(binding, base, states, actions) && AtMost(states, 1) && i < |states|
    ensures InStep(states[i])
  {
    hide Next;
    hide Enabled;
    if i > 0 {
      SingleStreamInStep(binding, base, states, actions, i - 1);
      SingleStreamRunStep(binding, base, states, actions, i - 1);
    }
  }

  /** While at most one stream is alive, the persisted cursor never goes back, whatever is lost, written by
      halves or restarted. */
  lemma {:induction false} SingleStreamNeverGoesBack(binding: string, base: nat, states: seq<World>,
                                                     actions: seq<Action>, i: nat, j: nat)
    requires IsRun(binding, base, states, actions) && AtMost(states, 1) && i <= j < |states|
    ensures states[i].disk <= states[j].disk
    decreases j - i
  {
    hide IsRun;
    hide InStep;
    if i < j {
      SingleStreamNeverGoesBack(binding, base, states, actions, i, j - 1);
      assert |states| == |actions| + 1 by {
        RunLength(binding, base, states, actions);
      }
      SingleStreamInStep(binding, base, states, actions, j - 1);
      SingleStreamRunStep(binding, base, states, actions, j - 1);
    }
  }

  lemma RunLength(binding: string, base: nat, states: seq<World>, actions: seq<Action>)
    requires IsRun(binding, base, states, actions)
    ensures |states| == |actions| + 1
  {
  }

  /** A limit of `n` live streams keeps the persisted cursor from going back in every run. */
  ghost predicate Monotone(binding: string, n: nat) {
    forall base: nat, states: seq<World>, actions: seq<Action>, i: nat
      | IsRun(binding, base, states, actions) && AtMost(states, n) && i + 1 < |states| ::
      states[i].disk <= states[i + 1].disk
  }

  /** It does exactly when it is a limit of one. */
  lemma MonotoneExactlyWhen(binding: string, n: nat)
    ensures Monotone(binding, n) <==> n <= 1
  {
    if n <= 1 {
      forall base: nat, states: seq<World>, actions: seq<Action>, i: nat
        | IsRun(binding, base, states, actions) && AtMost(states, n) && i + 1 < |states|
        ensures states[i].disk <= states[i + 1].disk
      {
        assert AtMost(states, 1);
        SingleStreamNeverGoesBack(binding, base, states, actions, i, i + 1);
      }
    } else {
      var states, actions := CursorCanGoBack(binding);
      assert AtMost(states, n);
      var i :| 0 <= i < |actions| && states[i + 1].disk < states[i].disk;
    }
  }
}
