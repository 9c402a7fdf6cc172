/** The browser's copy of one job's log: the server sends the newest 1000 events when a socket opens and
    every later event as it is stored; the browser merges what arrives (useJobLogStream.ts). Sockets can
    break at any point and are opened again. */
module JobLog {
  import opened Base

  const KEPT: nat := 1000

  datatype Event = Event(sequence: nat, terminal: bool)

  /** `upTo` is the length of the log a history was read from (history variable). */
  datatype Message = History(events: seq<Event>, upTo: nat) | Live(event: Event)

  /** The open socket: frames under way, and whether the server still sends new events on it. */
  datatype Socket = Socket(frames: seq<Message>, subscribed: bool)

  /** `delivered`: how much of the log the browser has been told about (history). */
  datatype World = World(log: seq<Event>, socket: Option<Socket>, events: seq<Event>, delivered: nat)

  datatype Step =
    | Append(event: Event, sendFails: bool)
    | Open(finished: bool)
    | Deliver
    | Break

  ghost predicate Ascending(s: seq<Event>) {
    forall i, j :: 0 <= i < j < |s| ==> s[i].sequence < s[j].sequence
  }

  // ---------- the merge of the browser ----------

  function ShownSequences(s: seq<Event>): set<nat> {
    set e <- s :: e.sequence
  }

  /** `batch.filter(...)`: the events whose sequence is not shown yet. */
  function Additions(events: seq<Event>, batch: seq<Event>): seq<Event> {
    if batch == [] then []
    else
      (if exists e <- events :: e.sequence == batch[0].sequence then [] else [batch[0]]) + Additions(events, batch[1..])
  }

  function InsertBySequence(e: Event, s: seq<Event>): seq<Event> {
    if s == [] then [e] else if e.sequence < s[0].sequence then [e] + s else [s[0]] + InsertBySequence(e, s[1..])
  }

  /** A stable sort by sequence. */
  function SortBySequence(s: seq<Event>): seq<Event> {
    if s == [] then [] else InsertBySequence(s[|s| - 1], SortBySequence(s[..|s| - 1]))
  }

  function Merge(events: seq<Event>, batch: seq<Event>): seq<Event> {
    var additions := Additions(events, batch);
    if additions == [] then events else Newest(SortBySequence(events + additions), KEPT)
  }

  lemma {:induction false} InsertBySequenceMembers(e: Event, s: seq<Event>)
    ensures forall x :: x in InsertBySequence(e, s) <==> x == e || x in s
  {
    if s != [] && e.sequence >= s[0].sequence {
      InsertBySequenceMembers(e, s[1..]);
      assert s == [s[0]] + s[1..];
    }
  }

  lemma {:induction false} InsertBySequenceAscending(e: Event, s: seq<Event>)
    requires Ascending(s) && forall x <- s :: x.sequence != e.sequence
    ensures Ascending(InsertBySequence(e, s))
  {
    if s != [] && e.sequence >= s[0].sequence {
      assert s[0] in s;
      InsertBySequenceAscending(e, s[1..]);
      InsertBySequenceMembers(e, s[1..]);
      var r, t := InsertBySequence(e, s), InsertBySequence(e, s[1..]);
      forall i, j | 0 <= i < j < |r| ensures r[i].sequence < r[j].sequence {
        assert r[j] == t[j - 1] && t[j - 1] in t;
        if i > 0 {
          assert r[i] == t[i - 1];
        }
      }
    }
  }

  ghost predicate DistinctSequences(s: seq<Event>) {
    forall i, j :: 0 <= i < j < |s| ==> s[i].sequence != s[j].sequence
  }

  lemma {:induction false} SortedBySequence(s: seq<Event>)
    ensures forall x :: x in SortBySequence(s) <==> x in s
    ensures DistinctSequences(s) ==> Ascending(SortBySequence(s))
  {
    if s != [] {
      var front, last := s[..|s| - 1], s[|s| - 1];
      SortedBySequence(front);
      InsertBySequenceMembers(last, SortBySequence(front));
      assert s == front + [last];
      assert SortBySequence(s) == InsertBySequence(last, SortBySequence(front));
      hide SortBySequence;
      hide InsertBySequence;
      if DistinctSequences(s) {
        assert DistinctSequences(front);
        forall x | x in SortBySequence(front) ensures x.sequence != last.sequence {
          var i :| 0 <= i < |front| && front[i] == x;
          assert s[i] == x;
        }
        InsertBySequenceAscending(last, SortBySequence(front));
      }
    }
  }

  lemma AdditionsFrom(events: seq<Event>, batch: seq<Event>, i: nat)
    requires i < |batch|
    ensures var rest := Additions(events, batch[i + 1..]);
            Additions(events, batch[i..]) ==
            if exists e <- events :: e.sequence == batch[i].sequence then rest else [batch[i]] + rest
  {
    assert batch[i..][0] == batch[i] && batch[i..][1..] == batch[i + 1..];
    assert [] + Additions(events, batch[i + 1..]) == Additions(events, batch[i + 1..]);
  }

  lemma {:induction false} AdditionsMembers(events: seq<Event>, batch: seq<Event>)
    ensures forall x :: x in Additions(events, batch) <==> x in batch && x.sequence !in ShownSequences(events)
  {
    if batch != [] {
      AdditionsMembers(events, batch[1..]);
      AdditionsFrom(events, batch, 0);
      assert batch[0..] == batch && batch == [batch[0]] + batch[1..];
      hide Additions;
      assert (exists e <- events :: e.sequence == batch[0].sequence) <==> batch[0].sequence in ShownSequences(events);
    }
  }

  lemma HeadIsLeast(s: seq<Event>, x: Event)
    requires Ascending(s) && s != [] && x in s[1..]
    ensures s[0].sequence < x.sequence
  {
    var i :| 0 <= i < |s| - 1 && s[1..][i] == x;
    assert s[i + 1] == x;
  }

  lemma ConsAscending(e: Event, s: seq<Event>)
    requires Ascending(s) && forall x <- s :: e.sequence < x.sequence
    ensures Ascending([e] + s)
  {
    var t := [e] + s;
    forall i, j | 0 <= i < j < |t| ensures t[i].sequence < t[j].sequence {
      assert t[j] == s[j - 1] && s[j - 1] in s;
    }
  }

  lemma {:induction false} AdditionsAscending(events: seq<Event>, batch: seq<Event>)
    requires Ascending(batch)
    ensures Ascending(Additions(events, batch))
  {
    if batch != [] {
      var rest := Additions(events, batch[1..]);
      AdditionsAscending(events, batch[1..]);
      AdditionsMembers(events, batch[1..]);
      AdditionsFrom(events, batch, 0);
      assert batch[0..] == batch;
      hide Additions;
      hide ShownSequences;
      forall x | x in rest ensures batch[0].sequence < x.sequence {
        HeadIsLeast(batch, x);
      }
      hide Ascending;
      ConsAscending(batch[0], rest);
    }
  }

  lemma FirstIsMember(s: seq<Event>)
    requires s != []
    ensures exists x :: x in s
  {
    assert s[0] in s;
  }

  /** An ascending sequence is determined by its members. */
  lemma {:induction false} AscendingUnique(a: seq<Event>, b: seq<Event>)
    requires Ascending(a) && Ascending(b) && forall x :: x in a <==> x in b
    ensures a == b
  {
    if a == [] {
      if b != [] {
        FirstIsMember(b);
      }
    } else {
      assert a[0] in b;
      var i :| 0 <= i < |b| && b[i] == a[0];
      assert b[0] in a;
      var j :| 0 <= j < |a| && a[j] == b[0];
      assert a[0] == b[0];
      assert a == [a[0]] + a[1..] && b == [b[0]] + b[1..];
      forall x ensures x in a[1..] <==> x in b[1..] {
        TailMembers(a, x);
        TailMembers(b, x);
      }
      AscendingUnique(a[1..], b[1..]);
    }
  }

  lemma TailMembers(a: seq<Event>, x: Event)
    requires Ascending(a) && a != []
    ensures x in a[1..] <==> x in a && x != a[0]
  {
    assert a == [a[0]] + a[1..];
    if x in a[1..] {
      var i :| 0 <= i < |a| - 1 && a[1..][i] == x;
      assert a[0].sequence < a[i + 1].sequence;
    }
  }

  /** In one log an event is known by its sequence. */
  lemma SequenceNames(log: seq<Event>, x: Event, y: Event)
    requires Ascending(log) && x in log && y in log && x.sequence == y.sequence
    ensures x == y
  {
    var i :| 0 <= i < |log| && log[i] == x;
    var j :| 0 <= j < |log| && log[j] == y;
    assert i < j ==> log[i].sequence < log[j].sequence;
    assert j < i ==> log[j].sequence < log[i].sequence;
  }

  /** Merging part of a log into part of the same log sorts the union. */
  lemma MergeSortsUnion(log: seq<Event>, events: seq<Event>, batch: seq<Event>, union: seq<Event>)
    requires Ascending(log) && Ascending(events) && Ascending(batch) && Ascending(union)
    requires forall x <- union :: x in log
    requires forall x :: x in union <==> x in events || x in batch
    ensures SortBySequence(events + Additions(events, batch)) == union
    ensures Additions(events, batch) == [] ==> events == union
  {
    var additions := Additions(events, batch);
    AdditionsMembers(events, batch);
    AdditionsAscending(events, batch);
    var all := events + additions;
    forall x ensures x in all <==> x in union {
      if x in batch && x.sequence in ShownSequences(events) {
        var y :| y in events && y.sequence == x.sequence;
        assert x in union && y in union;
        SequenceNames(log, x, y);
      }
    }
    assert DistinctSequences(all) by {
      forall i, j | 0 <= i < j < |all| ensures all[i].sequence != all[j].sequence {
        if i < |events| <= j {
          assert all[j] in additions && all[i] in events;
        }
      }
    }
    SortedBySequence(all);
    AscendingUnique(SortBySequence(all), union);
    if additions == [] {
      AscendingUnique(events, union);
    }
  }

  /** What the browser should show after hearing of the first `n` events. */
  function Shown(log: seq<Event>, n: nat): seq<Event>
    requires n <= |log|
  {
    Newest(log[..n], KEPT)
  }

  function From(n: nat): nat {
    if n <= KEPT then 0 else n - KEPT
  }

  lemma ShownSlice(log: seq<Event>, n: nat)
    requires n <= |log|
    ensures Shown(log, n) == log[From(n)..n]
  {
  }

  lemma SliceAscending(log: seq<Event>, a: nat, b: nat)
    requires Ascending(log) && a <= b <= |log|
    ensures Ascending(log[a..b]) && forall x <- log[a..b] :: x in log
  {
    var s := log[a..b];
    forall i, j | 0 <= i < j < |s| ensures s[i].sequence < s[j].sequence {
      assert s[i] == log[a + i] && s[j] == log[a + j];
    }
  }

  lemma SliceMembers(log: seq<Event>, lo: nat, m: nat, a: nat, h: nat)
    requires Ascending(log) && lo <= m <= a <= h <= |log|
    ensures Ascending(log[lo..m] + log[a..h])
    ensures forall x <- log[lo..m] + log[a..h] :: x in log
  {
    var s := log[lo..m] + log[a..h];
    forall i, j | 0 <= i < j < |s| ensures s[i].sequence < s[j].sequence {
      assert s[i] == log[if i < m - lo then lo + i else a + (i - (m - lo))];
      assert s[j] == log[if j < m - lo then lo + j else a + (j - (m - lo))];
    }
    SliceAscending(log, lo, m);
    SliceAscending(log, a, h);
  }

  /** A history brings the browser to exactly the history's point, however large the gap. */
  lemma MergeHistory(log: seq<Event>, d: nat, h: nat)
    requires Ascending(log) && d <= h <= |log|
    ensures Merge(Shown(log, d), Shown(log, h)) == Shown(log, h)
  {
    var lo, a := From(d), From(h);
    var events, batch := log[lo..d], log[a..h];
    ShownSlice(log, d);
    ShownSlice(log, h);
    var m := if a <= lo then lo else Min(a, d);
    SliceAscending(log, lo, d);
    SliceAscending(log, a, h);
    assert lo <= m <= d;
    var union := if a <= lo then batch else log[lo..m] + batch;
    if a > lo {
      SliceMembers(log, lo, m, a, h);
    }
    forall x ensures x in union <==> x in events || x in batch {
      UnionMembers(log, lo, d, a, h, x);
    }
    MergeSortsUnion(log, events, batch, union);
    assert Newest(union, KEPT) == batch;
    assert |events| <= KEPT;
  }

  /** Membership in two slices of one log, the second reaching at least as far. */
  lemma UnionMembers(log: seq<Event>, lo: nat, d: nat, a: nat, h: nat, x: Event)
    requires lo <= d <= h <= |log| && a <= h
    ensures var union := if a <= lo then log[a..h] else log[lo..Min(a, d)] + log[a..h];
            x in union <==> x in log[lo..d] || x in log[a..h]
  {
    if x in log[lo..d] {
      var i :| 0 <= i < d - lo && log[lo..d][i] == x;
      if lo + i >= a {
        assert log[a..h][lo + i - a] == x;
      } else {
        assert log[lo..Min(a, d)][i] == x;
      }
    }
    if a > lo && x in log[lo..Min(a, d)] {
      var i :| 0 <= i < Min(a, d) - lo && log[lo..Min(a, d)][i] == x;
      assert log[lo..d][i] == x;
    }
  }

  lemma NewestOfSlice(log: seq<Event>, d: nat)
    requires d < |log|
    ensures Newest(log[From(d)..d + 1], KEPT) == log[From(d + 1)..d + 1]
  {
  }

  lemma LaterIsNew(log: seq<Event>, lo: nat, d: nat)
    requires Ascending(log) && lo <= d < |log|
    ensures forall y <- log[lo..d] :: y.sequence != log[d].sequence
  {
    forall y | y in log[lo..d] ensures y.sequence != log[d].sequence {
      var i :| 0 <= i < d - lo && log[lo..d][i] == y;
      assert log[lo + i].sequence < log[d].sequence;
    }
  }

  /** A live event brings it one further. */
  lemma MergeLive(log: seq<Event>, d: nat)
    requires Ascending(log) && d < |log|
    ensures Merge(Shown(log, d), [log[d]]) == Shown(log, d + 1)
  {
    var lo := From(d);
    var events, batch, union := log[lo..d], [log[d]], log[lo..d + 1];
    assert Ascending([log[d]]);
    ShownSlice(log, d);
    ShownSlice(log, d + 1);
    NewestOfSlice(log, d);
    SliceAscending(log, lo, d);
    SliceAscending(log, lo, d + 1);
    LaterIsNew(log, lo, d);
    assert union == events + batch && log[d] in batch && log[d] in union;
    hide *;
    MergeSortsUnion(log, events, batch, union) by {
      UnionIsSum(events, batch, union);
    }
    NewIsAdded(events, batch, log[d]);
    MergeOfUnion(events, batch, union);
  }

  lemma UnionIsSum(events: seq<Event>, batch: seq<Event>, union: seq<Event>)
    requires union == events + batch
    ensures forall x :: x in union <==> x in events || x in batch
  {
  }

  lemma NewIsAdded(events: seq<Event>, batch: seq<Event>, x: Event)
    requires x in batch && forall y <- events :: y.sequence != x.sequence
    ensures Additions(events, batch) != []
  {
    AdditionsMembers(events, batch);
  }

  lemma MergeOfUnion(events: seq<Event>, batch: seq<Event>, union: seq<Event>)
    requires Additions(events, batch) != [] && SortBySequence(events + Additions(events, batch)) == union
    ensures Merge(events, batch) == Newest(union, KEPT)
  {
    hide Additions;
    hide SortBySequence;
    hide Newest;
  }

  // ---------- server, socket and browser together ----------

  ghost predicate Enabled(w: World, step: Step) {
    match step
    case Append(e, _) => w.log == [] || w.log[|w.log| - 1].sequence < e.sequence
    case Open(_) => w.socket.None?
    case Deliver => w.socket.Some? && w.socket.value.frames != []
    case Break => w.socket.Some?
  }

  /** `events.publish`: a subscribed socket gets the event; after a terminal one, or a failed send, it
      gets no more. */
  function Published(w: World, e: Event, sendFails: bool): Option<Socket> {
    if w.socket.None? || !w.socket.value.subscribed then w.socket
    else if sendFails then Some(w.socket.value.(subscribed := false))
    else Some(Socket(w.socket.value.frames + [Live(e)], !e.terminal))
  }

  /** The browser's handler of one frame; an empty history is not handed on. */
  function Received(events: seq<Event>, m: Message): seq<Event> {
    match m
    case History(batch, _) => if batch == [] then events else Merge(events, batch)
    case Live(e) => Merge(events, [e])
  }

  function Reached(delivered: nat, m: Message): nat {
    match m
    case History(_, upTo) => upTo
    case Live(_) => delivered + 1
  }

  function Next(w: World, step: Step): World
    requires Enabled(w, step)
  {
    match step
    case Append(e, sendFails) => w.(log := w.log + [e], socket := Published(w, e, sendFails))
    // `open`: subscribe unless the job has finished, then send the newest events; nothing runs in between
    case Open(finished) => w.(socket := Some(Socket([History(Newest(w.log, KEPT), |w.log|)], !finished)))
    case Deliver =>
      var m := w.socket.value.frames[0];
      w.(events := Received(w.events, m), delivered := Reached(w.delivered, m),
         socket := Some(w.socket.value.(frames := w.socket.value.frames[1..])))
    case Break => w.(socket := None)
  }

  /** The frames continue the log from `at`, and reach `end`. */
  ghost predicate Continues(log: seq<Event>, frames: seq<Message>, at: nat, end: nat)
    decreases |frames|
  {
    if frames == [] then at == end
    else match frames[0]
      case History(events, upTo) =>
        at <= upTo <= |log| && events == Shown(log, upTo) && Continues(log, frames[1..], upTo, end)
      case Live(e) => at < |log| && e == log[at] && Continues(log, frames[1..], at + 1, end)
  }

  ghost predicate Inv(w: World) {
    && Ascending(w.log)
    && w.delivered <= |w.log| && w.events == Shown(w.log, w.delivered)
    && (w.socket.Some? ==> exists end: nat ::
          && end <= |w.log| && Continues(w.log, w.socket.value.frames, w.delivered, end)
          && (w.socket.value.subscribed ==> end == |w.log|))
  }

  lemma {:induction false} ContinuesInLongerLog(log: seq<Event>, e: Event, frames: seq<Message>, at: nat, end: nat)
    requires Continues(log, frames, at, end)
    ensures Continues(log + [e], frames, at, end)
    decreases |frames|
  {
    if frames != [] {
      match frames[0] {
        case History(_, upTo) =>
          assert (log + [e])[..upTo] == log[..upTo];
          ContinuesInLongerLog(log, e, frames[1..], upTo, end);
        case Live(_) => ContinuesInLongerLog(log, e, frames[1..], at + 1, end);
      }
    }
  }

  lemma {:induction false} OneMoreFrame(log: seq<Event>, frames: seq<Message>, at: nat, end: nat)
    requires Continues(log, frames, at, end) && end < |log|
    ensures Continues(log, frames + [Live(log[end])], at, end + 1)
    decreases |frames|
  {
    if frames == [] {
      assert [Live(log[end])][1..] == [];
    } else {
      assert (frames + [Live(log[end])])[1..] == frames[1..] + [Live(log[end])];
      match frames[0] {
        case History(_, upTo) => OneMoreFrame(log, frames[1..], upTo, end);
        case Live(_) => OneMoreFrame(log, frames[1..], at + 1, end);
      }
    }
  }

  lemma AppendKeepsInv(w: World, e: Event, sendFails: bool)
    requires Inv(w) && Enabled(w, Append(e, sendFails))
    ensures Inv(Next(w, Append(e, sendFails)))
  {
    var v := Next(w, Append(e, sendFails));
    assert v.log[..w.delivered] == w.log[..w.delivered];
    if w.socket.Some? {
      var frames := w.socket.value.frames;
      var end: nat :| end <= |w.log| && Continues(w.log, frames, w.delivered, end)
          && (w.socket.value.subscribed ==> end == |w.log|);
      ContinuesInLongerLog(w.log, e, frames, w.delivered, end);
      if w.socket.value.subscribed && !sendFails {
        OneMoreFrame(v.log, frames, w.delivered, end);
      }
    }
  }

  lemma DeliverKeepsInv(w: World)
    requires Inv(w) && Enabled(w, Deliver)
    ensures Inv(Next(w, Deliver)) && w.delivered <= Next(w, Deliver).delivered
  {
    var v := Next(w, Deliver);
    var end: nat :| end <= |w.log| && Continues(w.log, w.socket.value.frames, w.delivered, end)
        && (w.socket.value.subscribed ==> end == |w.log|);
    assert Continues(v.log, v.socket.value.frames, v.delivered, end);
    match w.socket.value.frames[0] {
      case History(batch, upTo) =>
        MergeHistory(w.log, w.delivered, upTo);
        if batch == [] {
          ShownSlice(w.log, upTo);
          assert upTo == 0;
        }
      case Live(e) => MergeLive(w.log, w.delivered);
    }
  }

  lemma OpenKeepsInv(w: World, finished: bool)
    requires Inv(w) && Enabled(w, Open(finished))
    ensures Inv(Next(w, Open(finished)))
  {
    assert w.log[..|w.log|] == w.log;
    var frames := [History(Newest(w.log, KEPT), |w.log|)];
    assert frames[1..] == [];
    assert Continues(w.log, frames, w.delivered, |w.log|);
  }

  ghost predicate IsRun(states: seq<World>, steps: seq<Step>) {
    && |states| == |steps| + 1
    && states[0] == World([], None, [], 0)
    && forall i :: 0 <= i < |steps| ==> Enabled(states[i], steps[i]) && states[i + 1] == Next(states[i], steps[i])
  }

  lemma {:induction false} RunInv(states: seq<World>, steps: seq<Step>, i: nat)
    requires IsRun(states, steps) && i < |states|
    ensures Inv(states[i])
  {
    if i > 0 {
      RunInv(states, steps, i - 1);
      match steps[i - 1] {
        case Append(e, sendFails) => AppendKeepsInv(states[i - 1], e, sendFails);
        case Open(finished) => OpenKeepsInv(states[i - 1], finished);
        case Deliver => DeliverKeepsInv(states[i - 1]);
        case Break =>
      }
    }
  }

  /** Replica: at every point of every run, through any number of broken sockets and gaps of any size, the
      browser shows exactly the newest 1000 of the events up to the last one it was told about, in order
      and without repetition. */
  lemma BrowserShowsNewest(states: seq<World>, steps: seq<Step>, i: nat)
    requires IsRun(states, steps) && i < |states|
    ensures var w := states[i];
            && w.delivered <= |w.log| && w.events == Newest(w.log[..w.delivered], 1000)
            && Ascending(w.events)
  {
    RunInv(states, steps, i);
    ShownSlice(states[i].log, states[i].delivered);
    SliceAscending(states[i].log, From(states[i].delivered), states[i].delivered);
  }

  /** What it was told about never shrinks. */
  lemma {:induction false} DeliveredGrows(states: seq<World>, steps: seq<Step>, i: nat, j: nat)
    requires IsRun(states, steps) && i <= j < |states|
    ensures states[i].delivered <= states[j].delivered
    decreases j - i
  {
    hide Inv;
    hide Next;
    hide Enabled;
    if i < j {
      DeliveredGrows(states, steps, i, j - 1);
      RunInv(states, steps, j - 1);
      assert Enabled(states[j - 1], steps[j - 1]) && states[j] == Next(states[j - 1], steps[j - 1]);
      hide IsRun;
      StepDelivers(states[j - 1], steps[j - 1]);
    }
  }

  lemma StepDelivers(w: World, step: Step)
    requires Inv(w) && Enabled(w, step)
    ensures w.delivered <= Next(w, step).delivered
  {
    if step.Deliver? {
      DeliverKeepsInv(w);
    }
  }

  // ---------- delivery ----------

  /** The socket that step `i` opens for an unfinished job has not been broken by point `j`, no send on it has
      failed, and nothing was appended after a terminal event. */
  ghost predicate Undisturbed(steps: seq<Step>, i: nat, j: nat) {
    && i < j <= |steps| && steps[i] == Open(false)
    && (forall k :: i < k < j ==> steps[k] != Break && !(steps[k].Append? && steps[k].sendFails))
    && (forall k, l :: i < k < l < j && steps[k].Append? && steps[l].Append? ==> !steps[k].event.terminal)
  }

  ghost predicate NoEnd(steps: seq<Step>, i: nat, j: nat)
    requires i < j <= |steps|
  {
    forall k :: i < k < j && steps[k].Append? ==> !steps[k].event.terminal
  }

  ghost predicate ReachesEnd(w: World) {
    w.socket.Some? && Continues(w.log, w.socket.value.frames, w.delivered, |w.log|)
  }

  lemma OpenReaches(w: World)
    requires Inv(w) && Enabled(w, Open(false))
    ensures ReachesEnd(Next(w, Open(false))) && Next(w, Open(false)).socket.value.subscribed
  {
    assert w.log[..|w.log|] == w.log;
    var frames := [History(Newest(w.log, KEPT), |w.log|)];
    assert frames[1..] == [];
    assert Continues(w.log, frames, w.delivered, |w.log|);
  }

  lemma AppendReaches(w: World, e: Event)
    requires ReachesEnd(w) && w.socket.value.subscribed && Enabled(w, Append(e, false))
    ensures var v := Next(w, Append(e, false)); ReachesEnd(v) && v.socket.value.subscribed == !e.terminal
  {
    ContinuesInLongerLog(w.log, e, w.socket.value.frames, w.delivered, |w.log|);
    OneMoreFrame(w.log + [e], w.socket.value.frames, w.delivered, |w.log|);
  }

  lemma DeliverReaches(w: World)
    requires ReachesEnd(w) && Enabled(w, Deliver)
    ensures var v := Next(w, Deliver); ReachesEnd(v) && v.socket.value.subscribed == w.socket.value.subscribed
  {
  }

  /** Delivery: while a socket that was opened for an unfinished job is undisturbed, what is under way on it
      takes the browser to the end of the log, the terminal event included. */
  lemma {:induction false} UndisturbedReachesEnd(states: seq<World>, steps: seq<Step>, i: nat, j: nat)
    requires IsRun(states, steps) && Undisturbed(steps, i, j)
    ensures ReachesEnd(states[j])
    ensures NoEnd(steps, i, j) ==> states[j].socket.value.subscribed
    decreases j
  {
    hide ReachesEnd;
    hide Inv;
    var w, step := states[j - 1], steps[j - 1];
    assert Enabled(w, step) && states[j] == Next(w, step);
    RunInv(states, steps, j - 1);
    hide Next;
    if i == j - 1 {
      OpenReaches(w);
    } else {
      UndisturbedReachesEnd(states, steps, i, j - 1);
      assert w.socket.Some? by {
        EndHasSocket(w);
      }
      match step {
        case Append(e, _) =>
          assert NoEnd(steps, i, j - 1);
          AppendReaches(w, e);
        case Deliver =>
          assert NoEnd(steps, i, j) ==> NoEnd(steps, i, j - 1);
          DeliverReaches(w);
        case _ =>
      }
    }
  }

  lemma EndHasSocket(w: World)
    requires ReachesEnd(w)
    ensures w.socket.Some?
  {
  }

  /** Every frame under way is delivered. */
  ghost function Drained(w: World): World
    decreases if w.socket.Some? then |w.socket.value.frames| else 0
  {
    if Enabled(w, Deliver) then Drained(Next(w, Deliver)) else w
  }

  lemma {:induction false} DrainedShowsAll(w: World)
    requires Inv(w) && ReachesEnd(w)
    ensures Drained(w).log == w.log && Drained(w).events == Newest(w.log, KEPT)
    decreases if w.socket.Some? then |w.socket.value.frames| else 0
  {
    if Enabled(w, Deliver) {
      DeliverKeepsInv(w);
      DeliverReaches(w);
      DrainedShowsAll(Next(w, Deliver));
    } else {
      assert w.log[..w.delivered] == w.log;
    }
  }

  /** So once its frames have arrived the browser shows the newest 1000 events of the whole log. */
  lemma BrowserCatchesUp(states: seq<World>, steps: seq<Step>, i: nat, j: nat)
    requires IsRun(states, steps) && Undisturbed(steps, i, j)
    ensures Drained(states[j]).log == states[j].log && Drained(states[j]).events == Newest(states[j].log, 1000)
  {
    RunInv(states, steps, j);
    UndisturbedReachesEnd(states, steps, i, j);
    DrainedShowsAll(states[j]);
  }

  /** Step `i` opens a socket for a finished job, or appends the last event the open socket is sent. */
  ghost predicate LastSend(w: World, step: Step) {
    step == Open(true) || (step.Append? && w.socket.Some? && (step.event.terminal || step.sendFails))
  }

  /** After that nothing more is put on the socket, until it is broken and opened again; an event whose
      send failed is not on it. */
  lemma {:induction false} NothingAfterLastSend(states: seq<World>, steps: seq<Step>, i: nat, j: nat)
    requires IsRun(states, steps) && i < j < |states| && LastSend(states[i], steps[i])
    requires forall k :: i < k < j ==> steps[k] != Break
    ensures states[j].socket.Some? && !states[j].socket.value.subscribed
    ensures IsSuffix(states[j].socket.value.frames, states[i + 1].socket.value.frames)
    ensures steps[i].Append? && steps[i].sendFails ==>
              states[i + 1].socket.value.frames == states[i].socket.value.frames
    decreases j
  {
    assert Enabled(states[i], steps[i]) && states[i + 1] == Next(states[i], steps[i]);
    assert Enabled(states[j - 1], steps[j - 1]) && states[j] == Next(states[j - 1], steps[j - 1]);
    LastSendEnds(states[i], steps[i]);
    if i < j - 1 {
      NothingAfterLastSend(states, steps, i, j - 1);
      hide Next;
      hide IsRun;
      QuietStep(states[j - 1], steps[j - 1], states[i + 1].socket.value.frames);
    } else {
      assert states[j].socket.value.frames[0..] == states[j].socket.value.frames;
    }
  }

  lemma LastSendEnds(w: World, step: Step)
    requires Enabled(w, step) && LastSend(w, step)
    ensures Next(w, step).socket.Some? && !Next(w, step).socket.value.subscribed
    ensures step.Append? && step.sendFails ==> Next(w, step).socket.value.frames == w.socket.value.frames
  {
  }

  lemma QuietStep(w: World, step: Step, sent: seq<Message>)
    requires Enabled(w, step) && step != Break && w.socket.Some? && !w.socket.value.subscribed
    requires IsSuffix(w.socket.value.frames, sent)
    ensures var v := Next(w, step);
            v.socket.Some? && !v.socket.value.subscribed && IsSuffix(v.socket.value.frames, sent)
  {
    if step.Deliver? {
      SuffixTail(w.socket.value.frames, sent);
    }
  }

  ghost predicate IsSuffix<T>(s: seq<T>, t: seq<T>) {
    |s| <= |t| && s == t[|t| - |s|..]
  }

  lemma SuffixTail<T>(s: seq<T>, t: seq<T>)
    requires IsSuffix(s, t) && s != []
    ensures IsSuffix(s[1..], t)
  {
  }

  /** The `events` of the composable. */
  class BrowserLog {
    var events: seq<Event>

    constructor ()
      ensures events == []
    {
      events := [];
    }

    /** `batch.filter(...)` */
    method NewOnes(batch: seq<Event>) returns (additions: seq<Event>)
      ensures additions == Additions(events, batch)
    {
      additions := [];
      for i := 0 to |batch|
        invariant additions + Additions(events, batch[i..]) == Additions(events, batch)
      {
        ghost var rest := Additions(events, batch[i + 1..]);
        AdditionsFrom(events, batch, i);
        hide Additions;
        if !exists e <- events :: e.sequence == batch[i].sequence {
          assert additions + ([batch[i]] + rest) == additions + [batch[i]] + rest;
          additions := additions + [batch[i]];
        }
      }
    }

    /** The `onEvents` handler. */
    method OnEvents(batch: seq<Event>)
      modifies this
      ensures events == Merge(old(events), batch)
      ensures forall log: seq<Event>, d: nat, h: nat | Ascending(log) && d <= h <= |log| ::
                old(events) == Shown(log, d) && batch == Shown(log, h) ==> events == Shown(log, h)
    {
      hide Additions;
      hide Shown;
      hide SortBySequence;
      forall log: seq<Event>, d: nat, h: nat
        | Ascending(log) && d <= h <= |log| && events == Shown(log, d) && batch == Shown(log, h)
        ensures Merge(events, batch) == Shown(log, h)
      {
        MergeHistory(log, d, h);
      }
      var additions := NewOnes(batch);
      if additions == [] {
        return;
      }
      events := Newest(SortBySequence(events + additions), KEPT);
    }
  }
}
