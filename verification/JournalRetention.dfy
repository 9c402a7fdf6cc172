/** How far apart two insertions of one journal line are. The table forgets the cursor of a line that has
    left the newest 2000 events of its binding, so a line can be stored again, but not soon. */
module JournalRetention {
  import opened Base
  import E = RuntimeEvents
  import opened Journal

  /** What AUTOINCREMENT gives. */
  ghost predicate TableOk(t: E.Table) {
    E.Ascending(t.rows) && forall e <- t.rows :: e.sequence < t.next
  }

  /** Among these rows one has the cursor, with at most `count` rows behind it, or `count` is 2000. */
  ghost predicate Near(rows: seq<E.Event>, cursor: string, count: nat) {
    count >= E.RETAINED || exists p :: 0 <= p < |rows| && rows[p].cursor == Some(cursor) && |rows| - 1 - p <= count
  }

  lemma NearNewest(rows: seq<E.Event>, e: E.Event, cursor: string, count: nat)
    requires Near(rows, cursor, count)
    ensures Near(rows + [e], cursor, count + 1) && Near(Newest(rows + [e], E.RETAINED), cursor, count + 1)
  {
    if count + 1 < E.RETAINED {
      var p :| 0 <= p < |rows| && rows[p].cursor == Some(cursor) && |rows| - 1 - p <= count;
      var all := rows + [e];
      var newest := Newest(all, E.RETAINED);
      assert all[p].cursor == Some(cursor);
      assert newest[p - (|all| - |newest|)] == all[p];
    }
  }

  lemma NearLast(rows: seq<E.Event>, e: E.Event, cursor: string)
    requires e.cursor == Some(cursor)
    ensures Near(rows + [e], cursor, 0) && Near(Newest(rows + [e], E.RETAINED), cursor, 0)
  {
    var all := rows + [e];
    var newest := Newest(all, E.RETAINED);
    assert all[|rows|] == e && newest[|newest| - 1] == e;
  }

  /** The action adds this event to the binding, and deletes what is over 2000 unless the panel dies first. */
  ghost predicate Adds(t: E.Table, u: E.Table, binding: string, e: E.Event) {
    E.Of(u.rows, binding) == Newest(E.Of(t.rows, binding) + [e], E.RETAINED)
    || E.Of(u.rows, binding) == E.Of(t.rows, binding) + [e]
  }

  lemma AppendAdds(t: E.Table, b: string, kind: string, text: string, cursor: Option<string>, binding: string)
    requires TableOk(t)
    ensures var u := E.Append(t, b, kind, text, cursor).0;
            && TableOk(u)
            && if b == binding && !E.Ignored(t, b, E.StoredCursor(cursor))
               then Adds(t, u, binding, E.NewEvent(t, b, kind, text, cursor))
               else E.Of(u.rows, binding) == E.Of(t.rows, binding)
  {
    if !E.Ignored(t, b, E.StoredCursor(cursor)) {
      E.AppendRows(t, b, kind, text, cursor, binding);
    }
  }

  lemma InsertAdds(t: E.Table, b: string, kind: string, text: string, cursor: Option<string>, binding: string)
    requires TableOk(t)
    ensures var u := E.Insert(t, b, kind, text, cursor);
            && TableOk(u)
            && if b == binding then Adds(t, u, binding, E.NewEvent(t, b, kind, text, cursor))
               else E.Of(u.rows, binding) == E.Of(t.rows, binding)
  {
    E.OfSum(t.rows, [E.NewEvent(t, b, kind, text, cursor)], binding);
    assert E.Of(t.rows, binding) + [] == E.Of(t.rows, binding);
  }

  // ---------- counting what is accepted ----------

  /** The line an action brings to the panel. */
  ghost function Brings(w: World, a: Action): Option<nat>
    requires Enabled(w, a)
  {
    match a
    case Arrive(s, _, _, _) => Some(w.up[s][0])
    case ArriveTorn(s, _, _) => Some(w.up[s][0])
    case _ => None
  }

  ghost predicate InsertsLine(w: World, binding: string, a: Action, line: nat) {
    Enabled(w, a) && Brings(w, a) == Some(line) && !E.Ignored(w.table, binding, E.StoredCursor(Some(w.journal[line])))
  }

  /** The action stores an event of the binding: a line that is not ignored, or any other event. */
  ghost predicate Accepts(w: World, binding: string, a: Action) {
    Enabled(w, a) &&
    match a
    case Arrive(s, _, _, _) => InsertsLine(w, binding, a, w.up[s][0])
    case ArriveTorn(s, _, _) => InsertsLine(w, binding, a, w.up[s][0])
    case Publish(other, _, _) => other == binding
    case PublishTorn(other, _, _) => other == binding
    case _ => false
  }

  /** How many events of the binding are accepted by the actions from `from` up to, not including, `end`. */
  ghost function Accepted(binding: string, states: seq<World>, actions: seq<Action>, from: nat, end: nat): nat
    requires from <= end <= |actions| && |states| == |actions| + 1
    decreases end
  {
    if from == end then 0
    else
      Accepted(binding, states, actions, from, end - 1)
      + (if Accepts(states[end - 1], binding, actions[end - 1]) then 1 else 0)
  }

  lemma StepAdds(w: World, binding: string, a: Action)
    requires Enabled(w, a) && TableOk(w.table)
    ensures TableOk(Next(w, binding, a).table)
    ensures !Accepts(w, binding, a) ==>
              E.Of(Next(w, binding, a).table.rows, binding) == E.Of(w.table.rows, binding)
    ensures Accepts(w, binding, a) ==> exists e ::
              Adds(w.table, Next(w, binding, a).table, binding, e)
              && (Brings(w, a).Some? ==> e.cursor == E.StoredCursor(Some(w.journal[Brings(w, a).value])))
  {
    match a {
      case Arrive(s, kind, text, _) =>
        AppendAdds(w.table, binding, kind, text, Some(w.journal[w.up[s][0]]), binding);
      case ArriveTorn(s, kind, text) =>
        InsertAdds(w.table, binding, kind, text, Some(w.journal[w.up[s][0]]), binding);
      case Publish(other, kind, text) => AppendAdds(w.table, other, kind, text, None, binding);
      case PublishTorn(other, kind, text) => InsertAdds(w.table, other, kind, text, None, binding);
      case _ =>
    }
  }

  lemma StepNear(w: World, binding: string, a: Action, cursor: string, count: nat)
    requires Enabled(w, a) && TableOk(w.table) && Near(E.Of(w.table.rows, binding), cursor, count)
    ensures Near(E.Of(Next(w, binding, a).table.rows, binding), cursor,
                 count + (if Accepts(w, binding, a) then 1 else 0))
  {
    hide Next;
    hide Near;
    hide TableOk;
    hide E.Of;
    hide Accepts;
    StepAdds(w, binding, a);
    if Accepts(w, binding, a) {
      var e :| Adds(w.table, Next(w, binding, a).table, binding, e);
      NearNewest(E.Of(w.table.rows, binding), e, cursor, count);
    }
  }

  lemma {:induction false} RunTable(binding: string, base: nat, states: seq<World>, actions: seq<Action>, i: nat)
    requires IsRun(binding, base, states, actions) && TableOk(states[0].table) && i < |states|
    ensures TableOk(states[i].table)
  {
    hide Next;
    hide Enabled;
    hide TableOk;
    if i > 0 {
      RunTable(binding, base, states, actions, i - 1);
      StepAdds(states[i - 1], binding, actions[i - 1]);
    }
  }

  /** Journal lines keep their cursors. */
  lemma {:induction false} JournalGrows(binding: string, base: nat, states: seq<World>, actions: seq<Action>, i: nat,
                                        j: nat)
    requires IsRun(binding, base, states, actions) && i <= j < |states|
    ensures states[i].journal <= states[j].journal
    decreases j - i
  {
    hide *;
    if i < j {
      JournalGrows(binding, base, states, actions, i, j - 1);
      RunGrows(binding, base, states, actions, j - 1) by {
        RunLength(binding, base, states, actions);
      }
    }
  }

  lemma RunGrows(binding: string, base: nat, states: seq<World>, actions: seq<Action>, i: nat)
    requires IsRun(binding, base, states, actions) && i + 1 < |states|
    ensures states[i].journal <= states[i + 1].journal
  {
    assert Enabled(states[i], actions[i]) && states[i + 1] == Next(states[i], binding, actions[i]);
    hide *;
    StepGrows(states[i], binding, actions[i]);
  }

  lemma StepGrows(w: World, binding: string, a: Action)
    requires Enabled(w, a)
    ensures w.journal <= Next(w, binding, a).journal
  {
    hide E.Append;
    hide E.Insert;
  }

  /** Once a line is inserted, its cursor stays near until 2000 events were accepted. */
  lemma {:induction false} StaysNear(binding: string, base: nat, states: seq<World>, actions: seq<Action>, i: nat,
                                     k: nat, cursor: string)
    requires IsRun(binding, base, states, actions) && TableOk(states[0].table) && i <= k < |states|
    requires Near(E.Of(states[i].table.rows, binding), cursor, 0)
    ensures Near(E.Of(states[k].table.rows, binding), cursor, Accepted(binding, states, actions, i, k))
    decreases k - i
  {
    hide Next;
    hide Enabled;
    hide Near;
    hide TableOk;
    hide Accepts;
    hide E.Of;
    if i < k {
      StaysNear(binding, base, states, actions, i, k - 1, cursor);
      RunTable(binding, base, states, actions, k - 1);
      StepNear(states[k - 1], binding, actions[k - 1], cursor, Accepted(binding, states, actions, i, k - 1));
    }
  }

  lemma InsertedIsNear(w: World, binding: string, a: Action, line: nat)
    requires Enabled(w, a) && TableOk(w.table) && JournalOk(w.journal) && InsertsLine(w, binding, a, line)
    ensures Near(E.Of(Next(w, binding, a).table.rows, binding), w.journal[line], 0)
  {
    assert w.journal[line] in w.journal;
    StepAdds(w, binding, a);
    var e :| Adds(w.table, Next(w, binding, a).table, binding, e) && e.cursor == Some(w.journal[line]);
    NearLast(E.Of(w.table.rows, binding), e, w.journal[line]);
  }

  /** Deduplication window: between two insertions of one line, in any run, at least 2000 other events of the
      binding are accepted. */
  lemma RepeatsAreFarApart(binding: string, base: nat, states: seq<World>, actions: seq<Action>, i: nat, j: nat,
                           line: nat)
    requires IsRun(binding, base, states, actions) && TableOk(states[0].table) && i < j < |actions|
    requires InsertsLine(states[i], binding, actions[i], line) && InsertsLine(states[j], binding, actions[j], line)
    ensures Accepted(binding, states, actions, i + 1, j) >= 2000
  {
    RunTable(binding, base, states, actions, i);
    RunInv(binding, base, states, actions, i);
    InsertedIsNear(states[i], binding, actions[i], line);
    JournalGrows(binding, base, states, actions, i, j);
    assert line < |states[i].journal|;
    assert states[i + 1] == Next(states[i], binding, actions[i]);
    hide Next;
    hide Near;
    hide TableOk;
    hide Inv;
    var cursor := states[i].journal[line];
    StaysNear(binding, base, states, actions, i + 1, j, cursor);
    CursorIsStored(binding, base, states, actions, i, line);
    NotNear(states[j], binding, cursor, Accepted(binding, states, actions, i + 1, j));
  }

  lemma CursorIsStored(binding: string, base: nat, states: seq<World>, actions: seq<Action>, i: nat, line: nat)
    requires IsRun(binding, base, states, actions) && i < |states| && line < |states[i].journal|
    ensures E.StoredCursor(Some(states[i].journal[line])) == Some(states[i].journal[line])
  {
    RunInv(binding, base, states, actions, i);
    assert states[i].journal[line] in states[i].journal;
  }

  /** A cursor that would be inserted is on no row. */
  lemma NotNear(w: World, binding: string, cursor: string, count: nat)
    requires Near(E.Of(w.table.rows, binding), cursor, count) && !E.Ignored(w.table, binding, Some(cursor))
    ensures count >= E.RETAINED
  {
    if count < E.RETAINED {
      var rows := E.Of(w.table.rows, binding);
      var p :| 0 <= p < |rows| && rows[p].cursor == Some(cursor);
      assert rows[p] in rows;
      E.OfMembers(w.table.rows, binding);
    }
  }
}
