/** What the session table remembers: when and how sure each session started and ended, and what the player
    list's counts do between lists. */
module SessionHistory {
  import opened Options
  import opened Sessions

  // ---------- the rows each event leaves ----------

  /** The event ends the player's open session. */
  predicate Ends(l: Ledger, e: Event, player: Player) {
    match e
    case Join(_, p) => p == player
    case Leave(_, p) => p == player
    case Stopped(_, _) => true
    case Listed(_, names, _, _) => player !in names && Count(l.missing, player) >= 1
  }

  /** An end is certain when the player was seen leaving, or a stop says that it is. */
  predicate UncertainEnd(e: Event) {
    match e
    case Leave(_, _) => false
    case Stopped(_, uncertain) => uncertain
    case _ => true
  }

  /** The event starts a session of the player. */
  predicate Starts(l: Ledger, e: Event, player: Player) {
    match e
    case Join(_, p) => p == player
    case Listed(_, names, _, _) => player in names && player !in OpenPlayers(l.rows) && Count(l.extra, player) >= 1
    case _ => false
  }

  /** Session `s` as it is once ended. */
  predicate EndedAt(s: Session, was: Session, ts: int, uncertain: bool) {
    && s.player == was.player && s.start == was.start && s.startUncertain == was.startUncertain
    && s.end == Some(ts) && s.uncertain == uncertain
  }

  predicate StartedAt(s: Session, ts: int, fromList: bool) {
    s.start == ts && s.end.None? && !s.uncertain && s.startUncertain == fromList
  }

  /** The rows an event finds: those it ends have its time, the others stay as they are. */
  predicate EndsOnly(rows: seq<Session>, l: Ledger, e: Event) {
    && |rows| >= |l.rows|
    && (forall i :: 0 <= i < |l.rows| ==>
          if IsOpen(l.rows[i]) && l.rows[i].start <= e.ts && Ends(l, e, l.rows[i].player)
          then EndedAt(rows[i], l.rows[i], e.ts, UncertainEnd(e)) else rows[i] == l.rows[i])
  }

  /** The rows it adds, from number `n` on: the sessions it starts, one for each player. */
  ghost predicate StartsOnly(rows: seq<Session>, n: nat, l: Ledger, e: Event) {
    && (forall i :: n <= i < |rows| ==> StartedAt(rows[i], e.ts, e.Listed?) && Starts(l, e, rows[i].player))
    && (forall i, k :: n <= i < k < |rows| ==> rows[i].player != rows[k].player)
    && (forall p :: Starts(l, e, p) ==> exists i :: n <= i < |rows| && rows[i].player == p)
  }

  /** The rows after an event, at any time. */
  ghost predicate RowsAfter(rows: seq<Session>, l: Ledger, e: Event) {
    EndsOnly(rows, l, e) && StartsOnly(rows, |l.rows|, l, e)
  }

  lemma EventRows(l: Ledger, e: Event)
    requires Possible(l, e)
    ensures RowsAfter(After(l, e).rows, l, e)
  {
    match e {
      case Join(ts, p) =>
        var rows := After(l, e).rows;
        assert rows[|l.rows|].player == p;
      case Leave(ts, p) =>
      case Stopped(ts, _) =>
        assert forall i :: 0 <= i < |l.rows| && IsOpen(l.rows[i]) ==> l.rows[i] in l.rows && l.rows[i].player in OpenPlayers(l.rows);
      case Listed(_, _, _, _) => ListedRows(l, e);
    }
  }

  function Opened(players: seq<Player>, ts: int): seq<Session> {
    seq(|players|, i requires 0 <= i < |players| => Session(players[i], ts, None, false, true))
  }

  lemma {:induction false} OpenAllRows(rows: seq<Session>, players: seq<Player>, ts: int)
    requires forall p :: p in players ==> p !in OpenPlayers(rows)
    requires forall i, k :: 0 <= i < k < |players| ==> players[i] != players[k]
    ensures OpenAll(rows, players, ts) == rows + Opened(players, ts)
    decreases |players|
  {
    if players == [] {
      assert rows + Opened(players, ts) == rows;
    } else {
      var p := players[0];
      assert p in players;
      OpenUnopened(rows, p, ts);
      OpenOthers(rows, p, ts, true);
      assert forall q :: q in players[1..] ==> q in players && q != p;
      OpenAllRows(Open(rows, p, ts, true), players[1..], ts);
      assert Opened(players, ts) == [Session(p, ts, None, false, true)] + Opened(players[1..], ts);
    }
  }

  lemma OpenUnopened(rows: seq<Session>, p: Player, ts: int)
    requires p !in OpenPlayers(rows)
    ensures Open(rows, p, ts, true) == rows + [Session(p, ts, None, false, true)]
  {
    forall i | 0 <= i < |rows| && IsOpen(rows[i])
      ensures rows[i].player != p
    {
      assert rows[i] in rows && rows[i].player in OpenPlayers(rows);
    }
    assert Close(rows, {p}, ts, true) == rows;
  }

  lemma {:induction false} CloseEachRows(rows: seq<Session>, players: seq<Player>, ts: int)
    ensures CloseEach(rows, players, ts) == Close(rows, (set p | p in players), ts, true)
    decreases |players|
  {
    if players == [] {
      assert Close(rows, (set p | p in players), ts, true) == rows;
    } else {
      CloseEachRows(Close(rows, {players[0]}, ts, true), players[1..], ts);
      assert forall p :: p in players <==> p == players[0] || p in players[1..];
    }
  }

  /** What a list leaves: the old rows, those of players missing for the second time ended, and then the
      sessions it starts. */
  lemma ListedIs(l: Ledger, e: Event)
    requires Possible(l, e) && e.Listed?
    ensures After(l, e).rows == Close(l.rows, (set p | p in e.toClose), e.ts, true) + Opened(e.toOpen, e.ts)
  {
    OpenAllRows(l.rows, e.toOpen, e.ts);
    var more, all := l.rows + Opened(e.toOpen, e.ts), (set p | p in e.toClose);
    CloseEachRows(more, e.toClose, e.ts);
    forall i | 0 <= i < |e.toOpen|
      ensures e.toOpen[i] !in all
    {
      assert e.toOpen[i] in e.toOpen;
    }
    assert Close(more, all, e.ts, true) == Close(l.rows, all, e.ts, true) + Opened(e.toOpen, e.ts);
  }

  lemma ListedRows(l: Ledger, e: Event)
    requires Possible(l, e) && e.Listed?
    ensures RowsAfter(After(l, e).rows, l, e)
  {
    ListedIs(l, e);
    ListedEnds(After(l, e).rows, l, e);
    ListedStarts(After(l, e).rows, l, e);
  }

  lemma ListedEnds(rows: seq<Session>, l: Ledger, e: Event)
    requires Possible(l, e) && e.Listed?
    requires rows == Close(l.rows, (set p | p in e.toClose), e.ts, true) + Opened(e.toOpen, e.ts)
    ensures EndsOnly(rows, l, e)
  {
    ListedCloses(l, e);
  }

  lemma ListedStarts(rows: seq<Session>, l: Ledger, e: Event)
    requires Possible(l, e) && e.Listed?
    requires rows == Close(l.rows, (set p | p in e.toClose), e.ts, true) + Opened(e.toOpen, e.ts)
    ensures StartsOnly(rows, |l.rows|, l, e)
  {
    ListedOpens(l, e);
    var n := |l.rows|;
    assert forall i :: n <= i < |rows| ==> rows[i] == Opened(e.toOpen, e.ts)[i - n];
    forall p | Starts(l, e, p)
      ensures exists i :: n <= i < |rows| && rows[i].player == p
    {
      var k :| 0 <= k < |e.toOpen| && e.toOpen[k] == p;
      assert rows[n + k].player == p;
    }
  }

  lemma ListedCloses(l: Ledger, e: Event)
    requires Possible(l, e) && e.Listed?
    ensures forall i :: 0 <= i < |l.rows| && IsOpen(l.rows[i]) ==> (l.rows[i].player in e.toClose <==> Ends(l, e, l.rows[i].player))
  {
    forall i | 0 <= i < |l.rows| && IsOpen(l.rows[i])
      ensures l.rows[i].player in e.toClose <==> Ends(l, e, l.rows[i].player)
    {
      assert l.rows[i] in l.rows && l.rows[i].player in OpenPlayers(l.rows);
    }
  }

  lemma ListedOpens(l: Ledger, e: Event)
    requires Possible(l, e) && e.Listed?
    ensures forall i :: 0 <= i < |e.toOpen| ==> Starts(l, e, e.toOpen[i])
    ensures forall p :: Starts(l, e, p) ==> p in e.toOpen
  {
    assert forall i :: 0 <= i < |e.toOpen| ==> e.toOpen[i] in e.toOpen;
  }

  // ---------- over whole runs ----------

  /** No session ends before it starts. */
  predicate Ordered(rows: seq<Session>) {
    forall i :: 0 <= i < |rows| && rows[i].end.Some? ==> rows[i].start <= rows[i].end.value
  }

  /** In every run, whatever its times: a session that has ended is never changed again, one that is open
      keeps its player and its start, and none ends before it starts. */
  lemma {:induction false} RunKeepsHistory(l: Ledger, events: seq<Event>)
    requires Happen(l, events) && Ordered(l.rows)
    ensures var rows := End(l, events).rows;
            && |rows| >= |l.rows| && Ordered(rows)
            && (forall i :: 0 <= i < |l.rows| ==>
                  && (l.rows[i].end.Some? ==> rows[i] == l.rows[i])
                  && rows[i].player == l.rows[i].player && rows[i].start == l.rows[i].start
                  && rows[i].startUncertain == l.rows[i].startUncertain)
    decreases |events|
  {
    if events != [] {
      EventRows(l, events[0]);
      RunKeepsHistory(After(l, events[0]), events[1..]);
    }
  }

  // ---------- the counts between lists ----------

  /** A list counts each player it names who has no session, and each with one whom it doesn't name. Naming
      a player with a session forgets that player's first count, and not naming one without a session leaves
      it as it was; likewise for the second. */
  lemma CountsAfter(l: Ledger, e: Event, p: Player)
    requires e.Listed?
    ensures var after, open := After(l, e), p in OpenPlayers(l.rows);
            && Count(after.extra, p) == (if p !in e.names then Count(l.extra, p)
                                         else if open || Count(l.extra, p) >= 1 then 0 else 1)
            && Count(after.missing, p) == (if !open then Count(l.missing, p)
                                           else if p in e.names || Count(l.missing, p) >= 1 then 0 else 1)
  {
  }

  /** Of two lists in a row, the second starts a session for a player it names exactly when the first was the
      first to name the player, or did not name the player but an earlier one had. */
  lemma SecondListStarts(l: Ledger, a: Event, b: Event, p: Player)
    requires a.Listed? && b.Listed? && p in b.names && p !in OpenPlayers(After(l, a).rows) && p !in OpenPlayers(l.rows)
    ensures Starts(After(l, a), b, p) <==> ((p in a.names) != (Count(l.extra, p) >= 1))
  {
    CountsAfter(l, a, p);
  }

  /** A session ends at the second list that leaves its player out only if the first did too. */
  lemma SecondListEnds(l: Ledger, a: Event, b: Event, p: Player)
    requires a.Listed? && b.Listed? && p !in b.names && p in OpenPlayers(After(l, a).rows) && p in OpenPlayers(l.rows)
    ensures Ends(After(l, a), b, p) <==> p !in a.names && Count(l.missing, p) == 0
  {
    CountsAfter(l, a, p);
  }

  /** So a mismatch need not persist: a player listed once, then not, then once more gets a session. */
  lemma MismatchNeedNotPersist(p: Player, ts: int)
    ensures var l := Ledger([], map[], map[]);
            var once := After(l, Listed(ts, {p}, [], []));
            var gone := After(once, Listed(ts + 1, {}, [], []));
            && Possible(l, Listed(ts, {p}, [], [])) && Possible(once, Listed(ts + 1, {}, [], []))
            && gone.rows == [] && Starts(gone, Listed(ts + 2, {p}, [p], []), p)
  {
    var l := Ledger([], map[], map[]);
    CountsAfter(l, Listed(ts, {p}, [], []), p);
    CountsAfter(After(l, Listed(ts, {p}, [], [])), Listed(ts + 1, {}, [], []), p);
  }
}
