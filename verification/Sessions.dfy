/** Player sessions, kept from join and leave lines and checked against the server's player list. */
module Sessions {
  import opened Options

  type Player = string

  datatype Session = Session(player: Player, start: int, end: Option<int>, uncertain: bool, startUncertain: bool)

  /** The session table, and whether an earlier list has named a player who had no session, or left out one
      who had. */
  datatype Ledger = Ledger(rows: seq<Session>, extra: map<Player, nat>, missing: map<Player, nat>)

  predicate IsOpen(s: Session) { s.end.None? }

  function OpenPlayers(rows: seq<Session>): set<Player> { set s | s in rows && IsOpen(s) :: s.player }

  // ---------- updates of the table ----------

  function Ended(s: Session, ts: int, uncertain: bool): Session { s.(end := Some(ts), uncertain := uncertain) }

  /** Ends the open sessions of `players` that started by `ts`. */
  function Close(rows: seq<Session>, players: set<Player>, ts: int, uncertain: bool): (r: seq<Session>)
    ensures |r| == |rows|
    ensures forall i :: 0 <= i < |rows| ==>
              r[i] == if IsOpen(rows[i]) && rows[i].player in players && rows[i].start <= ts then Ended(rows[i], ts, uncertain) else rows[i]
  {
    seq(|rows|, i requires 0 <= i < |rows| =>
      if IsOpen(rows[i]) && rows[i].player in players && rows[i].start <= ts then Ended(rows[i], ts, uncertain) else rows[i])
  }

  /** Starts a session, ending one the player has left open. */
  function Open(rows: seq<Session>, player: Player, ts: int, uncertain: bool): seq<Session> {
    Close(rows, {player}, ts, true) + [Session(player, ts, None, false, uncertain)]
  }

  function OpenAll(rows: seq<Session>, players: seq<Player>, ts: int): seq<Session>
    decreases |players|
  {
    if players == [] then rows else OpenAll(Open(rows, players[0], ts, true), players[1..], ts)
  }

  function CloseEach(rows: seq<Session>, players: seq<Player>, ts: int): seq<Session>
    decreases |players|
  {
    if players == [] then rows else CloseEach(Close(rows, {players[0]}, ts, true), players[1..], ts)
  }

  // ---------- the player list ----------

  function Count(counts: map<Player, nat>, n: Player): nat { if n in counts then counts[n] else 0 }

  /** Players of `names` that aren't in `others`, for the second time. */
  function Due(counts: map<Player, nat>, names: set<Player>, others: set<Player>): set<Player> {
    set n | n in names && n !in others && Count(counts, n) + 1 >= 2
  }

  /** The counts after a look at `names`: those in `others` or due are forgotten. */
  function Counted(counts: map<Player, nat>, names: set<Player>, others: set<Player>): map<Player, nat> {
    map n | n in counts.Keys + names && (n in names ==> n !in others && Count(counts, n) + 1 < 2)
      :: if n in names then Count(counts, n) + 1 else counts[n]
  }

  lemma CountNone(counts: map<Player, nat>, others: set<Player>)
    ensures Counted(counts, {}, others) == counts && Due(counts, {}, others) == {}
  {
  }

  /** What one more name changes. */
  lemma CountOneMore(counts: map<Player, nat>, done: set<Player>, n: Player, others: set<Player>)
    requires n !in done
    ensures var before, after := Counted(counts, done, others), Counted(counts, done + {n}, others);
            && Count(before, n) == Count(counts, n)
            && after == (if n in others || Count(counts, n) + 1 >= 2 then before - {n} else before[n := Count(counts, n) + 1])
    ensures Due(counts, done + {n}, others) ==
              Due(counts, done, others) + if n !in others && Count(counts, n) + 1 >= 2 then {n} else {}
  {
    var before, after := Counted(counts, done, others), Counted(counts, done + {n}, others);
    var expected := if n in others || Count(counts, n) + 1 >= 2 then before - {n} else before[n := Count(counts, n) + 1];
    assert forall m :: m in after <==> m in expected;
    assert after == expected;
  }

  ghost predicate Lists(players: seq<Player>, all: set<Player>) {
    && (forall p :: p in players <==> p in all)
    && (forall i, k :: 0 <= i < k < |players| ==> players[i] != players[k])
  }

  /** What happens to a server's sessions. A look at the player list opens and closes sessions in no
      particular order. */
  datatype Event =
    | Join(ts: int, player: Player)
    | Leave(ts: int, player: Player)
    | Stopped(ts: int, uncertain: bool)
    | Listed(ts: int, names: set<Player>, toOpen: seq<Player>, toClose: seq<Player>)

  ghost predicate Possible(l: Ledger, e: Event) {
    e.Listed? ==>
      && Lists(e.toOpen, Due(l.extra, e.names, OpenPlayers(l.rows)))
      && Lists(e.toClose, Due(l.missing, OpenPlayers(l.rows), e.names))
  }

  function After(l: Ledger, e: Event): Ledger {
    match e
    case Join(ts, p) => l.(rows := Open(l.rows, p, ts, false))
    case Leave(ts, p) => l.(rows := Close(l.rows, {p}, ts, false))
    case Stopped(ts, uncertain) => l.(rows := Close(l.rows, OpenPlayers(l.rows), ts, uncertain))
    case Listed(ts, names, toOpen, toClose) =>
      var open := OpenPlayers(l.rows);
      Ledger(CloseEach(OpenAll(l.rows, toOpen, ts), toClose, ts),
             Counted(l.extra, names, open), Counted(l.missing, open, names))
  }

  // ---------- what holds in every run ----------

  /** No player has two open sessions, and none starts after `now`. */
  predicate Sound(rows: seq<Session>, now: int) {
    && OneOpen(rows)
    && (forall i :: 0 <= i < |rows| ==> rows[i].start <= now)
  }

  lemma CloseSound(rows: seq<Session>, now: int, players: set<Player>, ts: int, uncertain: bool)
    requires Sound(rows, now) && now <= ts
    ensures var r := Close(rows, players, ts, uncertain);
            Sound(r, ts) && OpenPlayers(r) == OpenPlayers(rows) - players
  {
    var r := Close(rows, players, ts, uncertain);
    forall p
      ensures p in OpenPlayers(r) <==> p in OpenPlayers(rows) && p !in players
    {
      if p in OpenPlayers(r) {
        var s :| s in r && IsOpen(s) && s.player == p;
        var i :| 0 <= i < |r| && r[i] == s;
        assert rows[i] in rows;
      }
      if p in OpenPlayers(rows) && p !in players {
        var s :| s in rows && IsOpen(s) && s.player == p;
        var i :| 0 <= i < |rows| && rows[i] == s;
        assert r[i] in r;
      }
    }
  }

  lemma OpenSound(rows: seq<Session>, now: int, player: Player, ts: int, uncertain: bool)
    requires Sound(rows, now) && now <= ts
    ensures var r := Open(rows, player, ts, uncertain);
            Sound(r, ts) && OpenPlayers(r) == OpenPlayers(rows) + {player}
  {
    var closed := Close(rows, {player}, ts, true);
    var added := Session(player, ts, None, false, uncertain);
    CloseSound(rows, now, {player}, ts, true);
    assert forall s :: s in closed + [added] <==> s in closed || s == added;
    forall i | 0 <= i < |closed| && IsOpen(closed[i])
      ensures closed[i].player != player
    {
      assert closed[i] in closed && closed[i].player in OpenPlayers(closed);
    }
    forall p
      ensures p in OpenPlayers(closed + [added]) <==> p in OpenPlayers(closed) || p == player
    {
      assert added in closed + [added];
      if p in OpenPlayers(closed) {
        var s :| s in closed && IsOpen(s) && s.player == p;
        assert s in closed + [added];
      }
    }
  }

  // ---------- whatever the times ----------

  /** No player has two open sessions. */
  predicate OneOpen(rows: seq<Session>) {
    forall i, k :: 0 <= i < k < |rows| && IsOpen(rows[i]) && IsOpen(rows[k]) ==> rows[i].player != rows[k].player
  }

  /** The player has an open session that started after `ts`, as one a look at the list opened by the
      agent's clock can have when a join dated before it is read. */
  predicate OpenSince(rows: seq<Session>, player: Player, ts: int) {
    exists i :: 0 <= i < |rows| && IsOpen(rows[i]) && rows[i].player == player && rows[i].start > ts
  }

  lemma CloseKeepsOne(rows: seq<Session>, players: set<Player>, ts: int, uncertain: bool)
    requires OneOpen(rows)
    ensures OneOpen(Close(rows, players, ts, uncertain))
  {
  }

  /** Starting a session leaves a player with two open ones exactly when one that is open started later. */
  lemma OpenKeepsOneExactly(rows: seq<Session>, player: Player, ts: int, uncertain: bool)
    requires OneOpen(rows)
    ensures OneOpen(Open(rows, player, ts, uncertain)) <==> !OpenSince(rows, player, ts)
  {
    var r, n := Open(rows, player, ts, uncertain), |rows|;
    assert r[n].player == player && IsOpen(r[n]);
    if i :| 0 <= i < n && IsOpen(rows[i]) && rows[i].player == player && rows[i].start > ts {
      assert r[i] == rows[i];
    }
  }

  lemma OpenOthers(rows: seq<Session>, player: Player, ts: int, uncertain: bool)
    requires player !in OpenPlayers(rows)
    ensures OpenPlayers(Open(rows, player, ts, uncertain)) == OpenPlayers(rows) + {player}
  {
    var added := Session(player, ts, None, false, uncertain);
    forall i | 0 <= i < |rows| && IsOpen(rows[i])
      ensures rows[i].player != player
    {
      assert rows[i] in rows && rows[i].player in OpenPlayers(rows);
    }
    assert Close(rows, {player}, ts, true) == rows;
    assert forall s :: s in rows + [added] <==> s in rows || s == added;
  }

  lemma {:induction false} OpenAllKeepsOne(rows: seq<Session>, players: seq<Player>, ts: int)
    requires OneOpen(rows) && (forall p :: p in players ==> p !in OpenPlayers(rows))
    requires forall i, k :: 0 <= i < k < |players| ==> players[i] != players[k]
    ensures OneOpen(OpenAll(rows, players, ts))
    decreases |players|
  {
    if players != [] {
      var p := players[0];
      assert p in players;
      NotOpenSince(rows, p, ts);
      OpenKeepsOneExactly(rows, p, ts, true);
      OpenOthers(rows, p, ts, true);
      assert forall q :: q in players[1..] ==> q in players && q != p;
      OpenAllKeepsOne(Open(rows, p, ts, true), players[1..], ts);
    }
  }

  lemma NotOpenSince(rows: seq<Session>, player: Player, ts: int)
    requires player !in OpenPlayers(rows)
    ensures !OpenSince(rows, player, ts)
  {
    forall i | 0 <= i < |rows| && IsOpen(rows[i])
      ensures rows[i].player != player
    {
      assert rows[i] in rows && rows[i].player in OpenPlayers(rows);
    }
  }

  lemma {:induction false} CloseEachKeepsOne(rows: seq<Session>, players: seq<Player>, ts: int)
    requires OneOpen(rows)
    ensures OneOpen(CloseEach(rows, players, ts))
    decreases |players|
  {
    if players != [] {
      CloseKeepsOne(rows, {players[0]}, ts, true);
      CloseEachKeepsOne(Close(rows, {players[0]}, ts, true), players[1..], ts);
    }
  }

  /** A join dated before the player's open session. */
  predicate LateJoin(l: Ledger, e: Event) { e.Join? && OpenSince(l.rows, e.player, e.ts) }

  lemma StepKeepsOne(l: Ledger, e: Event)
    requires OneOpen(l.rows) && Possible(l, e)
    ensures OneOpen(After(l, e).rows) <==> !LateJoin(l, e)
  {
    match e {
      case Join(ts, p) => OpenKeepsOneExactly(l.rows, p, ts, false);
      case Leave(ts, p) => CloseKeepsOne(l.rows, {p}, ts, false);
      case Stopped(ts, uncertain) => CloseKeepsOne(l.rows, OpenPlayers(l.rows), ts, uncertain);
      case Listed(ts, _, toOpen, toClose) =>
        OpenAllKeepsOne(l.rows, toOpen, ts);
        CloseEachKeepsOne(OpenAll(l.rows, toOpen, ts), toClose, ts);
    }
  }

  /** Events one after the other, at any times. */
  ghost predicate Happen(l: Ledger, events: seq<Event>)
    decreases |events|
  {
    events != [] ==> Possible(l, events[0]) && Happen(After(l, events[0]), events[1..])
  }

  ghost predicate OneOpenThroughout(l: Ledger, events: seq<Event>)
    decreases |events|
  {
    OneOpen(l.rows) && (events != [] ==> OneOpenThroughout(After(l, events[0]), events[1..]))
  }

  predicate NoLateJoin(l: Ledger, events: seq<Event>)
    decreases |events|
  {
    events != [] ==> !LateJoin(l, events[0]) && NoLateJoin(After(l, events[0]), events[1..])
  }

  /** In every run, whatever its times: no player ever has two open sessions if and only if no join is
      dated before the open session its player has when it comes. */
  lemma {:induction false} OneSessionExactly(l: Ledger, events: seq<Event>)
    requires OneOpen(l.rows) && Happen(l, events)
    ensures OneOpenThroughout(l, events) <==> NoLateJoin(l, events)
    decreases |events|
  {
    if events != [] {
      StepKeepsOne(l, events[0]);
      if !LateJoin(l, events[0]) { OneSessionExactly(After(l, events[0]), events[1..]); }
    }
  }

  // ---------- when times never go back ----------

  lemma {:induction false} OpenAllSound(rows: seq<Session>, now: int, players: seq<Player>, ts: int)
    requires Sound(rows, now) && now <= ts
    ensures var r := OpenAll(rows, players, ts);
            Sound(r, ts) && OpenPlayers(r) == OpenPlayers(rows) + set p | p in players
    decreases |players|
  {
    if players != [] {
      OpenSound(rows, now, players[0], ts, true);
      OpenAllSound(Open(rows, players[0], ts, true), ts, players[1..], ts);
      assert forall p :: p in players <==> p == players[0] || p in players[1..];
    }
  }

  lemma {:induction false} CloseEachSound(rows: seq<Session>, now: int, players: seq<Player>, ts: int)
    requires Sound(rows, now) && now <= ts
    ensures var r := CloseEach(rows, players, ts);
            Sound(r, ts) && OpenPlayers(r) == OpenPlayers(rows) - set p | p in players
    decreases |players|
  {
    if players != [] {
      CloseSound(rows, now, {players[0]}, ts, true);
      CloseEachSound(Close(rows, {players[0]}, ts, true), ts, players[1..], ts);
      assert forall p :: p in players <==> p == players[0] || p in players[1..];
    }
  }

  /** Each event keeps at most one open session a player, and opens and closes what it says. */
  lemma AfterSound(l: Ledger, now: int, e: Event)
    requires Sound(l.rows, now) && now <= e.ts && Possible(l, e)
    ensures Sound(After(l, e).rows, e.ts)
    ensures OpenPlayers(After(l, e).rows) ==
              match e
              case Join(_, p) => OpenPlayers(l.rows) + {p}
              case Leave(_, p) => OpenPlayers(l.rows) - {p}
              case Stopped(_, _) => {}
              case Listed(_, names, _, _) =>
                OpenPlayers(l.rows) + Due(l.extra, names, OpenPlayers(l.rows)) - Due(l.missing, OpenPlayers(l.rows), names)
  {
    match e {
      case Join(ts, p) => OpenSound(l.rows, now, p, ts, false);
      case Leave(ts, p) => CloseSound(l.rows, now, {p}, ts, false);
      case Stopped(ts, uncertain) => CloseSound(l.rows, now, OpenPlayers(l.rows), ts, uncertain);
      case Listed(ts, names, toOpen, toClose) =>
        OpenAllSound(l.rows, now, toOpen, ts);
        CloseEachSound(OpenAll(l.rows, toOpen, ts), ts, toClose, ts);
    }
  }

  /** Events that happen one after the other, at times that never go back. */
  ghost predicate Runs(l: Ledger, now: int, events: seq<Event>)
    decreases |events|
  {
    events != [] ==>
      now <= events[0].ts && Possible(l, events[0]) && Runs(After(l, events[0]), events[0].ts, events[1..])
  }

  function End(l: Ledger, events: seq<Event>): Ledger
    decreases |events|
  {
    if events == [] then l else End(After(l, events[0]), events[1..])
  }

  /** When the last of the events happened. */
  function Latest(now: int, events: seq<Event>): int
    decreases |events|
  {
    if events == [] then now else Latest(events[0].ts, events[1..])
  }

  /** In every run of joins, leaves, stops and looks at the list, no player has two open sessions. */
  lemma {:induction false} OneSessionEach(l: Ledger, now: int, events: seq<Event>)
    requires Sound(l.rows, now) && Runs(l, now, events)
    ensures Sound(End(l, events).rows, Latest(now, events))
    decreases |events|
  {
    if events != [] {
      AfterSound(l, now, events[0]);
      OneSessionEach(After(l, events[0]), events[0].ts, events[1..]);
    }
  }

  /** Two equal lists in a row make the open sessions exactly the listed players, whatever was open and
      whatever the counts were. */
  lemma TwoListsSettle(l: Ledger, now: int, a: Event, b: Event)
    requires Sound(l.rows, now) && a.Listed? && b.Listed? && a.names == b.names && now <= a.ts <= b.ts
    requires Possible(l, a) && Possible(After(l, a), b)
    ensures OpenPlayers(After(After(l, a), b).rows) == a.names
  {
    AfterSound(l, now, a);
    AfterSound(After(l, a), a.ts, b);
    TwoCountsSettle(l.extra, l.missing, OpenPlayers(l.rows), a.names);
  }

  lemma TwoCountsSettle(extra: map<Player, nat>, missing: map<Player, nat>, open: set<Player>, names: set<Player>)
    ensures var once := open + Due(extra, names, open) - Due(missing, open, names);
            once + Due(Counted(extra, names, open), names, once) - Due(Counted(missing, open, names), once, names) == names
  {
  }

  /** One list is not enough: a player it names without a session has none afterwards, unless an earlier
      list counted the player. */
  lemma OneListWaits(l: Ledger, now: int, e: Event, p: Player)
    requires Sound(l.rows, now) && e.Listed? && now <= e.ts && Possible(l, e)
    requires p in e.names && p !in OpenPlayers(l.rows)
    ensures p in OpenPlayers(After(l, e).rows) <==> Count(l.extra, p) >= 1
  {
    AfterSound(l, now, e);
  }

  class Server {
    var rows: seq<Session>
    var listExtra: map<Player, nat>
    var listMissing: map<Player, nat>

    function State(): Ledger
      reads this
    {
      Ledger(rows, listExtra, listMissing)
    }

    constructor ()
      ensures State() == Ledger([], map[], map[])
    {
      rows, listExtra, listMissing := [], map[], map[];
    }

    /** A join, or a player found in the list: the player has one open session, whatever was open. */
    method OpenSession(ts: int, player: Player, startUncertain: bool)
      modifies this`rows
      ensures rows == Open(old(rows), player, ts, startUncertain)
      ensures OneOpen(old(rows)) ==> (OneOpen(rows) <==> !OpenSince(old(rows), player, ts))
      ensures forall now :: Sound(old(rows), now) && now <= ts ==>
                Sound(rows, ts) && OpenPlayers(rows) == OpenPlayers(old(rows)) + {player}
    {
      ghost var was := rows;
      rows := Close(rows, {player}, ts, true);
      rows := rows + [Session(player, ts, None, false, startUncertain)];
      if OneOpen(was) { OpenKeepsOneExactly(was, player, ts, startUncertain); }
      forall now | Sound(was, now) && now <= ts
        ensures Sound(rows, ts) && OpenPlayers(rows) == OpenPlayers(was) + {player}
      {
        OpenSound(was, now, player, ts, startUncertain);
      }
    }

    /** A leave, or a player missing from the list: the player has no open session, the others keep theirs. */
    method CloseSession(ts: int, player: Player, uncertain: bool)
      modifies this`rows
      ensures rows == Close(old(rows), {player}, ts, uncertain)
      ensures forall now :: Sound(old(rows), now) && now <= ts ==>
                Sound(rows, ts) && OpenPlayers(rows) == OpenPlayers(old(rows)) - {player}
    {
      ghost var was := rows;
      rows := Close(rows, {player}, ts, uncertain);
      forall now | Sound(was, now) && now <= ts
        ensures Sound(rows, ts) && OpenPlayers(rows) == OpenPlayers(was) - {player}
      {
        CloseSound(was, now, {player}, ts, uncertain);
      }
    }

    /** The server stopped: nobody has an open session. */
    method CloseOpenSessions(ts: int, uncertain: bool)
      modifies this`rows
      ensures rows == Close(old(rows), OpenPlayers(old(rows)), ts, uncertain)
      ensures forall now :: Sound(old(rows), now) && now <= ts ==> Sound(rows, ts) && OpenPlayers(rows) == {}
    {
      ghost var was := rows;
      rows := Close(rows, OpenPlayers(rows), ts, uncertain);
      forall now | Sound(was, now) && now <= ts
        ensures Sound(rows, ts) && OpenPlayers(rows) == {}
      {
        CloseSound(was, now, OpenPlayers(was), ts, uncertain);
      }
    }

    /** Counts the players of `names` that aren't in `others`, and names those seen so for the second time. */
    static method Tally(counts: map<Player, nat>, names: set<Player>, others: set<Player>)
      returns (after: map<Player, nat>, due: seq<Player>)
      ensures after == Counted(counts, names, others)
      ensures Lists(due, Due(counts, names, others))
    {
      after, due := counts, [];
      var left := names;
      ghost var done: set<Player> := {};
      CountNone(counts, others);
      while left != {}
        invariant done !! left && done + left == names
        invariant after == Counted(counts, done, others)
        invariant Lists(due, Due(counts, done, others))
        decreases |left|
      {
        var n :| n in left;
        after, due := CountOne(counts, done, n, others, after, due);
        left, done := left - {n}, done + {n};
      }
      assert done == names;
    }

    /** Counts one more name. */
    static method CountOne(ghost counts: map<Player, nat>, ghost done: set<Player>, n: Player, others: set<Player>,
                           soFar: map<Player, nat>, dueSoFar: seq<Player>)
      returns (after: map<Player, nat>, due: seq<Player>)
      requires n !in done && soFar == Counted(counts, done, others) && Lists(dueSoFar, Due(counts, done, others))
      ensures after == Counted(counts, done + {n}, others)
      ensures Lists(due, Due(counts, done + {n}, others))
    {
      CountOneMore(counts, done, n, others);
      if n in others { return soFar - {n}, dueSoFar; }
      var count := Count(soFar, n) + 1;
      if count < 2 { return soFar[n := count], dueSoFar; }
      assert n !in dueSoFar;
      return soFar - {n}, dueSoFar + [n];
    }

    /** Cross-checks the sessions against a list of the players online. */
    method ReconcileWithList(ts: int, names: set<Player>) returns (toOpen: seq<Player>, toClose: seq<Player>)
      modifies this
      ensures Possible(old(State()), Listed(ts, names, toOpen, toClose))
      ensures State() == After(old(State()), Listed(ts, names, toOpen, toClose))
    {
      var open := OpenPlayers(rows);
      listExtra, toOpen := Tally(listExtra, names, open);
      listMissing, toClose := Tally(listMissing, open, names);
      ghost var all := OpenAll(rows, toOpen, ts);
      for i := 0 to |toOpen|
        invariant OpenAll(rows, toOpen[i..], ts) == all
        invariant listExtra == Counted(old(listExtra), names, open) && listMissing == Counted(old(listMissing), open, names)
      {
        assert toOpen[i..][1..] == toOpen[i + 1..];
        OpenSession(ts, toOpen[i], true);
      }
      ghost var closed := CloseEach(rows, toClose, ts);
      for i := 0 to |toClose|
        invariant CloseEach(rows, toClose[i..], ts) == closed
        invariant listExtra == Counted(old(listExtra), names, open) && listMissing == Counted(old(listMissing), open, names)
      {
        assert toClose[i..][1..] == toClose[i + 1..];
        CloseSession(ts, toClose[i], true);
      }
    }
  }
}
