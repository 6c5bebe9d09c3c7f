/** Giving servers UDP ports for voice chat and crossplay, so that no two servers get the same one.

    A port is held for a server from when it is picked until the server's settings record it, or the
    attempt is given up. Picking and holding, and letting go, are single steps; in between, other
    servers' steps can come in any order. */
module VoicePorts {
  import opened Options

  type ServerID = string

  /** The ports a server's settings record; 0 is none. */
  datatype Config = Config(voice: nat, crossplay: nat)

  /** A port being given to a server, for crossplay or for voice chat. */
  datatype Pending = Pending(port: nat, crossplay: bool)

  datatype State = State(held: map<nat, ServerID>, configs: map<ServerID, Config>, pending: map<ServerID, Pending>)

  const MIN_PORT := 1024
  const MAX_PORT := 65535

  predicate Records(c: Config, port: nat) { c.voice == port || c.crossplay == port }

  predicate Owns(s: State, id: ServerID, port: nat) {
    (port in s.held && s.held[port] == id) || (id in s.configs && Records(s.configs[id], port))
  }

  /** No port is held or recorded for two different servers. */
  ghost predicate Unique(s: State) {
    forall port, a, b :: port > 0 && Owns(s, a, port) && Owns(s, b, port) ==> a == b
  }

  /** A port being given to a server is held for it, and isn't its port for the other use. */
  ghost predicate Backed(s: State) {
    && (forall id :: id in s.pending ==>
          var p := s.pending[id];
          && p.port > 0 && p.port in s.held && s.held[p.port] == id
          && (id in s.configs ==> p.port != if p.crossplay then s.configs[id].voice else s.configs[id].crossplay))
    && (forall id :: id in s.configs ==> s.configs[id].voice != s.configs[id].crossplay || s.configs[id].voice == 0)
  }

  /** The ports a server can't be given: other servers' recorded and held ones, its own for the other
      use, and those in `busy`. Settings that can't be read, of `unread`, are passed over. */
  predicate Taken(s: State, id: ServerID, crossplay: bool, busy: set<nat>, unread: set<ServerID>, port: nat) {
    || port in busy
    || (port > 0 && (
          || (port in s.held && s.held[port] != id)
          || (exists o :: o in s.configs && o !in unread && o != id && Records(s.configs[o], port))
          || (id in s.configs && id !in unread && port == if crossplay then s.configs[id].voice else s.configs[id].crossplay)))
  }

  /** The lowest port from `from` that isn't taken. */
  function Lowest(s: State, id: ServerID, crossplay: bool, busy: set<nat>, unread: set<ServerID>, from: nat): Option<nat>
    decreases MAX_PORT - from
  {
    if from > MAX_PORT then None
    else if !Taken(s, id, crossplay, busy, unread, from) then Some(from)
    else Lowest(s, id, crossplay, busy, unread, from + 1)
  }

  datatype Event =
    | Hold(id: ServerID, from: nat, crossplay: bool, busy: set<nat>, unread: set<ServerID>)
    | Record(id: ServerID)
    | Release(id: ServerID)
    | Close(id: ServerID, crossplay: bool)

  function Recorded(c: Config, p: Pending): Config {
    if p.crossplay then c.(crossplay := p.port) else c.(voice := p.port)
  }

  function Picked(s: State, e: Event): Option<nat>
    requires e.Hold?
  {
    if MIN_PORT <= e.from <= MAX_PORT then Lowest(s, e.id, e.crossplay, e.busy, e.unread, e.from) else None
  }

  /** One step of one server's operation: a server has one operation at a time, so it holds no second
      port and records or lets go only the one it holds. */
  function After(s: State, e: Event): State {
    match e
    case Hold(id, _, crossplay, _, _) =>
      var port := Picked(s, e);
      if id in s.pending || port.None? then s
      else s.(held := s.held[port.value := id], pending := s.pending[id := Pending(port.value, crossplay)])
    case Record(id) =>
      if id !in s.pending then s
      else s.(configs := s.configs[id := Recorded(if id in s.configs then s.configs[id] else Config(0, 0), s.pending[id])])
    case Release(id) =>
      if id !in s.pending then s
      else
        var port := s.pending[id].port;
        s.(held := if port in s.held && s.held[port] == id then s.held - {port} else s.held, pending := s.pending - {id})
    case Close(id, crossplay) =>
      if id !in s.configs then s
      else
        var c := s.configs[id];
        s.(configs := s.configs[id := if crossplay then c.(crossplay := 0) else c.(voice := 0)])
  }

  lemma {:induction false} LowestIsFree(s: State, id: ServerID, crossplay: bool, busy: set<nat>, unread: set<ServerID>, from: nat)
    ensures var p := Lowest(s, id, crossplay, busy, unread, from);
            if p.Some? then
              && from <= p.value <= MAX_PORT && !Taken(s, id, crossplay, busy, unread, p.value)
              && forall q :: from <= q < p.value ==> Taken(s, id, crossplay, busy, unread, q)
            else forall q :: from <= q <= MAX_PORT ==> Taken(s, id, crossplay, busy, unread, q)
    decreases MAX_PORT - from
  {
    if from <= MAX_PORT && Taken(s, id, crossplay, busy, unread, from) {
      LowestIsFree(s, id, crossplay, busy, unread, from + 1);
    }
  }

  /** Holding a port keeps ports apart exactly when no other server whose settings could not be read
      records the port picked. */
  lemma HoldKeepsUnique(s: State, e: Event)
    requires Unique(s) && e.Hold? && e.id !in s.pending && Picked(s, e).Some?
    ensures var port := Picked(s, e).value;
            Unique(After(s, e)) <==>
              forall o :: o in e.unread && o != e.id && o in s.configs ==> !Records(s.configs[o], port)
  {
    LowestIsFree(s, e.id, e.crossplay, e.busy, e.unread, e.from);
    var port := Picked(s, e).value;
    var after := After(s, e);
    assert Owns(after, e.id, port);
    forall o | o in e.unread && o != e.id && o in s.configs && Records(s.configs[o], port)
      ensures !Unique(after)
    {
      assert Owns(after, o, port);
    }
    if forall o :: o in e.unread && o != e.id && o in s.configs ==> !Records(s.configs[o], port) {
      forall q, a, b | q > 0 && Owns(after, a, q) && Owns(after, b, q)
        ensures a == b
      {
        if q != port { assert Owns(s, a, q) && Owns(s, b, q); }
      }
    }
  }

  /** No port has two servers, and no server has one port for both uses. */
  ghost predicate Apart(s: State) { Unique(s) && Backed(s) }

  /** A hold picks a port that settings it could not read record: another server's, or its own for the
      other use. */
  ghost predicate Clashes(s: State, e: Event) {
    e.Hold? && e.id !in s.pending && Picked(s, e).Some?
    && exists o :: o in e.unread && o in s.configs && RecordsFor(s, e, o, Picked(s, e).value)
  }

  predicate RecordsFor(s: State, e: Event, o: ServerID, port: nat)
    requires e.Hold? && o in s.configs
  {
    if o != e.id then Records(s.configs[o], port)
    else port == if e.crossplay then s.configs[o].voice else s.configs[o].crossplay
  }

  lemma HoldKeepsApart(s: State, e: Event)
    requires Apart(s) && e.Hold?
    ensures Apart(After(s, e)) <==> !Clashes(s, e)
  {
    if e.id !in s.pending && Picked(s, e).Some? {
      LowestIsFree(s, e.id, e.crossplay, e.busy, e.unread, e.from);
      HoldKeepsUnique(s, e);
      var port := Picked(s, e).value;
      if o :| o in e.unread && o in s.configs && RecordsFor(s, e, o, port) && o == e.id {
        assert After(s, e).pending[e.id] == Pending(port, e.crossplay);
      }
    }
  }

  /** Each step of each server keeps ports apart, but for a hold that clashes with settings it could not
      read. */
  lemma StepKeepsApart(s: State, e: Event)
    requires Apart(s)
    ensures Apart(After(s, e)) <==> !Clashes(s, e)
  {
    match e {
      case Hold(_, _, _, _, _) => HoldKeepsApart(s, e);
      case Record(id) =>
        if id in s.pending {
          forall q, a, b | q > 0 && Owns(After(s, e), a, q) && Owns(After(s, e), b, q)
            ensures a == b
          {
            assert Owns(s, id, s.pending[id].port);
            assert Owns(s, a, q) && Owns(s, b, q);
          }
        }
      case Release(id) =>
        forall q, a, b | q > 0 && Owns(After(s, e), a, q) && Owns(After(s, e), b, q)
          ensures a == b
        {
          assert Owns(s, a, q) && Owns(s, b, q);
        }
        if id in s.pending {
          forall o | o in s.pending && o != id
            ensures s.pending[o].port != s.pending[id].port
          {
            assert s.held[s.pending[o].port] == o;
          }
        }
      case Close(id, _) =>
        forall q, a, b | q > 0 && Owns(After(s, e), a, q) && Owns(After(s, e), b, q)
          ensures a == b
        {
          assert Owns(s, a, q) && Owns(s, b, q);
        }
    }
  }

  function Run(s: State, events: seq<Event>): State
    decreases |events|
  {
    if events == [] then s else Run(After(s, events[0]), events[1..])
  }

  /** Ports are apart at every point of the run. */
  ghost predicate ApartThroughout(s: State, events: seq<Event>)
    decreases |events|
  {
    Apart(s) && (events != [] ==> ApartThroughout(After(s, events[0]), events[1..]))
  }

  /** No hold of the run clashes when it comes. */
  ghost predicate NoneClashes(s: State, events: seq<Event>)
    decreases |events|
  {
    events != [] ==> !Clashes(s, events[0]) && NoneClashes(After(s, events[0]), events[1..])
  }

  /** Over every interleaving of the servers' steps, no port is held or recorded for two servers, and no
      server has one port for both uses, if and only if no hold clashes with settings it could not read. */
  lemma {:induction false} ApartExactly(s: State, events: seq<Event>)
    requires Apart(s)
    ensures ApartThroughout(s, events) <==> NoneClashes(s, events)
    ensures NoneClashes(s, events) ==> Apart(Run(s, events))
    decreases |events|
  {
    if events != [] {
      StepKeepsApart(s, events[0]);
      if !Clashes(s, events[0]) { ApartExactly(After(s, events[0]), events[1..]); }
    }
  }

  /** With settings that can be read, none does. */
  lemma PortsStayApart(s: State, events: seq<Event>)
    requires Apart(s)
    requires forall e :: e in events && e.Hold? ==> e.unread == {}
    ensures ApartThroughout(s, events) && Apart(Run(s, events))
  {
    ReadableNoneClashes(s, events);
    ApartExactly(s, events);
  }

  lemma {:induction false} ReadableNoneClashes(s: State, events: seq<Event>)
    requires forall e :: e in events && e.Hold? ==> e.unread == {}
    ensures NoneClashes(s, events)
    decreases |events|
  {
    if events != [] {
      assert events[0] in events;
      ReadableNoneClashes(After(s, events[0]), events[1..]);
    }
  }

  /** Settings that can't be read let two servers have one port: a server's own record is passed over. */
  lemma UnreadSettingsClash(a: ServerID, b: ServerID, port: nat)
    requires a != b && MIN_PORT <= port <= MAX_PORT
    ensures var s := State(map[], map[b := Config(port, 0)], map[]);
            Unique(s) && Backed(s) && !Unique(After(s, Hold(a, port, false, {}, {b})))
  {
    var s := State(map[], map[b := Config(port, 0)], map[]);
    var e := Hold(a, port, false, {}, {b});
    assert !Taken(s, a, false, {}, {b}, port);
    assert Owns(After(s, e), a, port) && Owns(After(s, e), b, port);
  }

  // ---------- one server's attempt, with other servers' steps in between ----------

  /** What the state has of server `id` is the same: its settings, the port being given to it, and the ports
      held for it. */
  ghost predicate SameFor(s: State, t: State, id: ServerID) {
    && (id in s.pending <==> id in t.pending) && (id in s.pending ==> t.pending[id] == s.pending[id])
    && (id in s.configs <==> id in t.configs) && (id in s.configs ==> t.configs[id] == s.configs[id])
    && (forall q :: q in s.held && s.held[q] == id <==> q in t.held && t.held[q] == id)
  }

  /** A step of another server changes nothing for this one. */
  lemma OtherStepKeeps(s: State, e: Event, id: ServerID)
    requires Backed(s) && e.id != id
    ensures SameFor(s, After(s, e), id)
  {
    if e.Hold? && e.id !in s.pending && Picked(s, e).Some? {
      LowestIsFree(s, e.id, e.crossplay, e.busy, e.unread, e.from);
    }
  }

  lemma {:induction false} OthersKeep(s: State, events: seq<Event>, id: ServerID)
    requires Apart(s) && NoneClashes(s, events) && forall e :: e in events ==> e.id != id
    ensures SameFor(s, Run(s, events), id) && Apart(Run(s, events))
    decreases |events|
  {
    if events != [] {
      assert events[0] in events;
      OtherStepKeeps(s, events[0], id);
      StepKeepsApart(s, events[0]);
      OthersKeep(After(s, events[0]), events[1..], id);
    }
  }

  /** A server's attempt to get a port: it holds one, records it unless the attempt is given up, and lets go;
      other servers' steps come before each of the last two. */
  function Attempt(s: State, hold: Event, between: seq<Event>, records: bool, later: seq<Event>): State {
    var waiting := Run(After(s, hold), between);
    After(Run(if records then After(waiting, Record(hold.id)) else waiting, later), Release(hold.id))
  }

  /** The attempt goes through: none of its holds clashes with settings that could not be read. */
  ghost predicate Undisturbed(s: State, hold: Event, between: seq<Event>, records: bool, later: seq<Event>) {
    var waiting := Run(After(s, hold), between);
    && NoneClashes(s, [hold] + between)
    && NoneClashes(if records then After(waiting, Record(hold.id)) else waiting, later)
    && (forall e :: e in between + later ==> e.id != hold.id)
  }

  predicate UsesFor(c: Config, crossplay: bool, port: nat) { (if crossplay then c.crossplay else c.voice) == port }

  /** Whatever other servers do meanwhile, a server that records the port it was given has it in its settings
      for the use it was for, keeps its port for the other use, and holds it no longer; one that gives up has
      the settings it had. */
  lemma AttemptEnds(s: State, hold: Event, between: seq<Event>, records: bool, later: seq<Event>)
    requires Apart(s) && hold.Hold? && hold.id !in s.pending && Picked(s, hold).Some?
    requires Undisturbed(s, hold, between, records, later)
    ensures var end, port := Attempt(s, hold, between, records, later), Picked(s, hold).value;
            var was := if hold.id in s.configs then s.configs[hold.id] else Config(0, 0);
            && Apart(end) && hold.id !in end.pending && (port !in end.held || end.held[port] != hold.id)
            && (if records then
                  && hold.id in end.configs
                  && UsesFor(end.configs[hold.id], hold.crossplay, port)
                  && UsesFor(end.configs[hold.id], !hold.crossplay, if hold.crossplay then was.voice else was.crossplay)
                else
                  && (hold.id in end.configs <==> hold.id in s.configs)
                  && (hold.id in s.configs ==> end.configs[hold.id] == was))
  {
    var id := hold.id;
    var held := After(s, hold);
    assert ([hold] + between)[1..] == between;
    StepKeepsApart(s, hold);
    assert forall e :: e in between ==> e in between + later;
    assert forall e :: e in later ==> e in between + later;
    OthersKeep(held, between, id);
    var waiting := Run(held, between);
    var saved := if records then After(waiting, Record(id)) else waiting;
    if records { StepKeepsApart(waiting, Record(id)); }
    OthersKeep(saved, later, id);
    StepKeepsApart(Run(saved, later), Release(id));
  }

  /** Closing a port clears it in the server's settings, and nothing else. */
  lemma CloseClears(s: State, id: ServerID, crossplay: bool)
    requires id in s.configs
    ensures var end := After(s, Close(id, crossplay));
            && end.held == s.held && end.pending == s.pending && end.configs.Keys == s.configs.Keys
            && (forall o :: o in s.configs && o != id ==> end.configs[o] == s.configs[o])
            && UsesFor(end.configs[id], crossplay, 0)
            && UsesFor(end.configs[id], !crossplay, if crossplay then s.configs[id].voice else s.configs[id].crossplay)
  {
  }

  class Ports {
    var held: map<nat, ServerID>
    var configs: map<ServerID, Config>
    var pending: map<ServerID, Pending>

    function Now(): State
      reads this
    {
      State(held, configs, pending)
    }

    constructor ()
      ensures Now() == State(map[], map[], map[])
    {
      held, configs, pending := map[], map[], map[];
    }

    method HeldByOthers(id: ServerID) returns (used: set<nat>)
      ensures forall p :: p in used <==> p in held && held[p] != id
    {
      used := {};
      var left := held.Keys;
      while left != {}
        invariant left <= held.Keys
        invariant forall p :: p in used <==> p in held.Keys - left && held[p] != id
        decreases |left|
      {
        var p :| p in left;
        if held[p] != id { used := used + {p}; }
        left := left - {p};
      }
    }

    method RecordedPorts(id: ServerID, crossplay: bool, unread: set<ServerID>) returns (used: set<nat>)
      ensures forall p :: p in used <==>
                || (exists o :: o in configs && o !in unread && o != id && Records(configs[o], p))
                || (id in configs && id !in unread && p == if crossplay then configs[id].voice else configs[id].crossplay)
    {
      used := {};
      var left := configs.Keys;
      ghost var done: set<ServerID> := {};
      while left != {}
        invariant done !! left && done + left == configs.Keys
        invariant forall p :: p in used <==>
                    || (exists o :: o in done && o !in unread && o != id && Records(configs[o], p))
                    || (id in done && id !in unread && p == if crossplay then configs[id].voice else configs[id].crossplay)
        decreases |left|
      {
        var o :| o in left;
        if o !in unread {
          var c := configs[o];
          if o != id || crossplay { used := used + {c.voice}; }
          if o != id || !crossplay { used := used + {c.crossplay}; }
        }
        left, done := left - {o}, done + {o};
      }
      assert done == configs.Keys;
    }

    /** The ports the server can't have. */
    method UdpPortTaken(id: ServerID, crossplay: bool, busy: set<nat>, unread: set<ServerID>) returns (used: set<nat>)
      ensures forall p :: p in used || p in busy <==> Taken(Now(), id, crossplay, busy, unread, p)
    {
      var byHold := HeldByOthers(id);
      var byRecord := RecordedPorts(id, crossplay, unread);
      used := byHold + byRecord - {0};
    }

    /** Picks the lowest port the server can have and holds it, as one step. */
    method HoldPort(id: ServerID, from: nat, crossplay: bool, busy: set<nat>, unread: set<ServerID>) returns (port: Option<nat>)
      requires id !in pending
      modifies this
      ensures port == Picked(old(Now()), Hold(id, from, crossplay, busy, unread))
      ensures Now() == After(old(Now()), Hold(id, from, crossplay, busy, unread))
    {
      if from < MIN_PORT || from > MAX_PORT { return None; }
      var used := UdpPortTaken(id, crossplay, busy, unread);
      var p := from;
      while p <= MAX_PORT
        invariant from <= p <= MAX_PORT + 1
        invariant Lowest(Now(), id, crossplay, busy, unread, from) == Lowest(Now(), id, crossplay, busy, unread, p)
      {
        if p !in used && p !in busy {
          held := held[p := id];
          pending := pending[id := Pending(p, crossplay)];
          return Some(p);
        }
        p := p + 1;
      }
      return None;
    }

    /** Saves the port being given to the server in its settings. */
    method RecordPort(id: ServerID)
      requires id in pending
      modifies this
      ensures Now() == After(old(Now()), Record(id))
    {
      var c := if id in configs then configs[id] else Config(0, 0);
      var p := pending[id];
      if p.crossplay { c := c.(crossplay := p.port); } else { c := c.(voice := p.port); }
      configs := configs[id := c];
    }

    method ReleasePort(id: ServerID)
      requires id in pending
      modifies this
      ensures Now() == After(old(Now()), Release(id))
    {
      var port := pending[id].port;
      if port in held && held[port] == id { held := held - {port}; }
      pending := pending - {id};
    }

    method ClosePort(id: ServerID, crossplay: bool)
      modifies this
      ensures Now() == After(old(Now()), Close(id, crossplay))
    {
      if id !in configs { return; }
      var c := configs[id];
      if crossplay { c := c.(crossplay := 0); } else { c := c.(voice := 0); }
      configs := configs[id := c];
    }
  }
}
