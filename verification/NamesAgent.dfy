/** The machine and the names service as objects that change: methods proved to leave what the
    functions of NamesModel say. */
module NamesAgent {
  import opened Options
  import M = NamesModel
  import Proofs = NamesProofs
  import Outcomes = NamesOutcomes

  /** A line of the service's list of a key's names. */
  datatype Row = Row(name: M.Name, released: bool)

  class NamesService {
    var held: Option<M.Name>
    var released: set<M.Name>

    function State(): M.Service
      reads this
    {
      M.Service(held, released)
    }

    constructor ()
      ensures held.None? && released == {}
    {
      held, released := None, {};
    }

    /** Whether the request reaches the service's own bookkeeping, past refusals and lost requests. */
    method Admits(name: M.Name, reply: M.Reply) returns (carried: bool)
      ensures carried <==> reply in {M.Answered, M.LostAfter} || (reply == M.Elsewhere && M.Owns(State(), name))
    {
      match reply
      case Answered | LostAfter => carried := true;
      case Elsewhere => carried := held == Some(name) || name in released;
      case Refused | LostBefore => carried := false;
    }

    /** What the machine hears when the service's own answer is `a`. */
    method Hears(carried: bool, a: M.Answer, reply: M.Reply) returns (heard: M.Answer)
      ensures heard == if reply in {M.LostBefore, M.LostAfter} then M.NoAnswer
                       else if carried then a
                       else M.Refusal(if reply == M.Elsewhere then M.AnothersName else M.OtherCode)
    {
      if reply in {M.LostBefore, M.LostAfter} { return M.NoAnswer; }
      if carried { return a; }
      heard := M.Refusal(if reply == M.Elsewhere then M.AnothersName else M.OtherCode);
    }

    method Claim(name: M.Name, reply: M.Reply) returns (heard: M.Answer)
      modifies this
      ensures M.Tried(State(), heard) == M.Claim(old(State()), name, reply)
    {
      var carried := Admits(name, reply);
      var a := M.Ok;
      if carried {
        if held.Some? && held != Some(name) {
          a := M.Refusal(M.LimitReached);
        } else if held.None? {
          held, released := Some(name), released - {name};
        }
      }
      heard := Hears(carried, a, reply);
    }

    method Release(name: M.Name, reply: M.Reply) returns (heard: M.Answer)
      modifies this
      ensures M.Tried(State(), heard) == M.Release(old(State()), name, reply)
    {
      var carried := Admits(name, reply);
      var a := M.Ok;
      if carried {
        if held == Some(name) { held, released := None, released + {name}; }
        else { a := M.Refusal(M.NotClaimed); }
      }
      heard := Hears(carried, a, reply);
    }

    method Refresh(name: M.Name, reply: M.Reply) returns (heard: M.Answer)
      ensures M.Tried(State(), heard) == M.Refresh(State(), name, reply)
    {
      var carried := Admits(name, reply);
      heard := Hears(carried, if held == Some(name) then M.Ok else M.Refusal(M.NotClaimed), reply);
    }

    /** The names the key holds, released ones included. */
    method Names() returns (rows: seq<Row>)
      requires M.Sound(State())
      ensures forall r :: r in rows <==>
                (!r.released && held == Some(r.name)) || (r.released && r.name in released)
    {
      rows := if held.Some? then [Row(held.value, false)] else [];
      var left := released;
      while left != {}
        invariant left <= released
        invariant forall r :: r in rows <==>
                    (!r.released && held == Some(r.name)) || (r.released && r.name in released - left)
        decreases |left|
      {
        var n :| n in left;
        rows, left := rows + [Row(n, true)], left - {n};
      }
    }
  }

  class Machine {
    const service: NamesService
    var free: Option<M.Name>
    /** The name given up last. */
    var gaveUp: Option<M.Name>

    function World(): M.World
      reads this, service
    {
      M.World(service.State(), free, gaveUp)
    }

    constructor (service: NamesService)
      ensures this.service == service && free.None? && gaveUp.None?
    {
      this.service := service;
      free, gaveUp := None, None;
    }

    /** Saves the whole record, as one step. */
    method SetAddress(name: Option<M.Name>, released: Option<M.Name>, works: bool) returns (ok: bool)
      modifies this
      ensures ok == works && service.State() == old(service.State())
      ensures World() == if works then old(World()).(free := name, released := released) else old(World())
    {
      if works { free, gaveUp := name, released; }
      ok := works;
    }

    /** Looks `name` up in the service's list: whether it is listed and not released, and whether the
        list was answered at all. */
    method ListedName(name: M.Name, x: M.Weather) returns (holds: bool, answered: bool)
      requires M.Sound(service.State())
      ensures answered == x.net(M.CheckClaim).Answered?
      ensures holds <==> answered && service.held == Some(name)
    {
      if !x.net(M.CheckClaim).Answered? { return false, false; }
      var rows := service.Names();
      for i := 0 to |rows|
        invariant forall k :: 0 <= k < i ==> rows[k].name != name
      {
        if rows[i].name == name {
          assert rows[i] in rows;
          return !rows[i].released, true;
        }
      }
      assert service.held == Some(name) ==> Row(name, false) in rows;
      return false, true;
    }

    method AdoptFree(n: M.Name, was: Option<M.Name>, x: M.Weather) returns (ok: bool)
      modifies this
      ensures M.Done(World(), ok) == M.Adopt(old(World()), n, was, x)
    {
      ok := SetAddress(Some(n), if was.Some? then was else gaveUp, x.saves(M.SaveAdopted));
    }

    method FollowService(was: Option<M.Name>, err: M.Answer, x: M.Weather) returns (name: Option<M.Name>, held: bool)
      requires M.Sound(service.State())
      modifies this
      ensures M.Followed(World(), name, held) == M.FollowService(old(World()), was, err, x)
      ensures old(free) == was && was.Some? ==>
                (free.None? <==>
                   && x.net(M.ListHeld).Answered? && service.held.None? && was.value !in service.released
                   && M.TakenElsewhere(err) && x.saves(M.SaveDropped))
    {
      if !x.net(M.ListHeld).Answered? { return was, false; }
      var rows := service.Names();
      assert service.held.Some? ==> Row(service.held.value, false) in rows;
      var listed := false;
      for i := 0 to |rows|
        invariant World() == old(World())
        invariant forall k :: 0 <= k < i ==> rows[k].released
        invariant listed <==> exists k :: 0 <= k < i && Some(rows[k].name) == was
      {
        var row := rows[i];
        assert row in rows;
        if !row.released {
          if Some(row.name) != was {
            var adopted := AdoptFree(row.name, was, x);
            if !adopted { return was, false; }
          }
          return Some(row.name), true;
        }
        listed := listed || Some(row.name) == was;
      }
      assert listed <==> was.Some? && was.value in service.released by {
        if was.Some? && was.value in service.released { assert Row(was.value, true) in rows; }
        if listed {
          var k :| 0 <= k < |rows| && Some(rows[k].name) == was;
          assert rows[k] in rows;
        }
      }
      if listed || !M.TakenElsewhere(err) { return was, false; }
      var _ := SetAddress(None, was, x.saves(M.SaveDropped));
      return None, false;
    }

    method Reclaim(was: M.Name, x: M.Weather) returns (name: Option<M.Name>, held: bool)
      requires M.Sound(service.State())
      modifies this, service
      ensures M.Followed(World(), name, held) == M.Reclaim(old(World()), was, x)
    {
      var heard := service.Claim(was, x.net(M.ClaimBack));
      if heard.Ok? { return Some(was), true; }
      name, held := FollowService(Some(was), heard, x);
    }

    method SaveName(name: M.Name, was: Option<M.Name>, x: M.Weather) returns (ok: bool)
      requires M.Sound(service.State())
      modifies this, service
      ensures M.Done(World(), ok) == M.SaveName(old(World()), name, was, x)
    {
      var released := if was.Some? then was else gaveUp;
      if released == Some(name) { released := None; }
      ok := SetAddress(Some(name), released, x.saves(M.SaveClaim));
      if ok { return; }
      var heard := service.Release(name, x.net(M.UndoClaim));
      if heard in {M.Ok, M.Refusal(M.NotClaimed)} && was.Some? {
        var _, _ := Reclaim(was.value, x);
      }
    }

    method ClaimFailed(name: M.Name, was: Option<M.Name>, err: M.Answer, unsure: bool, x: M.Weather) returns (ok: bool)
      requires M.Sound(service.State())
      modifies this, service
      ensures M.Done(World(), ok) == M.ClaimFailed(old(World()), name, was, err, unsure, x)
    {
      if was.Some? {
        var now, _ := Reclaim(was.value, x);
        return now == Some(name);
      }
      if unsure {
        var _ := service.Release(name, x.net(M.UndoClaim));
      } else if err == M.Refusal(M.LimitReached) {
        var _, _ := FollowService(None, err, x);
      }
      return false;
    }

    method ClaimNewName(name: M.Name, was: Option<M.Name>, x: M.Weather) returns (ok: bool)
      requires M.Sound(service.State())
      modifies this, service
      ensures M.Done(World(), ok) == M.ClaimNewName(old(World()), name, was, x)
    {
      var heard := service.Claim(name, x.net(M.ClaimNew));
      var unsure := false;
      var claimed := heard.Ok?;
      if M.MaybeStored(heard) {
        var holds, answered := ListedName(name, x);
        claimed, unsure := holds, !answered;
      }
      if claimed { ok := SaveName(name, was, x); } else { ok := ClaimFailed(name, was, heard, unsure, x); }
    }

    method ClaimFree(name: M.Name, x: M.Weather) returns (ok: bool)
      requires M.Sound(service.State())
      modifies this, service
      ensures M.Done(World(), ok) == M.ClaimFree(old(World()), name, x)
    {
      var was := free;
      if was == Some(name) { return true; }
      if was.Some? {
        var heard := service.Release(was.value, x.net(M.ReleaseOld));
        if heard !in {M.Ok, M.Refusal(M.NotClaimed), M.Refusal(M.AnothersName)} {
          if M.MaybeStored(heard) { var _, _ := Reclaim(was.value, x); }
          return false;
        }
      }
      ok := ClaimNewName(name, was, x);
    }

    /** Claims `name` for a machine that agrees with the service. They agree afterwards while the
        settling requests are answered, and a success means the machine has the name. */
    method ChangeName(name: M.Name, x: M.Weather) returns (ok: bool)
      requires M.Sound(service.State()) && Proofs.Agree(World())
      modifies this, service
      ensures M.Sound(service.State())
      ensures Proofs.Agree(World()) <==> !Proofs.StrandsName(old(World()), name, x)
      ensures Proofs.Settles(x) ==> Proofs.Agree(World())
      ensures ok && old(free) != Some(name) ==> free == service.held == Some(name)
      ensures old(free) != Some(name) ==> Outcomes.ChangedAs(M.Done(World(), ok), old(World()), name, x)
    {
      if free != Some(name) { Outcomes.ChangeExactly(World(), name, x); }
      Proofs.ClaimFreeAgrees(World(), name, x);
      Proofs.ClaimFreeExactly(World(), name, x);
      ok := ClaimFree(name, x);
    }

    /** Refreshes the machine's name, and brings machine and service together when they disagree. */
    method RefreshFree(x: M.Weather) returns (ok: bool)
      requires M.Sound(service.State())
      modifies this, service
      ensures M.Done(World(), ok) == M.RefreshFree(old(World()), x)
      ensures old(free.Some?) ==> (free.None? <==> Outcomes.NameLost(old(World()), x))
      ensures old(free.Some?) ==>
                (Proofs.Agree(World()) <==>
                   old(Proofs.Agree(World())) || (x.net(M.ListHeld).Answered? && x.saves(M.SaveAdopted)))
    {
      ghost var before := World();
      if free.None? { return false; }
      Proofs.RefreshReconverges(before, x);
      Outcomes.RefreshExactly(before, x);
      var name := free.value;
      var heard := service.Refresh(name, x.net(M.RefreshFirst));
      if heard == M.Refusal(M.NotClaimed) {
        heard := service.Claim(name, x.net(M.ClaimAgain));
        if heard.Ok? { heard := service.Refresh(name, x.net(M.RefreshAgain)); }
      }
      if heard.Ok? { return true; }
      var now, held := FollowService(free, heard, x);
      if !held { return false; }
      var again := service.Refresh(now.value, x.net(M.RefreshAdopted));
      ok := again.Ok?;
    }
  }
}
