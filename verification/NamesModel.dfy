/** The free-name protocol between one machine and the names service, as functions.

    The service keeps, for the machine's key, the one name that points at it and the names it released,
    which it still lists. A request can be answered, be refused, or get no answer, before or after the
    service carried it out; `Weather` says which for each request an operation makes, and whether each
    save of the machine's own record works. */
module NamesModel {
  import opened Options

  type Name = string

  /** What the service holds for the key: the name in use, and the released ones it lists. */
  datatype Service = Service(held: Option<Name>, released: set<Name>)

  /** The requests of an operation, by the place that makes them. */
  datatype Request =
    | ReleaseOld | ClaimNew | CheckClaim | UndoClaim | ClaimBack | ListHeld
    | RefreshFirst | ClaimAgain | RefreshAgain | RefreshAdopted

  /** `Elsewhere` says that another key has the name; `Refused` is any other refusal. */
  datatype Reply = Answered | Refused | Elsewhere | LostBefore | LostAfter

  datatype Save = SaveClaim | SaveAdopted | SaveDropped

  datatype Weather = Weather(net: Request -> Reply, saves: Save -> bool)

  datatype Code = NotClaimed | AnothersName | LimitReached | OtherCode

  /** What the machine learns: success, a refusal, or nothing that says whether it was stored. */
  datatype Answer = Ok | Refusal(code: Code) | NoAnswer

  datatype Tried = Tried(svc: Service, answer: Answer)

  predicate Sound(s: Service) { s.held.Some? ==> s.held.value !in s.released }

  predicate Owns(s: Service, name: Name) { s.held == Some(name) || name in s.released }

  function CarryClaim(s: Service, name: Name): Tried {
    if s.held == Some(name) then Tried(s, Ok)
    else if s.held.Some? then Tried(s, Refusal(LimitReached))
    else Tried(Service(Some(name), s.released - {name}), Ok)
  }

  function CarryRelease(s: Service, name: Name): Tried {
    if s.held == Some(name) then Tried(Service(None, s.released + {name}), Ok)
    else Tried(s, Refusal(NotClaimed))
  }

  function CarryRefresh(s: Service, name: Name): Tried {
    Tried(s, if s.held == Some(name) then Ok else Refusal(NotClaimed))
  }

  /** How a request that the service would carry out as `carried` turns out. The service finds its own
      row before it says another key has the name. */
  function Send(s: Service, name: Name, carried: Tried, reply: Reply): Tried {
    match reply
    case Answered => carried
    case Refused => Tried(s, Refusal(OtherCode))
    case Elsewhere => if Owns(s, name) then carried else Tried(s, Refusal(AnothersName))
    case LostBefore => Tried(s, NoAnswer)
    case LostAfter => Tried(carried.svc, NoAnswer)
  }

  function Claim(s: Service, name: Name, reply: Reply): Tried { Send(s, name, CarryClaim(s, name), reply) }

  function Release(s: Service, name: Name, reply: Reply): Tried { Send(s, name, CarryRelease(s, name), reply) }

  function Refresh(s: Service, name: Name, reply: Reply): Tried { Send(s, name, CarryRefresh(s, name), reply) }

  predicate MaybeStored(a: Answer) { a.NoAnswer? }

  predicate TakenElsewhere(a: Answer) { a == Refusal(AnothersName) }

  /** The service, and the machine's own record of its name and of the name it gave up last. */
  datatype World = World(svc: Service, free: Option<Name>, released: Option<Name>)

  /** The world after an operation, and whether it reported success. */
  datatype Done = Done(world: World, ok: bool)

  /** The world after following the service, the machine's name then, and whether the service holds it. */
  datatype Followed = Followed(world: World, name: Option<Name>, held: bool)

  function Adopt(w: World, n: Name, was: Option<Name>, x: Weather): Done {
    if !x.saves(SaveAdopted) then Done(w, false)
    else Done(w.(free := Some(n), released := if was.Some? then was else w.released), true)
  }

  function FollowService(w: World, was: Option<Name>, err: Answer, x: Weather): Followed {
    if !x.net(ListHeld).Answered? then Followed(w, was, false)
    else if w.svc.held.Some? then
      if w.svc.held == was then Followed(w, was, true)
      else
        var adopted := Adopt(w, w.svc.held.value, was, x);
        if adopted.ok then Followed(adopted.world, w.svc.held, true) else Followed(w, was, false)
    else if (was.Some? && was.value in w.svc.released) || !TakenElsewhere(err) then Followed(w, was, false)
    else Followed(if x.saves(SaveDropped) then w.(free := None, released := was) else w, None, false)
  }

  function Reclaim(w: World, was: Name, x: Weather): Followed {
    var tried := Claim(w.svc, was, x.net(ClaimBack));
    var w1 := w.(svc := tried.svc);
    if tried.answer.Ok? then Followed(w1, Some(was), true) else FollowService(w1, Some(was), tried.answer, x)
  }

  /** The claim succeeded: saves the machine's new name, or gives it back. */
  function SaveName(w: World, name: Name, was: Option<Name>, x: Weather): Done {
    if x.saves(SaveClaim) then
      var released := if was.Some? then was else w.released;
      Done(w.(free := Some(name), released := if released == Some(name) then None else released), true)
    else
      var undone := Release(w.svc, name, x.net(UndoClaim));
      var w1 := w.(svc := undone.svc);
      if undone.answer in {Ok, Refusal(NotClaimed)} && was.Some?
      then Done(Reclaim(w1, was.value, x).world, false) else Done(w1, false)
  }

  /** The claim of `name` failed with `err`; `unsure` when nothing says whether it was stored. */
  function ClaimFailed(w: World, name: Name, was: Option<Name>, err: Answer, unsure: bool, x: Weather): Done {
    if was.Some? then
      var back := Reclaim(w, was.value, x);
      Done(back.world, back.name == Some(name))
    else if unsure then Done(w.(svc := Release(w.svc, name, x.net(UndoClaim)).svc), false)
    else if err == Refusal(LimitReached) then Done(FollowService(w, None, err, x).world, false)
    else Done(w, false)
  }

  function ClaimNewName(w: World, name: Name, was: Option<Name>, x: Weather): Done {
    var tried := Claim(w.svc, name, x.net(ClaimNew));
    var w1 := w.(svc := tried.svc);
    if tried.answer.Ok? then SaveName(w1, name, was, x)
    else if !MaybeStored(tried.answer) then ClaimFailed(w1, name, was, tried.answer, false, x)
    else if !x.net(CheckClaim).Answered? then ClaimFailed(w1, name, was, tried.answer, true, x)
    else if w1.svc.held == Some(name) then SaveName(w1, name, was, x)
    else ClaimFailed(w1, name, was, tried.answer, false, x)
  }

  function ClaimFree(w: World, name: Name, x: Weather): Done {
    var was := w.free;
    if was == Some(name) then Done(w, true)
    else if was.None? then ClaimNewName(w, name, was, x)
    else
      var tried := Release(w.svc, was.value, x.net(ReleaseOld));
      var w1 := w.(svc := tried.svc);
      if tried.answer in {Ok, Refusal(NotClaimed), Refusal(AnothersName)} then ClaimNewName(w1, name, was, x)
      else if MaybeStored(tried.answer) then Done(Reclaim(w1, was.value, x).world, false)
      else Done(w1, false)
  }

  /** The first refresh, and the claim and refresh after it when the service has released the name. */
  function RefreshOrClaim(s: Service, name: Name, x: Weather): Tried {
    var first := Refresh(s, name, x.net(RefreshFirst));
    if first.answer != Refusal(NotClaimed) then first
    else
      var claimed := Claim(first.svc, name, x.net(ClaimAgain));
      if claimed.answer.Ok? then Refresh(claimed.svc, name, x.net(RefreshAgain)) else claimed
  }

  function RefreshFree(w: World, x: Weather): Done {
    if w.free.None? then Done(w, false)
    else
      var tried := RefreshOrClaim(w.svc, w.free.value, x);
      var w1 := w.(svc := tried.svc);
      if tried.answer.Ok? then Done(w1, true)
      else
        var followed := FollowService(w1, w.free, tried.answer, x);
        if !followed.held then Done(followed.world, false)
        else
          var again := Refresh(followed.world.svc, followed.name.value, x.net(RefreshAdopted));
          Done(followed.world.(svc := again.svc), again.answer.Ok?)
  }
}
