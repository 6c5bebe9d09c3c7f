/** Machine and service agree again after every change of name, and after one refresh. */
module NamesProofs {
  import opened Options
  import opened NamesModel

  /** The service's name for the key is the machine's name, or there is none. */
  predicate Agree(w: World) { w.svc.held.None? || w.svc.held == w.free }

  /** The requests and saves that settle a change that failed: the list of the key's names, giving a
      claim back, and saving a name the service turns out to hold. */
  predicate Settles(x: Weather) {
    x.net(ListHeld).Answered? && x.net(UndoClaim).Answered? && x.saves(SaveAdopted)
  }

  lemma FollowAgrees(w: World, was: Option<Name>, err: Answer, x: Weather)
    requires Sound(w.svc) && was == w.free
    ensures var o := FollowService(w, was, err, x);
            && Sound(o.world.svc) && o.world.svc == w.svc
            && (o.held ==> o.name.Some? && o.world.svc.held == o.name == o.world.free)
            && (x.net(ListHeld).Answered? && x.saves(SaveAdopted) ==> Agree(o.world))
            && (Agree(w) ==> Agree(o.world))
  {
  }

  lemma ReclaimAgrees(w: World, was: Name, x: Weather)
    requires Sound(w.svc) && w.free == Some(was)
    ensures var o := Reclaim(w, was, x);
            && Sound(o.world.svc)
            && (o.held ==> o.name.Some? && o.world.svc.held == o.name == o.world.free)
            && (o.name == Some(was) || o.held || o.name.None?)
            && (x.net(ListHeld).Answered? && x.saves(SaveAdopted) ==> Agree(o.world))
  {
    var tried := Claim(w.svc, was, x.net(ClaimBack));
    FollowAgrees(w.(svc := tried.svc), Some(was), tried.answer, x);
  }

  lemma SaveNameAgrees(w: World, name: Name, was: Option<Name>, x: Weather)
    requires Sound(w.svc) && w.svc.held == Some(name) && w.free == was && was != Some(name)
    ensures var o := SaveName(w, name, was, x);
            && Sound(o.world.svc)
            && (o.ok ==> o.world.free == o.world.svc.held == Some(name))
            && (Settles(x) ==> Agree(o.world))
  {
    if !x.saves(SaveClaim) && was.Some? {
      var undone := Release(w.svc, name, x.net(UndoClaim));
      ReclaimAgrees(w.(svc := undone.svc), was.value, x);
    }
  }

  lemma ClaimFailedAgrees(w: World, name: Name, was: Option<Name>, err: Answer, unsure: bool, x: Weather)
    requires Sound(w.svc) && w.free == was && was != Some(name)
    requires Agree(w) || err == Refusal(LimitReached) || was.Some? || (unsure && w.svc.held == Some(name))
    ensures var o := ClaimFailed(w, name, was, err, unsure, x);
            && Sound(o.world.svc)
            && (o.ok ==> o.world.free == o.world.svc.held == Some(name))
            && (Settles(x) && (unsure ==> was.Some? || w.svc.held in {None, Some(name)}) ==> Agree(o.world))
  {
    if was.Some? { ReclaimAgrees(w, was.value, x); } else { FollowAgrees(w, None, err, x); }
  }

  /** For a machine without a name the key holds none, or the service answers the claim. */
  lemma ClaimNewNameAgrees(w: World, name: Name, was: Option<Name>, x: Weather)
    requires Sound(w.svc) && w.free == was && was != Some(name)
    requires w.svc.held.None? || was.Some? || x.net(ClaimNew).Answered?
    ensures var o := ClaimNewName(w, name, was, x);
            && Sound(o.world.svc)
            && (o.ok ==> o.world.free == o.world.svc.held == Some(name))
            && (Settles(x) ==> Agree(o.world))
  {
    var tried := Claim(w.svc, name, x.net(ClaimNew));
    var w1 := w.(svc := tried.svc);
    if tried.answer.Ok? { SaveNameAgrees(w1, name, was, x); }
    else if MaybeStored(tried.answer) && x.net(CheckClaim).Answered? && w1.svc.held == Some(name) {
      SaveNameAgrees(w1, name, was, x);
    } else {
      ClaimFailedAgrees(w1, name, was, tried.answer, MaybeStored(tried.answer) && !x.net(CheckClaim).Answered?, x);
    }
  }

  /** A change of name that starts by releasing the machine's name. */
  lemma ReleaseFirstAgrees(w: World, name: Name, x: Weather)
    requires Sound(w.svc) && Agree(w) && w.free.Some? && w.free != Some(name)
    ensures var o := ClaimFree(w, name, x);
            && Sound(o.world.svc)
            && (Settles(x) ==> Agree(o.world))
            && (o.ok ==> o.world.free == o.world.svc.held == Some(name))
  {
    var was := w.free.value;
    var tried := Release(w.svc, was, x.net(ReleaseOld));
    var w1 := w.(svc := tried.svc);
    assert Sound(w1.svc) && Agree(w1);
    if tried.answer in {Ok, Refusal(NotClaimed), Refusal(AnothersName)} {
      ClaimNewNameAgrees(w1, name, w.free, x);
    } else if MaybeStored(tried.answer) {
      ReclaimAgrees(w1, was, x);
    }
  }

  /** A change of name ends in agreement, whichever of its requests lost their replies, as long as the
      settling ones are answered; it reports success only when the machine has the new name and the
      service holds it for the machine's key. */
  lemma ClaimFreeAgrees(w: World, name: Name, x: Weather)
    requires Sound(w.svc) && Agree(w)
    ensures var o := ClaimFree(w, name, x);
            && Sound(o.world.svc)
            && (Settles(x) ==> Agree(o.world))
            && (o.ok && w.free != Some(name) ==> o.world.free == o.world.svc.held == Some(name))
  {
    if w.free.None? { ClaimNewNameAgrees(w, name, None, x); }
    else if w.free != Some(name) { ReleaseFirstAgrees(w, name, x); }
  }

  // ---------- exactly when a change ends in agreement ----------

  /** The release of the machine's own name goes through, or it has none. */
  predicate OldNameGone(w: World, x: Weather) {
    w.free.Some? ==> x.net(ReleaseOld) in {Answered, Elsewhere}
  }

  /** The service carries the claim of `name` out: nothing refuses it, or only for keys that never had
      the name. */
  predicate ClaimStored(w: World, name: Name, x: Weather) {
    x.net(ClaimNew) in {Answered, LostAfter} || (x.net(ClaimNew).Elsewhere? && name in w.svc.released)
  }

  /** The claim's own answer, or the look after a lost one, says that it was stored. */
  predicate ClaimLearnt(x: Weather) { !x.net(ClaimNew).LostAfter? || x.net(CheckClaim).Answered? }

  /** A stored claim is not given back. */
  predicate ClaimStays(x: Weather) { x.net(UndoClaim) in {Refused, LostBefore} }

  /** The claim leaves the service with a name the machine doesn't have: it is stored, and then either
      the machine can't save the name nor give it back, or it never learns of it, and can't give it
      back or, with a name of its own, follow the service's list. */
  predicate ClaimStrands(w: World, name: Name, x: Weather) {
    && ClaimStored(w, name, x)
    && (if ClaimLearnt(x) then !x.saves(SaveClaim) && ClaimStays(x)
        else if w.free.None? then ClaimStays(x)
        else !(x.net(ListHeld).Answered? && x.saves(SaveAdopted)))
  }

  /** The change gets as far as a claim that strands the name. */
  predicate StrandsName(w: World, name: Name, x: Weather) {
    w.free != Some(name) && OldNameGone(w, x) && ClaimStrands(w, name, x)
  }

  lemma ClaimNewExactly(w: World, name: Name, x: Weather)
    requires Sound(w.svc) && w.svc.held.None? && w.free != Some(name)
    ensures Agree(ClaimNewName(w, name, w.free, x).world) <==> !ClaimStrands(w, name, x)
  {
    var w1 := w.(svc := Claim(w.svc, name, x.net(ClaimNew)).svc);
    assert w1.svc.held == if ClaimStored(w, name, x) then Some(name) else None;
    if ClaimStored(w, name, x) && ClaimLearnt(x) {
      assert ClaimNewName(w, name, w.free, x) == SaveName(w1, name, w.free, x);
    }
  }

  /** From agreement, a change of name ends in agreement if and only if it does not strand the name. */
  lemma ClaimFreeExactly(w: World, name: Name, x: Weather)
    requires Sound(w.svc) && Agree(w)
    ensures Agree(ClaimFree(w, name, x).world) <==> !StrandsName(w, name, x)
  {
    if w.free.None? {
      ClaimNewExactly(w, name, x);
    } else if w.free != Some(name) {
      var tried := Release(w.svc, w.free.value, x.net(ReleaseOld));
      var w1 := w.(svc := tried.svc);
      if tried.answer in {Ok, Refusal(NotClaimed), Refusal(AnothersName)} {
        assert w1.svc.held.None? && (name in w1.svc.released <==> name in w.svc.released);
        ClaimNewExactly(w1, name, x);
      } else if MaybeStored(tried.answer) {
        assert w1.svc.held in {None, w.free};
      }
    }
  }

  /** A change that fails is undone: a machine whose name the service held has it still, held. */
  lemma FailedChangeUndone(w: World, name: Name, x: Weather)
    requires Sound(w.svc) && w.free.Some? && w.svc.held == w.free && Settles(x) && x.net(ClaimBack).Answered?
    ensures var o := ClaimFree(w, name, x); !o.ok ==> o.world.svc.held == w.free == o.world.free
  {
    var was := w.free.value;
    var tried := Release(w.svc, was, x.net(ReleaseOld));
    if tried.answer.Ok? {
      var next := Claim(tried.svc, name, x.net(ClaimNew));
      assert next.svc.held in {None, Some(name)};
    }
  }

  /** When every request is answered and the machine can save, a change of name works. */
  lemma CalmChangeWorks(w: World, name: Name, x: Weather)
    requires Sound(w.svc) && Agree(w)
    requires x.net(ReleaseOld).Answered? && x.net(ClaimNew).Answered? && x.saves(SaveClaim)
    ensures var o := ClaimFree(w, name, x); o.ok && o.world.free == Some(name)
  {
  }

  /** A machine without a name heals with its next claim, whatever name its key holds. */
  lemma NextClaimHeals(w: World, name: Name, x: Weather)
    requires Sound(w.svc) && w.free.None? && x.net(ClaimNew).Answered? && Settles(x)
    ensures Agree(ClaimFree(w, name, x).world)
  {
    ClaimNewNameAgrees(w, name, None, x);
  }

  /** One refresh of a machine that has a name: what agreed still agrees, and what did not agrees again
      exactly when the service's list is answered and the name it holds can be saved. */
  lemma RefreshReconverges(w: World, x: Weather)
    requires Sound(w.svc) && w.free.Some?
    ensures var o := RefreshFree(w, x);
            && Sound(o.world.svc)
            && (Agree(o.world) <==> Agree(w) || (x.net(ListHeld).Answered? && x.saves(SaveAdopted)))
            && (o.ok ==> o.world.free == o.world.svc.held && o.world.free.Some?)
            && (w.svc.held.Some? ==> o.world.svc.held == w.svc.held)
  {
    var tried := RefreshOrClaim(w.svc, w.free.value, x);
    FollowAgrees(w.(svc := tried.svc), w.free, tried.answer, x);
  }

  /** After any change of name, however badly it went, the machine agrees with the service once one
      refresh, or for a machine left without a name one more claim, gets its answers. */
  lemma EveryChangeHeals(w: World, name: Name, x: Weather, another: Name, y: Weather)
    requires Sound(w.svc) && Agree(w) && Settles(y) && y.net(ClaimNew).Answered?
    ensures var changed := ClaimFree(w, name, x).world;
            Agree(if changed.free.Some? then RefreshFree(changed, y).world else ClaimFree(changed, another, y).world)
  {
    ClaimFreeAgrees(w, name, x);
    var changed := ClaimFree(w, name, x).world;
    if changed.free.Some? { RefreshReconverges(changed, y); } else { NextClaimHeals(changed, another, y); }
  }

  /** One way: a first name whose claim was stored without an answer stays with the key, unknown to the
      machine, when neither the list nor the request giving it back gets through. */
  lemma LostSettlingDisagrees(name: Name, x: Weather)
    requires x.net(ClaimNew) == LostAfter && x.net(CheckClaim) == LostBefore && x.net(UndoClaim) == LostBefore
    ensures !Agree(ClaimFree(World(Service(None, {}), None, None), name, x).world)
  {
  }
}
