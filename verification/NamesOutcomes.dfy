/** Where a change of name and a refresh leave machine and service, exactly: the name the machine has, the
    one the service holds for its key, the one given up last, and whether the operation worked. */
module NamesOutcomes {
  import opened Options
  import opened NamesModel
  import opened NamesProofs

  /** The machine gives its name up exactly when the list is answered, names none for the key and not that
      one, the request before said that another key has it, and the record can be saved; it takes a name
      the key holds exactly when the list says so and the record can be saved. */
  lemma FollowExactly(w: World, was: Option<Name>, err: Answer, x: Weather)
    requires Sound(w.svc) && was == w.free
    ensures var o := FollowService(w, was, err, x);
            && (o.held <==> x.net(ListHeld).Answered? && w.svc.held.Some? && (w.svc.held == was || x.saves(SaveAdopted)))
            && (o.held ==> o.name == w.svc.held)
            && (was.Some? ==>
                  (o.world.free.None? <==>
                     && x.net(ListHeld).Answered? && w.svc.held.None? && was.value !in w.svc.released
                     && TakenElsewhere(err) && x.saves(SaveDropped)))
            && o.world.free in {was, w.svc.held}
            && (o.world.free != was ==> o.world.released == if was.Some? then was else w.released)
            && (was.Some? && o.world.free == was ==> o.world == w)
  {
  }

  /** The service carries out a request for a name the key holds or has released. */
  predicate Works(reply: Reply) { reply in {Answered, Elsewhere} }

  /** The service carries out a claim of `name` while it holds none for the key. */
  predicate Carried(s: Service, name: Name, reply: Reply) {
    reply in {Answered, LostAfter} || (reply.Elsewhere? && name in s.released)
  }

  // ---------- a refresh ----------

  /** The first refresh says that the key doesn't hold the machine's name. */
  predicate SaysReleased(w: World, x: Weather)
    requires w.free.Some?
  {
    x.net(RefreshFirst).Answered? || (x.net(RefreshFirst).Elsewhere? && w.free.value in w.svc.released)
  }

  /** The machine's name is another key's, as the refresh or the claim after it has said, and the service's
      list doesn't name it either. */
  predicate NameLost(w: World, x: Weather)
    requires w.free.Some?
  {
    && w.svc.held.None? && w.free.value !in w.svc.released
    && (x.net(RefreshFirst).Elsewhere? || (x.net(RefreshFirst).Answered? && x.net(ClaimAgain).Elsewhere?))
    && x.net(ListHeld).Answered? && x.saves(SaveDropped)
  }

  /** The service holds another name for the key, and the machine learns it and can save it. */
  predicate OtherAdopted(w: World, x: Weather) {
    w.svc.held.Some? && w.svc.held != w.free && x.net(ListHeld).Answered? && x.saves(SaveAdopted)
  }

  /** The name refreshed, or claimed back and refreshed, without a look at the list. */
  predicate RefreshedAtOnce(w: World, x: Weather)
    requires w.free.Some?
  {
    if w.svc.held.Some? then w.svc.held == w.free && Works(x.net(RefreshFirst))
    else
      && SaysReleased(w, x) && Carried(w.svc, w.free.value, x.net(ClaimAgain)) && !x.net(ClaimAgain).LostAfter?
      && Works(x.net(RefreshAgain))
  }

  /** One refresh of a machine that has a name, exactly. A name is never given up for a lost reply, nor one
      that the service still lists for the key. */
  lemma RefreshExactly(w: World, x: Weather)
    requires Sound(w.svc) && w.free.Some?
    ensures var o := RefreshFree(w, x);
            && o.world.free == (if NameLost(w, x) then None else if OtherAdopted(w, x) then w.svc.held else w.free)
            && o.world.svc.held == (if w.svc.held.Some? then w.svc.held
                                    else if SaysReleased(w, x) && Carried(w.svc, w.free.value, x.net(ClaimAgain)) then w.free
                                    else None)
            && o.world.released == (if o.world.free != w.free then w.free else w.released)
            && (o.ok <==> RefreshedAtOnce(w, x)
                          || (x.net(ListHeld).Answered? && Works(x.net(RefreshAdopted))
                              && o.world.svc.held.Some? && o.world.svc.held == o.world.free))
  {
    var tried := RefreshOrClaim(w.svc, w.free.value, x);
    FollowExactly(w.(svc := tried.svc), w.free, tried.answer, x);
  }

  // ---------- a change of name ----------

  /** The old name, released for the change, can be claimed back. */
  predicate BackCarried(w: World, x: Weather)
    requires w.free.Some?
  {
    || x.net(ClaimBack) in {Answered, LostAfter}
    || (x.net(ClaimBack).Elsewhere? && (w.svc.held == w.free || w.free.value in w.svc.released))
  }

  /** The new name is the machine's: its claim is stored and saved, or a machine that had a name finds the
      stored claim in the service's list. */
  predicate ChangeWorks(w: World, name: Name, x: Weather) {
    && OldNameGone(w, x) && ClaimStored(w, name, x)
    && (if ClaimLearnt(x) then x.saves(SaveClaim)
        else w.free.Some? && x.net(ListHeld).Answered? && x.saves(SaveAdopted))
  }

  /** The change gets to claiming the old name back with no name held: the claim of the new one was not
      stored, or was given back since the machine could not save it. */
  predicate TurnsBack(w: World, name: Name, x: Weather) {
    && OldNameGone(w, x)
    && (!ClaimStored(w, name, x) || (ClaimLearnt(x) && !x.saves(SaveClaim) && Works(x.net(UndoClaim))))
  }

  /** A failed change leaves the machine without a name: its own was not held, nor listed, and turns out to
      be another key's when it is claimed back. */
  predicate ChangeLosesName(w: World, name: Name, x: Weather) {
    && w.free.Some? && w.svc.held.None? && w.free.value !in w.svc.released
    && (x.net(ReleaseOld) in {LostBefore, LostAfter} || TurnsBack(w, name, x))
    && x.net(ClaimBack).Elsewhere? && x.net(ListHeld).Answered? && x.saves(SaveDropped)
  }

  /** The name the service holds for the key after a change. */
  function HeldAfter(w: World, name: Name, x: Weather): Option<Name> {
    if ChangeWorks(w, name, x) || StrandsName(w, name, x) then Some(name)
    else if w.free.None? then None
    else match x.net(ReleaseOld)
      case Refused => w.svc.held
      case LostBefore => if BackCarried(w, x) then w.free else w.svc.held
      case LostAfter => if BackCarried(w, x) then w.free else None
      case _ => if TurnsBack(w, name, x) && BackCarried(w, x) then w.free else None
  }

  /** Where a change of name leaves machine and service. */
  predicate ChangedAs(o: Done, w: World, name: Name, x: Weather) {
    && (o.ok <==> ChangeWorks(w, name, x))
    && o.world.free == (if o.ok then Some(name) else if ChangeLosesName(w, name, x) then None else w.free)
    && o.world.svc.held == HeldAfter(w, name, x)
    && o.world.released == (if o.world.free == w.free then w.released
                            else if w.free.Some? then w.free
                            else if w.released == Some(name) then None else w.released)
  }

  /** Claiming the old name back, when the key holds that one or none. */
  lemma ReclaimExactly(w: World, was: Name, x: Weather)
    requires Sound(w.svc) && w.free == Some(was) && w.svc.held in {None, Some(was)}
    ensures var o := Reclaim(w, was, x);
            && o.world.svc.held == (if w.svc.held.Some? || Carried(w.svc, was, x.net(ClaimBack)) then Some(was) else None)
            && (o.world.free == None <==>
                  && w.svc.held.None? && was !in w.svc.released && x.net(ClaimBack).Elsewhere?
                  && x.net(ListHeld).Answered? && x.saves(SaveDropped))
            && (o.world.free == None || o.world.free == Some(was))
            && o.world.released == (if o.world.free.None? then Some(was) else w.released)
            && o.name in {None, Some(was)}
  {
    var tried := Claim(w.svc, was, x.net(ClaimBack));
    FollowExactly(w.(svc := tried.svc), Some(was), tried.answer, x);
  }

  /** The same when the key holds a name that the machine doesn't know of. */
  lemma ReclaimFindsOther(w: World, was: Name, x: Weather)
    requires Sound(w.svc) && w.free == Some(was) && w.svc.held.Some? && w.svc.held != Some(was)
    ensures var o := Reclaim(w, was, x);
            && o.world.svc == w.svc
            && (if x.net(ListHeld).Answered? && x.saves(SaveAdopted)
                then o.name == o.world.free == w.svc.held && o.world.released == Some(was)
                else o.name == Some(was) && o.world == w)
  {
  }

  /** A machine without a name. */
  lemma FirstNameExactly(w: World, name: Name, x: Weather)
    requires Sound(w.svc) && w.svc.held.None? && w.free.None?
    ensures ChangedAs(ClaimNewName(w, name, None, x), w, name, x)
  {
  }

  /** A machine whose old name is out of the way, from the claim of the new one on. */
  lemma NewNameExactly(w: World, was: Name, name: Name, x: Weather)
    requires Sound(w.svc) && w.svc.held.None? && w.free == Some(was) && was != name && OldNameGone(w, x)
    ensures var o := ClaimNewName(w, name, Some(was), x);
            && (o.ok <==> ChangeWorks(w, name, x))
            && o.world.free == (if o.ok then Some(name) else if ChangeLosesName(w, name, x) then None else w.free)
            && o.world.svc.held == (if o.ok || ClaimStrands(w, name, x) then Some(name)
                                    else if TurnsBack(w, name, x) && Carried(w.svc, was, x.net(ClaimBack)) then Some(was)
                                    else None)
            && o.world.released == (if o.world.free == w.free then w.released else w.free)
  {
    var w1 := w.(svc := Claim(w.svc, name, x.net(ClaimNew)).svc);
    assert w1.svc.held == if ClaimStored(w, name, x) then Some(name) else None;
    if !ClaimStored(w, name, x) {
      ReclaimExactly(w1, was, x);
    } else if !ClaimLearnt(x) {
      ReclaimFindsOther(w1, was, x);
    } else {
      assert ClaimNewName(w, name, w.free, x) == SaveName(w1, name, w.free, x);
      if !x.saves(SaveClaim) {
        SaveFails(w1, was, name, x);
        ReclaimExactly(w1.(svc := Service(None, w1.svc.released + {name})), was, x);
      }
    }
  }

  lemma SaveFails(w: World, was: Name, name: Name, x: Weather)
    requires Sound(w.svc) && w.svc.held == Some(name) && w.free == Some(was) && was != name && !x.saves(SaveClaim)
    ensures var o := SaveName(w, name, Some(was), x);
            && !o.ok
            && (if Works(x.net(UndoClaim)) then
                  var undone := w.(svc := Service(None, w.svc.released + {name})); o.world == Reclaim(undone, was, x).world
                else o.world == w.(svc := if x.net(UndoClaim).LostAfter? then Service(None, w.svc.released + {name}) else w.svc))
  {
  }

  /** A change of name by a machine that agrees with the service, exactly. */
  lemma ChangeExactly(w: World, name: Name, x: Weather)
    requires Sound(w.svc) && Agree(w) && w.free != Some(name)
    ensures ChangedAs(ClaimFree(w, name, x), w, name, x)
  {
    if w.free.None? {
      FirstNameExactly(w, name, x);
    } else if OldNameGone(w, x) {
      var was := w.free.value;
      var w1 := w.(svc := Release(w.svc, was, x.net(ReleaseOld)).svc);
      assert w1.svc == if w.svc.held.Some? then Service(None, w.svc.released + {was}) else w.svc;
      NewNameExactly(w1, was, name, x);
      assert ClaimFree(w, name, x) == ClaimNewName(w1, name, w.free, x);
    } else {
      UnreleasedExactly(w, w.free.value, name, x);
    }
  }

  /** The old name's release is refused, or gets no answer. */
  lemma UnreleasedExactly(w: World, was: Name, name: Name, x: Weather)
    requires Sound(w.svc) && Agree(w) && w.free == Some(was) && was != name && !OldNameGone(w, x)
    ensures ChangedAs(ClaimFree(w, name, x), w, name, x)
  {
    if !x.net(ReleaseOld).Refused? {
      var w1 := w.(svc := Release(w.svc, was, x.net(ReleaseOld)).svc);
      assert w1.svc.held in {None, Some(was)};
      ReclaimExactly(w1, was, x);
    }
  }

  /** A machine without a name whose key holds one it doesn't know of: a claim of another name is never
      stored, and the machine takes the held name exactly when the service says that the key has one, its
      list is answered and the record can be saved. */
  lemma StrayNameAdopted(w: World, name: Name, x: Weather)
    requires Sound(w.svc) && w.free.None? && w.svc.held.Some? && w.svc.held != Some(name)
    ensures var o := ClaimFree(w, name, x);
            && !o.ok && o.world.svc == w.svc
            && o.world.free == (if (x.net(ClaimNew).Answered? || (x.net(ClaimNew).Elsewhere? && name in w.svc.released))
                                   && x.net(ListHeld).Answered? && x.saves(SaveAdopted)
                                then w.svc.held else None)
  {
  }

  // ---------- the service ----------

  /** The names the key holds or has released only grow, by a claim that is carried out while it holds
      none; a name is released exactly by a release of the one it holds that is carried out. */
  lemma ServiceKeepsNames(s: Service, name: Name, reply: Reply)
    requires Sound(s)
    ensures var claimed, released := Claim(s, name, reply).svc, Release(s, name, reply).svc;
            && Sound(claimed) && Sound(released) && Refresh(s, name, reply).svc == s
            && (forall n :: Owns(claimed, n) <==> Owns(s, n) || (n == name && s.held.None? && Carried(s, name, reply)))
            && claimed.held == (if s.held.None? && Carried(s, name, reply) then Some(name) else s.held)
            && (forall n :: Owns(released, n) <==> Owns(s, n))
            && released.held == (if s.held == Some(name) && reply in {Answered, Elsewhere, LostAfter} then None else s.held)
  {
  }
}
