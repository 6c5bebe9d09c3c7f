/** Putting an add-on plan's files into the server's folder: all of them, or nothing changes.

    Every file operation takes the next entry of `luck`: it works, it breaks with no effect, or it
    finds a filesystem without hard links. Hidden names come from `hiddenNames`, fresh as random ones are. */
module AddonInstall {
  import opened Options

  type Content = string

  datatype Entry = File(content: Content) | NotRegular

  type Files = map<string, Entry>

  datatype Luck = Works | Breaks | NoLinks

  /** The installed file an update replaces, as it was recorded. */
  datatype Replaced = Replaced(fileName: string, content: Content)

  datatype Step = Step(fileName: string, replacing: Option<Replaced>, replaceChanged: bool)

  const MAX_FILE_NAME := 128

  predicate Forbidden(c: char) { c < ' ' || c == 0x7f as char || c in "/\\:*?\"<>|" }

  predicate ValidFileName(name: string) {
    && 5 <= |name| <= MAX_FILE_NAME
    && name[|name| - 4..] == ".jar"
    && name[0] !in ". -"
    && forall c :: c in name ==> !Forbidden(c)
  }

  /** The old file of a step that replaces one. */
  function OldName(s: Step): Option<string> {
    if s.replacing.Some? && ValidFileName(s.replacing.value.fileName) then Some(s.replacing.value.fileName) else None
  }

  /** A file renamed out of the way: its name and the hidden one it has now. */
  datatype Move = Move(name: string, hidden: string)

  ghost predicate Fresh(hiddenNames: nat -> string, from: nat, files: Files) {
    && (forall n :: n >= from ==> hiddenNames(n) !in files && HiddenName(hiddenNames(n)))
    && (forall m, n :: from <= m < n ==> hiddenNames(m) != hiddenNames(n))
  }

  predicate HiddenName(name: string) { |name| > 0 && name[0] == '.' }

  /** Renames a hidden file back, as undoing its move does. */
  function Unhide(files: Files, m: Move): Files {
    if m.hidden in files then (files - {m.hidden})[m.name := files[m.hidden]] else files
  }

  /** Undoes the moves, last first. */
  function UndoMoves(files: Files, moved: seq<Move>): Files
    decreases |moved|
  {
    if moved == [] then files
    else UndoMoves(Unhide(files, moved[|moved| - 1]), moved[..|moved| - 1])
  }

  /** Rolling back gives `orig`: what is placed goes, and the moves are undone. */
  ghost predicate Reversible(files: Files, orig: Files, moved: seq<Move>, placed: set<string>) {
    UndoMoves(files - placed, moved) == orig
  }

  lemma MoveReversible(files: Files, orig: Files, moved: seq<Move>, name: string, hidden: string)
    requires Reversible(files, orig, moved, {}) && name in files && hidden !in files
    ensures Reversible((files - {name})[hidden := files[name]], orig, moved + [Move(name, hidden)], {})
  {
    var m := Move(name, hidden);
    var after := (files - {name})[hidden := files[name]];
    assert files - {} == files && after - {} == after;
    assert Unhide(after, m) == files;
    assert (moved + [m])[..|moved|] == moved;
  }

  lemma PlaceReversible(files: Files, orig: Files, moved: seq<Move>, placed: set<string>, name: string, e: Entry)
    requires Reversible(files, orig, moved, placed) && name !in files
    ensures Reversible(files[name := e], orig, moved, placed + {name})
  {
    assert files[name := e] - (placed + {name}) == files - placed;
  }

  ghost function SetOf(names: seq<string>): set<string> { set name | name in names }

  /** `hidden` are the hidden names of the moves. */
  ghost predicate HiddenAre(moved: seq<Move>, hidden: set<string>) { hidden == set m | m in moved :: m.hidden }

  predicate AllHidden(hidden: set<string>) { forall h :: h in hidden ==> HiddenName(h) }

  lemma HiddenOneMore(moved: seq<Move>, hidden: set<string>, m: Move)
    ensures HiddenAre(moved, hidden) ==> HiddenAre(moved + [m], hidden + {m.hidden})
  {
    assert forall x :: x in moved + [m] <==> x in moved || x == m;
  }

  lemma MoveFresh(hiddenNames: nat -> string, from: nat, files: Files, name: string)
    requires Fresh(hiddenNames, from, files) && name in files
    ensures Fresh(hiddenNames, from + 1, (files - {name})[hiddenNames(from) := files[name]])
  {
  }

  /** But for hidden files, the folder is `orig` without `gone` and with `contents`. */
  ghost predicate Shows(files: Files, orig: Files, gone: set<string>, hidden: set<string>, contents: Files) {
    AllHidden(hidden) && files - hidden == Installed(orig, gone, contents)
  }

  lemma MoveShows(files: Files, orig: Files, gone: set<string>, hidden: set<string>, name: string, h: string)
    requires Shows(files, orig, gone, hidden, map[]) && name in files && h !in files && HiddenName(h) && !HiddenName(name)
    ensures name in orig && name !in gone && files[name] == orig[name]
    ensures Shows((files - {name})[h := files[name]], orig, gone + {name}, hidden + {h}, map[])
  {
    assert name in files - hidden;
    assert (files - {name})[h := files[name]] - (hidden + {h}) == (files - hidden) - {name};
  }

  lemma PlaceShows(files: Files, orig: Files, gone: set<string>, hidden: set<string>, contents: Files, name: string, e: Entry)
    requires Shows(files, orig, gone, hidden, contents) && !HiddenName(name)
    ensures Shows(files[name := e], orig, gone, hidden, contents[name := e])
  {
    assert files[name := e] - hidden == (files - hidden)[name := e];
  }

  /** What a run leaves once committed: the files replaced are gone, the new ones are there, and every
      other file is as it was. */
  ghost function Installed(orig: Files, replaced: set<string>, placed: Files): Files {
    (orig - replaced) + placed
  }

  ghost function Replaces(orig: Files, steps: seq<Step>): set<string> {
    set s | s in steps && OldName(s).Some? && OldName(s).value in orig :: OldName(s).value
  }

  lemma OneMoreReplaced(orig: Files, steps: seq<Step>, i: nat)
    requires i < |steps|
    ensures Replaces(orig, steps[..i + 1]) ==
              Replaces(orig, steps[..i])
              + if OldName(steps[i]).Some? && OldName(steps[i]).value in orig then {OldName(steps[i]).value} else {}
  {
    assert forall s :: s in steps[..i + 1] <==> s in steps[..i] || s == steps[i];
  }

  /** The files of the steps before `n`, with their staged contents. */
  ghost function Placed(steps: seq<Step>, staged: seq<Content>, n: nat): Files
    requires n <= |steps| == |staged|
    decreases n
  {
    if n == 0 then map[] else Placed(steps, staged, n - 1)[steps[n - 1].fileName := File(staged[n - 1])]
  }

  lemma {:induction false} PlacedNames(steps: seq<Step>, staged: seq<Content>, n: nat)
    requires n <= |steps| == |staged|
    ensures forall name :: name in Placed(steps, staged, n) <==> exists i :: 0 <= i < n && steps[i].fileName == name
    decreases n
  {
    if n > 0 { PlacedNames(steps, staged, n - 1); }
  }

  /** The first of the steps that replace the same file decides whether it may be replaced. */
  ghost predicate MayReplaceAll(orig: Files, steps: seq<Step>) {
    forall i :: 0 <= i < |steps| && OldName(steps[i]).Some? && OldName(steps[i]).value !in Replaces(orig, steps[..i]) ==>
      MayReplace(orig, steps[i])
  }

  lemma PrefixMayReplace(orig: Files, steps: seq<Step>, i: nat)
    requires i < |steps|
    ensures MayReplaceAll(orig, steps[..i + 1]) <==>
              MayReplaceAll(orig, steps[..i])
              && (OldName(steps[i]).Some? && OldName(steps[i]).value !in Replaces(orig, steps[..i]) ==> MayReplace(orig, steps[i]))
    ensures MayReplaceAll(orig, steps) ==> MayReplaceAll(orig, steps[..i + 1])
  {
    assert forall k :: 0 <= k <= i ==> steps[..i + 1][..k] == steps[..k];
    assert forall k :: 0 <= k < i ==> steps[..i][..k] == steps[..k];
  }

  lemma StillThere(files: Files, orig: Files, gone: set<string>, hidden: set<string>, name: string)
    requires Shows(files, orig, gone, hidden, map[]) && !HiddenName(name)
    ensures name in files <==> name in orig && name !in gone
    ensures name in files ==> files[name] == orig[name]
  {
    assert name in files <==> name in files - hidden;
  }

  lemma GoneFromOrig(files: Files, orig: Files, gone: set<string>, hidden: set<string>, name: string)
    requires Shows(files, orig, gone, hidden, map[]) && !HiddenName(name)
    ensures name in gone ==> name !in files
  {
    assert name in files <==> name in files - hidden;
  }

  /** No file is in the way of the steps' files, nor another step's. */
  ghost predicate NamesFree(orig: Files, steps: seq<Step>) {
    && (forall i, k :: 0 <= i < k < |steps| ==> steps[i].fileName != steps[k].fileName)
    && (forall i :: 0 <= i < |steps| && steps[i].fileName in orig ==> steps[i].fileName in Replaces(orig, steps))
  }

  /** Step `i`'s name is taken by a file that stays, or by an earlier step's. */
  ghost predicate Occupied(orig: Files, gone: set<string>, steps: seq<Step>, i: nat)
    requires i < |steps|
  {
    || (steps[i].fileName in orig && steps[i].fileName !in gone)
    || exists k :: 0 <= k < i && steps[k].fileName == steps[i].fileName
  }

  lemma OccupiedIsNotFree(orig: Files, steps: seq<Step>, i: nat)
    requires i < |steps|
    ensures Occupied(orig, Replaces(orig, steps), steps, i) ==> !NamesFree(orig, steps)
  {
  }

  lemma NoneOccupiedIsFree(orig: Files, gone: set<string>, steps: seq<Step>)
    requires forall k :: 0 <= k < |steps| ==> !Occupied(orig, gone, steps, k)
    ensures gone == Replaces(orig, steps) ==> NamesFree(orig, steps)
  {
    forall k | 0 <= k < |steps|
      ensures steps[k].fileName in orig ==> steps[k].fileName in gone
      ensures forall i :: 0 <= i < k ==> steps[i].fileName != steps[k].fileName
    {
      assert !Occupied(orig, gone, steps, k);
    }
  }

  lemma InTheWay(files: Files, orig: Files, gone: set<string>, hidden: set<string>, steps: seq<Step>, staged: seq<Content>, i: nat)
    requires i < |steps| == |staged| && Shows(files, orig, gone, hidden, Placed(steps, staged, i))
    requires !HiddenName(steps[i].fileName)
    ensures steps[i].fileName in files <==> Occupied(orig, gone, steps, i)
  {
    PlacedNames(steps, staged, i);
    assert steps[i].fileName in files <==> steps[i].fileName in files - hidden;
  }

  predicate MayReplace(files: Files, s: Step)
    requires OldName(s).Some?
  {
    var name := OldName(s).value;
    name in files ==>
      files[name].File? && (s.replaceChanged || files[name].content == s.replacing.value.content)
  }

  /** Without its hidden copy, a file is there under its name alone. */
  lemma HiddenCopyGoes(files: Files, tmp: string, name: string, e: Entry)
    requires tmp !in files && tmp != name
    ensures files[tmp := e] - {tmp} == files && files[tmp := e][name := e] - {tmp} == files[name := e]
  {
  }

  /** The steps' names are plain, what they replace may be replaced, and no other file is in their way. */
  ghost predicate Allowed(orig: Files, steps: seq<Step>) {
    && (forall i :: 0 <= i < |steps| ==> ValidFileName(steps[i].fileName))
    && MayReplaceAll(orig, steps) && NamesFree(orig, steps)
  }

  class Txn {
    const luck: nat -> Luck
    const hiddenNames: nat -> string

    var files: Files
    var placed: seq<string>
    var moved: seq<Move>
    var tries: nat
    var drawn: nat

    /** The names moved out of the way, and the hidden ones they have. */
    ghost var gone: set<string>
    ghost var hidden: set<string>

    constructor (files: Files, luck: nat -> Luck, hiddenNames: nat -> string)
      ensures this.files == files && placed == [] && moved == [] && tries == 0 && drawn == 0 && gone == {} && hidden == {}
      ensures this.luck == luck && this.hiddenNames == hiddenNames
    {
      this.files, this.luck, this.hiddenNames := files, luck, hiddenNames;
      placed, moved, tries, drawn := [], [], 0, 0;
      gone, hidden := {}, {};
    }

    method Try() returns (l: Luck)
      modifies this`tries
      ensures l == luck(old(tries)) && tries == old(tries) + 1
    {
      l := luck(tries);
      tries := tries + 1;
    }

    method Draw() returns (name: string)
      modifies this`drawn
      ensures name == hiddenNames(old(drawn)) && drawn == old(drawn) + 1
    {
      name := hiddenNames(drawn);
      drawn := drawn + 1;
    }

    /** No file operation tried since number `from` broke. */
    ghost predicate NoneBroke(from: nat)
      reads this`tries
    {
      forall n: nat :: from <= n < tries ==> luck(n) != Breaks
    }

    /** Copies `content` into the folder as `name` without replacing anything: a hidden copy first, then a
        hard link, or, when that doesn't work, a check and a rename. */
    method Place(content: Content, name: string) returns (ok: bool)
      requires hiddenNames(drawn) !in files && hiddenNames(drawn) != name
      modifies this`files, this`tries, this`drawn
      ensures files == if ok then old(files)[name := File(content)] else old(files)
      ensures ok ==> name !in old(files)
      ensures ok <==> && luck(old(tries)) != Breaks && luck(old(tries) + 1) != Breaks && name !in old(files)
                      && (luck(old(tries) + 2) == Works || (luck(old(tries) + 3) != Breaks && luck(old(tries) + 4) != Breaks))
      ensures tries >= old(tries) && (NoneBroke(old(tries)) && name !in old(files) ==> ok)
      ensures drawn == old(drawn) + 1
    {
      var tmp := Draw();
      var written := Stage();
      if !written { return false; }
      HiddenCopyGoes(files, tmp, name, File(content));
      files := files[tmp := File(content)];
      ok := Link(tmp, name);
      files := files - {tmp};
    }

    /** Opens the hidden copy and writes it. */
    method Stage() returns (ok: bool)
      modifies this`tries
      ensures ok <==> luck(old(tries)) != Breaks && luck(old(tries) + 1) != Breaks
      ensures old(tries) < tries <= old(tries) + 2 && (ok ==> tries == old(tries) + 2)
      ensures NoneBroke(old(tries)) ==> ok
    {
      var made := Try();
      if made == Breaks { return false; }
      var copied := Try();
      return copied != Breaks;
    }

    /** Gives the hidden copy `tmp` its name: by a link, or, whatever kept the link from working other
        than a file of that name, by a look at the name and a rename. */
    method Link(tmp: string, name: string) returns (ok: bool)
      requires tmp in files && tmp != name
      modifies this`files, this`tries
      ensures files - {tmp} == (if ok then old(files)[name := old(files)[tmp]] else old(files)) - {tmp}
      ensures ok <==> && name !in old(files)
                      && (luck(old(tries)) == Works || (luck(old(tries) + 1) != Breaks && luck(old(tries) + 2) != Breaks))
      ensures tries >= old(tries) && (NoneBroke(old(tries)) && name !in old(files) ==> ok)
    {
      var linked := Try();
      if linked == Works {
        if name in files { return false; }
        files := files[name := files[tmp]];
        return true;
      }
      var looked := Try();
      if looked == Breaks || name in files { return false; }
      var renamed := Try();
      if renamed == Breaks { return false; }
      files := files[name := files[tmp]] - {tmp};
      return true;
    }

    /** Why a replaced file stays: it is gone already, it may not be replaced, or it can be. */
    method Check(s: Step) returns (there: bool, ok: bool)
      requires OldName(s).Some?
      modifies this`tries
      ensures ok && there ==> OldName(s).value in files && MayReplace(files, s)
      ensures ok && !there ==> OldName(s).value !in files
      ensures there <==> OldName(s).value in files
      ensures ok <==> && MayReplace(files, s)
                      && (there ==> luck(old(tries)) != Breaks && (s.replaceChanged || luck(old(tries) + 1) != Breaks))
      ensures tries >= old(tries) && (NoneBroke(old(tries)) && MayReplace(files, s) ==> ok)
    {
      var name := s.replacing.value.fileName;
      if name !in files { return false, true; }
      if files[name].NotRegular? { return true, false; }
      var openedFile := Try();
      if openedFile == Breaks { return true, false; }
      if s.replaceChanged { return true, true; }
      var read := Try();
      return true, read != Breaks && files[name].content == s.replacing.value.content;
    }

    /** Nothing has been done yet. */
    predicate Untouched()
      reads this`placed, this`moved, this`drawn, this`files, this`gone, this`hidden
    {
      placed == [] && moved == []
    }

    /** Renames an old file out of the way, under the next hidden name. */
    method Hide(name: string, ghost orig: Files) returns (ok: bool)
      requires Shows(files, orig, gone, hidden, map[]) && Reversible(files, orig, moved, {})
      requires name in files && !HiddenName(name) && Fresh(hiddenNames, drawn, files)
      modifies this`files, this`tries, this`drawn, this`moved, this`gone, this`hidden
      ensures Shows(files, orig, gone, hidden, map[]) && Reversible(files, orig, moved, {})
      ensures Fresh(hiddenNames, drawn, files)
      ensures HiddenAre(moved, hidden) <== old(HiddenAre(moved, hidden))
      ensures ok ==> gone == old(gone) + {name}
      ensures tries == old(tries) + 1 && (ok <==> luck(old(tries)) != Breaks)
    {
      var renamed := Try();
      if renamed == Breaks { return false; }
      ghost var before := drawn;
      var h := Draw();
      MoveShows(files, orig, gone, hidden, name, h);
      MoveReversible(files, orig, moved, name, h);
      MoveFresh(hiddenNames, before, files, name);
      HiddenOneMore(moved, hidden, Move(name, h));
      files := (files - {name})[h := files[name]];
      moved := moved + [Move(name, h)];
      gone, hidden := gone + {name}, hidden + {h};
      return true;
    }

    /** The first half of a run: renames the files that are replaced out of the way. */
    method SetAside(steps: seq<Step>, ghost orig: Files) returns (ok: bool)
      requires files == orig && moved == [] && gone == hidden == {} && Fresh(hiddenNames, drawn, files)
      modifies this`files, this`tries, this`drawn, this`moved, this`gone, this`hidden
      ensures Shows(files, orig, gone, hidden, map[]) && Reversible(files, orig, moved, {}) && HiddenAre(moved, hidden)
      ensures Fresh(hiddenNames, drawn, files)
      ensures ok ==> gone == Replaces(orig, steps)
      ensures ok ==> MayReplaceAll(orig, steps)
      ensures tries >= old(tries) && (NoneBroke(old(tries)) && MayReplaceAll(orig, steps) ==> ok)
    {
      assert files - {} == files && Installed(orig, {}, map[]) == orig;
      assert Replaces(orig, steps[..0]) == {};
      for i := 0 to |steps|
        invariant Shows(files, orig, gone, hidden, map[]) && Reversible(files, orig, moved, {}) && HiddenAre(moved, hidden)
        invariant Fresh(hiddenNames, drawn, files)
        invariant gone == Replaces(orig, steps[..i])
        invariant MayReplaceAll(orig, steps[..i]) && tries >= old(tries)
      {
        var done := SetAsideOne(steps, i, orig);
        if !done { return false; }
      }
      assert steps[..|steps|] == steps;
      return true;
    }

    /** Renames the file that step `i` replaces out of the way, after those of the steps before it. */
    method SetAsideOne(steps: seq<Step>, i: nat, ghost orig: Files) returns (ok: bool)
      requires i < |steps| && Fresh(hiddenNames, drawn, files)
      requires Shows(files, orig, gone, hidden, map[]) && Reversible(files, orig, moved, {}) && HiddenAre(moved, hidden)
      requires gone == Replaces(orig, steps[..i]) && MayReplaceAll(orig, steps[..i])
      modifies this`files, this`tries, this`drawn, this`moved, this`gone, this`hidden
      ensures Shows(files, orig, gone, hidden, map[]) && Reversible(files, orig, moved, {}) && HiddenAre(moved, hidden)
      ensures Fresh(hiddenNames, drawn, files)
      ensures ok ==> gone == Replaces(orig, steps[..i + 1])
      ensures ok ==> MayReplaceAll(orig, steps[..i + 1])
      ensures tries >= old(tries) && (NoneBroke(old(tries)) && MayReplaceAll(orig, steps) ==> ok)
    {
      OneMoreReplaced(orig, steps, i);
      PrefixMayReplace(orig, steps, i);
      ok := true;
      if OldName(steps[i]).Some? { ok := Replace(steps[i], orig); }
    }

    /** Renames the file a step replaces out of the way, if it is still there and may be replaced. */
    method Replace(s: Step, ghost orig: Files) returns (ok: bool)
      requires OldName(s).Some? && Fresh(hiddenNames, drawn, files)
      requires Shows(files, orig, gone, hidden, map[]) && Reversible(files, orig, moved, {})
      modifies this`files, this`tries, this`drawn, this`moved, this`gone, this`hidden
      ensures Shows(files, orig, gone, hidden, map[]) && Reversible(files, orig, moved, {})
      ensures HiddenAre(moved, hidden) <== old(HiddenAre(moved, hidden))
      ensures Fresh(hiddenNames, drawn, files)
      ensures ok ==> gone == old(gone) + if OldName(s).value in orig then {OldName(s).value} else {}
      ensures ok ==> OldName(s).value in old(gone) || MayReplace(orig, s)
      ensures tries >= old(tries)
      ensures NoneBroke(old(tries)) && (OldName(s).value in old(gone) || MayReplace(orig, s)) ==> ok
    {
      var name := s.replacing.value.fileName;
      StillThere(files, orig, gone, hidden, name);
      GoneFromOrig(files, orig, gone, hidden, name);
      var there, fine := Check(s);
      ok := fine;
      if fine && there { ok := Hide(name, orig); }
    }

    /** Puts the file of step `i` in place, after those of the steps before it. */
    method PlaceOne(steps: seq<Step>, staged: seq<Content>, i: nat, ghost orig: Files) returns (ok: bool)
      requires i < |steps| == |staged| && ValidFileName(steps[i].fileName) && Fresh(hiddenNames, drawn, files)
      requires Shows(files, orig, gone, hidden, Placed(steps, staged, i))
      requires Reversible(files, orig, moved, SetOf(placed))
      modifies this`files, this`tries, this`drawn, this`placed
      ensures placed == if ok then old(placed) + [steps[i].fileName] else old(placed)
      ensures Fresh(hiddenNames, drawn, files)
      ensures Shows(files, orig, gone, hidden, Placed(steps, staged, if ok then i + 1 else i))
      ensures Reversible(files, orig, moved, SetOf(placed))
      ensures ok ==> !Occupied(orig, gone, steps, i)
      ensures tries >= old(tries) && (NoneBroke(old(tries)) && !Occupied(orig, gone, steps, i) ==> ok)
    {
      var name := steps[i].fileName;
      InTheWay(files, orig, gone, hidden, steps, staged, i);
      ghost var before := files;
      ok := Place(staged[i], name);
      if ok {
        PlaceShows(before, orig, gone, hidden, Placed(steps, staged, i), name, File(staged[i]));
        PlaceReversible(before, orig, moved, SetOf(placed), name, File(staged[i]));
        assert SetOf(placed + [name]) == SetOf(placed) + {name};
        placed := placed + [name];
      }
    }

    /** The second half: puts the new files in place. */
    method PlaceAll(steps: seq<Step>, staged: seq<Content>, ghost orig: Files) returns (ok: bool)
      requires |staged| == |steps| && placed == [] && Fresh(hiddenNames, drawn, files)
      requires Shows(files, orig, gone, hidden, map[]) && Reversible(files, orig, moved, {})
      requires forall i :: 0 <= i < |steps| ==> ValidFileName(steps[i].fileName)
      modifies this`files, this`tries, this`drawn, this`placed
      ensures |placed| <= |steps| && Shows(files, orig, gone, hidden, Placed(steps, staged, |placed|))
      ensures Reversible(files, orig, moved, SetOf(placed))
      ensures ok ==> |placed| == |steps|
      ensures tries >= old(tries)
      ensures gone == Replaces(orig, steps) ==>
                (ok ==> NamesFree(orig, steps)) && (NoneBroke(old(tries)) && NamesFree(orig, steps) ==> ok)
    {
      assert SetOf(placed) == {};
      for i := 0 to |steps|
        invariant |placed| == i && Shows(files, orig, gone, hidden, Placed(steps, staged, i))
        invariant Reversible(files, orig, moved, SetOf(placed))
        invariant forall k :: 0 <= k < i ==> !Occupied(orig, gone, steps, k)
        invariant Fresh(hiddenNames, drawn, files) && tries >= old(tries)
      {
        var done := PlaceOne(steps, staged, i, orig);
        if !done {
          OccupiedIsNotFree(orig, steps, i);
          return false;
        }
      }
      NoneOccupiedIsFree(orig, gone, steps);
      return true;
    }

    method Run(steps: seq<Step>, staged: seq<Content>, ghost orig: Files) returns (ok: bool)
      requires |staged| == |steps| && Untouched() && gone == hidden == {} && files == orig && Fresh(hiddenNames, drawn, files)
      requires forall i :: 0 <= i < |steps| ==> ValidFileName(steps[i].fileName)
      modifies this`files, this`tries, this`drawn, this`moved, this`placed, this`gone, this`hidden
      ensures |placed| <= |steps| && Shows(files, orig, gone, hidden, Placed(steps, staged, |placed|))
      ensures HiddenAre(moved, hidden)
      ensures Reversible(files, orig, moved, SetOf(placed))
      ensures ok ==> |placed| == |steps| && gone == Replaces(orig, steps)
      ensures ok ==> MayReplaceAll(orig, steps) && NamesFree(orig, steps)
      ensures tries >= old(tries)
      ensures NoneBroke(old(tries)) && MayReplaceAll(orig, steps) && NamesFree(orig, steps) ==> ok
    {
      ok := SetAside(steps, orig);
      if ok {
        ok := PlaceAll(steps, staged, orig);
      } else {
        assert (SetOf(placed)) == {};
      }
    }

    /** Takes the placed files out again and renames the others back, last first. */
    method Rollback()
      modifies this`files
      ensures files == UndoMoves(old(files) - SetOf(placed), moved)
    {
      ghost var orig := files;
      for i := 0 to |placed|
        invariant files == orig - SetOf(placed[..i])
      {
        assert (SetOf(placed[..i + 1])) == (SetOf(placed[..i])) + {placed[i]};
        files := files - {placed[i]};
      }
      assert placed[..|placed|] == placed;
      var n := |moved|;
      assert moved[..n] == moved;
      while n > 0
        invariant 0 <= n <= |moved|
        invariant UndoMoves(files, moved[..n]) == UndoMoves(orig - SetOf(placed), moved)
      {
        n := n - 1;
        assert moved[..n + 1][..n] == moved[..n];
        if moved[n].hidden in files {
          files := (files - {moved[n].hidden})[moved[n].name := files[moved[n].hidden]];
        }
      }
    }

    method Commit()
      modifies this`files
      ensures forall h :: HiddenAre(moved, h) ==> files == old(files) - h
    {
      for i := 0 to |moved|
        invariant files == old(files) - set m | m in moved[..i] :: m.hidden
      {
        assert forall m :: m in moved[..i + 1] <==> m in moved[..i] || m == moved[i];
        assert (set m | m in moved[..i + 1] :: m.hidden) == (set m | m in moved[..i] :: m.hidden) + {moved[i].hidden};
        files := files - {moved[i].hidden};
      }
      assert moved[..|moved|] == moved;
    }

    /** Carries out a plan's steps, whose files are staged. Either every file replaced is gone and every
        new file is there, or nothing changed. It succeeds only when the names are plain, what is replaced
        may be, and no other file is in the way; when that is so and it fails, a file operation it tried
        broke. */
    method Apply(steps: seq<Step>, staged: seq<Content>) returns (ok: bool)
      requires |staged| == |steps| && Untouched() && gone == hidden == {} && Fresh(hiddenNames, drawn, files)
      modifies this`files, this`tries, this`drawn, this`moved, this`placed, this`gone, this`hidden
      ensures ok ==> files == Installed(old(files), Replaces(old(files), steps), Placed(steps, staged, |steps|))
      ensures !ok ==> files == old(files)
      ensures ok ==> Allowed(old(files), steps)
      ensures !ok && Allowed(old(files), steps) ==> !NoneBroke(old(tries))
    {
      for i := 0 to |steps|
        invariant forall k :: 0 <= k < i ==> ValidFileName(steps[k].fileName)
      {
        if !ValidFileName(steps[i].fileName) { return false; }
      }
      ok := Run(steps, staged, files);
      if ok { Commit(); } else { Rollback(); }
    }
  }
}
