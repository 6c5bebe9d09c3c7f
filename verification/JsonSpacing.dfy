/** Printing JSON on one line, with a space after each colon and comma and inside braces. */
module JsonSpacing {
  /** Where a byte stands: outside string literals, inside one, or right after a backslash in one. */
  datatype Mode = Outside | Inside | Escaped

  function Step(m: Mode, c: char): Mode {
    match m
    case Outside => if c == '"' then Inside else Outside
    case Inside => if c == '\\' then Escaped else if c == '"' then Outside else Inside
    case Escaped => Inside
  }

  function ModeAfter(s: string, m: Mode): Mode
    decreases |s|
  {
    if s == [] then m else ModeAfter(s[1..], Step(m, s[0]))
  }

  /** Insignificant whitespace (section 2 of RFC 8259). */
  predicate White(c: char) { c in " \t\n\r" }

  /** `s` without the whitespace outside string literals, which is what compacting JSON gives. */
  function Strip(s: string, m: Mode): string
    decreases |s|
  {
    if s == [] then []
    else StripChar(s[0], m) + Strip(s[1..], Step(m, s[0]))
  }

  function StripChar(c: char, m: Mode): string { if m == Outside && White(c) then [] else [c] }

  /** What is printed for byte `i`. */
  function Piece(s: string, i: nat, m: Mode): string
    requires i < |s|
  {
    var c := s[i];
    if m != Outside then [c]
    else if c == '{' then (if i + 1 < |s| && s[i + 1] == '}' then "{" else "{ ")
    else if c == '}' then (if i > 0 && s[i - 1] == '{' then "}" else " }")
    else if c == ',' then ", "
    else if c == ':' then ": "
    else [c]
  }

  function SpacedFrom(s: string, i: nat, m: Mode): string
    requires i <= |s|
    decreases |s| - i
  {
    if i == |s| then [] else Piece(s, i, m) + SpacedFrom(s, i + 1, Step(m, s[i]))
  }

  /** What is printed for byte `i`, outside strings: the byte with at most whitespace around it. */
  method PrintOutside(s: string, i: nat) returns (p: string)
    requires i < |s|
    ensures p == Piece(s, i, Outside)
    ensures !White(s[i]) ==> Strip(p, Outside) == [s[i]] && ModeAfter(p, Outside) == Step(Outside, s[i])
  {
    if !White(s[i]) { PieceStrips(s, i, Outside); }
    match s[i]
    case '{' => if i + 1 < |s| && s[i + 1] == '}' { p := "{"; } else { p := "{ "; }
    case '}' => if i > 0 && s[i - 1] == '{' { p := "}"; } else { p := " }"; }
    case ',' => p := ", ";
    case ':' => p := ": ";
    case c => p := [c];
  }

  /** One byte at a time, with a flag for being in a string and one for an escape. */
  method SpaceOut(s: string) returns (out: string)
    ensures out == SpacedFrom(s, 0, Outside)
  {
    out := "";
    var inString, escaped := false, false;
    ghost var m := Outside;
    for i := 0 to |s|
      invariant m == if escaped then Escaped else if inString then Inside else Outside
      invariant escaped ==> inString
      invariant out + SpacedFrom(s, i, m) == SpacedFrom(s, 0, Outside)
    {
      var c := s[i];
      var p := [c];
      if inString {
        if escaped { escaped := false; }
        else if c == '\\' { escaped := true; }
        else if c == '"' { inString := false; }
      } else {
        p := PrintOutside(s, i);
        if c == '"' { inString := true; }
      }
      PrintOne(s, i, m, out);
      out := out + p;
      m := Step(m, c);
    }
  }

  lemma PrintOne(s: string, i: nat, m: Mode, out: string)
    requires i < |s|
    ensures out + Piece(s, i, m) + SpacedFrom(s, i + 1, Step(m, s[i])) == out + SpacedFrom(s, i, m)
  {
  }

  /** Prints `raw` on one line, or as it is when it isn't valid JSON. Only insignificant whitespace
      changes: both have the same compact form, and the output has whitespace only where it belongs. */
  method Spaced(raw: string, valid: bool) returns (out: string)
    ensures !valid ==> out == raw
    ensures valid ==> out == SpacedFrom(Strip(raw, Outside), 0, Outside)
    ensures Strip(out, Outside) == Strip(raw, Outside)
    ensures valid ==> WellSpaced(out, Outside, '"') && Tight(out, Outside, '"')
  {
    if !valid { return raw; }
    var compact := Strip(raw, Outside);
    StripIsCompact(raw, Outside);
    assert compact[0..] == compact;
    SpacingOnly(compact, 0, Outside);
    SpacedIsWellSpaced(compact, 0, Outside, '"');
    SpacedIsTight(compact, 0, Outside, '"');
    out := SpaceOut(compact);
  }

  lemma {:induction false} StripConcat(a: string, b: string, m: Mode)
    ensures Strip(a + b, m) == Strip(a, m) + Strip(b, ModeAfter(a, m))
    decreases |a|
  {
    if a == [] {
      assert a + b == b;
    } else {
      assert (a + b)[1..] == a[1..] + b;
      StripConcat(a[1..], b, Step(m, a[0]));
      var head, x, y := StripChar(a[0], m), Strip(a[1..], Step(m, a[0])), Strip(b, ModeAfter(a, m));
      assert (head + x) + y == head + (x + y);
    }
  }

  lemma StripOne(c: char, m: Mode)
    ensures Strip([c], m) == StripChar(c, m)
    ensures ModeAfter([c], m) == Step(m, c)
  {
    assert [c][1..] == [];
  }

  /** Stripping leaves nothing to strip. */
  lemma {:induction false} StripIsCompact(s: string, m: Mode)
    ensures Strip(Strip(s, m), m) == Strip(s, m)
    decreases |s|
  {
    if s != [] {
      var rest := Strip(s[1..], Step(m, s[0]));
      StripIsCompact(s[1..], Step(m, s[0]));
      if m == Outside && White(s[0]) {
        assert [] + rest == rest;
      } else {
        StripOne(s[0], m);
        StripConcat([s[0]], rest, m);
      }
    }
  }

  /** What is printed for a byte is that byte again once stripped, and leaves the printer where the byte
      leaves the reader. */
  lemma PieceStrips(s: string, i: nat, m: Mode)
    requires i < |s| && !(m == Outside && White(s[i]))
    ensures Strip(Piece(s, i, m), m) == [s[i]] && ModeAfter(Piece(s, i, m), m) == Step(m, s[i])
  {
    var p := Piece(s, i, m);
    StripOne(p[0], m);
    if |p| == 1 {
      assert p == [p[0]];
    } else {
      StripTwo(p[0], p[1], m);
      assert p == [p[0], p[1]];
    }
  }

  lemma StripTwo(c: char, d: char, m: Mode)
    ensures Strip([c, d], m) == StripChar(c, m) + StripChar(d, Step(m, c))
    ensures ModeAfter([c, d], m) == Step(Step(m, c), d)
  {
    assert [c, d][1..] == [d];
    StripOne(d, Step(m, c));
  }

  /** Spacing compact JSON out and stripping it gives it back, strings with any escapes included. */
  lemma {:induction false} SpacingOnly(s: string, i: nat, m: Mode)
    requires i <= |s| && Strip(s[i..], m) == s[i..]
    ensures Strip(SpacedFrom(s, i, m), m) == s[i..]
    decreases |s| - i
  {
    if i < |s| {
      CompactRest(s, i, m);
      PieceStrips(s, i, m);
      SpacingOnly(s, i + 1, Step(m, s[i]));
      StripConcat(Piece(s, i, m), SpacedFrom(s, i + 1, Step(m, s[i])), m);
    }
  }

  lemma CompactRest(s: string, i: nat, m: Mode)
    requires i < |s| && Strip(s[i..], m) == s[i..]
    ensures !(m == Outside && White(s[i])) && Strip(s[i + 1..], Step(m, s[i])) == s[i + 1..]
    ensures s[i..] == [s[i]] + s[i + 1..]
  {
    var rest := s[i + 1..];
    assert s[i..][1..] == rest && s[i..][0] == s[i];
    StripShrinks(rest, Step(m, s[i]));
    assert ([s[i]] + Strip(rest, Step(m, s[i])))[1..] == Strip(rest, Step(m, s[i]));
  }

  lemma {:induction false} StripShrinks(s: string, m: Mode)
    ensures |Strip(s, m)| <= |s|
    decreases |s|
  {
    if s != [] { StripShrinks(s[1..], Step(m, s[0])); }
  }

  /** Outside strings, colons and commas come before a space, an opening brace before a space or its
      closing one, and a closing brace after a space or its opening one. `prev` is the byte before. */
  predicate WellSpaced(s: string, m: Mode, prev: char)
    decreases |s|
  {
    s != [] ==>
      && (m == Outside ==>
            && (s[0] in ",:" ==> |s| > 1 && s[1] == ' ')
            && (s[0] == '{' ==> |s| > 1 && s[1] in " }")
            && (s[0] == '}' ==> prev in " {"))
      && WellSpaced(s[1..], Step(m, s[0]), s[0])
  }

  /** What was printed last before byte `i`. */
  predicate Before(s: string, i: nat, m: Mode, prev: char)
    requires i <= |s|
  {
    m == Outside && 0 < i < |s| && s[i - 1] == '{' && s[i] == '}' ==> prev == '{'
  }

  lemma {:induction false} SpacedIsWellSpaced(s: string, i: nat, m: Mode, prev: char)
    requires i <= |s| && Before(s, i, m, prev)
    ensures WellSpaced(SpacedFrom(s, i, m), m, prev)
    decreases |s| - i
  {
    if i < |s| {
      var p, m1 := Piece(s, i, m), Step(m, s[i]);
      var rest := SpacedFrom(s, i + 1, m1);
      var out := p + rest;
      SpacedIsWellSpaced(s, i + 1, m1, p[|p| - 1]);
      if |p| == 1 {
        assert out[1..] == rest;
        if m == Outside && s[i] == '{' { assert rest[0] == '}' by { assert Piece(s, i + 1, Outside) == "}"; } }
      } else {
        assert out[1..][1..] == rest && out[1..][0] == p[1];
      }
    }
  }

  // ---------- no other whitespace ----------

  /** Outside strings, the only whitespace is a space right after a colon, a comma or an opening brace, or
      right before a closing brace, and an empty object has none. `prev` is the byte before. */
  predicate Tight(s: string, m: Mode, prev: char)
    decreases |s|
  {
    s != [] ==>
      && (m == Outside && White(s[0]) ==>
            && s[0] == ' '
            && (prev in ",:{" || (|s| > 1 && s[1] == '}'))
            && !(prev == '{' && |s| > 1 && s[1] in " }"))
      && Tight(s[1..], Step(m, s[0]), s[0])
  }

  /** What was printed last before byte `i`: the byte before it, or the space after that one. */
  predicate Linked(s: string, i: nat, m: Mode, prev: char)
    requires i <= |s|
  {
    m == Outside ==>
      && prev !in ",:"
      && (prev == '{' <==> 0 < i < |s| && s[i - 1] == '{' && s[i] == '}')
      && (prev == ' ' ==> i > 0 && s[i - 1] in ",:{")
  }

  lemma LinkedNext(s: string, i: nat, m: Mode)
    requires i < |s| && !(m == Outside && White(s[i]))
    ensures var p := Piece(s, i, m); Linked(s, i + 1, Step(m, s[i]), p[|p| - 1])
  {
  }

  /** Spacing compact JSON out puts whitespace nowhere else: not inside a number or a word, nor between a
      bracket and what it holds. */
  lemma {:induction false} SpacedIsTight(s: string, i: nat, m: Mode, prev: char)
    requires i <= |s| && Strip(s[i..], m) == s[i..] && Linked(s, i, m, prev)
    ensures Tight(SpacedFrom(s, i, m), m, prev)
    decreases |s| - i
  {
    if i < |s| {
      var p, m1 := Piece(s, i, m), Step(m, s[i]);
      CompactRest(s, i, m);
      LinkedNext(s, i, m);
      SpacedIsTight(s, i + 1, m1, p[|p| - 1]);
      NextPrinted(s, i, m);
      PieceIsTight(s, i, m, prev, SpacedFrom(s, i + 1, m1));
    }
  }

  lemma FirstPrinted(s: string, i: nat)
    requires 0 < i < |s| && s[i] != '}'
    ensures SpacedFrom(s, i, Outside) != [] && SpacedFrom(s, i, Outside)[0] == s[i]
  {
    assert Piece(s, i, Outside)[0] == s[i];
  }

  lemma NextPrinted(s: string, i: nat, m: Mode)
    requires i < |s| && Strip(s[i..], m) == s[i..]
    ensures var next := SpacedFrom(s, i + 1, Step(m, s[i]));
            m == Outside && s[i] == '{' && Piece(s, i, m) == "{ " && next != [] ==> next[0] !in " }"
  {
    CompactRest(s, i, m);
    if i + 1 < |s| && m == Outside && s[i] == '{' && s[i + 1] != '}' {
      CompactRest(s, i + 1, m);
      FirstPrinted(s, i + 1);
    }
  }

  lemma PieceIsTight(s: string, i: nat, m: Mode, prev: char, rest: string)
    requires i < |s| && Linked(s, i, m, prev) && !(m == Outside && White(s[i]))
    requires var p := Piece(s, i, m); Tight(rest, Step(m, s[i]), p[|p| - 1])
    requires m == Outside && s[i] == '{' && Piece(s, i, m) == "{ " && rest != [] ==> rest[0] !in " }"
    ensures Tight(Piece(s, i, m) + rest, m, prev)
  {
    var p := Piece(s, i, m);
    var out := p + rest;
    if |p| == 1 {
      assert out[1..] == rest && out[0] == s[i];
    } else {
      TightTwo(p[0], p[1], rest, prev);
      assert out == [p[0], p[1]] + rest;
    }
  }

  lemma TightTwo(c: char, d: char, rest: string, prev: char)
    requires c != '"' && d != '"' && Tight(rest, Outside, d)
    requires White(c) ==> c == ' ' && d == '}' && prev != '{'
    requires White(d) ==> d == ' ' && c in ",:{" && !(c == '{' && rest != [] && rest[0] in " }")
    ensures Tight([c, d] + rest, Outside, prev)
  {
    var out := [c, d] + rest;
    assert out[1..][1..] == rest && out[1..][0] == d && (rest != [] ==> out[2] == rest[0]);
  }

  // ---------- the one way to print it ----------

  /** No object ends right after a comma or a colon; in JSON none does. */
  predicate NoneDangles(s: string, m: Mode)
    decreases |s|
  {
    |s| > 1 ==> !(m == Outside && s[0] in ",:" && s[1] == '}') && NoneDangles(s[1..], Step(m, s[0]))
  }

  /** `t` prints `s`: nothing but whitespace is added, and it is where it belongs. */
  predicate Prints(t: string, s: string) {
    Strip(t, Outside) == s && WellSpaced(t, Outside, '"') && Tight(t, Outside, '"')
  }

  /** Of all ways to add whitespace to compact JSON, exactly one has it where it belongs, and that is what
      is printed. */
  lemma PrintedExactly(t: string, s: string)
    requires Strip(s, Outside) == s && NoneDangles(s, Outside)
    ensures Prints(t, s) <==> t == SpacedFrom(s, 0, Outside)
  {
    assert s[0..] == s;
    SpacingOnly(s, 0, Outside);
    SpacedIsWellSpaced(s, 0, Outside, '"');
    SpacedIsTight(s, 0, Outside, '"');
    if Prints(t, s) { OneWay(t, s, 0, Outside, '"'); }
  }

  lemma StripFirst(t: string, m: Mode)
    requires t != [] && !(m == Outside && White(t[0]))
    ensures Strip(t, m) != [] && Strip(t, m)[0] == t[0] && Strip(t, m)[1..] == Strip(t[1..], Step(m, t[0]))
  {
  }

  lemma StripWhite(t: string)
    requires t != [] && White(t[0])
    ensures Strip(t, Outside) == Strip(t[1..], Outside)
  {
  }

  /** `t` prints what is left of `s` from byte `i` on. */
  predicate PrintsFrom(t: string, s: string, i: nat, m: Mode, prev: char)
    requires i <= |s|
  {
    && Strip(t, m) == s[i..] && WellSpaced(t, m, prev) && Tight(t, m, prev)
    && Linked(s, i, m, prev) && !DanglesAt(s, i, m, prev)
  }

  predicate DanglesAt(s: string, i: nat, m: Mode, prev: char) {
    prev == ' ' && 0 < i < |s| && m == Outside && s[i] == '}' && s[i - 1] in ",:"
  }

  lemma {:induction false} OneWay(t: string, s: string, i: nat, m: Mode, prev: char)
    requires i <= |s| && Strip(s[i..], m) == s[i..] && NoneDangles(s[i..], m) && PrintsFrom(t, s, i, m, prev)
    ensures t == SpacedFrom(s, i, m)
    decreases |s| - i
  {
    if i == |s| {
      OneEnd(t, s, m, prev);
    } else {
      PrintsOn(t, s, i, m, prev);
      var p := Piece(s, i, m);
      var rest := t[|p|..];
      OneWay(rest, s, i + 1, Step(m, s[i]), p[|p| - 1]);
      OneMore(t, s, i, m);
    }
  }

  lemma OneMore(t: string, s: string, i: nat, m: Mode)
    requires i < |s| && Piece(s, i, m) <= t
    requires t[|Piece(s, i, m)|..] == SpacedFrom(s, i + 1, Step(m, s[i]))
    ensures t == SpacedFrom(s, i, m)
  {
  }

  lemma PrintsOn(t: string, s: string, i: nat, m: Mode, prev: char)
    requires i < |s| && Strip(s[i..], m) == s[i..] && NoneDangles(s[i..], m) && PrintsFrom(t, s, i, m, prev)
    ensures var p, m1 := Piece(s, i, m), Step(m, s[i]);
            && p <= t && Strip(s[i + 1..], m1) == s[i + 1..] && NoneDangles(s[i + 1..], m1)
            && PrintsFrom(t[|p|..], s, i + 1, m1, p[|p| - 1])
  {
    CompactRest(s, i, m);
    StartsWithPiece(t, s, i, m, prev);
    NextDoesNotDangle(s, i, m);
  }

  lemma OneEnd(t: string, s: string, m: Mode, prev: char)
    requires PrintsFrom(t, s, |s|, m, prev)
    ensures t == []
  {
    assert s[|s|..] == [];
    if t != [] { if m == Outside && White(t[0]) { NoTrail(t, prev); } else { StripFirst(t, m); } }
  }

  lemma NextDoesNotDangle(s: string, i: nat, m: Mode)
    requires i < |s| && NoneDangles(s[i..], m) && !(m == Outside && White(s[i]))
    ensures var p := Piece(s, i, m);
            && Linked(s, i + 1, Step(m, s[i]), p[|p| - 1]) && !DanglesAt(s, i + 1, Step(m, s[i]), p[|p| - 1])
            && NoneDangles(s[i + 1..], Step(m, s[i]))
  {
    LinkedNext(s, i, m);
    assert s[i..][1..] == s[i + 1..];
  }

  lemma NoTrail(t: string, prev: char)
    requires t != [] && White(t[0]) && Tight(t, Outside, prev) && prev !in ",:{"
    ensures Strip(t, Outside) != []
  {
    StripWhite(t);
    StripFirst(t[1..], Outside);
  }

  /** A printed form goes on with what is printed for the next byte. */
  lemma StartsWithPiece(t: string, s: string, i: nat, m: Mode, prev: char)
    requires i < |s| && PrintsFrom(t, s, i, m, prev) && !(m == Outside && White(s[i]))
    ensures StartsWith(t, s, i, m)
  {
    if m != Outside {
      StripFirst(t, m);
    } else if White(t[0]) {
      WhiteComesFirst(t, s, i, prev);
    } else {
      StripFirst(t, m);
      if s[i] in ",:{" { StartsWithSpace(t, s, i, prev); }
    }
  }

  predicate StartsWith(t: string, s: string, i: nat, m: Mode)
    requires i < |s|
  {
    var p, m1 := Piece(s, i, m), Step(m, s[i]);
    && p <= t && Strip(t[|p|..], m1) == s[i + 1..]
    && WellSpaced(t[|p|..], m1, p[|p| - 1]) && Tight(t[|p|..], m1, p[|p| - 1])
  }

  /** Only a closing brace has its space first. */
  lemma WhiteComesFirst(t: string, s: string, i: nat, prev: char)
    requires i < |s| && PrintsFrom(t, s, i, Outside, prev) && t != [] && White(t[0]) && !White(s[i])
    ensures StartsWith(t, s, i, Outside)
  {
    var rest := t[1..];
    StripWhite(t);
    assert rest != [] && s[i..][0] == s[i] && s[i..][1..] == s[i + 1..];
    assert WellSpaced(rest, Outside, ' ') && Tight(rest, Outside, ' ');
    StripFirst(rest, Outside);
    assert t[1] == s[i] == '}' && rest[1..] == t[2..];
    assert WellSpaced(rest[1..], Outside, '}') && Tight(rest[1..], Outside, '}');
  }

  /** A comma, a colon and an opening brace have theirs after them. */
  lemma StartsWithSpace(t: string, s: string, i: nat, prev: char)
    requires i < |s| && PrintsFrom(t, s, i, Outside, prev) && t != [] && t[0] == s[i] && s[i] in ",:{"
    requires Strip(t[1..], Outside) == s[i + 1..]
    ensures StartsWith(t, s, i, Outside)
  {
    var rest := t[1..];
    assert WellSpaced(rest, Outside, s[i]) && Tight(rest, Outside, s[i]);
    assert rest[1..] == t[2..];
    if rest[0] == ' ' {
      StripWhite(rest);
      if |rest| > 1 && !White(rest[1]) { StripFirst(rest[1..], Outside); }
      if |rest| > 1 && White(rest[1]) { assert Tight(rest[1..], Outside, ' '); }
    } else {
      StripFirst(rest, Outside);
    }
  }
}
