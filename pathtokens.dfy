/**
 * Turning a Hilbert path into slots (hilbertpiet/path.py): the path is generated and stretched,
 * its first codel becomes the Init token, every bend that leaves room for a U-turn becomes a
 * U-turn token, and each remaining run of forwards becomes a slot of that many codels.
 */
module PathTokens {
  import opened Outcomes
  import opened Text
  import Curve

  /** `'I'`, `'C'`, `'A'` or the length of a run of forwards. */
  datatype Token = InitToken | Clockwise | Anticlockwise | Slot(n: nat)

  /** Three set-up forwards and the two turns of a clockwise U-turn: `'F' * 3 + '+F+'`. */
  const ClockwiseBend: string := "FFF+F+"

  /** Five set-up forwards and the two turns of an anticlockwise U-turn: `'F' * 5 + '-F-'`. */
  const AnticlockwiseBend: string := "FFFFF-F-"

  /** What `generate_path(n)` of hilbertpiet returns: the curve with every run stretched to 5n + 2. */
  function GeneratedPath(n: int): string {
    if n <= 0 then "X" else Curve.Stretched(Curve.Generated(n), Curve.FivePlusTwo)
  }

  /** `generate_path(n)`: the Hilbert curve II after n iterations, stretched by `_stretch_path`. */
  method GeneratePath(n: int) returns (path: string)
    ensures path == GeneratedPath(n)
  {
    path := Curve.GeneratePath(n);
    if n <= 0 {
      return;
    }
    path := Curve.Stretch(path, Curve.FivePlusTwo);
  }

  /** For n >= 1 the stretched path is made of turtle instructions only. */
  lemma GeneratedPathSpec(n: int)
    ensures n <= 0 ==> GeneratedPath(n) == "X"
    ensures n > 0 ==> Curve.Instructions(GeneratedPath(n))
  {
    if n > 0 {
      Curve.GeneratedSpec(n);
      Curve.StretchKeepsInstructions(Curve.Generated(n), 0, Curve.FivePlusTwo);
    }
  }

  /** The path after the Init token and the U-turn tokens are put in, and stripped. */
  function Marked(path: string): string {
    var initialised := "I " + (if |path| >= 1 then path[1..] else "");
    var clockwise := Replace(initialised, ClockwiseBend, " C ");
    Strip(Replace(clockwise, AnticlockwiseBend, " A "))
  }

  /** The marked path once double spaces are halved and the ends stripped. */
  function Halved(marked: string): string {
    Strip(Replace(marked, "  ", " "))
  }

  /** The pieces between single spaces of the halved path. */
  function Pieces(marked: string): seq<string> {
    Split(Halved(marked), ' ')
  }

  predicate AllForwards(piece: string) {
    forall k :: 0 <= k < |piece| ==> piece[k] == 'F'
  }

  /** One piece: a U-turn or Init letter, or a run of at least two forwards. */
  function TokenOf(piece: string): (r: Result<Token>)
    ensures r.Ok? && r.value.Slot? ==> r.value.n == |piece| && r.value.n != 1 && AllForwards(piece)
    ensures r.Err? <==> piece !in {"I", "C", "A"} && (!AllForwards(piece) || |piece| == 1)
  {
    if piece == "I" then Ok(InitToken)
    else if piece == "C" then Ok(Clockwise)
    else if piece == "A" then Ok(Anticlockwise)
    else if !AllForwards(piece) then Err(IllFormedPath)
    else if |piece| == 1 then Err(SingleForward)
    else Ok(Slot(|piece|))
  }

  /** The pieces converted in order; the first piece that cannot be converted raises. */
  function TokensOf(pieces: seq<string>): Result<seq<Token>> {
    if pieces == [] then Ok([])
    else
      var t :- TokenOf(pieces[0]);
      var ts :- TokensOf(pieces[1..]);
      Ok([t] + ts)
  }

  /** What `map_path_u_turns(path)` returns or raises. */
  function UTurnTokens(path: string): Result<seq<Token>> {
    var m := Marked(path);
    if '-' in m || '+' in m then Err(UnresolvedTurn) else TokensOf(Pieces(m))
  }

  /** `map_path_u_turns(path)` */
  method MapPathUTurns(path: string) returns (r: Result<seq<Token>>)
    ensures r == UTurnTokens(path)
  {
    var marked := Marked(path);
    if '-' in marked || '+' in marked {
      return Err(UnresolvedTurn);
    }
    r := ConvertPieces(Pieces(marked));
  }

  /** The conversion loop of `map_path_u_turns`: each piece in turn becomes a token. */
  method ConvertPieces(pieces: seq<string>) returns (r: Result<seq<Token>>)
    ensures r == TokensOf(pieces)
  {
    var tokens: seq<Token> := [];
    var i := 0;
    assert pieces[i..] == pieces;
    assert TokensOf(pieces).Ok? ==> tokens + TokensOf(pieces).value == TokensOf(pieces).value;
    while i < |pieces|
      invariant 0 <= i <= |pieces|
      invariant TokensOf(pieces) == TokensThen(tokens, pieces[i..])
    {
      TokensStep(tokens, pieces, i);
      var t := TokenOf(pieces[i]);
      if t.Err? {
        return Err(t.error);
      }
      tokens := tokens + [t.value];
      i := i + 1;
    }
    assert pieces[i..] == [] && tokens + [] == tokens;
    r := Ok(tokens);
  }

  /** The tokens so far followed by the conversion of the remaining pieces. */
  function TokensThen(done: seq<Token>, rest: seq<string>): Result<seq<Token>> {
    var ts :- TokensOf(rest);
    Ok(done + ts)
  }

  /** One more piece: its token is appended, or its error is the result. */
  lemma TokensStep(done: seq<Token>, pieces: seq<string>, i: nat)
    requires i < |pieces|
    ensures TokenOf(pieces[i]).Err? ==> TokensThen(done, pieces[i..]) == Err(TokenOf(pieces[i]).error)
    ensures TokenOf(pieces[i]).Ok? ==>
      TokensThen(done, pieces[i..]) == TokensThen(done + [TokenOf(pieces[i]).value], pieces[i + 1..])
  {
    assert pieces[i..][0] == pieces[i] && pieces[i..][1..] == pieces[i + 1..];
    var t := TokenOf(pieces[i]);
    var rest := TokensOf(pieces[i + 1..]);
    if t.Ok? && rest.Ok? {
      assert done + ([t.value] + rest.value) == done + [t.value] + rest.value;
    }
  }

  /** Every token of a successful conversion is a letter or a slot that is not a single codel. */
  lemma {:induction false} TokensSpec(pieces: seq<string>)
    ensures TokensOf(pieces).Ok? ==> |TokensOf(pieces).value| == |pieces|
    ensures TokensOf(pieces).Ok? ==>
      forall k :: 0 <= k < |pieces| && TokensOf(pieces).value[k].Slot? ==>
        TokensOf(pieces).value[k].n != 1 && TokensOf(pieces).value[k].n == |pieces[k]|
    ensures TokensOf(pieces).Ok? ==>
      forall k :: 0 <= k < |pieces| ==> TokenOf(pieces[k]) == Ok(TokensOf(pieces).value[k])
    ensures TokensOf(pieces).Err? <==>
      exists k :: 0 <= k < |pieces| && TokenOf(pieces[k]).Err?
  {
    if pieces != [] {
      TokensSpec(pieces[1..]);
      var r := TokensOf(pieces);
      if r.Ok? {
        var ts := TokensOf(pieces[1..]).value;
        assert r.value == [TokenOf(pieces[0]).value] + ts;
        forall k | 0 <= k < |pieces| ensures TokenOf(pieces[k]).Ok? {
          if k > 0 {
            assert pieces[k] == pieces[1..][k - 1];
          }
        }
        forall k | 0 <= k < |pieces| ensures TokenOf(pieces[k]) == Ok(r.value[k]) {
          if k > 0 {
            assert r.value[k] == ts[k - 1] && pieces[k] == pieces[1..][k - 1];
          }
        }
      } else if TokenOf(pieces[0]).Ok? {
        var k :| 0 <= k < |pieces[1..]| && TokenOf(pieces[1..][k]).Err?;
        assert pieces[1..][k] == pieces[k + 1];
      }
    }
  }

  /** A string that starts with the Init letter standing alone. */
  predicate InitFirst(s: string) {
    |s| >= 1 && s[0] == 'I' && (|s| == 1 || s[1] == ' ')
  }

  /** Replacing a pattern that starts with neither I nor a space leaves an `I ` prefix alone. */
  lemma InitPrefixKept(rest: string, pat: string, rep: string)
    requires |pat| > 0 && pat[0] != 'I' && pat[0] != ' '
    ensures Replace("I " + rest, pat, rep) == "I " + Replace(rest, pat, rep)
  {
    var s := "I " + rest;
    assert s[1..] == " " + rest && s[1..][1..] == rest;
    if |s| >= |pat| {
      assert s[..|pat|][0] == 'I';
    }
    if |s[1..]| >= |pat| {
      assert s[1..][..|pat|][0] == ' ';
    }
  }

  /** Halving double spaces keeps the Init letter standing alone at the front. */
  lemma InitFirstHalving(s: string)
    requires InitFirst(s)
    ensures InitFirst(Replace(s, "  ", " "))
  {
    var r := Replace(s, "  ", " ");
    if |s| >= 2 {
      assert s[..2] != "  " by {
        assert s[..2][0] == 'I';
      }
      assert r == [s[0]] + Replace(s[1..], "  ", " ");
      var t := s[1..];
      assert t[0] == ' ';
      if |t| >= 2 && t[..2] == "  " {
        assert Replace(t, "  ", " ") == " " + Replace(t[2..], "  ", " ");
      } else if |t| >= 2 {
        assert Replace(t, "  ", " ") == [t[0]] + Replace(t[1..], "  ", " ");
      }
      assert Replace(t, "  ", " ")[0] == ' ';
    }
  }

  /** Stripping keeps the Init letter standing alone at the front. */
  lemma InitFirstStrip(s: string)
    requires InitFirst(s)
    ensures InitFirst(Strip(s))
  {
    assert StripLeft(s) == s;
    StripRightPrefix(s);
  }

  /** `rstrip` gives a prefix, and keeps the first character when it is not a space. */
  lemma {:induction false} StripRightPrefix(s: string)
    ensures |StripRight(s)| <= |s| && StripRight(s) == s[..|StripRight(s)|]
    ensures |s| > 0 && s[0] != ' ' ==> |StripRight(s)| > 0
    decreases |s|
  {
    if |s| > 0 && s[|s| - 1] == ' ' {
      var t := s[..|s| - 1];
      StripRightPrefix(t);
      assert t[..|StripRight(t)|] == s[..|StripRight(t)|];
      if |s| > 0 && s[0] != ' ' {
        assert |t| > 0 || s == " ";
      }
    }
  }

  /** The first piece of a string whose Init letter stands alone is that letter. */
  lemma InitFirstPiece(s: string)
    requires InitFirst(s)
    ensures Split(s, ' ')[0] == "I"
  {
    var t := s[1..];
    if t != [] {
      assert t[0] == ' ';
      assert Split(t, ' ') == [""] + Split(t[1..], ' ');
    }
  }

  /** A successful conversion starts with the Init token, and no slot is a single codel. */
  lemma UTurnTokensSpec(path: string)
    ensures UTurnTokens(path).Ok? ==> |UTurnTokens(path).value| >= 1 && UTurnTokens(path).value[0] == InitToken
    ensures UTurnTokens(path).Ok? ==>
      forall k :: 0 <= k < |UTurnTokens(path).value| && UTurnTokens(path).value[k].Slot? ==>
        UTurnTokens(path).value[k].n != 1
    ensures UTurnTokens(path).Err? && UTurnTokens(path).error != UnresolvedTurn ==>
      UTurnTokens(path).error in {IllFormedPath, SingleForward}
  {
    var rest := if |path| >= 1 then path[1..] else "";
    InitPrefixKept(rest, ClockwiseBend, " C ");
    var c := Replace(rest, ClockwiseBend, " C ");
    InitPrefixKept(c, AnticlockwiseBend, " A ");
    var a := "I " + Replace(c, AnticlockwiseBend, " A ");
    InitFirstStrip(a);
    var m := Marked(path);
    assert InitFirst(m);
    InitFirstHalving(m);
    InitFirstStrip(Replace(m, "  ", " "));
    var pieces := Pieces(m);
    InitFirstPiece(Strip(Replace(m, "  ", " ")));
    TokensSpec(pieces);
    TokensError(pieces);
  }

  /**
   * What the two replacements leave of a path of instructions: single instructions and
   * U-turn letters standing between two spaces, `" C "` or `" A "`.
   */
  predicate Blocks(s: string)
    decreases |s|
  {
    if s == [] then true
    else if s[0] == ' ' then |s| >= 3 && s[1] in "CA" && s[2] == ' ' && Blocks(s[3..])
    else s[0] in "F+-" && Blocks(s[1..])
  }

  /** No run of three spaces. */
  predicate NoTriple(s: string)
    decreases |s|
  {
    |s| < 3 || (!(s[0] == ' ' && s[1] == ' ' && s[2] == ' ') && NoTriple(s[1..]))
  }

  /** No run of two spaces, so splitting on a space gives no empty piece inside. */
  predicate NoDouble(s: string)
    decreases |s|
  {
    |s| < 2 || (!(s[0] == ' ' && s[1] == ' ') && NoDouble(s[1..]))
  }

  /** Where the pattern cannot start, `replace` keeps the first character and goes on. */
  lemma ReplaceSkipsHead(t: string, pat: string, rep: string)
    requires |pat| > 0 && |t| >= 1 && t[0] != pat[0]
    ensures Replace(t, pat, rep) == [t[0]] + Replace(t[1..], pat, rep)
  {
    if |t| >= |pat| {
      assert t[..|pat|][0] == t[0];
    } else {
      assert [t[0]] + t[1..] == t;
    }
  }

  /** A path of instructions is made of single-instruction blocks. */
  lemma {:induction false} InstructionsBlocks(s: string)
    requires Curve.Instructions(s)
    ensures Blocks(s)
    decreases |s|
  {
    if s != [] {
      assert Curve.Instructions(s[1..]) by {
        forall k | 0 <= k < |s[1..]| ensures s[1..][k] in "F+-" {
          assert s[1..][k] == s[k + 1];
        }
      }
      InstructionsBlocks(s[1..]);
    }
  }

  /** Blocks that start with k instructions go on with blocks after them. */
  lemma {:induction false} BlocksDrop(s: string, k: nat)
    requires Blocks(s) && k <= |s| && forall i :: 0 <= i < k ==> s[i] in "F+-"
    ensures Blocks(s[k..])
    decreases k
  {
    if k > 0 {
      assert s[0] in "F+-";
      assert forall i :: 0 <= i < k - 1 ==> s[1..][i] == s[i + 1];
      BlocksDrop(s[1..], k - 1);
      assert s[1..][k - 1..] == s[k..];
    }
  }

  /** Replacing a run of instructions by a U-turn letter between spaces keeps the blocks. */
  lemma {:induction false} ReplaceKeepsBlocks(s: string, pat: string, x: char)
    requires Blocks(s) && |pat| > 0 && Curve.Instructions(pat) && x in "CA"
    ensures Blocks(Replace(s, pat, [' ', x, ' ']))
    decreases |s|
  {
    var rep := [' ', x, ' '];
    if s == [] {
    } else if s[0] == ' ' {
      var t := s[3..];
      assert pat[0] in "F+-";
      ReplaceSkipsHead(s, pat, rep);
      ReplaceSkipsHead(s[1..], pat, rep);
      assert s[1..][1..] == s[2..];
      ReplaceSkipsHead(s[2..], pat, rep);
      assert s[2..][1..] == t;
      ReplaceKeepsBlocks(t, pat, x);
      var r := Replace(t, pat, rep);
      assert Replace(s, pat, rep) == [s[0], s[1], s[2]] + r;
      assert ([s[0], s[1], s[2]] + r)[3..] == r;
    } else if |s| < |pat| {
    } else if s[..|pat|] == pat {
      forall i | 0 <= i < |pat| ensures s[i] in "F+-" {
        assert s[i] == s[..|pat|][i];
      }
      BlocksDrop(s, |pat|);
      ReplaceKeepsBlocks(s[|pat|..], pat, x);
      var r := Replace(s[|pat|..], pat, rep);
      assert (rep + r)[3..] == r;
    } else {
      ReplaceKeepsBlocks(s[1..], pat, x);
      var r := Replace(s[1..], pat, rep);
      assert ([s[0]] + r)[1..] == r;
    }
  }

  /** Blocks hold no three spaces in a row, and do not start with two. */
  lemma {:induction false} BlocksNoTriple(s: string)
    requires Blocks(s)
    ensures NoTriple(s)
    ensures |s| >= 2 ==> !(s[0] == ' ' && s[1] == ' ')
    decreases |s|
  {
    if s != [] {
      if s[0] == ' ' {
        var t := s[3..];
        BlocksNoTriple(t);
        assert s[1..][1..] == s[2..] && s[2..][1..] == t;
        assert NoTriple(s[2..]);
        assert NoTriple(s[1..]);
      } else {
        BlocksNoTriple(s[1..]);
      }
    }
  }

  /** The Init letter and its space in front of blocks add no run of three spaces. */
  lemma InitBlocksNoTriple(b: string)
    requires Blocks(b)
    ensures NoTriple("I " + b)
  {
    BlocksNoTriple(b);
    var s := "I " + b;
    assert s[1..] == " " + b && s[1..][1..] == b;
    assert NoTriple(s[1..]);
  }

  lemma {:induction false} NoTriplePrefix(s: string, j: nat)
    requires NoTriple(s) && j <= |s|
    ensures NoTriple(s[..j])
    decreases |s|
  {
    if j >= 3 {
      NoTriplePrefix(s[1..], j - 1);
      assert s[..j][1..] == s[1..][..j - 1];
    }
  }

  lemma {:induction false} NoDoublePrefix(s: string, j: nat)
    requires NoDouble(s) && j <= |s|
    ensures NoDouble(s[..j])
    decreases |s|
  {
    if j >= 2 {
      NoDoublePrefix(s[1..], j - 1);
      assert s[..j][1..] == s[1..][..j - 1];
    }
  }

  /** Halving the double spaces of a string without three spaces in a row leaves no two. */
  lemma {:induction false} HalvingNoDouble(s: string)
    requires NoTriple(s)
    ensures NoDouble(Replace(s, "  ", " "))
    decreases |s|
  {
    if |s| >= 2 {
      if s[..2] == "  " {
        var t := s[2..];
        assert s[1..][1..] == t;
        assert NoTriple(t);
        HalvingNoDouble(t);
        var r := Replace(t, "  ", " ");
        if t != [] {
          assert s[2] != ' ';
          ReplaceSkipsHead(t, "  ", " ");
        }
        assert (" " + r)[1..] == r;
      } else {
        var t := s[1..];
        HalvingNoDouble(t);
        var r := Replace(t, "  ", " ");
        if s[0] == ' ' {
          assert s[1] != ' ' by {
            assert s[..2] == [s[0], s[1]];
          }
          ReplaceSkipsHead(t, "  ", " ");
        }
        assert ([s[0]] + r)[1..] == r;
      }
    }
  }

  /** `rstrip` leaves no space at the end. */
  lemma {:induction false} StripRightEnd(s: string)
    ensures |StripRight(s)| > 0 ==> StripRight(s)[|StripRight(s)| - 1] != ' '
    decreases |s|
  {
    if |s| > 0 && s[|s| - 1] == ' ' {
      StripRightEnd(s[..|s| - 1]);
    }
  }

  /** A string with no space at either end and no two spaces in a row splits into non-empty pieces. */
  lemma {:induction false} SplitNonEmpty(s: string)
    requires |s| >= 1 && s[0] != ' ' && s[|s| - 1] != ' ' && NoDouble(s)
    ensures forall k :: 0 <= k < |Split(s, ' ')| ==> |Split(s, ' ')[k]| >= 1
    decreases |s|
  {
    var r := Split(s, ' ');
    var rest := Split(s[1..], ' ');
    assert r == [[s[0]] + rest[0]] + rest[1..];
    if |s| >= 2 {
      var t := s[1..];
      if s[1] == ' ' {
        assert |s| >= 3 && s[2] != ' ';
        assert t[1..] == s[2..];
        SplitNonEmpty(s[2..]);
        assert rest == [""] + Split(s[2..], ' ');
        forall k | 1 <= k < |r| ensures |r[k]| >= 1 {
          assert r[k] == Split(s[2..], ' ')[k - 1];
        }
      } else {
        SplitNonEmpty(t);
        forall k | 1 <= k < |r| ensures |r[k]| >= 1 {
          assert r[k] == rest[k];
        }
      }
    }
  }

  /** A string made of blocks holds no Init letter. */
  lemma {:induction false} BlocksNoInit(s: string)
    requires Blocks(s)
    ensures 'I' !in s
    decreases |s|
  {
    if s != [] {
      var k := if s[0] == ' ' then 3 else 1;
      BlocksNoInit(s[k..]);
      assert s == s[..k] + s[k..];
    }
  }

  /** Every character `replace` leaves comes from the string or from the replacement. */
  lemma {:induction false} ReplaceChars(s: string, pat: string, rep: string)
    requires |pat| > 0
    ensures forall c :: c in Replace(s, pat, rep) ==> c in s || c in rep
    decreases |s|
  {
    if |s| >= |pat| {
      if s[..|pat|] == pat {
        ReplaceChars(s[|pat|..], pat, rep);
        assert forall c :: c in s[|pat|..] ==> c in s;
      } else {
        ReplaceChars(s[1..], pat, rep);
        assert forall c :: c in s[1..] ==> c in s;
      }
    }
  }

  /** Every character of a piece comes from the string split. */
  lemma {:induction false} SplitChars(s: string, sep: char)
    ensures forall k, c :: 0 <= k < |Split(s, sep)| && c in Split(s, sep)[k] ==> c in s
    decreases |s|
  {
    if s != [] {
      SplitChars(s[1..], sep);
      var rest := Split(s[1..], sep);
      var r := Split(s, sep);
      assert forall c :: c in s[1..] ==> c in s;
      forall k, c | 0 <= k < |r| && c in r[k] ensures c in s {
        if s[0] == sep {
          assert r[k] == ([""] + rest)[k];
          if k > 0 {
            assert r[k] == rest[k - 1];
          }
        } else if k == 0 {
          assert r[0] == [s[0]] + rest[0];
          assert c == s[0] || c in rest[0];
        } else {
          assert r[k] == rest[k];
        }
      }
    }
  }

  /** Before stripping: the marked path is "I " followed by blocks of the rewritten rest. */
  lemma MarkedUnstripped(path: string)
    requires Curve.Instructions(path)
    ensures var rest := if |path| >= 1 then path[1..] else "";
      var b := Replace(Replace(rest, ClockwiseBend, " C "), AnticlockwiseBend, " A ");
      Blocks(b) && Marked(path) == Strip("I " + b)
  {
    var rest := if |path| >= 1 then path[1..] else "";
    assert Curve.Instructions(rest) by {
      forall k | 0 <= k < |rest| ensures rest[k] in "F+-" {
        assert rest[k] == path[k + 1];
      }
    }
    InstructionsBlocks(rest);
    assert Curve.Instructions(ClockwiseBend) && Curve.Instructions(AnticlockwiseBend);
    var c := Replace(rest, ClockwiseBend, " C ");
    ReplaceKeepsBlocks(rest, ClockwiseBend, 'C');
    ReplaceKeepsBlocks(c, AnticlockwiseBend, 'A');
    InitPrefixKept(rest, ClockwiseBend, " C ");
    InitPrefixKept(c, AnticlockwiseBend, " A ");
  }

  /**
   * For a path of turtle instructions the marked path starts with the Init letter standing
   * alone, holds no other Init letter and never has three spaces in a row.
   */
  lemma MarkedShape(path: string)
    requires Curve.Instructions(path)
    ensures InitFirst(Marked(path)) && NoTriple(Marked(path))
    ensures 'I' !in Marked(path)[1..]
  {
    MarkedUnstripped(path);
    var rest := if |path| >= 1 then path[1..] else "";
    var b := Replace(Replace(rest, ClockwiseBend, " C "), AnticlockwiseBend, " A ");
    BlocksNoInit(b);
    var a := "I " + b;
    InitBlocksNoTriple(b);
    assert StripLeft(a) == a;
    var m := Marked(path);
    assert m == StripRight(a);
    StripRightPrefix(a);
    NoTriplePrefix(a, |m|);
    InitFirstStrip(a);
    assert 'I' !in m[1..] by {
      assert forall i :: 1 <= i < |m| ==> m[i] == a[i];
      assert a[1..] == " " + b;
    }
  }

  /**
   * For a path of turtle instructions the halved path starts with the Init letter standing
   * alone, holds no other Init letter, has no two spaces in a row and does not end in a space.
   */
  lemma HalvedShape(path: string)
    requires Curve.Instructions(path)
    ensures InitFirst(Halved(Marked(path))) && NoDouble(Halved(Marked(path)))
    ensures Halved(Marked(path))[|Halved(Marked(path))| - 1] != ' '
    ensures 'I' !in Halved(Marked(path))[1..]
  {
    MarkedShape(path);
    var m := Marked(path);
    var h := Replace(m, "  ", " ");
    HalvingNoDouble(m);
    InitFirstHalving(m);
    InitFirstStrip(h);
    ReplaceSkipsHead(m, "  ", " ");
    ReplaceChars(m[1..], "  ", " ");
    assert 'I' !in h[1..] by {
      assert h[1..] == Replace(m[1..], "  ", " ");
    }
    assert StripLeft(h) == h;
    var t := Strip(h);
    StripRightPrefix(h);
    NoDoublePrefix(h, |t|);
    StripRightEnd(h);
    assert 'I' !in t[1..] by {
      assert forall i :: 1 <= i < |t| ==> t[i] == h[i];
    }
  }

  /**
   * For a path of turtle instructions, as `generate_path` gives, every slot holds at least
   * two codels: the pieces `"I "`, `" C "` and `" A "` never put three spaces in a row, so once
   * double spaces are halved no piece is empty.
   */
  lemma UTurnSlotsAtLeastTwo(path: string)
    requires Curve.Instructions(path)
    ensures UTurnTokens(path).Ok? ==>
      forall k :: 0 <= k < |UTurnTokens(path).value| && UTurnTokens(path).value[k].Slot? ==>
        UTurnTokens(path).value[k].n >= 2
  {
    HalvedShape(path);
    SplitNonEmpty(Halved(Marked(path)));
    TokensSpec(Pieces(Marked(path)));
  }

  /** For a path of turtle instructions, the Init token is the first token and no other. */
  lemma UTurnInitOnlyFirst(path: string)
    requires Curve.Instructions(path)
    ensures UTurnTokens(path).Ok? ==>
      forall k :: 1 <= k < |UTurnTokens(path).value| ==> UTurnTokens(path).value[k] != InitToken
  {
    HalvedShape(path);
    var t := Halved(Marked(path));
    var pieces := Pieces(Marked(path));
    TokensSpec(pieces);
    if |t| >= 2 {
      assert t == "I" + " " + t[2..];
      assert ' ' !in "I";
      SplitFirstWord("I", t[2..]);
      SplitChars(t[2..], ' ');
      assert forall c :: c in t[2..] ==> c in t[1..];
      forall k | 1 <= k < |pieces| ensures pieces[k] != "I" {
        assert pieces[k] == Split(t[2..], ' ')[k - 1];
        assert 'I' !in pieces[k] && 'I' in "I";
      }
    } else {
      assert t == "I";
      SplitWord("I");
    }
  }

  /** Every slot of a generated path holds at least two codels; "X", for k <= 0, is Init alone. */
  lemma GeneratedSlotsAtLeastTwo(k: int)
    ensures k <= 0 ==> UTurnTokens(GeneratedPath(k)) == Ok([InitToken])
    ensures UTurnTokens(GeneratedPath(k)).Ok? ==>
      forall i :: 0 <= i < |UTurnTokens(GeneratedPath(k)).value| && UTurnTokens(GeneratedPath(k)).value[i].Slot? ==>
        UTurnTokens(GeneratedPath(k)).value[i].n >= 2
  {
    GeneratedPathSpec(k);
    if k <= 0 {
      assert "X"[1..] == "F"[1..];
      assert Marked("X") == Marked("F");
      OneForwardExample();
    } else {
      UTurnSlotsAtLeastTwo(GeneratedPath(k));
    }
  }

  lemma {:induction false} TokensError(pieces: seq<string>)
    ensures TokensOf(pieces).Err? ==> TokensOf(pieces).error in {IllFormedPath, SingleForward}
  {
    if pieces != [] {
      TokensError(pieces[1..]);
    }
  }

  /** A word without spaces splits into itself alone. */
  lemma {:induction false} SplitWord(a: string)
    requires ' ' !in a
    ensures Split(a, ' ') == [a]
    decreases |a|
  {
    if a != [] {
      assert ' ' !in a[1..] by {
        assert forall c :: c in a[1..] ==> c in a;
      }
      SplitWord(a[1..]);
      assert a[0] in a && [a[0]] + a[1..] == a;
    }
  }

  /** A word without spaces followed by one space is the first piece. */
  lemma {:induction false} SplitFirstWord(a: string, rest: string)
    requires ' ' !in a
    ensures Split(a + " " + rest, ' ') == [a] + Split(rest, ' ')
    decreases |a|
  {
    var s := a + " " + rest;
    if a == [] {
      assert s == " " + rest && s[1..] == rest;
    } else {
      assert ' ' !in a[1..] by {
        assert forall c :: c in a[1..] ==> c in a;
      }
      assert s[0] == a[0] && s[1..] == a[1..] + " " + rest;
      SplitFirstWord(a[1..], rest);
      assert a[0] in a && [a[0]] + a[1..] == a;
    }
  }

  /** Converting a single piece. */
  lemma TokensOfOne(p: string)
    ensures TokenOf(p).Ok? ==> TokensOf([p]) == Ok([TokenOf(p).value])
  {
    assert [p][1..] == [];
    if TokenOf(p).Ok? {
      assert [TokenOf(p).value] + [] == [TokenOf(p).value];
    }
  }

  /** Converting one or two pieces. */
  lemma TokensOfShort(p: string, q: string)
    ensures TokenOf(p).Ok? ==> TokensOf([p]) == Ok([TokenOf(p).value])
    ensures TokenOf(p).Ok? && TokenOf(q).Ok? ==> TokensOf([p, q]) == Ok([TokenOf(p).value, TokenOf(q).value])
    ensures TokenOf(p).Ok? && TokenOf(q).Err? ==> TokensOf([p, q]) == Err(TokenOf(q).error)
  {
    TokensOfOne(p);
    TokensOfOne(q);
    assert [p, q][1..] == [q];
    if TokenOf(p).Ok? && TokenOf(q).Ok? {
      assert [TokenOf(p).value] + [TokenOf(q).value] == [TokenOf(p).value, TokenOf(q).value];
    }
  }

  /** What the conversion does once the path is marked: no turn is left, and the pieces convert in order. */
  lemma UTurnTokensOfMarked(path: string, m: string, pieces: seq<string>)
    requires Marked(path) == m && '-' !in m && '+' !in m && Pieces(m) == pieces
    ensures UTurnTokens(path) == TokensOf(pieces)
  {
  }

  /** hilbertpiet tests: one forward is Init alone. */
  lemma OneForwardExample()
    ensures UTurnTokens("F") == Ok([InitToken])
  {
    MarkedOne();
    PiecesOne();
    UTurnTokensOfMarked("F", "I", ["I"]);
    TokensOfShort("I", "I");
  }

  lemma MarkedOne()
    ensures Marked("F") == "I"
  {
    assert "I " + "F"[1..] == "I ";
    assert Replace("I ", ClockwiseBend, " C ") == "I ";
    assert Replace("I ", AnticlockwiseBend, " A ") == "I ";
    assert StripRight("I ") == "I";
  }

  lemma PiecesOne()
    ensures Pieces("I") == ["I"]
  {
    assert Replace("I", "  ", " ") == "I";
    SplitWord("I");
  }

  /** hilbertpiet tests: two forwards leave a single forward after Init, which raises. */
  lemma TwoForwardsExample()
    ensures UTurnTokens("FF") == Err(SingleForward)
  {
    MarkedTwo();
    PiecesTwo();
    UTurnTokensOfMarked("FF", "I F", ["I", "F"]);
    assert TokenOf("F") == Err(SingleForward);
    TokensOfShort("I", "F");
  }

  lemma MarkedTwo()
    ensures Marked("FF") == "I F"
  {
    assert "I " + "FF"[1..] == "I F";
    assert Replace("I F", ClockwiseBend, " C ") == "I F";
    assert Replace("I F", AnticlockwiseBend, " A ") == "I F";
  }

  lemma PiecesTwo()
    ensures Pieces("I F") == ["I", "F"]
  {
    var t := "I F";
    assert t[..2] == "I " && t[1..] == " F";
    assert t[1..][..2] == " F" && t[1..][1..] == "F";
    assert Replace("I F", "  ", " ") == "I F";
    SplitFirstWord("I", "F");
    SplitWord("F");
    assert "I F" == "I" + " " + "F";
  }

  /** hilbertpiet tests: three forwards leave a slot of two after Init. */
  lemma ThreeForwardsExample()
    ensures UTurnTokens("FFF") == Ok([InitToken, Slot(2)])
  {
    MarkedThree();
    PiecesThree();
    UTurnTokensOfMarked("FFF", "I FF", ["I", "FF"]);
    assert TokenOf("FF") == Ok(Slot(2));
    TokensOfShort("I", "FF");
  }

  lemma MarkedThree()
    ensures Marked("FFF") == "I FF"
  {
    assert "I " + "FFF"[1..] == "I FF";
    assert Replace("I FF", ClockwiseBend, " C ") == "I FF";
    assert Replace("I FF", AnticlockwiseBend, " A ") == "I FF";
  }

  lemma PiecesThree()
    ensures Pieces("I FF") == ["I", "FF"]
  {
    HalvingThree();
    SplitFirstWord("I", "FF");
    SplitWord("FF");
    assert "I FF" == "I" + " " + "FF";
  }

  lemma HalvingThree()
    ensures Replace("I FF", "  ", " ") == "I FF"
  {
    var s := "I FF";
    assert s[..2] == "I " && s[1..] == " FF";
    assert s[1..][..2] == " F" && s[1..][1..] == "FF";
    assert Replace("FF", "  ", " ") == "FF";
  }

  /** hilbertpiet tests: a clockwise bend after four forwards is a U-turn. */
  lemma BendExample()
    ensures UTurnTokens("FFFF+F+") == Ok([InitToken, Clockwise])
  {
    MarkedBend();
    PiecesBend();
    UTurnTokensOfMarked("FFFF+F+", "I  C", ["I", "C"]);
    assert TokenOf("C") == Ok(Clockwise) && TokenOf("I") == Ok(InitToken);
    TokensOfShort("I", "C");
  }

  lemma MarkedBend()
    ensures Marked("FFFF+F+") == "I  C"
  {
    assert "FFFF+F+"[1..] == "FFF+F+";
    assert Replace("FFF+F+", ClockwiseBend, " C ") == " C ";
    InitPrefixKept("FFF+F+", ClockwiseBend, " C ");
    assert Replace(" C ", AnticlockwiseBend, " A ") == " C ";
    InitPrefixKept(" C ", AnticlockwiseBend, " A ");
    assert "I " + " C " == "I  C ";
    assert StripLeft("I  C ") == "I  C ";
    assert StripRight("I  C ") == "I  C";
  }

  lemma PiecesBend()
    ensures Pieces("I  C") == ["I", "C"]
  {
    assert Replace("I  C", "  ", " ") == "I C";
    assert Strip("I C") == "I C";
    SplitFirstWord("I", "C");
    SplitWord("C");
    assert "I C" == "I" + " " + "C";
  }

  /** hilbertpiet tests: an anticlockwise bend after six forwards is a U-turn. */
  lemma AnticlockwiseBendExample()
    ensures UTurnTokens("FFFFFF-F-") == Ok([InitToken, Anticlockwise])
  {
    MarkedAnticlockwiseBend();
    PiecesAnticlockwiseBend();
    UTurnTokensOfMarked("FFFFFF-F-", "I  A", ["I", "A"]);
    assert TokenOf("A") == Ok(Anticlockwise) && TokenOf("I") == Ok(InitToken);
    TokensOfShort("I", "A");
  }

  lemma MarkedAnticlockwiseBend()
    ensures Marked("FFFFFF-F-") == "I  A"
  {
    var rest := "FFFFF-F-";
    assert "FFFFFF-F-"[1..] == rest;
    assert rest[1..] == "FFFF-F-" && rest[2..] == "FFF-F-" && rest[3..] == "FF-F-";
    assert Replace("FF-F-", ClockwiseBend, " C ") == "FF-F-";
    assert "FFF-F-"[..6][3] != ClockwiseBend[3] && "FFF-F-"[1..] == "FF-F-";
    assert Replace("FFF-F-", ClockwiseBend, " C ") == "FFF-F-";
    assert "FFFF-F-"[..6][3] != ClockwiseBend[3];
    assert Replace("FFFF-F-", ClockwiseBend, " C ") == "FFFF-F-";
    assert rest[..6][3] != ClockwiseBend[3];
    assert Replace(rest, ClockwiseBend, " C ") == rest;
    InitPrefixKept(rest, ClockwiseBend, " C ");
    assert Replace(rest, AnticlockwiseBend, " A ") == " A ";
    InitPrefixKept(rest, AnticlockwiseBend, " A ");
    assert "I " + " A " == "I  A ";
    assert StripLeft("I  A ") == "I  A ";
    assert StripRight("I  A ") == "I  A";
  }

  lemma PiecesAnticlockwiseBend()
    ensures Pieces("I  A") == ["I", "A"]
  {
    assert Replace("I  A", "  ", " ") == "I A";
    assert Strip("I A") == "I A";
    SplitFirstWord("I", "A");
    SplitWord("A");
    assert "I A" == "I" + " " + "A";
  }

  /** hilbertpiet tests: after only three forwards the bend cannot be set up, which raises. */
  lemma ShortBendExample()
    ensures UTurnTokens("FFF+F+") == Err(UnresolvedTurn)
  {
    assert "FFF+F+"[1..] == "FF+F+";
    assert Replace("FF+F+", ClockwiseBend, " C ") == "FF+F+";
    InitPrefixKept("FF+F+", ClockwiseBend, " C ");
    assert Replace("FF+F+", AnticlockwiseBend, " A ") == "FF+F+";
    InitPrefixKept("FF+F+", AnticlockwiseBend, " A ");
    assert Marked("FFF+F+") == "I FF+F+";
    assert "I FF+F+"[4] == '+';
  }
}
