/**
 * The Hilbert curve II as a turtle path (piet/path.py): an L-system rewrites X and Y, the
 * non-terminals are erased, and runs of forwards (`F`) can then be stretched.
 */
module Curve {
  import opened Text

  const RuleX: string := "XFYFX+F+YFXFY-F-XFYFX"
  const RuleY: string := "YFXFY-F-XFYFX+F+YFXFY"

  /** `rules.get(c, c)` */
  function RewriteChar(c: char): string {
    if c == 'X' then RuleX else if c == 'Y' then RuleY else [c]
  }

  /** `''.join(rules.get(c, c) for c in path)`: one rewriting step. */
  function Rewrite(path: string): string {
    if path == [] then [] else RewriteChar(path[0]) + Rewrite(path[1..])
  }

  /** n rewriting steps from `path`. */
  function Iterate(path: string, n: nat): string {
    if n == 0 then path else Rewrite(Iterate(path, n - 1))
  }

  /** `path.replace('X', '').replace('Y', '')` */
  function Erase(path: string): string {
    Replace(Replace(path, "X", ""), "Y", "")
  }

  /** What `generate_path(n)` returns: the axiom X alone for n <= 0. */
  function Generated(n: int): string {
    if n <= 0 then "X" else Erase(Iterate("X", n))
  }

  /** The alphabet of the L-system. */
  predicate InAlphabet(path: string) {
    forall k :: 0 <= k < |path| ==> path[k] in "XYF+-"
  }

  /** The turtle instructions left after erasure. */
  predicate Instructions(path: string) {
    forall k :: 0 <= k < |path| ==> path[k] in "F+-"
  }

  /** Rewriting distributes over concatenation: every symbol is rewritten on its own. */
  lemma {:induction false} RewriteAppend(a: string, b: string)
    ensures Rewrite(a + b) == Rewrite(a) + Rewrite(b)
    decreases |a|
  {
    if a == [] {
      assert a + b == b;
    } else {
      assert (a + b)[0] == a[0];
      assert (a + b)[1..] == a[1..] + b;
      RewriteAppend(a[1..], b);
    }
  }

  /**
   * One step replaces X and Y by their 21-symbol templates and copies every other symbol;
   * it stays within the alphabet.
   */
  lemma {:induction false} RewriteSpec(path: string)
    requires InAlphabet(path)
    ensures InAlphabet(Rewrite(path))
    ensures |RuleX| == 21 && |RuleY| == 21
    ensures |Rewrite(path)| == |path| + 20 * |Occurrences(path)|
    decreases |path|
  {
    if path != [] {
      RewriteSpec(path[1..]);
      var r := Rewrite(path);
      var head, tail := RewriteChar(path[0]), Rewrite(path[1..]);
      assert r == head + tail;
      forall k | 0 <= k < |r| ensures r[k] in "XYF+-" {
        if k >= |head| {
          assert r[k] == tail[k - |head|];
        }
      }
    }
  }

  /** The positions of non-terminals, whose count sets the growth of a step. */
  function Occurrences(path: string): seq<int> {
    if path == [] then []
    else (if path[0] in "XY" then [0] else []) + Occurrences(path[1..])
  }

  lemma {:induction false} IterateInAlphabet(n: nat)
    ensures InAlphabet(Iterate("X", n))
  {
    if n > 0 {
      IterateInAlphabet(n - 1);
      RewriteSpec(Iterate("X", n - 1));
    }
  }

  /** Erasure leaves only turtle instructions. */
  lemma EraseLeavesInstructions(path: string)
    requires InAlphabet(path)
    ensures Instructions(Erase(path))
  {
    var once := Replace(path, "X", "");
    ReplaceCharByNothing(path, 'X');
    ReplaceCharByNothing(once, 'Y');
    var r := Erase(path);
    forall k | 0 <= k < |r| ensures r[k] in "F+-" {
      assert r[k] in r;
    }
  }

  /** `generate_path(n)` is X for n <= 0 and a string of F, + and - otherwise. */
  lemma GeneratedSpec(n: int)
    ensures n <= 0 ==> Generated(n) == "X"
    ensures n > 0 ==> Instructions(Generated(n))
  {
    if n > 0 {
      IterateInAlphabet(n);
      EraseLeavesInstructions(Iterate("X", n));
    }
  }

  /** `generate_path(n)`: n rewriting steps from X, then erasure of X and Y. */
  method GeneratePath(n: int) returns (path: string)
    ensures path == Generated(n)
  {
    path := "X";
    if n <= 0 {
      return;
    }
    var k := 0;
    while k < n
      invariant 0 <= k <= n && path == Iterate("X", k)
    {
      path := Rewrite(path);
      k := k + 1;
    }
    path := Replace(Replace(path, "X", ""), "Y", "");
  }

  /** How a run of n forwards is stretched: `n * factor` (piet/path.py) or `5n + 2` (hilbertpiet/path.py). */
  datatype Stretching = ByFactor(factor: int) | FivePlusTwo

  /** The forwards emitted for a run of n: a single forward always stays single. */
  function Forwards(st: Stretching, n: nat): (r: string)
    ensures forall k :: 0 <= k < |r| ==> r[k] == 'F'
  {
    if n == 1 then "F"
    else match st
      case ByFactor(factor) => Repeat('F', n * factor)
      case FivePlusTwo => Repeat('F', 5 * n + 2)
  }

  /**
   * The stretched rest of a path when `run` forwards are pending: each character that is
   * not a forward flushes the pending run, and so does the end of the path. A `$` acts as
   * the end marker the loop appends: it flushes the run and is itself dropped.
   */
  function StretchRun(path: string, run: nat, st: Stretching): string
    decreases |path|
  {
    if path == [] then Forwards(st, run)
    else if path[0] == 'F' then StretchRun(path[1..], run + 1, st)
    else Forwards(st, run) + (if path[0] == '$' then "" else [path[0]]) + StretchRun(path[1..], 0, st)
  }

  function Stretched(path: string, st: Stretching): string {
    StretchRun(path, 0, st)
  }

  /** One turn of the loop keeps `acc + StretchRun(rest, run)` equal to the whole stretched path. */
  lemma StretchLoopStep(path: string, i: nat, run: nat, st: Stretching, acc: string, whole: string)
    requires i < |path|
    requires acc + StretchRun(path[i..], run, st) == whole
    ensures path[i] == 'F' ==> acc + StretchRun(path[i + 1..], run + 1, st) == whole
    ensures path[i] != 'F' ==>
      acc + (Forwards(st, run) + (if path[i] == '$' then "" else [path[i]])) + StretchRun(path[i + 1..], 0, st) == whole
  {
    assert path[i..][0] == path[i];
    assert path[i..][1..] == path[i + 1..];
  }

  /** The loop of `stretch_path` / `_stretch_path`, over the path followed by the end marker `$`. */
  method Stretch(path: string, st: Stretching) returns (stretched: string)
    ensures stretched == Stretched(path, st)
  {
    var marked := path + "$";
    var i := 0;
    stretched := "";
    var forwards: nat := 0;
    while i < |marked|
      invariant 0 <= i <= |marked| == |path| + 1
      invariant i <= |path| ==> stretched + StretchRun(path[i..], forwards, st) == Stretched(path, st)
      invariant i > |path| ==> stretched == Stretched(path, st)
    {
      var ch := marked[i];
      if i < |path| {
        assert path[i] == ch;
        StretchLoopStep(path, i, forwards, st, stretched, Stretched(path, st));
      } else {
        assert path[i..] == [];
      }
      if ch == 'F' {
        forwards := forwards + 1;
      } else {
        var c := if ch != '$' then [ch] else "";
        stretched := stretched + (Forwards(st, forwards) + c);
        forwards := 0;
      }
      i := i + 1;
    }
  }

  /** `stretch_path(path, factor)` */
  method StretchPath(path: string, factor: int) returns (stretched: string)
    ensures stretched == Stretched(path, ByFactor(factor))
  {
    stretched := Stretch(path, ByFactor(factor));
  }

  /** The characters of a path other than forwards and end markers, in order. */
  function Turns(path: string): string {
    if path == [] then []
    else (if path[0] == 'F' || path[0] == '$' then [] else [path[0]]) + Turns(path[1..])
  }

  lemma {:induction false} TurnsOfForwards(r: string)
    requires forall k :: 0 <= k < |r| ==> r[k] == 'F'
    ensures Turns(r) == []
    decreases |r|
  {
    if r != [] {
      TurnsOfForwards(r[1..]);
    }
  }

  lemma {:induction false} TurnsAppend(a: string, b: string)
    ensures Turns(a + b) == Turns(a) + Turns(b)
    decreases |a|
  {
    if a == [] {
      assert a + b == b;
    } else {
      assert (a + b)[0] == a[0];
      assert (a + b)[1..] == a[1..] + b;
      TurnsAppend(a[1..], b);
    }
  }

  /** Stretching keeps every character other than a forward, in order, whatever the stretching. */
  lemma {:induction false} StretchKeepsTurns(path: string, run: nat, st: Stretching)
    ensures Turns(StretchRun(path, run, st)) == Turns(path)
    decreases |path|
  {
    if path == [] {
      TurnsOfForwards(Forwards(st, run));
    } else if path[0] == 'F' {
      StretchKeepsTurns(path[1..], run + 1, st);
    } else {
      StretchKeepsTurns(path[1..], 0, st);
      TurnsOfForwards(Forwards(st, run));
      TurnsOfFlush(Forwards(st, run), if path[0] == '$' then "" else [path[0]], StretchRun(path[1..], 0, st));
      TurnsOfOne(path[0]);
      TurnsCons(path);
    }
  }

  /** A flushed run of forwards contributes nothing; the character that flushed it contributes itself. */
  lemma TurnsOfFlush(f: string, c: string, tail: string)
    requires Turns(f) == []
    ensures Turns(f + c + tail) == Turns(c) + Turns(tail)
  {
    TurnsAppend(f + c, tail);
    TurnsAppend(f, c);
  }

  /** A single character is a turn unless it is a forward or an end marker. */
  lemma TurnsOfOne(ch: char)
    ensures Turns([ch]) == Turns(if ch == '$' then "" else [ch])
  {
    assert [ch][1..] == [];
  }

  lemma TurnsCons(path: string)
    requires path != []
    ensures Turns(path) == Turns([path[0]]) + Turns(path[1..])
  {
    assert [path[0]][1..] == [];
  }

  /** Stretching a path of turtle instructions gives a path of turtle instructions. */
  lemma {:induction false} StretchKeepsInstructions(path: string, run: nat, st: Stretching)
    requires Instructions(path)
    ensures Instructions(StretchRun(path, run, st))
    decreases |path|
  {
    if path != [] {
      assert Instructions(path[1..]) by {
        forall k | 0 <= k < |path[1..]| ensures path[1..][k] in "F+-" {
          assert path[1..][k] == path[k + 1];
        }
      }
      if path[0] == 'F' {
        StretchKeepsInstructions(path[1..], run + 1, st);
      } else {
        StretchKeepsInstructions(path[1..], 0, st);
        var f := Forwards(st, run);
        var c := if path[0] == '$' then "" else [path[0]];
        var r := StretchRun(path, run, st);
        var tail := StretchRun(path[1..], 0, st);
        assert r == f + c + tail;
        forall k | 0 <= k < |r| ensures r[k] in "F+-" {
          if k < |f| {
            assert r[k] == f[k];
          } else if k < |f| + |c| {
            assert r[k] == path[0];
          } else {
            assert r[k] == tail[k - |f| - |c|];
          }
        }
      }
    }
  }

  /** With factor 1 stretching changes nothing (for a path without end markers). */
  lemma {:induction false} StretchByOne(path: string, run: nat)
    requires '$' !in path
    ensures StretchRun(path, run, ByFactor(1)) == Repeat('F', run) + path
    decreases |path|
  {
    ForwardsByOne(run);
    if path != [] {
      var rest := path[1..];
      assert path == [path[0]] + rest;
      assert '$' !in rest;
      if path[0] == 'F' {
        StretchByOne(rest, run + 1);
        RepeatSnoc(path[0], run);
      } else {
        StretchByOne(rest, 0);
      }
    }
  }

  /** With factor 1 a run of n forwards stays n forwards. */
  lemma ForwardsByOne(n: nat)
    ensures Forwards(ByFactor(1), n) == Repeat('F', n)
  {
  }

  lemma RepeatSnoc(x: char, n: nat)
    ensures Repeat(x, n + 1) == Repeat(x, n) + [x]
  {
    RepeatAdd(x, n, 1);
  }

  /** A run of n forwards followed by a turn becomes the stretched run followed by the turn. */
  lemma {:induction false} StretchOneRun(n: nat, c: char, rest: string, run: nat, st: Stretching)
    requires c != 'F' && c != '$'
    ensures StretchRun(Repeat('F', n) + [c] + rest, run, st) == Forwards(st, run + n) + [c] + StretchRun(rest, 0, st)
    decreases n
  {
    var p := Repeat('F', n) + [c] + rest;
    if n == 0 {
      assert p == [c] + rest;
    } else {
      assert p[0] == 'F';
      assert p[1..] == Repeat('F', n - 1) + [c] + rest;
      StretchOneRun(n - 1, c, rest, run + 1, st);
    }
  }

  /** piet/path.py: a single forward stays single; any other run n becomes n * factor forwards. */
  lemma StretchExamples()
    ensures Stretched("F+FF", ByFactor(3)) == "F+FFFFFF"
    ensures Stretched("+F", ByFactor(3)) == "+F"
  {
    assert StretchRun("", 2, ByFactor(3)) == "FFFFFF";
    assert StretchRun("F", 1, ByFactor(3)) == "FFFFFF";
    assert StretchRun("FF", 0, ByFactor(3)) == "FFFFFF";
    assert StretchRun("+FF", 1, ByFactor(3)) == "F+FFFFFF";
    assert StretchRun("", 1, ByFactor(3)) == "F";
    assert StretchRun("F", 0, ByFactor(3)) == "F";
    assert StretchRun("+F", 0, ByFactor(3)) == "+F";
  }
}
