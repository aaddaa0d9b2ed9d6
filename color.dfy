/**
 * Codel colours (piet/color.py): one of the six Piet hues in one of three lightness
 * levels, with human-readable names and `#RRGGBB` codes.
 */
module Colors {
  import opened Outcomes
  import opened Text

  /** 0 red, 1 yellow, 2 green, 3 cyan, 4 blue, 5 magenta. */
  type Hue = h: int | 0 <= h < 6

  /** 0 light, 1 normal, 2 dark. */
  type Lightness = l: int | 0 <= l < 3

  /** A colour as the constructor leaves it: both fields already reduced. */
  datatype Color = Color(hue: Hue, lightness: Lightness)

  const HueNames: seq<string> := ["red", "yellow", "green", "cyan", "blue", "magenta"]
  const HueCodes: seq<string> := ["#FF0000", "#FFFF00", "#00FF00", "#00FFFF", "#0000FF", "#FF00FF"]

  /**
   * `Color(hue, lightness)`: the hue is taken modulo 6 and the lightness modulo 3. Python's
   * `%` by a positive divisor is never negative, and neither is Dafny's.
   */
  function MakeColor(hue: int, lightness: int): (c: Color)
    ensures (c.hue - hue) % 6 == 0 && (c.lightness - lightness) % 3 == 0
  {
    Color(hue % 6, lightness % 3)
  }

  /** Shifting the hue by a multiple of 6 or the lightness by a multiple of 3 gives the same colour. */
  lemma MakeColorPeriodic(hue: int, lightness: int, a: int, b: int)
    ensures MakeColor(hue + 6 * a, lightness + 3 * b) == MakeColor(hue, lightness)
  {
  }

  /** A colour that is already reduced is its own normal form. */
  lemma MakeColorOfColor(c: Color)
    ensures MakeColor(c.hue, c.lightness) == c
  {
  }

  /** `list.index(x)`: the first position holding x, or None where Python raises ValueError. */
  function IndexOf(xs: seq<string>, x: string): (r: Option<nat>)
    ensures r.Some? ==> r.value < |xs| && xs[r.value] == x && forall i :: 0 <= i < r.value ==> xs[i] != x
    ensures r.None? ==> forall i :: 0 <= i < |xs| ==> xs[i] != x
  {
    if xs == [] then None
    else if xs[0] == x then Some(0)
    else match IndexOf(xs[1..], x)
      case None => None
      case Some(i) => Some(i + 1)
  }

  /** The lightness a name's prefix selects, and what is left for the hue name. */
  function Prefixed(name: string): (Lightness, string) {
    if StartsWith(name, "light") then (0, name[5..])
    else if StartsWith(name, "dark") then (2, name[4..])
    else (1, name)
  }

  /** `Color.from_name(name)`: a prefix 'light' or 'dark' sets the lightness, the rest must be a hue. */
  function FromName(name: string): Result<Color> {
    var (lightness, hueName) := Prefixed(name);
    match IndexOf(HueNames, hueName)
    case None => Err(InvalidColorName)
    case Some(h) => Ok(MakeColor(h, lightness))
  }

  /** `str(color)`: the hue's name, with 'light' or 'dark' in front unless the lightness is normal. */
  function Name(c: Color): string {
    var hueName := HueNames[c.hue];
    if c.lightness == 0 then "light" + hueName
    else if c.lightness == 1 then hueName
    else "dark" + hueName
  }

  /** Every one of the eighteen names: the lightness prefix followed by a hue name. */
  predicate IsColorName(s: string) {
    exists h: Hue, l: Lightness :: s == Name(Color(h, l))
  }

  /** The six hue names begin with six different letters, none of them the 'l' of light or the 'd' of dark. */
  lemma HueNameInitials(h: Hue)
    ensures |HueNames[h]| > 0 && HueNames[h][0] != 'l' && HueNames[h][0] != 'd'
    ensures forall g: Hue :: HueNames[g][0] == HueNames[h][0] ==> g == h
  {
  }

  /** A string that differs from a prefix in its first character does not start with it. */
  lemma NotStartsWith(s: string, prefix: string)
    requires |s| > 0 && |prefix| > 0 && s[0] != prefix[0]
    ensures !StartsWith(s, prefix)
  {
    if |prefix| <= |s| {
      assert s[..|prefix|][0] == s[0];
    }
  }

  /** In a list whose entries are distinct, the first position holding an entry is its only one. */
  lemma {:induction false} IndexOfDistinct(xs: seq<string>, i: nat)
    requires i < |xs| && forall j :: 0 <= j < |xs| && xs[j] == xs[i] ==> j == i
    ensures IndexOf(xs, xs[i]) == Some(i)
  {
    var r := IndexOf(xs, xs[i]);
    assert r.Some?;
  }

  /** The name of a colour splits into its lightness and its hue's name. */
  lemma PrefixedName(c: Color)
    ensures Prefixed(Name(c)) == (c.lightness, HueNames[c.hue])
  {
    var hueName := HueNames[c.hue];
    HueNameInitials(c.hue);
    var s := Name(c);
    if c.lightness == 0 {
      assert StartsWith(s, "light") && s[5..] == hueName;
    } else if c.lightness == 1 {
      NotStartsWith(s, "light");
      NotStartsWith(s, "dark");
    } else {
      assert s[0] == 'd';
      NotStartsWith(s, "light");
      assert StartsWith(s, "dark") && s[4..] == hueName;
    }
  }

  /** Reading back the name of a colour gives the colour. */
  lemma FromNameOfName(c: Color)
    ensures FromName(Name(c)) == Ok(c)
  {
    PrefixedName(c);
    HueNamesDistinct(c.hue);
    IndexOfDistinct(HueNames, c.hue);
    MakeColorOfColor(c);
  }

  /** No two hues share a name. */
  lemma HueNamesDistinct(h: Hue)
    ensures forall j :: 0 <= j < |HueNames| && HueNames[j] == HueNames[h] ==> j == h
  {
    HueNameInitials(h);
  }

  /** A name that is accepted is the name of the colour it gives, so names and colours are in bijection. */
  lemma NameOfFromName(s: string)
    requires FromName(s).Ok?
    ensures Name(FromName(s).value) == s
  {
    var (l, hueName) := Prefixed(s);
    var h := IndexOf(HueNames, hueName).value;
    assert FromName(s).value == Color(h, l);
    if StartsWith(s, "light") {
      assert s == "light" + s[5..];
    } else if StartsWith(s, "dark") {
      assert s == "dark" + s[4..];
    }
  }

  /** `from_name` raises ValueError exactly on strings that are not one of the eighteen names. */
  lemma FromNameFails(s: string)
    ensures FromName(s).Err? <==> !IsColorName(s)
    ensures FromName(s).Err? ==> FromName(s).error == InvalidColorName
  {
    if FromName(s).Ok? {
      NameOfFromName(s);
      var c := FromName(s).value;
      assert s == Name(Color(c.hue, c.lightness));
    } else if IsColorName(s) {
      var h: Hue, l: Lightness :| s == Name(Color(h, l));
      FromNameOfName(Color(h, l));
      assert false;
    }
  }

  /** `color.code`: the hue's code with '00' brightened or 'FF' darkened to 'C0' by `str.replace`. */
  function Code(c: Color): string {
    var hueCode := HueCodes[c.hue];
    if c.lightness == 0 then Replace(hueCode, "00", "C0")
    else if c.lightness == 1 then hueCode
    else Replace(hueCode, "FF", "C0")
  }

  /** Two hex digits for a channel: full or off. */
  function Pair(on: bool): string {
    if on then "FF" else "00"
  }

  /** One channel of a colour: full or off in the hue, then lightened or darkened. */
  function Channel(on: bool, lightness: Lightness): string {
    if lightness == 0 then (if on then "FF" else "C0")
    else if lightness == 1 then Pair(on)
    else (if on then "C0" else "00")
  }

  /** Which of red, green and blue are full in a hue: the six hues step around the colour wheel. */
  function RedOn(h: Hue): bool { h == 0 || h == 1 || h == 5 }
  function GreenOn(h: Hue): bool { h == 1 || h == 2 || h == 3 }
  function BlueOn(h: Hue): bool { h == 3 || h == 4 || h == 5 }

  /** The Piet colour table, channel by channel: light raises an off channel to C0, dark lowers a full one to C0. */
  function TableCode(c: Color): (s: string)
    ensures |s| == 7 && s[0] == '#'
  {
    "#" + Channel(RedOn(c.hue), c.lightness) + Channel(GreenOn(c.hue), c.lightness)
        + Channel(BlueOn(c.hue), c.lightness)
  }

  /** What replacing a pattern does to one channel. */
  function Swapped(block: string, pat: string, rep: string): string {
    if block == pat then rep else block
  }

  /** Replacing in a code whose channels are each full or off works channel by channel. */
  lemma ReplaceChannels(r: bool, g: bool, b: bool, p: bool, rep: string)
    ensures Replace("#" + Pair(r) + Pair(g) + Pair(b), Pair(p), rep)
      == "#" + Swapped(Pair(r), Pair(p), rep) + Swapped(Pair(g), Pair(p), rep) + Swapped(Pair(b), Pair(p), rep)
  {
    var last := Pair(b) + "";
    var tail := Pair(g) + last;
    var rest := Pair(r) + tail;
    assert "#" + Pair(r) + Pair(g) + Pair(b) == "#" + rest;
    ReplaceHash(rest, p, rep);
    ReplaceBlock(r, tail, p, rep);
    ReplaceBlock(g, last, p, rep);
    ReplaceBlock(b, "", p, rep);
    var sr, sg, sb := Swapped(Pair(r), Pair(p), rep), Swapped(Pair(g), Pair(p), rep), Swapped(Pair(b), Pair(p), rep);
    assert Replace("", Pair(p), rep) == "";
    assert Replace(last, Pair(p), rep) == sb + "";
    Regroup("#", sr, sg, sb);
  }

  lemma Regroup(h: string, a: string, b: string, c: string)
    ensures h + (a + (b + (c + ""))) == h + a + b + c
  {
    assert c + "" == c;
  }

  /** The '#' in front of a code is never part of a channel pattern. */
  lemma ReplaceHash(rest: string, p: bool, rep: string)
    ensures Replace("#" + rest, Pair(p), rep) == "#" + Replace(rest, Pair(p), rep)
  {
    var s := "#" + rest;
    if |s| >= 2 {
      assert s[..2][0] == '#';
      assert s[1..] == rest;
    }
  }

  /** Replacing at the head of a string that starts with a full or off channel. */
  lemma ReplaceBlock(on: bool, rest: string, p: bool, rep: string)
    ensures Replace(Pair(on) + rest, Pair(p), rep) == Swapped(Pair(on), Pair(p), rep) + Replace(rest, Pair(p), rep)
  {
    var s := Pair(on) + rest;
    assert s[..2] == Pair(on);
    if on != p {
      assert s[1..] == [s[0]] + rest;
      if |rest| > 0 {
        assert s[1..][..2][0] != Pair(p)[0];
        assert s[1..][1..] == rest;
      }
    } else {
      assert s[2..] == rest;
    }
  }

  /** Every hue code is '#' followed by three channels, each full or off. */
  lemma HueCodeChannels(h: Hue)
    ensures HueCodes[h] == "#" + Pair(RedOn(h)) + Pair(GreenOn(h)) + Pair(BlueOn(h))
  {
  }

  /** `code` gives the colour of the Piet table for each of the eighteen colours. */
  lemma CodeIsTable(c: Color)
    ensures Code(c) == TableCode(c)
  {
    var r, g, b := RedOn(c.hue), GreenOn(c.hue), BlueOn(c.hue);
    HueCodeChannels(c.hue);
    if c.lightness == 0 {
      ReplaceChannels(r, g, b, false, "C0");
    } else if c.lightness == 2 {
      ReplaceChannels(r, g, b, true, "C0");
    }
  }

  /** Two rows of the colour table: 'lightred' is #FFC0C0 and 'darkcyan' is #00C0C0. */
  lemma TableExamples()
    ensures TableCode(Color(0, 0)) == "#FFC0C0" && TableCode(Color(3, 2)) == "#00C0C0"
  {
  }
}
