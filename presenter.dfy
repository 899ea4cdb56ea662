/** The presentation helpers of a rendered chat message: the avatar's initials and
    its background colour. */
module Presenter {

  /** The two services of the Python runtime that the helpers depend on and whose
      internals are not modelled: title-casing one character (what `str.capitalize`
      does to a one-character string) and the built-in string `hash`, which is
      randomised per process but fixed within one. */
  datatype Runtime = Runtime(titleCase: char -> char, hash: string -> int)

  /** Python's slice `s[:n]` for n >= 0: never fails, clamps at the end of `s`. */
  function Prefix(s: string, n: nat): (r: string)
    ensures |r| == if n <= |s| then n else |s|
    ensures r <= s
  {
    if n <= |s| then s[..n] else s
  }

  /** The avatar's initials: the first character of the name, capitalised, and the
      empty string for an empty name. */
  function GetInitials(rt: Runtime, userName: string): (r: string)
    ensures |r| <= 1
    ensures r == "" <==> userName == ""
    ensures userName != "" ==> r == [rt.titleCase(userName[0])]
  {
    var first := Prefix(userName, 1);
    if first == "" then "" else [rt.titleCase(first[0])]
  }

  /** Python's `a // b`: division rounded towards minus infinity. */
  function PyFloorDiv(a: int, b: int): (q: int)
    requires b != 0
    ensures 0 < b ==> b * q <= a < b * q + b
    ensures b < 0 ==> b * q + b < a <= b * q
  {
    if b < 0 && a % b != 0 then a / b - 1 else a / b
  }

  /** Python's `a % b`: the remainder of floor division, so it takes the sign of
      the divisor and completes `a == b * (a // b) + a % b`. */
  function PyMod(a: int, b: int): (r: int)
    requires b != 0
    ensures 0 < b ==> 0 <= r < b
    ensures b < 0 ==> b < r <= 0
    ensures a == b * PyFloorDiv(a, b) + r
  {
    var e := a % b;
    if b < 0 && e != 0 then
      assert b * (a / b - 1) == b * (a / b) - b;
      e + b
    else
      e
  }

  /** The colours of the avatar palette, in lookup order. */
  datatype Color = Amber | Blue | Brown | Cyan | Green | Indigo | Lime | Orange | Pink | Purple | Red | Teal | Yellow

  const Palette: seq<Color> := [Amber, Blue, Brown, Cyan, Green, Indigo, Lime, Orange, Pink, Purple, Red, Teal, Yellow]

  /** The palette slot of a name: `hash(name) % len(palette)`. It is always a valid
      index, and it is the residue of the name's hash modulo the palette size. */
  function AvatarColorIndex(rt: Runtime, userName: string): (i: nat)
    ensures i < |Palette|
    ensures (rt.hash(userName) - i) % |Palette| == 0
  {
    PyMod(rt.hash(userName), |Palette|)
  }

  /** The avatar colour: the palette entry at the name's slot. The colour's own
      slot is that index, so the colour determines it. */
  function AvatarColor(rt: Runtime, userName: string): (c: Color)
    ensures PaletteSlot(c) == AvatarColorIndex(rt, userName)
  {
    var c := Palette[AvatarColorIndex(rt, userName)];
    PaletteDistinct(PaletteSlot(c), AvatarColorIndex(rt, userName));
    c
  }

  /** Position of a colour in the palette: the inverse of the lookup. */
  function PaletteSlot(c: Color): (i: nat)
    ensures i < |Palette| && Palette[i] == c
  {
    match c
    case Amber => 0
    case Blue => 1
    case Brown => 2
    case Cyan => 3
    case Green => 4
    case Indigo => 5
    case Lime => 6
    case Orange => 7
    case Pink => 8
    case Purple => 9
    case Red => 10
    case Teal => 11
    case Yellow => 12
  }

  /** The palette has no repeated colour, so a colour identifies its slot. */
  lemma PaletteDistinct(i: nat, j: nat)
    requires i < |Palette| && j < |Palette|
    ensures Palette[i] == Palette[j] <==> i == j
  {
  }

  /** The colour depends on the hash only: within one process (a fixed hash) the
      same name always gets the same colour, and two names share a colour exactly
      when their hashes are congruent modulo the palette size. */
  lemma SameColorIff(rt: Runtime, a: string, b: string)
    ensures AvatarColor(rt, a) == AvatarColor(rt, b) <==> (rt.hash(a) - rt.hash(b)) % |Palette| == 0
  {
    var i, j := AvatarColorIndex(rt, a), AvatarColorIndex(rt, b);
    PaletteDistinct(i, j);
    var p, q := PyFloorDiv(rt.hash(a), 13), PyFloorDiv(rt.hash(b), 13);
    assert rt.hash(a) == 13 * p + i && rt.hash(b) == 13 * q + j;
    assert rt.hash(a) - rt.hash(b) == 13 * (p - q) + (i - j);
    if i == j {
      assert (rt.hash(a) - rt.hash(b)) % 13 == 0;
    }
    if (rt.hash(a) - rt.hash(b)) % 13 == 0 {
      assert (i - j) % 13 == 0;
      assert i == j;
    }
  }

  /** Every palette colour is some name's colour under a suitable hash. */
  lemma EveryColorReachable(rt: Runtime, name: string, c: Color)
    requires rt.hash(name) == PaletteSlot(c)
    ensures AvatarColor(rt, name) == c
  {
  }
}
