/** D-pad decoding.

    A hat (D-pad) reports its position as a pair (x, y) whose components the
    input library keeps in {-1, 0, 1}.  The controller script turns each
    component, independently of the other, into a direction label and writes
    the two labels into a two-slot module list, `dPadMap`, whose slot 0 is the
    horizontal label and slot 1 the vertical label. */
module DPad {

  import opened Options

  /** A hat position: x is left/right, y is down/up. */
  datatype Hat = Hat(x: int, y: int)

  /** What the script renders for one hat: the raw position and both labels. */
  datatype HatReading = HatReading(hat: Hat, horizontal: string, vertical: string)

  /** The contents `dPadMap` holds when the script starts. */
  const INITIAL_DPAD_MAP: seq<string> := ["right", "down"]

  /** A hat component as the input library reports it. */
  predicate IsHatValue(v: int) { -1 <= v <= 1 }

  predicate ValidHat(h: Hat) { IsHatValue(h.x) && IsHatValue(h.y) }

  /** Horizontal label of a hat's x component. */
  function Horizontal(x: int): (dir: string)
    ensures dir == "right" <==> x == 1
    ensures dir == "left" <==> x == -1
    ensures dir == "" <==> x != 1 && x != -1
  {
    if x == 1 then "right" else if x == -1 then "left" else ""
  }

  /** Vertical label of a hat's y component. */
  function Vertical(y: int): (dir: string)
    ensures dir == "up" <==> y == 1
    ensures dir == "down" <==> y == -1
    ensures dir == "" <==> y != 1 && y != -1
  {
    if y == 1 then "up" else if y == -1 then "down" else ""
  }

  /** The two-slot `dPadMap` contents that one hat produces. */
  function Decode(h: Hat): (labels: seq<string>)
    ensures |labels| == 2
    ensures labels[0] in {"right", "left", ""} && labels[1] in {"up", "down", ""}
  {
    [Horizontal(h.x), Vertical(h.y)]
  }

  /** Inverse of Horizontal on the labels it can produce. */
  function HorizontalValue(dir: string): Option<int>
  {
    if dir == "right" then Some(1)
    else if dir == "left" then Some(-1)
    else if dir == "" then Some(0)
    else None
  }

  /** Inverse of Vertical on the labels it can produce. */
  function VerticalValue(dir: string): Option<int>
  {
    if dir == "up" then Some(1)
    else if dir == "down" then Some(-1)
    else if dir == "" then Some(0)
    else None
  }

  /** Recovers the hat position from a `dPadMap` content, if it is one. */
  function Encode(labels: seq<string>): Option<Hat>
  {
    if |labels| != 2 then None
    else match (HorizontalValue(labels[0]), VerticalValue(labels[1]))
      case (Some(x), Some(y)) => Some(Hat(x, y))
      case _ => None
  }

  /** On the positions the library reports, the labels lose nothing:
      decoding and re-encoding gives the hat back. */
  lemma DecodeRoundTrip(h: Hat)
    requires ValidHat(h)
    ensures Encode(Decode(h)) == Some(h)
  {
  }

  /** Every content Encode accepts is the decode of the hat it returns. */
  lemma EncodeRoundTrip(labels: seq<string>)
    requires Encode(labels).Some?
    ensures ValidHat(Encode(labels).value)
    ensures Decode(Encode(labels).value) == labels
  {
  }

  /** Two reported positions with the same labels are the same position. */
  lemma DecodeInjective(h1: Hat, h2: Hat)
    requires ValidHat(h1) && ValidHat(h2)
    requires Decode(h1) == Decode(h2)
    ensures h1 == h2
  {
    DecodeRoundTrip(h1);
    DecodeRoundTrip(h2);
  }

  /** The horizontal label depends only on x and the vertical one only on y. */
  lemma ComponentsIndependent(h1: Hat, h2: Hat)
    ensures h1.x == h2.x ==> Decode(h1)[0] == Decode(h2)[0]
    ensures h1.y == h2.y ==> Decode(h1)[1] == Decode(h2)[1]
  {
  }

  /** The `dPadMap` content after the hat loop has run over `hats`, starting
      from `prev`: the decode of the last hat, or `prev` when there is none. */
  function AfterHats(prev: seq<string>, hats: seq<Hat>): seq<string>
  {
    if hats == [] then prev else Decode(hats[|hats| - 1])
  }

  /** Running the hat loop over two lists in turn is running it over their
      concatenation. */
  lemma AfterHatsAppend(prev: seq<string>, hats1: seq<Hat>, hats2: seq<Hat>)
    ensures AfterHats(AfterHats(prev, hats1), hats2) == AfterHats(prev, hats1 + hats2)
  {
    if hats2 != [] {
      assert (hats1 + hats2)[|hats1 + hats2| - 1] == hats2[|hats2| - 1];
    }
  }

  /** `readings` is what the hat loop renders for `hats`, one entry per hat. */
  ghost predicate RendersHats(hats: seq<Hat>, readings: seq<HatReading>)
  {
    |readings| == |hats| &&
    forall i :: 0 <= i < |hats| ==>
      readings[i] == HatReading(hats[i], Horizontal(hats[i].x), Vertical(hats[i].y))
  }

  /** The hat loop: decodes every hat in turn into the two slots of `dPadMap`
      and renders the position with the freshly written labels. */
  method DecodeHats(dPadMap: array<string>, hats: seq<Hat>) returns (readings: seq<HatReading>)
    requires dPadMap.Length == 2
    modifies dPadMap
    ensures dPadMap[..] == AfterHats(old(dPadMap[..]), hats)
    ensures RendersHats(hats, readings)
  {
    readings := [];
    var i := 0;
    while i < |hats|
      invariant 0 <= i <= |hats|
      invariant dPadMap[..] == AfterHats(old(dPadMap[..]), hats[..i])
      invariant RendersHats(hats[..i], readings)
    {
      var hat := hats[i];
      if hat.x == 1 { dPadMap[0] := "right"; }
      else if hat.x == -1 { dPadMap[0] := "left"; }
      else { dPadMap[0] := ""; }
      if hat.y == 1 { dPadMap[1] := "up"; }
      else if hat.y == -1 { dPadMap[1] := "down"; }
      else { dPadMap[1] := ""; }
      readings := readings + [HatReading(hat, dPadMap[0], dPadMap[1])];
      assert hats[..i + 1][i] == hat;
      i := i + 1;
    }
    assert hats[..i] == hats;
  }
}
