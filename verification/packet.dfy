/** Command packets.

    The rover takes two fixed-layout text packets, one for the six-wheel drive
    and one for the six-actuator arm:

      DriveCommand_leftWheel1_rightWheel1_leftWheel2_rightWheel2_leftWheel3_rightWheel3
      ArmCommand_upperExtender_lowerExtender_screwdriver_claw_hoist_swivel

    Each field is the decimal text of an integer command value, fields are
    separated by a single underscore and there is no trailing separator.
    Format builds a packet; Parse reads one back. */
module Packet {

  import opened Options

  datatype Command =
    | DriveCommand(leftWheel1: int, rightWheel1: int, leftWheel2: int,
                   rightWheel2: int, leftWheel3: int, rightWheel3: int)
    | ArmCommand(upperExtender: int, lowerExtender: int, screwdriver: int,
                 claw: int, hoist: int, swivel: int)

  const SEPARATOR: char := '_'
  const DRIVE_TAG: string := "DriveCommand"
  const ARM_TAG: string := "ArmCommand"

  function Tag(c: Command): string
  {
    match c
    case DriveCommand(_, _, _, _, _, _) => DRIVE_TAG
    case ArmCommand(_, _, _, _, _, _) => ARM_TAG
  }

  /** The six values of a command in wire order. */
  function Fields(c: Command): seq<int>
  {
    match c
    case DriveCommand(l1, r1, l2, r2, l3, r3) => [l1, r1, l2, r2, l3, r3]
    case ArmCommand(ue, le, sd, cl, ho, sw) => [ue, le, sd, cl, ho, sw]
  }

  /** Rebuilds a command from its tag and its six values in wire order. */
  function FromFields(tag: string, fs: seq<int>): Option<Command>
  {
    if |fs| != 6 then None
    else if tag == DRIVE_TAG then Some(DriveCommand(fs[0], fs[1], fs[2], fs[3], fs[4], fs[5]))
    else if tag == ARM_TAG then Some(ArmCommand(fs[0], fs[1], fs[2], fs[3], fs[4], fs[5]))
    else None
  }

  // ---------------------------------------------------------------------------
  // Decimal text of an integer

  predicate IsDigit(ch: char) { '0' <= ch <= '9' }

  predicate AllDigits(s: string) { forall i :: 0 <= i < |s| ==> IsDigit(s[i]) }

  function DigitChar(d: nat): (ch: char)
    requires d < 10
    ensures IsDigit(ch)
  {
    (48 + d) as char
  }

  function DigitValue(ch: char): nat
    requires IsDigit(ch)
  {
    ch as int - 48
  }

  /** Decimal digits of `n`, most significant first, without leading zeros. */
  function NatToDecimal(n: nat): (s: string)
    ensures |s| > 0 && AllDigits(s)
    ensures |s| > 1 ==> s[0] != '0'
    decreases n
  {
    if n < 10 then [DigitChar(n)] else NatToDecimal(n / 10) + [DigitChar(n % 10)]
  }

  /** Decimal text of an integer: a minus sign before the digits of a
      negative value. */
  function IntToDecimal(n: int): (s: string)
    ensures |s| > 0 && SEPARATOR !in s
  {
    if n < 0 then "-" + NatToDecimal(-n) else NatToDecimal(n)
  }

  /** Value of a string of digits. */
  function DigitsValue(s: string): nat
    requires AllDigits(s)
  {
    if s == [] then 0 else DigitsValue(s[..|s| - 1]) * 10 + DigitValue(s[|s| - 1])
  }

  /** Reads the decimal text of an integer, if `s` is one. */
  function ParseDecimal(s: string): Option<int>
  {
    if |s| > 0 && AllDigits(s) then Some(DigitsValue(s))
    else if |s| > 1 && s[0] == '-' && AllDigits(s[1..]) then Some(-(DigitsValue(s[1..]) as int))
    else None
  }

  lemma {:induction false} DigitsValueOfDecimal(n: nat)
    ensures DigitsValue(NatToDecimal(n)) == n
    decreases n
  {
    if n >= 10 {
      var s := NatToDecimal(n);
      assert s[..|s| - 1] == NatToDecimal(n / 10);
      DigitsValueOfDecimal(n / 10);
    }
  }

  /** Reading back the decimal text of any integer gives the integer. */
  lemma DecimalRoundTrip(n: int)
    ensures ParseDecimal(IntToDecimal(n)) == Some(n)
  {
    if n < 0 {
      var s := IntToDecimal(n);
      assert !IsDigit(s[0]);
      assert s[1..] == NatToDecimal(-n);
      DigitsValueOfDecimal(-n);
    } else {
      DigitsValueOfDecimal(n);
    }
  }

  // ---------------------------------------------------------------------------
  // Joining and splitting on the separator

  /** `parts` joined with single separators and no trailing separator. */
  function Join(parts: seq<string>): string
    requires |parts| > 0
  {
    if |parts| == 1 then parts[0] else parts[0] + [SEPARATOR] + Join(parts[1..])
  }

  /** The pieces of `s` between separators, as Python's `str.split('_')`
      returns them. */
  function Split(s: string): (parts: seq<string>)
    ensures |parts| > 0
  {
    if s == [] then [""]
    else if s[0] == SEPARATOR then [""] + Split(s[1..])
    else var rest := Split(s[1..]); [[s[0]] + rest[0]] + rest[1..]
  }

  lemma {:induction false} SplitPrefix(a: string, rest: string)
    requires SEPARATOR !in a
    ensures Split(a + rest) == [a + Split(rest)[0]] + Split(rest)[1..]
  {
    if a != [] {
      assert (a + rest)[0] == a[0];
      assert (a + rest)[1..] == a[1..] + rest;
      SplitPrefix(a[1..], rest);
      assert [a[0]] + (a[1..] + Split(rest)[0]) == a + Split(rest)[0];
    } else {
      var r := Split(rest);
      assert a + rest == rest;
      assert a + r[0] == r[0];
      assert [r[0]] + r[1..] == r;
    }
  }

  /** Splitting a join of separator-free parts gives the parts back. */
  lemma {:induction false} SplitJoin(parts: seq<string>)
    requires |parts| > 0
    requires forall i :: 0 <= i < |parts| ==> SEPARATOR !in parts[i]
    ensures Split(Join(parts)) == parts
  {
    if |parts| == 1 {
      SplitPrefix(parts[0], "");
      assert parts[0] + "" == parts[0];
    } else {
      var tail := Join(parts[1..]);
      assert Join(parts) == parts[0] + ([SEPARATOR] + tail);
      SplitPrefix(parts[0], [SEPARATOR] + tail);
      assert ([SEPARATOR] + tail)[1..] == tail;
      SplitJoin(parts[1..]);
      assert parts[0] + "" == parts[0];
    }
  }

  // ---------------------------------------------------------------------------
  // Packets

  /** Decimal texts of a list of values, in order. */
  function Decimals(fs: seq<int>): (ts: seq<string>)
    ensures |ts| == |fs|
    ensures forall i :: 0 <= i < |fs| ==> ts[i] == IntToDecimal(fs[i])
  {
    if fs == [] then [] else [IntToDecimal(fs[0])] + Decimals(fs[1..])
  }

  /** Values of a list of decimal texts, if every one is one. */
  function ParseDecimals(ts: seq<string>): Option<seq<int>>
  {
    if ts == [] then Some([])
    else match (ParseDecimal(ts[0]), ParseDecimals(ts[1..]))
      case (Some(v), Some(vs)) => Some([v] + vs)
      case _ => None
  }

  lemma {:induction false} ParseDecimalsRoundTrip(fs: seq<int>)
    ensures ParseDecimals(Decimals(fs)) == Some(fs)
  {
    if fs != [] {
      var ts := Decimals(fs);
      assert ts[1..] == Decimals(fs[1..]);
      DecimalRoundTrip(fs[0]);
      ParseDecimalsRoundTrip(fs[1..]);
      assert [fs[0]] + fs[1..] == fs;
    }
  }

  /** The packet text of a command. */
  function Format(c: Command): string
  {
    Join([Tag(c)] + Decimals(Fields(c)))
  }

  /** Reads a packet: a known tag and exactly six decimal fields. */
  function Parse(s: string): Option<Command>
  {
    var parts := Split(s);
    if |parts| != 7 then None
    else match ParseDecimals(parts[1..])
      case None => None
      case Some(fs) => FromFields(parts[0], fs)
  }

  /** Splitting a packet gives back the pieces it was joined from. */
  lemma SplitFormat(c: Command)
    ensures Split(Format(c)) == [Tag(c)] + Decimals(Fields(c))
  {
    var parts := [Tag(c)] + Decimals(Fields(c));
    assert SEPARATOR !in Tag(c);
    assert forall i :: 0 < i < |parts| ==> parts[i] == IntToDecimal(Fields(c)[i - 1]);
    SplitJoin(parts);
  }

  /** The packet grammar: splitting a packet on the separator gives its tag
      and then its six fields as decimal text, in the documented order. */
  lemma FormatGrammar(c: Command)
    ensures c.DriveCommand? ==>
              Split(Format(c)) ==
                [DRIVE_TAG, IntToDecimal(c.leftWheel1), IntToDecimal(c.rightWheel1),
                 IntToDecimal(c.leftWheel2), IntToDecimal(c.rightWheel2),
                 IntToDecimal(c.leftWheel3), IntToDecimal(c.rightWheel3)]
    ensures c.ArmCommand? ==>
              Split(Format(c)) ==
                [ARM_TAG, IntToDecimal(c.upperExtender), IntToDecimal(c.lowerExtender),
                 IntToDecimal(c.screwdriver), IntToDecimal(c.claw),
                 IntToDecimal(c.hoist), IntToDecimal(c.swivel)]
  {
    SplitFormat(c);
    var fs := Fields(c);
    var expected := [Tag(c), IntToDecimal(fs[0]), IntToDecimal(fs[1]), IntToDecimal(fs[2]),
                     IntToDecimal(fs[3]), IntToDecimal(fs[4]), IntToDecimal(fs[5])];
    assert Split(Format(c)) == expected by {
      var parts := [Tag(c)] + Decimals(fs);
      assert |parts| == |expected|;
      forall i | 0 <= i < |parts| ensures parts[i] == expected[i] {
      }
    }
  }

  /** A packet starts with its tag and one separator and does not end with
      a separator. */
  lemma FormatShape(c: Command)
    ensures var p := Format(c);
      |p| > |Tag(c)| + 1 && p[..|Tag(c)| + 1] == Tag(c) + [SEPARATOR] &&
      p[|p| - 1] != SEPARATOR
  {
    var ds := Decimals(Fields(c));
    var parts := [Tag(c)] + ds;
    assert parts[1..] == ds;
    var p := Format(c);
    assert p == Tag(c) + [SEPARATOR] + Join(ds);
    JoinLastChar(ds);
  }

  lemma {:induction false} JoinLastChar(parts: seq<string>)
    requires |parts| > 0 && |parts[|parts| - 1]| > 0
    ensures |Join(parts)| > 0
    ensures Join(parts)[|Join(parts)| - 1] == parts[|parts| - 1][|parts[|parts| - 1]| - 1]
  {
    if |parts| > 1 {
      assert parts[1..][|parts[1..]| - 1] == parts[|parts| - 1];
      JoinLastChar(parts[1..]);
    }
  }

  /** Reading a formatted packet gives the command back. */
  lemma FormatParseRoundTrip(c: Command)
    ensures Parse(Format(c)) == Some(c)
  {
    SplitFormat(c);
    var parts := Split(Format(c));
    assert parts[1..] == Decimals(Fields(c));
    ParseDecimalsRoundTrip(Fields(c));
  }

  /** Different commands never share a packet text. */
  lemma FormatInjective(c1: Command, c2: Command)
    requires Format(c1) == Format(c2)
    ensures c1 == c2
  {
    FormatParseRoundTrip(c1);
    FormatParseRoundTrip(c2);
  }
}
