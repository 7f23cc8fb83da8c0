/** Input labelling.

    The script names each axis and each button it renders with a fixed label
    table.  Axes are read for every index the device reports, so the axis table
    bounds the devices the script can handle; buttons are read for a fixed
    number of indices whatever the device reports. */
module Labels {

  import opened Options

  /** How many buttons the script reads from every controller. */
  const ACTUAL_BUTTONS_IN_USE: nat := 10

  const ButtonMap: seq<string> := ["A", "B", "X", "Y", "LB", "RB", "BACK", "START", "LS", "RS"]

  const AxisMap: seq<string> :=
    ["LS Left-Right", "LS Up-Down", "RS Left-Right", "RS Up-Down", "LT", "RT"]

  /** One rendered input: its label and the value the device reported. */
  datatype Reading<T> = Reading(name: string, value: T)

  /** `readings` names the reported axis values positionally with AxisMap. */
  ghost predicate LabelsAxes<T>(axes: seq<T>, readings: seq<Reading<T>>)
  {
    |readings| == |axes| &&
    forall i :: 0 <= i < |axes| ==> i < |AxisMap| && readings[i] == Reading(AxisMap[i], axes[i])
  }

  /** `readings` holds the first ACTUAL_BUTTONS_IN_USE buttons, as `getButton`
      reports them, named positionally with ButtonMap. */
  ghost predicate LabelsButtons(getButton: nat -> bool, readings: seq<Reading<bool>>)
  {
    |readings| == ACTUAL_BUTTONS_IN_USE &&
    forall i :: 0 <= i < ACTUAL_BUTTONS_IN_USE ==>
      i < |ButtonMap| && readings[i] == Reading(ButtonMap[i], getButton(i))
  }

  /** The smaller of two counts. */
  function Min(a: nat, b: nat): (m: nat)
    ensures m <= a && m <= b && (m == a || m == b)
  {
    if a <= b then a else b
  }

  /** The axis loop: label `axes[i]` with `AxisMap[i]` for every reported index.
      The loop indexes AxisMap with the device's own axis indices, so on a
      device with more than |AxisMap| axes it stops with an index error once
      the first |AxisMap| axes are rendered; `ok` is false exactly then. */
  method LabelAxes<T>(axes: seq<T>) returns (readings: seq<Reading<T>>, ok: bool)
    ensures ok <==> |axes| <= |AxisMap|
    ensures LabelsAxes(axes[..Min(|axes|, |AxisMap|)], readings)
  {
    readings := [];
    ok := true;
    var i := 0;
    while i < |axes|
      invariant 0 <= i <= |axes| && i <= |AxisMap|
      invariant |readings| == i
      invariant forall k :: 0 <= k < i ==> readings[k] == Reading(AxisMap[k], axes[k])
    {
      if i >= |AxisMap| {
        ok := false;
        return;
      }
      readings := readings + [Reading(AxisMap[i], axes[i])];
      i := i + 1;
    }
  }

  /** The button loop: read indices 0 .. ACTUAL_BUTTONS_IN_USE - 1, however
      many buttons the device reports, and label each with ButtonMap. */
  method LabelButtons(getButton: nat -> bool) returns (readings: seq<Reading<bool>>)
    ensures LabelsButtons(getButton, readings)
  {
    readings := [];
    var i := 0;
    while i < ACTUAL_BUTTONS_IN_USE
      invariant 0 <= i <= ACTUAL_BUTTONS_IN_USE
      invariant |readings| == i
      invariant forall k :: 0 <= k < i ==> readings[k] == Reading(ButtonMap[k], getButton(k))
    {
      readings := readings + [Reading(ButtonMap[i], getButton(i))];
      i := i + 1;
    }
  }

  /** Index of a button label in ButtonMap, if it is one. */
  function ButtonIndex(name: string): (r: Option<nat>)
  {
    IndexOf(ButtonMap, name)
  }

  /** Index of an axis label in AxisMap, if it is one. */
  function AxisIndex(name: string): (r: Option<nat>)
  {
    IndexOf(AxisMap, name)
  }

  /** First position of `x` in `s`. */
  function IndexOf(s: seq<string>, x: string): (r: Option<nat>)
    ensures r.Some? ==> r.value < |s| && s[r.value] == x
    ensures r.None? <==> x !in s
  {
    if s == [] then None
    else if s[0] == x then Some(0)
    else match IndexOf(s[1..], x)
      case None => None
      case Some(k) => Some(k + 1)
  }

  /** No label is used twice, so a label names one input. */
  predicate Distinct(s: seq<string>)
  {
    forall i, j :: 0 <= i < j < |s| ==> s[i] != s[j]
  }

  lemma {:induction false} IndexOfDistinct(s: seq<string>, i: nat)
    requires Distinct(s) && i < |s|
    ensures IndexOf(s, s[i]) == Some(i)
  {
    if i > 0 {
      assert Distinct(s[1..]);
      assert s[1..][i - 1] == s[i];
      IndexOfDistinct(s[1..], i - 1);
    }
  }

  /** A rendered button label identifies the button index it was read from. */
  lemma ButtonLabelsIdentifyIndex(i: nat)
    requires i < ACTUAL_BUTTONS_IN_USE
    ensures ButtonIndex(ButtonMap[i]) == Some(i)
  {
    assert Distinct(ButtonMap);
    IndexOfDistinct(ButtonMap, i);
  }

  /** A rendered axis label identifies the axis index it was read from. */
  lemma AxisLabelsIdentifyIndex(i: nat)
    requires i < |AxisMap|
    ensures AxisIndex(AxisMap[i]) == Some(i)
  {
    assert Distinct(AxisMap);
    IndexOfDistinct(AxisMap, i);
  }
}
