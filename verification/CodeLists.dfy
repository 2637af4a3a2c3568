/** Instruction lists as values: label search and positions. */
module CodeLists {
  import opened Instructions

  function FirstLabel(code: seq<Ins>, i: nat, lab: int): (r: int)
    requires i <= |code|
    ensures r == -1 <==> forall j :: i <= j < |code| ==> !IsLabel(code[j], lab)
    ensures r != -1 ==> i <= r < |code| && IsLabel(code[r], lab)
    ensures r != -1 ==> forall j :: i <= j < r ==> !IsLabel(code[j], lab)
    decreases |code| - i
  {
    if i == |code| then -1
    else if IsLabel(code[i], lab) then i
    else FirstLabel(code, i + 1, lab)
  }

  function LastLabel(code: seq<Ins>, i: nat, lab: int): (r: int)
    requires i <= |code|
    ensures r == -1 <==> forall j :: 0 <= j < i ==> !IsLabel(code[j], lab)
    ensures r != -1 ==> 0 <= r < i && IsLabel(code[r], lab)
    ensures r != -1 ==> forall j :: r < j < i ==> !IsLabel(code[j], lab)
  {
    if i == 0 then -1
    else if IsLabel(code[i - 1], lab) then i - 1
    else LastLabel(code, i - 1, lab)
  }

  /** Where a jump at `from` to `label` goes: the nearest such label after it or, failing that,
      the nearest before it; -1 when there is none. */
  function Target(code: seq<Ins>, from: nat, lab: int): (r: int)
    requires from < |code|
    ensures r != -1 ==> 0 <= r < |code| && IsLabel(code[r], lab)
  {
    var f := FirstLabel(code, from + 1, lab);
    if f != -1 then f else LastLabel(code, from, lab)
  }

  /** No label counts but those of the same number, and among them the nearest one ahead or else the
      nearest one behind. */
  lemma TargetIsNearest(code: seq<Ins>, from: nat, lab: int)
    requires from < |code|
    ensures var t := Target(code, from, lab);
      && (t == -1 <==> forall j :: 0 <= j < |code| && j != from ==> !IsLabel(code[j], lab))
      && (t != -1 ==> 0 <= t < |code| && t != from && IsLabel(code[t], lab))
      && (t > from ==> forall j :: from < j < t ==> !IsLabel(code[j], lab))
      && (0 <= t < from ==> forall j :: t < j < |code| && j != from ==> !IsLabel(code[j], lab))
  {
    hide FirstLabel, LastLabel;
  }

  /** The position, in 32-bit words, of the instruction at `i`. */
  function Pos(code: seq<Ins>, i: nat): int
    requires i <= |code|
  {
    if i == 0 then 0 else Pos(code, i - 1) + code[i - 1].size
  }
}
