/**
 * The choice buttons of the dialogue UI: a fixed number of slots, each
 * active or not and each showing a label. DialogueManager.DisplayChoices
 * fills the first slots with the current choices and hides the rest.
 */
module ChoiceSlots {

  /** The state of the slots: whether each button is active, and the text of its label. */
  datatype Slots = Slots(active: seq<bool>, labels: seq<string>)

  /** More choices than there are slots: DisplayChoices indexes past the last slot. */
  predicate Overflows(current: seq<string>, s: Slots)
  {
    |current| > |s.active|
  }

  /**
   * The slots after DisplayChoices with the given choice texts. Slot i below
   * the number of choices is active and shows choice i; every later slot is
   * inactive and keeps its label. On an overflow every slot has been filled
   * before the out-of-range access, and the hiding loop never runs.
   */
  function ShowChoices(current: seq<string>, s: Slots): (r: Slots)
    requires |s.active| == |s.labels|
    ensures |r.active| == |s.active| && |r.labels| == |s.labels|
    ensures forall i :: 0 <= i < |r.active| && i < |current| ==> r.active[i] && r.labels[i] == current[i]
    ensures forall i :: |current| <= i < |r.active| ==> !r.active[i] && r.labels[i] == s.labels[i]
  {
    var n := |s.active|;
    var k := if Overflows(current, s) then n else |current|;
    Slots(Flags(k, n), current[..k] + s.labels[k..])
  }

  /** n flags, the first on of them set. */
  function Flags(on: nat, n: nat): (r: seq<bool>)
    ensures |r| == n
    ensures forall i :: 0 <= i < n ==> r[i] == (i < on)
  {
    if n == 0 then [] else Flags(on, n - 1) + [n - 1 < on]
  }

  /** The pointwise description in ShowChoices' contract determines its result. */
  lemma ShowChoicesDetermined(current: seq<string>, s: Slots, r: Slots)
    requires |s.active| == |s.labels| == |r.active| == |r.labels|
    requires forall i :: 0 <= i < |r.active| && i < |current| ==> r.active[i] && r.labels[i] == current[i]
    requires forall i :: |current| <= i < |r.active| ==> !r.active[i] && r.labels[i] == s.labels[i]
    ensures r == ShowChoices(current, s)
  {
    var e := ShowChoices(current, s);
    assert r.active == e.active;
    assert r.labels == e.labels;
  }

  /** Showing the same choices again leaves the slots as they are. */
  lemma ShowChoicesIdempotent(current: seq<string>, s: Slots)
    requires |s.active| == |s.labels|
    ensures ShowChoices(current, ShowChoices(current, s)) == ShowChoices(current, s)
  {
    var once := ShowChoices(current, s);
    var twice := ShowChoices(current, once);
    assert twice.active == once.active;
    assert twice.labels == once.labels;
  }
}
