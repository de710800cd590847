/** Stepping through the five preset textures: "next" and "previous" move
    the selected texture one place along the preset list, wrapping at both
    ends, and a selection outside the list (or none) goes to the first
    preset. */
module TextureNavigation {
  import opened Options
  import opened ModelSlice
  import opened Arith

  /** The preset textures, in panel order. */
  const PresetTextures: seq<string> :=
    ["/textures/wood.svg", "/textures/metal.svg", "/textures/stone.svg", "/textures/fabric.svg", "/textures/leather.svg"]

  /** The presets are five distinct paths, so every lemma below applies to
      `nextTexture` and `previousTexture`. */
  lemma PresetsDistinct()
    ensures Distinct(PresetTextures) && |PresetTextures| == 5
  {
  }

  /** `Array.prototype.findIndex` for an equality test: the first index
      holding `x`, or -1 when there is none. A `null` selection equals no
      preset, so it is `None` here and never found. */
  function FindIndex(s: seq<string>, x: Option<string>): (r: int)
    ensures -1 <= r < |s|
    ensures r == -1 ==> forall k :: 0 <= k < |s| ==> Some(s[k]) != x
    ensures r >= 0 ==> x == Some(s[r]) && forall k :: 0 <= k < r ==> Some(s[k]) != x
  {
    if s == [] then -1
    else if Some(s[0]) == x then 0
    else
      var r := FindIndex(s[1..], x);
      if r == -1 then -1 else r + 1
  }

  /** No entry of `s` appears twice. */
  predicate Distinct(s: seq<string>) {
    forall i, j :: 0 <= i < j < |s| ==> s[i] != s[j]
  }

  /** The entry "next" selects in a non-empty list: the one after the
      selection, wrapping to the first, or the first when the selection is
      not in the list. */
  function Next(presets: seq<string>, selected: Option<string>): (r: string)
    requires presets != []
    ensures r in presets
  {
    var i := FindIndex(presets, selected);
    if i != -1 then presets[(i + 1) % |presets|] else presets[0]
  }

  /** The entry "previous" selects: the one before the selection, wrapping
      to the last, or the first when the selection is not in the list. */
  function Previous(presets: seq<string>, selected: Option<string>): (r: string)
    requires presets != []
    ensures r in presets
  {
    var i := FindIndex(presets, selected);
    if i != -1 then
      var prev := if i == 0 then |presets| - 1 else i - 1;
      presets[prev]
    else presets[0]
  }

  /** The texture `nextTexture` selects. */
  function NextTexture(selected: Option<string>): (r: string)
    ensures r in PresetTextures
  {
    Next(PresetTextures, selected)
  }

  /** The texture `previousTexture` selects. */
  function PreviousTexture(selected: Option<string>): (r: string)
    ensures r in PresetTextures
  {
    Previous(PresetTextures, selected)
  }

  /** In a list without repeats, each entry is found at its own index. */
  lemma FindIndexOfDistinct(s: seq<string>, k: nat)
    requires k < |s|
    requires Distinct(s)
    ensures FindIndex(s, Some(s[k])) == k
  {
    var r := FindIndex(s, Some(s[k]));
    assert s[r] == s[k];
  }

  /** The index one place forward around `n` places. */
  function Succ(i: nat, n: nat): (r: nat)
    requires i < n
    ensures r < n
  {
    if i + 1 == n then 0 else i + 1
  }

  /** The index one place back around `n` places. */
  function Pred(i: nat, n: nat): (r: nat)
    requires i < n
    ensures r < n
  {
    if i == 0 then n - 1 else i - 1
  }

  /** On an entry of a list without repeats, "next" moves one place
      forward, wrapping from the last to the first, and "previous" one place
      back, wrapping from the first to the last. */
  lemma StepFromEntry(presets: seq<string>, k: nat)
    requires Distinct(presets) && k < |presets|
    ensures Next(presets, Some(presets[k])) == presets[Succ(k, |presets|)]
    ensures Previous(presets, Some(presets[k])) == presets[Pred(k, |presets|)]
  {
    FindIndexOfDistinct(presets, k);
    var n := |presets|;
    if k + 1 < n {
      DivModUnique(k + 1, n, 0, k + 1);
    } else {
      DivModUnique(k + 1, n, 1, 0);
    }
  }

  /** With no selection, or one that is not in the list, both directions go
      to the first entry. */
  lemma UnknownGoesToFirst(presets: seq<string>, selected: Option<string>)
    requires presets != []
    requires selected.None? || selected.value !in presets
    ensures Next(presets, selected) == presets[0]
    ensures Previous(presets, selected) == presets[0]
  {
  }

  /** On an entry of a list without repeats, "previous" undoes "next" and
      "next" undoes "previous". */
  lemma InverseOnEntry(presets: seq<string>, k: nat)
    requires Distinct(presets) && k < |presets|
    ensures Previous(presets, Some(Next(presets, Some(presets[k])))) == presets[k]
    ensures Next(presets, Some(Previous(presets, Some(presets[k])))) == presets[k]
  {
    var n := |presets|;
    StepFromEntry(presets, k);
    StepFromEntry(presets, Succ(k, n));
    StepFromEntry(presets, Pred(k, n));
  }

  /** "previous" undoes "next" and "next" undoes "previous" on every entry
      of a list without repeats, and after one step of "next" from any
      selection (which lands on an entry), "previous" undoes the next one. */
  lemma StepsAreInverse(presets: seq<string>, selected: Option<string>)
    requires Distinct(presets) && presets != []
    ensures selected.Some? && selected.value in presets ==>
              Previous(presets, Some(Next(presets, selected))) == selected.value
    ensures selected.Some? && selected.value in presets ==>
              Next(presets, Some(Previous(presets, selected))) == selected.value
    ensures Previous(presets, Some(Next(presets, Some(Next(presets, selected))))) == Next(presets, selected)
  {
    if selected.Some? && selected.value in presets {
      var k :| 0 <= k < |presets| && presets[k] == selected.value;
      InverseOnEntry(presets, k);
    }
    var m := Next(presets, selected);
    var j :| 0 <= j < |presets| && presets[j] == m;
    InverseOnEntry(presets, j);
  }

  /** The selection after pressing "next" `count` times. */
  function NextTimes(presets: seq<string>, count: nat, selected: Option<string>): Option<string>
    requires presets != []
  {
    if count == 0 then selected else Some(Next(presets, NextTimes(presets, count - 1, selected)))
  }

  /** The index `count` places on from `k` around `n` places, for `count`
      at most `n`. */
  function Advance(k: nat, count: nat, n: nat): (r: nat)
    requires k < n && count <= n
    ensures r < n
  {
    if k + count < n then k + count else k + count - n
  }

  /** One more press of "next" moves one more place. */
  lemma NextTimesStep(presets: seq<string>, count: nat, k: nat)
    requires Distinct(presets) && k < |presets| && 0 < count <= |presets|
    requires NextTimes(presets, count - 1, Some(presets[k])) == Some(presets[Advance(k, count - 1, |presets|)])
    ensures NextTimes(presets, count, Some(presets[k])) == Some(presets[Advance(k, count, |presets|)])
  {
    var n := |presets|;
    var j := Advance(k, count - 1, n);
    var before := NextTimes(presets, count - 1, Some(presets[k]));
    assert NextTimes(presets, count, Some(presets[k])) == Some(Next(presets, before));
    StepFromEntry(presets, j);
    assert Succ(j, n) == Advance(k, count, n);
  }

  /** Pressing "next" `count` times (at most the length of the list) from
      entry `k` lands `count` places further on. */
  lemma {:induction false} NextTimesFromEntry(presets: seq<string>, count: nat, k: nat)
    requires Distinct(presets) && k < |presets| && count <= |presets|
    ensures NextTimes(presets, count, Some(presets[k])) == Some(presets[Advance(k, count, |presets|)])
  {
    if count > 0 {
      var j := Advance(k, count - 1, |presets|);
      NextTimesFromEntry(presets, count - 1, k);
      assert NextTimes(presets, count - 1, Some(presets[k])) == Some(presets[j]);
      NextTimesStep(presets, count, k);
    }
  }

  /** Pressing "next" once per entry comes back to the entry the user
      started on; for the presets that is five presses. */
  lemma FullCycle(presets: seq<string>, t: string)
    requires Distinct(presets) && t in presets
    ensures NextTimes(presets, |presets|, Some(t)) == Some(t)
  {
    var k :| 0 <= k < |presets| && presets[k] == t;
    NextTimesFromEntry(presets, |presets|, k);
  }

  /** `nextTexture` as the hook runs it: the store's selected texture moves
      to the next preset and nothing else in the store changes. */
  method SelectNextTexture(store: ModelStore)
    modifies store
    ensures store.State() == old(store.State()).(selectedTexture := Some(NextTexture(old(store.selectedTexture))))
    ensures store.selectedTexture.Some? && store.selectedTexture.value in PresetTextures
  {
    var currentIndex := FindIndex(PresetTextures, store.selectedTexture);
    if currentIndex != -1 {
      var nextIndex := (currentIndex + 1) % |PresetTextures|;
      store.SetSelectedTexture(Some(PresetTextures[nextIndex]));
    } else {
      store.SetSelectedTexture(Some(PresetTextures[0]));
    }
  }

  /** `previousTexture` as the hook runs it. */
  method SelectPreviousTexture(store: ModelStore)
    modifies store
    ensures store.State() == old(store.State()).(selectedTexture := Some(PreviousTexture(old(store.selectedTexture))))
    ensures store.selectedTexture.Some? && store.selectedTexture.value in PresetTextures
  {
    var currentIndex := FindIndex(PresetTextures, store.selectedTexture);
    if currentIndex != -1 {
      var prevIndex := if currentIndex == 0 then |PresetTextures| - 1 else currentIndex - 1;
      store.SetSelectedTexture(Some(PresetTextures[prevIndex]));
    } else {
      store.SetSelectedTexture(Some(PresetTextures[0]));
    }
  }
}
