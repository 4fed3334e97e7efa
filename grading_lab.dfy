/** The grading lab of components/GradingLab.tsx: the grading being edited,
    the record it belongs to, and the commit that writes the grading back
    onto that record. */
module GradingLab {
  import opened Wrappers
  import opened Types
  import opened DbService

  /** The grading a lab starts from and falls back to. */
  const MasterRaw: LatentGrading :=
    LatentGrading(1.0, 1.0, 1.0, 0.5, 0.0, 0.0, 0.0, "MASTER_RAW", Literal("none"))

  /** `updateParam`: the chosen slider takes the new value, and the filter
      is recomposed from the sliders; the preset name and every other
      slider stay as they were. */
  function Updated(g: LatentGrading, k: Slider, val: real): (r: LatentGrading)
    ensures SliderValue(r, k) == val
    ensures forall k' :: k' != k ==> SliderValue(r, k') == SliderValue(g, k')
    ensures r.presetName == g.presetName
    ensures CssInSync(r)
  {
    var next := match k
      case Brightness => g.(brightness := val)
      case Contrast => g.(contrast := val)
      case Saturation => g.(saturation := val)
      case Sharpness => g.(sharpness := val)
      case Blur => g.(blur := val)
      case HueRotate => g.(hueRotate := val)
      case Sepia => g.(sepia := val);
    next.(cssFilter := ComposedFilter(next))
  }

  /** Setting a slider to the value it already has after a first setting
      changes nothing: `updateParam` is idempotent. */
  lemma UpdateParamIdempotent(g: LatentGrading, k: Slider, val: real)
    ensures Updated(Updated(g, k, val), k, val) == Updated(g, k, val)
  {
  }

  /** Two settings of different sliders commute. */
  lemma UpdateParamCommutes(g: LatentGrading, k1: Slider, v1: real, k2: Slider, v2: real)
    requires k1 != k2
    ensures Updated(Updated(g, k1, v1), k2, v2) == Updated(Updated(g, k2, v2), k1, v1)
  {
  }

  /** `applyPreset`: only the preset name and the filter text change; the
      sliders are left where they were. */
  function Preset(g: LatentGrading, name: string, filter: string): (r: LatentGrading)
    ensures forall k :: SliderValue(r, k) == SliderValue(g, k)
    ensures r.presetName == name && r.cssFilter == Literal(filter)
  {
    g.(presetName := name, cssFilter := Literal(filter))
  }

  /** A preset's literal filter is replaced by a composed one as soon as a
      slider moves, and the preset name survives that move. */
  lemma SliderAfterPreset(g: LatentGrading, name: string, filter: string, k: Slider, val: real)
    ensures Updated(Preset(g, name, filter), k, val).cssFilter != Literal(filter)
    ensures Updated(Preset(g, name, filter), k, val).presetName == name
    ensures Updated(Preset(g, name, filter), k, val) == Updated(g, k, val).(presetName := name)
  {
  }

  /** The grading loaded when a record is selected: its stored grading when
      it has one, otherwise the MASTER_RAW defaults. */
  function LoadGrading(node: Option<VaultItem>): (g: LatentGrading)
    ensures node.Some? && node.value.grading.Some? ==> g == node.value.grading.value
    ensures node.None? || node.value.grading.None? ==> g == MasterRaw
  {
    if node.Some? && node.value.grading.Some? then node.value.grading.value else MasterRaw
  }

  /** The record a grading commit writes: the selected record with only its
      grading replaced. */
  function CommitNode(node: VaultItem, g: LatentGrading): (r: VaultItem)
    ensures r.grading == Some(g)
    ensures r == node.(grading := r.grading)
  {
    node.(grading := Some(g))
  }

  /** Committing and then reselecting the record loads the committed
      grading; committing again with the same grading changes nothing. */
  lemma CommitThenLoad(node: VaultItem, g: LatentGrading)
    ensures LoadGrading(Some(CommitNode(node, g))) == g
    ensures CommitNode(CommitNode(node, g), g) == CommitNode(node, g)
    ensures node.grading == Some(g) ==> CommitNode(node, g) == node
  {
  }

  const PickerSize := 12

  /** The node picker: the first twelve vault records, or all of them when
      there are fewer. */
  function PickerItems(vault: seq<VaultItem>): (r: seq<VaultItem>)
    ensures |r| <= PickerSize && |r| <= |vault|
    ensures |r| == PickerSize || r == vault
    ensures forall i :: 0 <= i < |r| ==> r[i] == vault[i]
  {
    if |vault| <= PickerSize then vault else vault[..PickerSize]
  }

  /** The lab's state: the selected record, the grading being edited and
      the saving flag. */
  class GradingLabState {
    var selectedNode: Option<VaultItem>
    var grading: LatentGrading
    var isSaving: bool

    constructor ()
      ensures selectedNode.None? && grading == MasterRaw && !isSaving
    {
      selectedNode := None;
      grading := MasterRaw;
      isSaving := false;
    }

    /** Picking a record selects it. The grading is reloaded from the
        record only when the selection changes, since the effect that loads
        it runs only then; picking the selected record again keeps the
        edits. */
    method SelectNode(item: VaultItem)
      modifies this`selectedNode, this`grading
      ensures selectedNode == Some(item)
      ensures old(selectedNode) != Some(item) ==> grading == LoadGrading(Some(item))
      ensures old(selectedNode) == Some(item) ==> grading == old(grading)
    {
      if selectedNode != Some(item) {
        selectedNode := Some(item);
        grading := LoadGrading(selectedNode);
      }
    }

    method UpdateParam(k: Slider, val: real)
      modifies this`grading
      ensures grading == Updated(old(grading), k, val)
    {
      grading := Updated(grading, k, val);
    }

    method ApplyPreset(name: string, filter: string)
      modifies this`grading
      ensures grading == Preset(old(grading), name, filter)
    {
      grading := Preset(grading, name, filter);
    }

    /** "Reset RAW": only the brightness goes back to 1. */
    method ResetRaw()
      modifies this`grading
      ensures grading.brightness == 1.0
      ensures forall k :: k != Brightness ==> SliderValue(grading, k) == SliderValue(old(grading), k)
      ensures grading.presetName == old(grading).presetName && CssInSync(grading)
    {
      UpdateParam(Brightness, 1.0);
    }

    /** `handleCommit`: without a selected record, or while a save is under
        way, nothing happens; otherwise the record with the current grading
        is saved under its own id and the saving flag is cleared again. */
    method HandleCommit(store: VaultStore) returns (saved: Option<VaultItem>)
      requires store.Valid()
      modifies this`isSaving, store
      ensures store.Valid()
      ensures old(selectedNode.None? || isSaving) ==>
                saved.None? && store.nodes == old(store.nodes) && isSaving == old(isSaving)
      ensures old(selectedNode.Some? && !isSaving) ==>
                && saved == Some(CommitNode(selectedNode.value, grading))
                && store.nodes == old(store.nodes)[selectedNode.value.id := saved.value]
                && !isSaving
    {
      if selectedNode.None? || isSaving {
        return None;
      }
      isSaving := true;
      var updated := CommitNode(selectedNode.value, grading);
      NormalizeKeepsComplete(updated);
      store.SaveNode(AsDraft(updated));
      saved := Some(updated);
      isSaving := false;
    }
  }
}
