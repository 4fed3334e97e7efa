/** The workspace of components/Workspace.tsx: the four domain slots, their
    resolution against the vault, and the commit and process actions with
    their guards. */
module Workspace {
  import opened Wrappers
  import opened Types
  import opened Seqs
  import opened Text
  import opened DbService

  const EmptySlots: ActiveSlots := ActiveSlots(None, None, None, None)

  /** `setSlot`: the slots of `p` (all four null when `p` has none) with the
      entry of `domain` replaced by `ref`; every other parameter is kept. */
  function SetSlot(p: LatentParams, domain: VaultDomain, ref: Option<string>): (r: LatentParams)
    ensures r.activeSlots.Some? && r == p.(activeSlots := r.activeSlots)
    ensures r.activeSlots.value.Get(domain) == ref
    ensures forall e :: e != domain ==>
              r.activeSlots.value.Get(e) == (if p.activeSlots.Some? then p.activeSlots.value.Get(e) else None)
  {
    var prev := p.activeSlots.GetOr(EmptySlots);
    var slots := match domain
      case X => prev.(x := ref)
      case Y => prev.(y := ref)
      case Z => prev.(z := ref)
      case L => prev.(l := ref);
    p.(activeSlots := Some(slots))
  }

  /** The reference stored for `domain`, or `None` for null and undefined. */
  function SlotRef(p: LatentParams, domain: VaultDomain): (r: Option<string>)
    ensures p.activeSlots.None? ==> r.None?
    ensures p.activeSlots.Some? ==> r == p.activeSlots.value.Get(domain)
  {
    if p.activeSlots.Some? then p.activeSlots.value.Get(domain) else None
  }

  /** Slot resolution in `renderSlot`: the first vault record whose shortId
      equals the stored reference; a null, undefined or dangling reference
      resolves to nothing, without an error. */
  function ResolveSlot(p: LatentParams, vault: seq<VaultItem>, domain: VaultDomain): (r: Option<VaultItem>)
    ensures r.Some? ==> SlotRef(p, domain) == Some(r.value.shortId) && r.value in vault
    ensures r.None? <==> SlotRef(p, domain).None? || forall v :: v in vault ==> v.shortId != SlotRef(p, domain).value
  {
    match SlotRef(p, domain)
    case None => None
    case Some(ref) =>
      var found := FindFirst(vault, (v: VaultItem) => v.shortId == ref);
      if found.None? then None else Some(vault[found.value])
  }

  /** Resolution picks the first record with the stored shortId. */
  lemma ResolveSlotFirst(p: LatentParams, vault: seq<VaultItem>, domain: VaultDomain, i: nat)
    requires SlotRef(p, domain).Some?
    requires i < |vault| && vault[i].shortId == SlotRef(p, domain).value
    requires forall j :: 0 <= j < i ==> vault[j].shortId != SlotRef(p, domain).value
    ensures ResolveSlot(p, vault, domain) == Some(vault[i])
  {
  }

  /** Setting a slot changes only that slot: the other three keep their
      references, which start out null when the parameters had no slots. */
  lemma SetSlotOnlyThatSlot(p: LatentParams, domain: VaultDomain, ref: Option<string>, e: VaultDomain)
    ensures SlotRef(SetSlot(p, domain, ref), domain) == ref
    ensures e != domain ==> SlotRef(SetSlot(p, domain, ref), e) == SlotRef(p, e)
    ensures e != domain && p.activeSlots.None? ==> SlotRef(SetSlot(p, domain, ref), e).None?
  {
  }

  /** A slot set to a shortId that no record carries (for instance after
      that record was deleted) resolves to empty; clicking a slot clears it. */
  lemma DanglingSlotResolvesEmpty(p: LatentParams, vault: seq<VaultItem>, domain: VaultDomain, ref: string)
    requires forall v :: v in vault ==> v.shortId != ref
    ensures ResolveSlot(SetSlot(p, domain, Some(ref)), vault, domain).None?
    ensures ResolveSlot(SetSlot(p, domain, None), vault, domain).None?
  {
  }

  /** The log entry `handleProcess` starts with. */
  function KernelStartLog(now: int): AgentStatus {
    AgentStatus("Vault Kernel", Processing, "Initiating Job V11.13 Execution...", now, Some("Direction"))
  }

  /** The record `handleCommit` builds from the workspace state; `id` and
      `shortIdNumber` stand for the random UUID and the random five-digit
      number. */
  function CommitRecord(id: string, shortIdNumber: nat, prompt: string, currentImage: string,
                        originalSource: Option<string>, logs: seq<AgentStatus>, params: LatentParams,
                        grading: Option<LatentGrading>, now: int): (r: VaultItem)
    ensures r.id == id && r.imageUrl == currentImage && r.prompt == prompt && r.grading == grading
    ensures 4 < |r.shortId| && r.shortId[..4] == "LCP-" && ' ' !in r.name && r.timestamp == now
  {
    VaultItem(
      id, "LCP-" + Decimal(shortIdNumber), PromptName(prompt), currentImage,
      if Present(originalSource) then originalSource.value else currentImage,
      prompt, logs, params, 5, now, params.dna,
      0, 50, false, params.vaultDomain.GetOr(X), grading)
  }

  /** A committed record starts unused, unfavoured, at score 50 and rating
      5, in the parameters' domain (X when unset); its name is the prompt up
      to the third space with spaces turned into underscores; its original
      image falls back to the current one; and `saveNode` stores it as it is. */
  lemma CommitRecordFacts(id: string, shortIdNumber: nat, prompt: string, currentImage: string,
                          originalSource: Option<string>, logs: seq<AgentStatus>, params: LatentParams,
                          grading: Option<LatentGrading>, now: int)
    ensures var v := CommitRecord(id, shortIdNumber, prompt, currentImage, originalSource, logs, params, grading, now);
      && v.usageCount == 0 && v.neuralPreferenceScore == 50 && !v.isFavorite && v.rating == 5
      && v.vaultDomain == (if params.vaultDomain.Some? then params.vaultDomain.value else X)
      && v.name == BeforeNth(prompt, ' ', 3, '_')
      && v.originalImageUrl == (if Present(originalSource) then originalSource.value else currentImage)
      && v.id == id && v.imageUrl == currentImage && v.grading == grading
      && Sane(v) && Normalize(AsDraft(v)) == v
  {
    PromptNameMeaning(prompt);
  }

  /** The workspace state the commit and process actions read and write. */
  class WorkspaceState {
    var prompt: string
    var currentImage: Option<string>
    var originalSource: Option<string>
    var logs: seq<AgentStatus>
    var params: LatentParams
    var grading: Option<LatentGrading>
    var isProcessing: bool
    var isSaving: bool

    constructor (params0: LatentParams)
      ensures prompt == "" && currentImage.None? && originalSource.None? && logs == []
      ensures params == params0 && grading.None? && !isProcessing && !isSaving
    {
      prompt := "";
      currentImage := None;
      originalSource := None;
      logs := [];
      params := params0;
      grading := None;
      isProcessing := false;
      isSaving := false;
    }

    /** `handleCommit`: without a current image, or while a save is under
        way, nothing happens; otherwise the record is built and saved, and
        the saving flag is cleared again. */
    method HandleCommit(store: VaultStore, id: string, random: real, now: int) returns (saved: Option<VaultItem>)
      requires store.Valid() && 0.0 <= random < 1.0
      modifies this`isSaving, store
      ensures store.Valid()
      ensures old(!Present(currentImage) || isSaving) ==>
                saved.None? && store.nodes == old(store.nodes) && isSaving == old(isSaving)
      ensures old(Present(currentImage) && !isSaving) ==>
                && saved == Some(CommitRecord(id, ShortIdNumber(random), prompt, currentImage.value,
                                              originalSource, logs, params, grading, now))
                && store.nodes == old(store.nodes)[id := saved.value]
                && !isSaving
    {
      if !Present(currentImage) || isSaving {
        return None;
      }
      isSaving := true;
      var item := CommitRecord(id, ShortIdNumber(random), prompt, currentImage.value,
                               originalSource, logs, params, grading, now);
      NormalizeKeepsComplete(item);
      store.SaveNode(AsDraft(item));
      saved := Some(item);
      isSaving := false;
    }

    /** `handleProcess`: a blank prompt or a missing image does nothing.
        Otherwise the log restarts with the kernel entry; `outcome` is what
        the synthesis call returned (`None` when it threw); a result with
        an image replaces the image, the log and the parameters. */
    method HandleProcess(now: int, outcome: Option<ProcessResponse>)
      modifies this`isProcessing, this`logs, this`currentImage, this`params
      ensures old(IsBlank(prompt) || !Present(currentImage)) ==>
                && logs == old(logs) && currentImage == old(currentImage)
                && params == old(params) && isProcessing == old(isProcessing)
      ensures old(!IsBlank(prompt) && Present(currentImage)) ==>
                && !isProcessing
                && (if outcome.Some? && outcome.value.imageUrl != "" then
                      currentImage == Some(outcome.value.imageUrl)
                      && logs == outcome.value.logs && params == outcome.value.params
                    else
                      currentImage == old(currentImage) && logs == [KernelStartLog(now)]
                      && params == old(params))
    {
      TrimEmptyIffBlank(prompt);
      if Trim(prompt) == "" || !Present(currentImage) {
        return;
      }
      isProcessing := true;
      logs := [KernelStartLog(now)];
      if outcome.Some? && outcome.value.imageUrl != "" {
        currentImage := Some(outcome.value.imageUrl);
        logs := outcome.value.logs;
        params := outcome.value.params;
      }
      isProcessing := false;
    }

    /** Clicking a slot clears it. */
    method ClickSlot(domain: VaultDomain)
      modifies this`params
      ensures params == SetSlot(old(params), domain, None)
      ensures SlotRef(params, domain).None?
    {
      params := SetSlot(params, domain, None);
    }
  }
}
