/** The take-saving part of components/CinemaLab.tsx: the record a rendered
    frame is saved as, and the guard around the save. */
module CinemaLab {
  import opened Wrappers
  import opened Types
  import opened Text
  import opened DbService

  const UnnamedTake := "unnamed_cinema"

  /** The parameters every saved take carries. */
  const TakeParams: LatentParams :=
    LatentParams(1.0, 1.0, 1.0, 1.0, "Cinema-v3", 1.0, 1.0, Some(VID), None, None, None,
                 NeuralMetrics(0.0, 1.0, 4.0, 0.0, 1.0))

  /** The one log entry a saved take carries. */
  function TakeLog(now: int): AgentStatus {
    AgentStatus("Director", Completed, "Take committed to vault.", now, Some("Direction"))
  }

  /** The record `handleSaveTake` builds; `id` and `shortIdNumber` stand for
      the random UUID and the random five-digit number, `logTime` and `now`
      for the two clock readings taken for the log entry and the record. */
  function TakeRecord(id: string, shortIdNumber: nat, prompt: string, imageResult: string,
                      sourceKeyframe: Option<string>, logTime: int, now: int): (r: VaultItem)
    ensures r.id == id && r.imageUrl == imageResult && r.prompt == prompt && r.name != ""
    ensures 4 < |r.shortId| && r.shortId[..4] == "CIN-"
    ensures r.agentHistory == [TakeLog(logTime)] && r.timestamp == now
  {
    var name := PromptName(prompt);
    VaultItem(
      id, "CIN-" + Decimal(shortIdNumber),
      if name != "" then name else UnnamedTake,
      imageResult,
      if Present(sourceKeyframe) then sourceKeyframe.value else imageResult,
      prompt, [TakeLog(logTime)], TakeParams, 5, now, None,
      0, 50, false, X, None)
  }

  /** A saved take starts unused, unfavoured, at score 50 and rating 5, in
      domain X, with exactly one log entry and no grading; its name is the
      prompt up to the third space with spaces turned into underscores, or
      "unnamed_cinema" exactly when the prompt is empty; its shortId is
      "CIN-" and five digits; and `saveNode` stores it as it is. */
  lemma TakeRecordFacts(id: string, random: real, prompt: string, imageResult: string,
                        sourceKeyframe: Option<string>, logTime: int, now: int)
    requires 0.0 <= random < 1.0
    ensures var n := ShortIdNumber(random);
            var v := TakeRecord(id, n, prompt, imageResult, sourceKeyframe, logTime, now);
      && v.usageCount == 0 && v.neuralPreferenceScore == 50 && !v.isFavorite
      && v.vaultDomain == X && v.rating == 5 && v.grading.None? && v.dna.None?
      && |v.agentHistory| == 1 && v.agentHistory[0].status == Completed
      && (prompt == "" ==> v.name == UnnamedTake)
      && (prompt != "" ==> v.name == BeforeNth(prompt, ' ', 3, '_'))
      && v.shortId[..4] == "CIN-" && |v.shortId| == 9
      && ParseDecimal(v.shortId[4..]) == n && 10000 <= n <= 99999
      && v.originalImageUrl == (if Present(sourceKeyframe) then sourceKeyframe.value else imageResult)
      && Sane(v) && Normalize(AsDraft(v)) == v
  {
    var n := ShortIdNumber(random);
    PromptNameMeaning(prompt);
    FiveDigits(n);
    DecimalRoundTrip(n);
    var v := TakeRecord(id, n, prompt, imageResult, sourceKeyframe, logTime, now);
    assert v.shortId[4..] == Decimal(n);
  }

  /** The state `handleSaveTake` reads and writes. */
  class CinemaLabState {
    var prompt: string
    var imageResult: Option<string>
    var sourceKeyframe: Option<string>
    var isProcessingSave: bool

    constructor (currentSourceImage: Option<string>)
      ensures prompt == "" && imageResult.None? && sourceKeyframe == currentSourceImage
      ensures !isProcessingSave
    {
      prompt := "";
      imageResult := None;
      sourceKeyframe := currentSourceImage;
      isProcessingSave := false;
    }

    /** `handleSaveTake`: without a rendered frame, or while a save is under
        way, nothing happens; otherwise the take is saved under its id and
        the saving flag is cleared again. */
    method HandleSaveTake(store: VaultStore, id: string, random: real, logTime: int, now: int) returns (saved: Option<VaultItem>)
      requires store.Valid() && 0.0 <= random < 1.0
      modifies this`isProcessingSave, store
      ensures store.Valid()
      ensures old(!Present(imageResult) || isProcessingSave) ==>
                saved.None? && store.nodes == old(store.nodes) && isProcessingSave == old(isProcessingSave)
      ensures old(Present(imageResult) && !isProcessingSave) ==>
                && saved == Some(TakeRecord(id, ShortIdNumber(random), prompt, imageResult.value, sourceKeyframe, logTime, now))
                && store.nodes == old(store.nodes)[id := saved.value]
                && !isProcessingSave
    {
      if !Present(imageResult) || isProcessingSave {
        return None;
      }
      isProcessingSave := true;
      var item := TakeRecord(id, ShortIdNumber(random), prompt, imageResult.value, sourceKeyframe, logTime, now);
      NormalizeKeepsComplete(item);
      store.SaveNode(AsDraft(item));
      saved := Some(item);
      isProcessingSave := false;
    }
  }
}
