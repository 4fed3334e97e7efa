/** The pure helpers of geminiService.ts: the data-URI payload split, the
    per-domain record curation, the inline-image extraction loop, the vault
    summary handed to the semantic router, and the defaults a compiled
    grading falls back to. */
module GeminiService {
  import opened Wrappers
  import opened Types
  import opened Seqs
  import opened Text

  // ---------------------------------------------------------------- getBase64

  /** `getBase64`: the second comma-separated piece of a data URI when it
      has a comma, otherwise the whole string. */
  function GetBase64(dataUri: string): (r: string)
    ensures ',' !in r
    ensures ',' !in dataUri ==> r == dataUri
  {
    var parts := Split(dataUri, ',');
    assert ',' !in dataUri ==> parts == [dataUri] by {
      if ',' !in dataUri { SplitNoSeparator(dataUri, ','); }
    }
    if |parts| > 1 then parts[1] else parts[0]
  }

  /** A string without a comma comes back whole; after a comma-free header,
      the payload is returned up to its own first comma, so a comma-free
      payload is returned exactly. */
  lemma GetBase64Payload(header: string, payload: string)
    requires ',' !in header
    ensures ',' !in payload ==> GetBase64(payload) == payload
    ensures GetBase64(header + [','] + payload) == BeforeNth(payload, ',', 1, ',')
    ensures ',' !in payload ==> GetBase64(header + [','] + payload) == payload
  {
    SplitAtFirst(header, ',', payload);
    SplitTakeJoin(payload, ',', 1, ',');
    var rest := Split(payload, ',');
    assert Take(rest, 1) == [rest[0]];
    if ',' !in payload {
      SplitNoSeparator(payload, ',');
    }
  }

  // ------------------------------------------------------ runDNACuratoriProtocol

  /** The records of one domain. */
  function InDomain(d: VaultDomain): VaultItem -> bool {
    (v: VaultItem) => v.vaultDomain == d
  }

  /** The favourite records of one domain. */
  function FavouriteIn(d: VaultDomain): VaultItem -> bool {
    (v: VaultItem) => v.vaultDomain == d && v.isFavorite
  }

  /** The record the curator picks for a domain: the first favourite of that
      domain, or else the first record of that domain; `None` when the
      domain has no record. */
  function PickForDomain(vault: seq<VaultItem>, d: VaultDomain): (r: Option<VaultItem>)
    ensures r.Some? ==> r.value in vault && r.value.vaultDomain == d
    ensures r.None? <==> forall v :: v in vault ==> v.vaultDomain != d
    ensures (exists v :: v in vault && v.vaultDomain == d && v.isFavorite) ==> r.Some? && r.value.isFavorite
  {
    var fav := Find(vault, FavouriteIn(d));
    if fav.Some? then fav else Find(vault, InDomain(d))
  }

  /** The pick is the earliest favourite of the domain. */
  lemma PickFirstFavourite(vault: seq<VaultItem>, d: VaultDomain, i: nat)
    requires i < |vault| && vault[i].vaultDomain == d && vault[i].isFavorite
    requires forall j :: 0 <= j < i ==> !(vault[j].vaultDomain == d && vault[j].isFavorite)
    ensures PickForDomain(vault, d) == Some(vault[i])
  {
  }

  /** Without a favourite in the domain, the pick is the earliest record of
      the domain. */
  lemma PickFirstOfDomain(vault: seq<VaultItem>, d: VaultDomain, i: nat)
    requires forall v :: v in vault ==> !(v.vaultDomain == d && v.isFavorite)
    requires i < |vault| && vault[i].vaultDomain == d
    requires forall j :: 0 <= j < i ==> vault[j].vaultDomain != d
    ensures PickForDomain(vault, d) == Some(vault[i])
  {
  }

  const DefaultStyleText := "REALISM"

  /** What the job directive receives for the identity domain: a record
      reference with its DNA specs (an empty object when it has none), or
      the sentinel "DEFAULT_IDENTITY". */
  datatype IdentityRef = IdentityNode(id: string, name: string, dnaSpecs: map<string, string>) | DefaultIdentity

  /** The environment reference: a record and its description, or "DEFAULT_ENV". */
  datatype EnvRef = EnvNode(id: string, desc: string) | DefaultEnv

  /** The style reference: a record and its style, or "REALISM". */
  datatype StyleRef = StyleNode(id: string, style: string) | DefaultStyle

  datatype Curation = Curation(vaultX: IdentityRef, vaultY: EnvRef, vaultZ: StyleRef)

  /** The DNA specs of a record, `{}` when it has none. */
  function SpecsOf(v: VaultItem): (r: map<string, string>)
    ensures v.dna.Some? && v.dna.value.specs.Some? ==> r == v.dna.value.specs.value
    ensures v.dna.None? || v.dna.value.specs.None? ==> r == map[]
  {
    if v.dna.Some? && v.dna.value.specs.Some? then v.dna.value.specs.value else map[]
  }

  /** The environment text of a record's DNA, falling back to its prompt
      when that is missing or empty. */
  function EnvironmentOf(v: VaultItem): (r: string)
    ensures v.dna.Some? && v.dna.value.environment != "" ==> r == v.dna.value.environment
    ensures v.dna.None? || v.dna.value.environment == "" ==> r == v.prompt
  {
    if v.dna.Some? && v.dna.value.environment != "" then v.dna.value.environment else v.prompt
  }

  /** The style entry of a record's DNA specs, falling back to "REALISM"
      when it is missing or empty. */
  function StyleOf(v: VaultItem): (r: string)
    ensures "style" in SpecsOf(v) && SpecsOf(v)["style"] != "" ==> r == SpecsOf(v)["style"]
    ensures "style" !in SpecsOf(v) || SpecsOf(v)["style"] == "" ==> r == DefaultStyleText
    ensures r != ""
  {
    var specs := SpecsOf(v);
    if "style" in specs && specs["style"] != "" then specs["style"] else DefaultStyleText
  }

  /** `runDNACuratoriProtocol`: one reference per domain X, Y and Z. */
  function Curate(vault: seq<VaultItem>): (c: Curation)
    ensures c.vaultX.DefaultIdentity? <==> forall v :: v in vault ==> v.vaultDomain != X
    ensures c.vaultY.DefaultEnv? <==> forall v :: v in vault ==> v.vaultDomain != Y
    ensures c.vaultZ.DefaultStyle? <==> forall v :: v in vault ==> v.vaultDomain != Z
    ensures c.vaultX.IdentityNode? ==>
              exists v :: v in vault && v.vaultDomain == X && v.shortId == c.vaultX.id
                          && c.vaultX.name == v.name && c.vaultX.dnaSpecs == SpecsOf(v)
    ensures c.vaultY.EnvNode? ==>
              exists v :: v in vault && v.vaultDomain == Y && v.shortId == c.vaultY.id
                          && c.vaultY.desc == EnvironmentOf(v)
    ensures c.vaultZ.StyleNode? ==>
              exists v :: v in vault && v.vaultDomain == Z && v.shortId == c.vaultZ.id
                          && c.vaultZ.style == StyleOf(v)
  {
    var x := PickForDomain(vault, X);
    var y := PickForDomain(vault, Y);
    var z := PickForDomain(vault, Z);
    Curation(
      if x.Some? then IdentityNode(x.value.shortId, x.value.name, SpecsOf(x.value)) else DefaultIdentity,
      if y.Some? then EnvNode(y.value.shortId, EnvironmentOf(y.value)) else DefaultEnv,
      if z.Some? then StyleNode(z.value.shortId, StyleOf(z.value)) else DefaultStyle)
  }

  /** The records that are not in the light domain. */
  function NotLight(): VaultItem -> bool {
    (v: VaultItem) => v.vaultDomain != L
  }

  /** The curator never consults the light domain: removing every L record
      from the vault leaves its answer unchanged. */
  lemma CurateIgnoresLight(vault: seq<VaultItem>)
    ensures Curate(Filter(vault, NotLight())) == Curate(vault)
  {
    var kept := Filter(vault, NotLight());
    forall d: VaultDomain | d != L
      ensures PickForDomain(kept, d) == PickForDomain(vault, d)
    {
      FindFilter(vault, FavouriteIn(d), NotLight());
      FindFilter(vault, InDomain(d), NotLight());
    }
  }

  // --------------------------------------------------------- image extraction

  datatype InlineData = InlineData(mimeType: string, data: string)

  /** One part of a model response: text, inline data, or both. */
  datatype Part = Part(text: Option<string>, inlineData: Option<InlineData>)

  const ImagePrefix := "data:image/png;base64,"

  /** The inline data of the last part that carries some. */
  function LastInline(parts: seq<Part>): (r: Option<InlineData>)
    ensures r.None? <==> forall i :: 0 <= i < |parts| ==> parts[i].inlineData.None?
    ensures r.Some? ==> exists i :: 0 <= i < |parts| && parts[i].inlineData == r
    decreases |parts|
  {
    if |parts| == 0 then None
    else if parts[|parts| - 1].inlineData.Some? then parts[|parts| - 1].inlineData
    else
      var r := LastInline(parts[..|parts| - 1]);
      assert forall i :: 0 <= i < |parts| - 1 ==> parts[..|parts| - 1][i] == parts[i];
      r
  }

  /** The image URL a response yields: the last inline part's data behind a
      PNG data-URI header, or "" when the response has no parts or none of
      them is inline. */
  function ImageUrlOf(parts: Option<seq<Part>>): (r: string)
    ensures r == "" || (|ImagePrefix| < |r| + 1 && r[..|ImagePrefix|] == ImagePrefix)
    ensures parts.Some? && (exists i :: 0 <= i < |parts.value| && parts.value[i].inlineData.Some?) ==> r != ""
  {
    if parts.None? then ""
    else match LastInline(parts.value)
      case None => ""
      case Some(d) => ImagePrefix + d.data
  }

  /** The extraction loop: every inline part overwrites the URL, so the last
      one wins. */
  method ExtractImageUrl(parts: Option<seq<Part>>) returns (url: string)
    ensures url == ImageUrlOf(parts)
  {
    url := "";
    if parts.Some? {
      var ps := parts.value;
      for i := 0 to |ps|
        invariant url == ImageUrlOf(Some(ps[..i]))
      {
        assert ps[..i + 1][..i] == ps[..i];
        if ps[i].inlineData.Some? {
          url := ImagePrefix + ps[i].inlineData.value.data;
        }
      }
      assert ps[..|ps|] == ps;
    }
  }

  /** The URL is empty exactly when no part carries inline data, and a
      trailing inline part decides it. */
  lemma ImageUrlMeaning(parts: seq<Part>, last: Part)
    ensures ImageUrlOf(Some(parts)) == "" <==> forall i :: 0 <= i < |parts| ==> parts[i].inlineData.None?
    ensures ImageUrlOf(None) == ""
    ensures last.inlineData.Some? ==> ImageUrlOf(Some(parts + [last])) == ImagePrefix + last.inlineData.value.data
    ensures last.inlineData.None? ==> ImageUrlOf(Some(parts + [last])) == ImageUrlOf(Some(parts))
  {
  }

  // ---------------------------------------------------------- vault summaries

  datatype Summary = Summary(id: string, domain: VaultDomain, fav: bool, score: int)

  /** The routing summary of one record. */
  function SummaryOf(v: VaultItem): Summary {
    Summary(v.shortId, v.vaultDomain, v.isFavorite, v.neuralPreferenceScore)
  }

  /** `vaultSummaries`: one summary per record, in vault order. */
  function Summaries(vault: seq<VaultItem>): (r: seq<Summary>)
    ensures |r| == |vault|
    ensures forall i :: 0 <= i < |vault| ==>
              r[i].id == vault[i].shortId && r[i].domain == vault[i].vaultDomain
              && r[i].fav == vault[i].isFavorite && r[i].score == vault[i].neuralPreferenceScore
    decreases |vault|
  {
    if |vault| == 0 then [] else [SummaryOf(vault[0])] + Summaries(vault[1..])
  }

  /** A grading commit on one record leaves the summaries as they were. */
  lemma SummariesIgnoreGrading(vault: seq<VaultItem>, i: nat, g: Option<LatentGrading>)
    requires i < |vault|
    ensures Summaries(vault[i := vault[i].(grading := g)]) == Summaries(vault)
  {
  }

  // ---------------------------------------------------------- grading defaults

  /** The grading block of the compilation answer; a field that is absent
      is `None`. */
  datatype RawGrading = RawGrading(
    brightness: Option<real>,
    contrast: Option<real>,
    saturation: Option<real>,
    sharpness: Option<real>,
    blur: Option<real>,
    hueRotate: Option<real>,
    sepia: Option<real>,
    preset: Option<string>)

  /** `x || d` on a number: an absent or zero value is replaced by `d`,
      any other value is kept. */
  function OrNumber(x: Option<real>, d: real): (r: real)
    ensures x.Some? && x.value != 0.0 ==> r == x.value
    ensures x.None? || x.value == 0.0 ==> r == d
    ensures r == d || r != 0.0
  {
    if x.Some? && x.value != 0.0 then x.value else d
  }

  /** `x || d` on a string: an absent or empty value is replaced by `d`,
      any other value is kept. */
  function OrText(x: Option<string>, d: string): (r: string)
    ensures Present(x) ==> r == x.value
    ensures !Present(x) ==> r == d
    ensures r == d || r != ""
  {
    if x.Some? && x.value != "" then x.value else d
  }

  const NoPreset := "NONE"

  /** The field of the grading block that feeds slider `k`. */
  function RawSlider(raw: RawGrading, k: Slider): Option<real> {
    match k
    case Brightness => raw.brightness
    case Contrast => raw.contrast
    case Saturation => raw.saturation
    case Sharpness => raw.sharpness
    case Blur => raw.blur
    case HueRotate => raw.hueRotate
    case Sepia => raw.sepia
  }

  /** The value slider `k` takes when the answer leaves it out or gives 0. */
  function SliderDefault(k: Slider): real {
    if k == Brightness || k == Contrast || k == Saturation then 1.0 else 0.0
  }

  const NoRaw := RawGrading(None, None, None, None, None, None, None, None)

  /** The grading built from the compilation answer (`None` when it had no
      grading block or did not parse): brightness, contrast and saturation
      default to 1, the other sliders to 0, the preset to "NONE", and the
      filter is composed from the defaulted values. */
  function CompiledGrading(raw: Option<RawGrading>): (g: LatentGrading)
    ensures CssInSync(g)
    ensures g.brightness != 0.0 && g.contrast != 0.0 && g.saturation != 0.0 && g.presetName != ""
    ensures raw.None? ==> g.brightness == 1.0 && g.contrast == 1.0 && g.saturation == 1.0
                          && g.sharpness == 0.0 && g.blur == 0.0 && g.hueRotate == 0.0
                          && g.sepia == 0.0 && g.presetName == NoPreset
    ensures forall k :: var x := RawSlider(raw.GetOr(NoRaw), k);
              && (x.Some? && x.value != 0.0 ==> SliderValue(g, k) == x.value)
              && (x.None? || x.value == 0.0 ==> SliderValue(g, k) == SliderDefault(k))
    ensures Present(raw.GetOr(NoRaw).preset) ==> g.presetName == raw.value.preset.value
    ensures !Present(raw.GetOr(NoRaw).preset) ==> g.presetName == NoPreset
  {
    var r := raw.GetOr(NoRaw);
    var b := OrNumber(r.brightness, 1.0);
    var c := OrNumber(r.contrast, 1.0);
    var s := OrNumber(r.saturation, 1.0);
    var bl := OrNumber(r.blur, 0.0);
    var h := OrNumber(r.hueRotate, 0.0);
    var sp := OrNumber(r.sepia, 0.0);
    LatentGrading(b, c, s, OrNumber(r.sharpness, 0.0), bl, h, sp,
                  OrText(r.preset, NoPreset), Composed(b, c, s, bl, sp, h))
  }

  /** A grading read back as a compilation answer. */
  function AsRaw(g: LatentGrading): RawGrading {
    RawGrading(Some(g.brightness), Some(g.contrast), Some(g.saturation), Some(g.sharpness),
               Some(g.blur), Some(g.hueRotate), Some(g.sepia), Some(g.presetName))
  }

  /** Inside a present grading block, every non-zero slider value and a
      non-empty preset are kept as given, and every missing or zero one takes
      its default; defaulting twice changes nothing more than defaulting
      once. */
  lemma CompiledGradingKeepsGiven(raw: RawGrading)
    ensures forall k :: RawSlider(raw, k).Some? && RawSlider(raw, k).value != 0.0 ==>
              SliderValue(CompiledGrading(Some(raw)), k) == RawSlider(raw, k).value
    ensures forall k :: RawSlider(raw, k).None? || RawSlider(raw, k).value == 0.0 ==>
              SliderValue(CompiledGrading(Some(raw)), k) == SliderDefault(k)
    ensures raw.preset.Some? && raw.preset.value != "" ==> CompiledGrading(Some(raw)).presetName == raw.preset.value
    ensures raw.preset.None? || raw.preset.value == "" ==> CompiledGrading(Some(raw)).presetName == NoPreset
    ensures CompiledGrading(Some(AsRaw(CompiledGrading(Some(raw))))) == CompiledGrading(Some(raw))
  {
  }
}
