/** Option and Result, the two wrappers the model uses for JavaScript's
    `undefined`/`null` and for rejected promises. */
module Wrappers {

  datatype Option<+T> = None | Some(value: T) {
    function GetOr(default: T): T {
      match this
      case Some(v) => v
      case None => default
    }
  }

  datatype Result<+T, +E> = Ok(value: T) | Err(error: E)
}

/** The record shapes of types.ts that the vault works with. */
module Types {
  import opened Wrappers

  /** The four vault domains: identity, environment, style and light. */
  datatype VaultDomain = X | Y | Z | L

  /** The vault view filter: one domain, or all of them. */
  datatype DomainFilter = All | Only(domain: VaultDomain)

  datatype ComponentType = PEP | POP | POV | AMB | VID | GAR | PHYS | STYLE | LIGHT

  datatype StatusKind = Idle | Processing | Completed | Error

  /** One entry of an agent log.  The agent type is one of a long list of
      names and is kept as its text. */
  datatype AgentStatus = AgentStatus(
    agentType: string,
    status: StatusKind,
    message: string,
    timestamp: int,
    department: Option<string>)

  /** The CSS filter stack of a grading.  Either it is composed from the six
      slider values (brightness, contrast, saturate, blur, sepia, hue-rotate,
      in the order the filter text lists them) or it is a literal filter
      text such as a preset's or 'none'. */
  datatype CssFilter =
    | Composed(brightness: real, contrast: real, saturate: real, blur: real, sepia: real, hueRotate: real)
    | Literal(text: string)

  datatype LatentGrading = LatentGrading(
    brightness: real,
    contrast: real,
    saturation: real,
    sharpness: real,
    blur: real,
    hueRotate: real,
    sepia: real,
    presetName: string,
    cssFilter: CssFilter)

  /** The filter a grading's own slider values compose to. */
  function ComposedFilter(g: LatentGrading): CssFilter {
    Composed(g.brightness, g.contrast, g.saturation, g.blur, g.sepia, g.hueRotate)
  }

  /** The grading's filter is the one its slider values compose to. */
  predicate CssInSync(g: LatentGrading) {
    g.cssFilter == ComposedFilter(g)
  }

  /** The numeric keys of a grading. */
  datatype Slider = Brightness | Contrast | Saturation | Sharpness | Blur | HueRotate | Sepia

  function SliderValue(g: LatentGrading, k: Slider): real {
    match k
    case Brightness => g.brightness
    case Contrast => g.contrast
    case Saturation => g.saturation
    case Sharpness => g.sharpness
    case Blur => g.blur
    case HueRotate => g.hueRotate
    case Sepia => g.sepia
  }

  datatype CategorizedDna = CategorizedDna(
    character: string,
    pose: string,
    environment: string,
    technicalTags: seq<string>,
    specs: Option<map<string, string>>)

  /** One nullable record reference (a shortId) per domain. */
  datatype ActiveSlots = ActiveSlots(x: Option<string>, y: Option<string>, z: Option<string>, l: Option<string>)
  {
    function Get(d: VaultDomain): Option<string> {
      match d
      case X => x
      case Y => y
      case Z => z
      case L => l
    }
  }

  datatype NeuralMetrics = NeuralMetrics(
    lossMse: real,
    ssimIndex: real,
    tensorVram: real,
    iterationCount: real,
    consensusScore: real)

  datatype LatentParams = LatentParams(
    zAnatomy: real,
    zStructure: real,
    zLighting: real,
    zTexture: real,
    hzRange: string,
    structuralFidelity: real,
    scaleFactor: real,
    dnaType: Option<ComponentType>,
    vaultDomain: Option<VaultDomain>,
    dna: Option<CategorizedDna>,
    activeSlots: Option<ActiveSlots>,
    metrics: NeuralMetrics)

  /** A vault record as the store holds it. */
  datatype VaultItem = VaultItem(
    id: string,
    shortId: string,
    name: string,
    imageUrl: string,
    originalImageUrl: string,
    prompt: string,
    agentHistory: seq<AgentStatus>,
    params: LatentParams,
    rating: int,
    timestamp: int,
    dna: Option<CategorizedDna>,
    usageCount: int,
    neuralPreferenceScore: int,
    isFavorite: bool,
    vaultDomain: VaultDomain,
    grading: Option<LatentGrading>)

  /** A record handed to `saveNode`: the same fields, except that the four
      fields `saveNode` fills in may be missing. */
  datatype NodeDraft = NodeDraft(
    id: string,
    shortId: string,
    name: string,
    imageUrl: string,
    originalImageUrl: string,
    prompt: string,
    agentHistory: seq<AgentStatus>,
    params: LatentParams,
    rating: int,
    timestamp: int,
    dna: Option<CategorizedDna>,
    usageCount: Option<int>,
    neuralPreferenceScore: Option<int>,
    isFavorite: Option<bool>,
    vaultDomain: Option<VaultDomain>,
    grading: Option<LatentGrading>)

  /** What a synthesis call hands back to the workspace. */
  datatype ProcessResponse = ProcessResponse(
    imageUrl: string,
    logs: seq<AgentStatus>,
    params: LatentParams)

  /** A complete record seen as a draft in which every field is present. */
  function AsDraft(v: VaultItem): (d: NodeDraft)
    ensures d.id == v.id && d.usageCount.Some? && d.neuralPreferenceScore.Some?
    ensures d.isFavorite.Some? && d.vaultDomain.Some?
  {
    NodeDraft(v.id, v.shortId, v.name, v.imageUrl, v.originalImageUrl, v.prompt,
              v.agentHistory, v.params, v.rating, v.timestamp, v.dna,
              Some(v.usageCount), Some(v.neuralPreferenceScore), Some(v.isFavorite),
              Some(v.vaultDomain), v.grading)
  }

  /** A JavaScript string that is neither null nor empty (a truthy value). */
  predicate Present(s: Option<string>) {
    s.Some? && s.value != ""
  }

  /** A vault record's score lies in the documented range 0..100. */
  predicate ScoreInRange(v: VaultItem) {
    0 <= v.neuralPreferenceScore <= 100
  }
}
