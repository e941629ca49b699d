/**
 * The constant tables of the application: models per modality, the
 * required-field rule table, the form field definitions and the templates.
 */
module Config {
  import opened Wrappers
  import opened JsValues

  /** One selectable model of a modality. */
  datatype ModelInfo = ModelInfo(value: string, displayName: string, description: string)

  /** Fields required for every model (`common`) and, per model id, the extra ones. */
  datatype Rules = Rules(common: seq<string>, models: map<string, seq<string>>)

  /** Modality name to its rules. */
  type RuleTable = map<string, Rules>

  datatype FieldType = Text | TextArea | Number | Select

  datatype FieldDefinition = FieldDefinition(
    name: string, displayName: string, placeholder: string,
    required: bool, kind: FieldType,
    min: Option<int>, max: Option<int>, options: Option<seq<string>>)

  /** A named preset of form values. */
  datatype Template = Template(name: string, values: map<string, Value>)

  const ImageModels := [
    ModelInfo("dalle-3", "DALL-E 3", "OpenAI's latest image generator"),
    ModelInfo("midjourney-v6", "Midjourney v6", "High-quality artistic images"),
    ModelInfo("sdxl", "Stable Diffusion XL", "Open-source, customizable"),
    ModelInfo("imagen", "Google Imagen", "Photorealistic generations"),
    ModelInfo("firefly", "Adobe Firefly", "Commercial-safe content")]
  const VideoModels := [
    ModelInfo("runway-gen3", "Runway Gen-3", "Cinematic video generation"),
    ModelInfo("pika", "Pika", "Easy-to-use video creator"),
    ModelInfo("sora", "OpenAI Sora", "Advanced coherent videos")]
  const VoiceModels := [
    ModelInfo("openai-voice", "OpenAI Voice", "Natural text-to-speech"),
    ModelInfo("elevenlabs", "ElevenLabs", "Ultra-realistic voices")]

  /** `MODELS`: the models each modality offers. */
  const Models: map<string, seq<ModelInfo>> := map["image" := ImageModels, "video" := VideoModels, "voice" := VoiceModels]

  const ImageRules := Rules(["subject", "style"],
    map["dalle-3" := [], "midjourney-v6" := [], "sdxl" := [], "imagen" := [], "firefly" := []])
  const VideoRules := Rules(["scene", "action", "duration_seconds"],
    map["runway-gen3" := ["camera_motion"], "pika" := [], "sora" := []])
  const VoiceRules := Rules(["accent", "emotion", "pace"],
    map["openai-voice" := [], "elevenlabs" := []])

  /** `REQUIRED_FIELDS`: the rule table the validators read. */
  const RequiredFields: RuleTable := map["image" := ImageRules, "video" := VideoRules, "voice" := VoiceRules]

  /** An optional text field with no bounds and no options. */
  function TextField(name: string, displayName: string, placeholder: string): FieldDefinition {
    FieldDefinition(name, displayName, placeholder, false, Text, None, None, None)
  }

  const ImageFields := [
    FieldDefinition("subject", "Subject", "e.g., a cat sitting on a windowsill", true, Text, None, None, None),
    FieldDefinition("style", "Style", "e.g., photorealistic, oil painting, anime", true, Text, None, None, None),
    TextField("environment", "Environment", "e.g., modern apartment, forest clearing"),
    TextField("lighting", "Lighting", "e.g., golden hour, dramatic shadows"),
    TextField("camera", "Camera", "e.g., 50mm close-up, wide angle"),
    TextField("mood", "Mood", "e.g., peaceful, energetic, mysterious"),
    TextField("aspect_ratio", "Aspect Ratio", "e.g., 16:9, 1:1, 9:16")]
  const VideoFields := [
    FieldDefinition("scene", "Scene", "Describe the scene", true, Text, None, None, None),
    FieldDefinition("action", "Action", "What's happening?", true, Text, None, None, None),
    FieldDefinition("duration_seconds", "Duration (seconds)", "5", true, Number, Some(1), Some(60), None),
    TextField("camera_motion", "Camera Motion", "e.g., slow pan, tracking shot"),
    TextField("lighting", "Lighting", "e.g., natural daylight, neon"),
    TextField("style", "Style", "e.g., cinematic, documentary")]
  const VoiceFields := [
    FieldDefinition("subject", "Text/Script", "What should be spoken?", true, TextArea, None, None, None),
    FieldDefinition("accent", "Accent", "e.g., American, British, Australian", true, Text, None, None, None),
    FieldDefinition("emotion", "Emotion", "e.g., calm, excited, serious", true, Text, None, None, None),
    FieldDefinition("pace", "Pace", "slow, medium, fast", true, Select, None, None,
      Some(["slow", "medium", "fast"])),
    FieldDefinition("voice_gender", "Voice Gender", "male, female, neutral", false, Select, None, None,
      Some(["male", "female", "neutral"])),
    TextField("age_range", "Age Range", "e.g., young adult, middle-aged, elderly"),
    TextField("use_case", "Use Case", "e.g., podcast, audiobook, announcement")]

  /** `FIELD_DEFINITIONS`: the inputs each modality's form shows. */
  const FieldDefinitions: map<string, seq<FieldDefinition>> :=
    map["image" := ImageFields, "video" := VideoFields, "voice" := VoiceFields]

  const Portrait := Template("Portrait Photography", map[
    "subject" := Str("a person"),
    "style" := Str("professional portrait photography"),
    "lighting" := Str("soft natural light"),
    "camera" := Str("85mm f/1.8"),
    "mood" := Str("confident and approachable")])
  const Landscape := Template("Landscape", map[
    "subject" := Str("a mountain landscape"),
    "style" := Str("landscape photography"),
    "environment" := Str("alpine setting at sunrise"),
    "lighting" := Str("golden hour"),
    "camera" := Str("wide angle 24mm")])
  const Fantasy := Template("Fantasy Art", map[
    "subject" := Str("a magical creature"),
    "style" := Str("fantasy digital art"),
    "environment" := Str("enchanted forest"),
    "lighting" := Str("mystical glowing lights"),
    "mood" := Str("ethereal and mysterious")])
  const Cinematic := Template("Cinematic Scene", map[
    "scene" := Str("a dramatic urban environment"),
    "action" := Str("person walking in slow motion"),
    "duration_seconds" := Num(10),
    "camera_motion" := Str("slow dolly forward"),
    "lighting" := Str("moody with strong shadows"),
    "style" := Str("cinematic film look")])
  const Nature := Template("Nature Documentary", map[
    "scene" := Str("wildlife in natural habitat"),
    "action" := Str("animal interacting with environment"),
    "duration_seconds" := Num(15),
    "camera_motion" := Str("smooth tracking shot"),
    "lighting" := Str("natural daylight"),
    "style" := Str("documentary realism")])
  const Podcast := Template("Podcast Host", map[
    "subject" := Str("Welcome to today's episode"),
    "accent" := Str("American"),
    "emotion" := Str("friendly and conversational"),
    "pace" := Str("medium"),
    "voice_gender" := Str("neutral"),
    "use_case" := Str("podcast")])
  const Audiobook := Template("Audiobook Narrator", map[
    "subject" := Str("Chapter one begins"),
    "accent" := Str("British"),
    "emotion" := Str("calm and engaging"),
    "pace" := Str("slow"),
    "voice_gender" := Str("male"),
    "use_case" := Str("audiobook")])

  const ImageTemplates := map["portrait" := Portrait, "landscape" := Landscape, "fantasy" := Fantasy]
  const VideoTemplates := map["cinematic" := Cinematic, "nature" := Nature]
  const VoiceTemplates := map["podcast" := Podcast, "audiobook" := Audiobook]

  /** `TEMPLATES`: the presets each modality offers. */
  const Templates: map<string, map<string, Template>> :=
    map["image" := ImageTemplates, "video" := VideoTemplates, "voice" := VoiceTemplates]
}
