/**
 * The shape of each constant table, stated one table at a time so that later
 * proofs use these facts instead of unfolding the literals themselves.
 */
module ConfigShape {
  import opened Config

  lemma ModelsShape()
    ensures Models.Keys == {"image", "video", "voice"}
    ensures Models["image"] == ImageModels && Models["video"] == VideoModels && Models["voice"] == VoiceModels
  {
  }

  lemma RulesShape()
    ensures RequiredFields.Keys == {"image", "video", "voice"}
    ensures RequiredFields["image"] == ImageRules && RequiredFields["video"] == VideoRules
    ensures RequiredFields["voice"] == VoiceRules
  {
  }

  lemma FieldsShape()
    ensures FieldDefinitions.Keys == {"image", "video", "voice"}
    ensures FieldDefinitions["image"] == ImageFields && FieldDefinitions["video"] == VideoFields
    ensures FieldDefinitions["voice"] == VoiceFields
  {
  }

  lemma TemplatesShape()
    ensures Templates.Keys == {"image", "video", "voice"}
    ensures Templates["image"] == ImageTemplates && Templates["video"] == VideoTemplates
    ensures Templates["voice"] == VoiceTemplates
  {
  }

  /** A modality of the rule table is one of the three. */
  lemma ModalityCases(m: string)
    requires m in RequiredFields
    ensures m == "image" || m == "video" || m == "voice"
  {
    RulesShape();
  }

  lemma ImageRulesShape()
    ensures ImageRules.common == ["subject", "style"]
    ensures ImageRules.models.Keys == {"dalle-3", "midjourney-v6", "sdxl", "imagen", "firefly"}
    ensures forall model :: model in ImageRules.models ==> ImageRules.models[model] == []
  {
  }

  lemma VideoRulesShape()
    ensures VideoRules.common == ["scene", "action", "duration_seconds"]
    ensures VideoRules.models.Keys == {"runway-gen3", "pika", "sora"}
    ensures forall model :: model in VideoRules.models ==>
      VideoRules.models[model] == if model == "runway-gen3" then ["camera_motion"] else []
  {
  }

  lemma VoiceRulesShape()
    ensures VoiceRules.common == ["accent", "emotion", "pace"]
    ensures VoiceRules.models.Keys == {"openai-voice", "elevenlabs"}
    ensures forall model :: model in VoiceRules.models ==> VoiceRules.models[model] == []
  {
  }

  lemma ImageTemplatesShape()
    ensures ImageTemplates.Keys == {"portrait", "landscape", "fantasy"}
    ensures ImageTemplates["portrait"] == Portrait && ImageTemplates["landscape"] == Landscape
    ensures ImageTemplates["fantasy"] == Fantasy
  {
  }

  lemma VideoTemplatesShape()
    ensures VideoTemplates.Keys == {"cinematic", "nature"}
    ensures VideoTemplates["cinematic"] == Cinematic && VideoTemplates["nature"] == Nature
  {
  }

  lemma VoiceTemplatesShape()
    ensures VoiceTemplates.Keys == {"podcast", "audiobook"}
    ensures VoiceTemplates["podcast"] == Podcast && VoiceTemplates["audiobook"] == Audiobook
  {
  }
}
