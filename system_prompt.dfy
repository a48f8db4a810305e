/** The table of system prompts and the total lookup `get_prompt`. Each
    prompt is represented by its opening line, which already tells the three
    apart. */
module SystemPrompt {
  const DefaultPrompt := "You are a Multimodal AI Assistant powered by a Multi-Modal Agent."
  const FriendlyPrompt := "You are a Friendly Multimodal AI Assistant powered by a Multi-Modal Agent."
  const ExpertPrompt := "You are an Expert Multimodal Research Assistant powered by a Multi-Modal Agent."

  /** `SYSTEM_PROMPTS`. */
  const SystemPrompts: map<string, string> :=
    map["default" := DefaultPrompt, "friendly" := FriendlyPrompt, "expert" := ExpertPrompt]

  /** `get_prompt(prompt_type)`: the entry for `promptType`, and the default
      prompt for any key the table lacks. */
  function GetPrompt(promptType: string := "default"): (r: string)
    ensures r in SystemPrompts.Values
    ensures promptType in SystemPrompts ==> r == SystemPrompts[promptType]
    ensures promptType !in SystemPrompts ==> r == SystemPrompts["default"]
  {
    if promptType in SystemPrompts then SystemPrompts[promptType] else SystemPrompts["default"]
  }

  lemma PromptsDistinct()
    ensures DefaultPrompt != FriendlyPrompt && DefaultPrompt != ExpertPrompt && FriendlyPrompt != ExpertPrompt
  {
    assert |DefaultPrompt| == 65 && |FriendlyPrompt| == 74 && |ExpertPrompt| == 79;
  }

  /** The table holds exactly the three keys, each with its own prompt. */
  lemma ThreeKeys()
    ensures SystemPrompts.Keys == {"default", "friendly", "expert"}
    ensures |SystemPrompts.Values| == 3
  {
    PromptsDistinct();
    assert SystemPrompts["default"] == DefaultPrompt;
    assert SystemPrompts["friendly"] == FriendlyPrompt;
    assert SystemPrompts["expert"] == ExpertPrompt;
    forall v | v in SystemPrompts.Values
      ensures v in {DefaultPrompt, FriendlyPrompt, ExpertPrompt}
    {
      var k :| k in SystemPrompts && SystemPrompts[k] == v;
    }
    assert SystemPrompts.Values == {DefaultPrompt, FriendlyPrompt, ExpertPrompt};
  }

  /** The default prompt comes back exactly for the keys other than
      `friendly` and `expert`, so the lookup is total and falls back. */
  lemma DefaultExactlyWhenNotOther(promptType: string)
    ensures GetPrompt(promptType) == DefaultPrompt <==> promptType != "friendly" && promptType != "expert"
  {
    PromptsDistinct();
  }

  lemma KnownKeys()
    ensures GetPrompt("default") == DefaultPrompt
    ensures GetPrompt("friendly") == FriendlyPrompt
    ensures GetPrompt("expert") == ExpertPrompt
  {
  }

  /** With no argument the default prompt is returned. */
  lemma NoArgument()
    ensures GetPrompt() == DefaultPrompt
  {
  }

  /** The lookup is case-sensitive: an upper-case key is unknown. */
  lemma CaseSensitive(key: string)
    requires key == "FRIENDLY"
    ensures GetPrompt(key) == DefaultPrompt
  {
    assert key[0] != "friendly"[0] && key[0] != "expert"[0] && key[0] != "default"[0];
  }
}
