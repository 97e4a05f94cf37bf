/**
 * The prompts sent to the text service.  A prompt is kept as the template
 * it fills together with the values filled in; `Render` gives the exact
 * text, template and all, that `str.format` produces in the source.  The
 * text service is modelled as a function of this value, so every property
 * proved about the callers holds for any service that sees only the
 * rendered text.
 */
module Prompts {

  /** The taste-profile template up to its `{repo_list}` placeholder. */
  const ProfileHead: string := "Analyze this GitHub user's starred repositories and create a developer interest profile.\n\nStarred Repositories (showing name, language, and description):\n"

  /** The taste-profile template after its placeholder, with `{{`/`}}` already turned into braces by `format`. */
  const ProfileTail: string := "\n\nBased on these repositories, create a detailed profile of this developer's interests.\n\nReturn a JSON object with these exact fields:\n- \"primary_interests\": array of top 5 main technology areas they're interested in\n- \"languages\": array of their preferred programming languages, ranked by frequency\n- \"project_types\": array of types of projects they like (e.g., \"frameworks\", \"cli-tools\", \"libraries\", \"devops\", \"web-apps\")\n- \"themes\": array of recurring themes across repos (e.g., \"machine-learning\", \"web-development\", \"infrastructure\", \"productivity\")\n- \"summary\": a 2-3 sentence description of this developer's interests and focus areas\n\nExample response format:\n{\n  \"primary_interests\": [\"Machine Learning\", \"Web Development\", \"DevOps\"],\n  \"languages\": [\"Python\", \"TypeScript\", \"Go\"],\n  \"project_types\": [\"libraries\", \"cli-tools\", \"frameworks\"],\n  \"themes\": [\"automation\", \"data-science\", \"cloud-native\"],\n  \"summary\": \"A developer focused on...\"\n}"

  /** The scoring template up to its `{profile}` placeholder. */
  const ScoringHead: string := "You are evaluating whether a GitHub repository would interest a specific developer.\n\nDeveloper Profile:\n"

  /** The scoring template after its `{stars}` placeholder, with `{{`/`}}` already turned into braces by `format`. */
  const ScoringTail: string := "\n\nBased on the developer's interests and this repository's focus, score the relevance from 0.0 to 1.0:\n- 1.0 = Perfect match, exactly what they'd love\n- 0.7-0.9 = Strong match, aligned with their interests\n- 0.4-0.6 = Moderate match, somewhat related\n- 0.1-0.3 = Weak match, tangentially related\n- 0.0 = No match\n\nAlso provide a brief 1-2 sentence explanation of why this repo might (or might not) interest them.\n\nReturn ONLY a JSON object like this:\n{\"score\": 0.85, \"explanation\": \"This library aligns with their interest in...\"}"

  /** The instruction `generate_json` appends to every prompt. */
  const JsonInstruction: string := "\n\nRespond ONLY with valid JSON, no other text."

  datatype Prompt =
    | TasteProfile(repoList: string)
    | Scoring(profile: string, name: string, description: string, topics: string, language: string, stars: string)
    | JsonMode(prompt: Prompt)

  /** The text of a prompt. */
  function Render(p: Prompt): (r: string)
    ensures p.JsonMode? ==> r == Render(p.prompt) + JsonInstruction
  {
    match p
    case TasteProfile(repoList) => ProfileHead + repoList + ProfileTail
    case Scoring(profile, name, description, topics, language, stars) =>
      ScoringHead + profile + "\n\nRepository to evaluate:\n- Name: " + name
        + "\n- Description: " + description + "\n- Topics: " + topics
        + "\n- Language: " + language + "\n- Stars: " + stars + ScoringTail
    case JsonMode(q) => Render(q) + JsonInstruction
  }

  /**
   * A profile prompt's text determines its repository list: the fixed head
   * and tail around it have known lengths.
   */
  lemma ProfileRenderInjective(a: string, b: string)
    requires Render(TasteProfile(a)) == Render(TasteProfile(b))
    ensures a == b
  {
    var ra, rb := Render(TasteProfile(a)), Render(TasteProfile(b));
    assert |a| == |b|;
    assert a == ra[|ProfileHead|..|ProfileHead| + |a|];
    assert b == rb[|ProfileHead|..|ProfileHead| + |b|];
  }

  /** A JSON-mode prompt's text determines the text of the prompt it wraps. */
  lemma JsonModeRenderInjective(p: Prompt, q: Prompt)
    requires Render(JsonMode(p)) == Render(JsonMode(q))
    ensures Render(p) == Render(q)
  {
    var rp, rq := Render(JsonMode(p)), Render(JsonMode(q));
    assert |Render(p)| == |Render(q)|;
    assert Render(p) == rp[..|Render(p)|];
    assert Render(q) == rq[..|Render(q)|];
  }
}
