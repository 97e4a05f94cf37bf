/**
 * The taste profile: the prompt built from a user's most-starred
 * repositories, the conditional store of the model's answer on the user row,
 * and the six-line display of a stored profile.
 */
module ProfileAnalyzer {
  import opened Wrappers
  import opened Json
  import opened Records
  import opened Tables
  import opened Seqs
  import Text
  import LlmClient
  import opened Prompts

  /** `LIMIT 100` on the starred repositories fed to the prompt. */
  const ProfileRepoLimit: nat := 100
  /** `[:100]` on a description. */
  const DescriptionLimit: nat := 100
  /** `[:5]` on a repository's topics. */
  const TopicLimit: nat := 5

  /** SQLAlchemy's `NoResultFound` from `scalar_one()` on a missing user row. */
  const NoUserRow: string := "No row was found when one was required"

  // ---------------------------------------------------------------------
  // The prompt
  // ---------------------------------------------------------------------

  /** `(repo.description or "")[:100]`: at most a hundred characters, a prefix of the description. */
  function DescriptionText(repo: StarredRepo): (r: string)
    ensures |r| <= DescriptionLimit && |r| <= |repo.description.GetOr("")|
    ensures r == repo.description.GetOr("")[..|r|]
    ensures |repo.description.GetOr("")| <= DescriptionLimit ==> r == repo.description.GetOr("")
  {
    Take(repo.description.GetOr(""), DescriptionLimit)
  }

  /** `", ".join(topics[:5]) if topics else "no topics"`. */
  function TopicsText(topics: seq<string>): string {
    if topics == [] then "no topics" else Text.Join(", ", Take(topics, TopicLimit))
  }

  /** One line of the repository list. */
  function RepoLine(repo: StarredRepo): string {
    "- " + repo.fullName + " (" + OrDefault(repo.language, "unknown") + "): " + DescriptionText(repo)
      + " [Topics: " + TopicsText(DecodeTopics(repo.topics)) + "]"
  }

  function RepoLines(repos: seq<StarredRepo>): (r: seq<string>)
    ensures |r| == |repos| && forall k :: 0 <= k < |r| ==> r[k] == RepoLine(repos[k])
  {
    seq(|repos|, k requires 0 <= k < |repos| => RepoLine(repos[k]))
  }

  /** The repositories the prompt shows: the user's, most stars first (NULLs last), at most a hundred. */
  function ProfileRepos(starred: seq<StarredRepo>, userId: int): seq<StarredRepo> {
    Take(ByStarsDesc(OfUser(starred, StarredKey, userId)), ProfileRepoLimit)
  }


  /** `TASTE_PROFILE_PROMPT.format(repo_list="\n".join(repo_list))`. */
  function ProfilePrompt(repos: seq<StarredRepo>): Prompt {
    TasteProfile(Text.Join("\n", RepoLines(repos)))
  }

  /** The loop that formats the repository list, one line per repository, in order. */
  method FormatRepoLines(repos: seq<StarredRepo>) returns (lines: seq<string>)
    ensures lines == RepoLines(repos)
  {
    lines := [];
    for i := 0 to |repos|
      invariant lines == RepoLines(repos[..i])
    {
      assert repos[..i + 1][..i] == repos[..i];
      lines := lines + [RepoLine(repos[i])];
    }
    assert repos[..|repos|] == repos;
  }

  // ---------------------------------------------------------------------
  // Building and storing the profile
  // ---------------------------------------------------------------------

  /** The answer `generate_json` gives to the prompt built from the user's repositories. */
  function ProfileReply(starred: seq<StarredRepo>, userId: int,
                        llm: Prompt -> Result<string>, loads: string -> Option<Json>): Result<Option<Json>>
  {
    LlmClient.GenerateJson(ProfilePrompt(ProfileRepos(starred, userId)), llm, loads)
  }

  /**
   * What `build_taste_profile` returns for a repository list and the service's
   * reply: nothing without repositories; otherwise the reply, unless the
   * service raised or the store of a truthy answer finds no user row.
   */
  function Outcome(repos: seq<StarredRepo>, reply: Result<Option<Json>>, users: map<int, User>, userId: int): Result<Option<Json>>
  {
    if repos == [] then Ok(None)
    else match reply
      case Err(e) => Err(e)
      case Ok(p) => if p.Some? && Truthy(p.value) && userId !in users then Err(NoUserRow) else Ok(p)
  }

  /** `build_taste_profile` on the stored rows. */
  function ProfileOutcome(users: map<int, User>, starred: seq<StarredRepo>, userId: int,
                          llm: Prompt -> Result<string>, loads: string -> Option<Json>): Result<Option<Json>>
  {
    Outcome(ProfileRepos(starred, userId), ProfileReply(starred, userId, llm, loads), users, userId)
  }

  /** A user row with its taste profile and the time it was built. */
  function WithProfile(user: User, profile: Json, now: int): User {
    user.(tasteProfile := Some(profile), tasteProfileUpdatedAt := Some(now))
  }

  /** The users after an outcome: a truthy answer overwrites the profile and its timestamp. */
  function Stored(out: Result<Option<Json>>, users: map<int, User>, userId: int, now: int): map<int, User>
  {
    match out
    case Ok(Some(p)) => if Truthy(p) && userId in users then users[userId := WithProfile(users[userId], p, now)] else users
    case _ => users
  }

  /** The users after `build_taste_profile`. */
  function UsersAfter(users: map<int, User>, starred: seq<StarredRepo>, userId: int,
                      llm: Prompt -> Result<string>, loads: string -> Option<Json>, now: int): map<int, User>
  {
    Stored(ProfileOutcome(users, starred, userId, llm, loads), users, userId, now)
  }

  /** `build_taste_profile(user_id)`, with the text service, the JSON parser and the clock as parameters. */
  method BuildTasteProfile(db: Database, userId: int, llm: Prompt -> Result<string>,
                           loads: string -> Option<Json>, now: int) returns (r: Result<Option<Json>>)
    modifies db`users
    ensures r == ProfileOutcome(old(db.users), db.starred, userId, llm, loads)
    ensures db.users == UsersAfter(old(db.users), db.starred, userId, llm, loads, now)
  {
    var repos := ProfileRepos(db.starred, userId);
    if repos == [] {
      return Ok(None);
    }
    var lines := FormatRepoLines(repos);
    var prompt := TasteProfile(Text.Join("\n", lines));
    var reply := LlmClient.GenerateJson(prompt, llm, loads);
    assert reply == ProfileReply(db.starred, userId, llm, loads);
    r := StoreProfile(db, userId, repos, reply, now);
  }

  /** The end of `build_taste_profile`: the answer decides the result and whether the user row is written. */
  method StoreProfile(db: Database, userId: int, repos: seq<StarredRepo>, reply: Result<Option<Json>>, now: int)
    returns (r: Result<Option<Json>>)
    modifies db`users
    ensures r == Outcome(repos, reply, old(db.users), userId)
    ensures db.users == Stored(r, old(db.users), userId, now)
  {
    if repos == [] {
      return Ok(None);
    }
    if reply.Err? {
      return Err(reply.message);
    }
    if reply.value.Some? && Truthy(reply.value.value) {
      if userId !in db.users {
        return Err(NoUserRow);
      }
      db.users := db.users[userId := WithProfile(db.users[userId], reply.value.value, now)];
    }
    r := Ok(reply.value);
  }

  // ---------------------------------------------------------------------
  // Properties of the profile build
  // ---------------------------------------------------------------------

  /** Without starred repositories there is no profile and no write. */
  lemma NoReposNoProfile(users: map<int, User>, starred: seq<StarredRepo>, userId: int,
                         llm: Prompt -> Result<string>, loads: string -> Option<Json>, now: int)
    requires forall k :: 0 <= k < |starred| ==> starred[k].userId != userId
    ensures ProfileOutcome(users, starred, userId, llm, loads) == Ok(None)
    ensures UsersAfter(users, starred, userId, llm, loads, now) == users
  {
    OfUserOfOthers(starred, StarredKey, userId);
    ByStarsDescFacts([]);
  }

  /**
   * The stored profile changes exactly when the answer is truthy and the user
   * row exists; it then holds that answer and the given time, and no other
   * user changes.
   */
  lemma StoredOnlyWhenTruthy(users: map<int, User>, starred: seq<StarredRepo>, userId: int,
                             llm: Prompt -> Result<string>, loads: string -> Option<Json>, now: int)
    ensures var after := UsersAfter(users, starred, userId, llm, loads, now);
      var out := ProfileOutcome(users, starred, userId, llm, loads);
      && after.Keys == users.Keys
      && (forall u :: u in users && u != userId ==> after[u] == users[u])
      && (after != users ==> out.Ok? && out.value.Some? && Truthy(out.value.value))
      && (out.Ok? && out.value.Some? && Truthy(out.value.value) ==>
            userId in after && after[userId].tasteProfile == out.value
            && after[userId].tasteProfileUpdatedAt == Some(now))
  {
    var repos, reply := ProfileRepos(starred, userId), ProfileReply(starred, userId, llm, loads);
    var out := Outcome(repos, reply, users, userId);
    assert out == ProfileOutcome(users, starred, userId, llm, loads);
    assert UsersAfter(users, starred, userId, llm, loads, now) == Stored(out, users, userId, now);
    OutcomeStorable(repos, reply, users, userId);
    StoredFacts(out, users, userId, now);
  }

  /** A truthy answer comes out of the build only when the user row exists. */
  lemma OutcomeStorable(repos: seq<StarredRepo>, reply: Result<Option<Json>>, users: map<int, User>, userId: int)
    ensures var out := Outcome(repos, reply, users, userId);
      out.Ok? && out.value.Some? && Truthy(out.value.value) ==> userId in users
  {
  }

  /**
   * Storing an outcome keeps every user row and its token, changes only the
   * given user, and changes it exactly when the answer is truthy.
   */
  lemma StoredFacts(out: Result<Option<Json>>, users: map<int, User>, userId: int, now: int)
    requires out.Ok? && out.value.Some? && Truthy(out.value.value) ==> userId in users
    ensures var after := Stored(out, users, userId, now);
      && after.Keys == users.Keys
      && (forall u :: u in users ==> after[u].accessToken == users[u].accessToken)
      && (forall u :: u in users && u != userId ==> after[u] == users[u])
      && (after != users ==> out.Ok? && out.value.Some? && Truthy(out.value.value))
      && (out.Ok? && out.value.Some? && Truthy(out.value.value) ==>
            userId in after && after[userId].tasteProfile == out.value
            && after[userId].tasteProfileUpdatedAt == Some(now))
  {
  }

  /**
   * The prompt shows at most a hundred of the user's repositories, most
   * starred first with unknown counts last, and all of them when there are
   * no more than a hundred.
   */
  lemma ProfileReposFacts(starred: seq<StarredRepo>, userId: int)
    ensures var repos := ProfileRepos(starred, userId);
      && |repos| <= ProfileRepoLimit
      && (forall k :: 0 <= k < |repos| ==> repos[k].userId == userId && repos[k] in starred)
      && (forall i, j :: 0 <= i < j < |repos| && repos[j].starsCount.Some? ==>
            repos[i].starsCount.Some? && repos[i].starsCount.value >= repos[j].starsCount.value)
      && (|OfUser(starred, StarredKey, userId)| <= ProfileRepoLimit ==>
            multiset(repos) == multiset(OfUser(starred, StarredKey, userId)))
  {
    var mine := OfUser(starred, StarredKey, userId);
    var sorted := ByStarsDesc(mine);
    var repos := ProfileRepos(starred, userId);
    ByStarsDescFacts(mine);
    assert |sorted| == |mine| by {
      assert |multiset(sorted)| == |multiset(mine)|;
    }
    forall k | 0 <= k < |repos| ensures repos[k].userId == userId && repos[k] in starred {
      assert repos[k] == sorted[k];
      assert sorted[k] in multiset(mine);
      assert sorted[k] in mine;
    }
  }

  /** `"\n".join` of the lines splits back into the lines when no field holds a line break. */
  lemma {:induction false} PromptLinesRecoverable(repos: seq<StarredRepo>)
    requires repos != []
    requires forall k :: 0 <= k < |repos| ==> NoLineBreak(repos[k])
    ensures Text.Split(Text.Join("\n", RepoLines(repos)), "\n") == RepoLines(repos)
  {
    var lines := RepoLines(repos);
    forall line | line in lines ensures '\n' !in line {
      var k :| 0 <= k < |lines| && lines[k] == line;
      RepoLineNoBreak(repos[k]);
    }
    Text.SplitJoin(lines, "\n");
  }

  /** No field that goes into a repository's line holds a line break. */
  predicate NoLineBreak(repo: StarredRepo) {
    && '\n' !in repo.fullName
    && '\n' !in repo.language.GetOr("")
    && '\n' !in repo.description.GetOr("")
    && forall t :: t in DecodeTopics(repo.topics) ==> '\n' !in t
  }

  lemma {:induction false} RepoLineNoBreak(repo: StarredRepo)
    requires NoLineBreak(repo)
    ensures '\n' !in RepoLine(repo)
  {
    var topics := DecodeTopics(repo.topics);
    if topics != [] {
      assert forall t :: t in Take(topics, TopicLimit) ==> t in topics;
      Text.JoinAvoids(", ", Take(topics, TopicLimit), '\n');
    }
    var d := repo.description.GetOr("");
    assert forall c :: c in DescriptionText(repo) ==> c in d;
  }

  /**
   * The topics part lists the first five topics and splits back into them
   * when no topic holds a comma; without topics it reads "no topics".
   */
  lemma {:induction false} TopicsTextFirstFive(topics: seq<string>)
    requires forall t :: t in topics ==> ',' !in t
    ensures topics == [] ==> TopicsText(topics) == "no topics"
    ensures topics != [] ==> Text.Split(TopicsText(topics), ", ") == topics[..if |topics| < TopicLimit then |topics| else TopicLimit]
  {
    if topics != [] {
      var first := Take(topics, TopicLimit);
      assert forall t :: t in first ==> t in topics;
      Text.SplitJoin(first, ", ");
    }
  }

  // ---------------------------------------------------------------------
  // Displaying a profile
  // ---------------------------------------------------------------------

  const NoProfile: string := "No profile available"

  /** The six display lines for given field texts. */
  function DisplayLines(summary: string, interests: string, languages: string, types: string, themes: string)
    : seq<string>
  {
    ["**Summary:** " + summary, "", "**Primary Interests:** " + interests,
     "**Preferred Languages:** " + languages, "**Project Types:** " + types, "**Themes:** " + themes]
  }

  /**
   * `format_profile_for_display(profile)`: a falsy profile gives the
   * placeholder; a truthy one that is not an object raises on `.get`; a list
   * field holding a non-string raises in `join`.  `render` is how Python
   * prints a non-string summary.
   */
  function FormatProfileForDisplay(profile: Json, render: Json -> string): (r: Result<string>)
    ensures !Truthy(profile) ==> r == Ok(NoProfile)
    ensures Truthy(profile) && !profile.JObj? ==> r.Err?
    ensures Truthy(profile) && r.Ok? ==>
      && ShownField(profile, "summary", "N/A", render).Ok? && JoinedField(profile, "primary_interests").Ok?
      && JoinedField(profile, "languages").Ok? && JoinedField(profile, "project_types").Ok?
      && JoinedField(profile, "themes").Ok?
  {
    if !Truthy(profile) then Ok(NoProfile)
    else
      var summary := ShownField(profile, "summary", "N/A", render);
      var interests := JoinedField(profile, "primary_interests");
      var languages := JoinedField(profile, "languages");
      var types := JoinedField(profile, "project_types");
      var themes := JoinedField(profile, "themes");
      if summary.Err? then Err(summary.message)
      else if interests.Err? then Err(interests.message)
      else if languages.Err? then Err(languages.message)
      else if types.Err? then Err(types.message)
      else if themes.Err? then Err(themes.message)
      else Ok(Text.Join("\n", DisplayLines(summary.value, interests.value, languages.value, types.value, themes.value)))
  }

  /** The six display lines come back from their join when no field text holds a line break. */
  lemma {:induction false} DisplayLinesSplit(summary: string, interests: string, languages: string, types: string, themes: string)
    requires '\n' !in summary && '\n' !in interests && '\n' !in languages && '\n' !in types && '\n' !in themes
    ensures Text.Split(Text.Join("\n", DisplayLines(summary, interests, languages, types, themes)), "\n")
      == DisplayLines(summary, interests, languages, types, themes)
  {
    var lines := DisplayLines(summary, interests, languages, types, themes);
    forall line | line in lines ensures '\n' !in line {
      var k :| 0 <= k < 6 && lines[k] == line;
    }
    Text.SplitJoin(lines, "\n");
  }

  /**
   * A displayed profile is exactly six lines in a fixed order — summary,
   * blank line, interests, languages, project types, themes — when none of
   * the field texts holds a line break.
   */
  lemma DisplaySixLines(profile: Json, render: Json -> string)
    requires Truthy(profile)
    requires FormatProfileForDisplay(profile, render).Ok?
    requires '\n' !in ShownField(profile, "summary", "N/A", render).value
    requires '\n' !in JoinedField(profile, "primary_interests").value && '\n' !in JoinedField(profile, "languages").value
    requires '\n' !in JoinedField(profile, "project_types").value && '\n' !in JoinedField(profile, "themes").value
    ensures Text.Split(FormatProfileForDisplay(profile, render).value, "\n")
      == DisplayLines(ShownField(profile, "summary", "N/A", render).value,
                      JoinedField(profile, "primary_interests").value, JoinedField(profile, "languages").value,
                      JoinedField(profile, "project_types").value, JoinedField(profile, "themes").value)
  {
    DisplayLinesSplit(ShownField(profile, "summary", "N/A", render).value,
                      JoinedField(profile, "primary_interests").value, JoinedField(profile, "languages").value,
                      JoinedField(profile, "project_types").value, JoinedField(profile, "themes").value);
  }

  /**
   * An object profile without any of the five fields shows every default:
   * "N/A" for the summary and empty lists elsewhere.
   */
  lemma DisplayDefaults(profile: Json, render: Json -> string)
    requires profile.JObj? && profile.members != []
    requires forall key :: key in MemberKeys(profile.members) ==>
      key != "summary" && key != "primary_interests" && key != "languages" && key != "project_types" && key != "themes"
    ensures FormatProfileForDisplay(profile, render) == Ok(Text.Join("\n", DisplayLines("N/A", "", "", "", "")))
  {
  }
}
