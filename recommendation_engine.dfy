/**
 * Scoring and selection: each of the user's fifty most-seen candidates is
 * scored by the text-generation service against the taste profile; those
 * scoring at least 0.4 are ranked by score and the best `top_n` are stored
 * as one new batch of recommendations.
 */
module RecommendationEngine {
  import opened Wrappers
  import opened Json
  import opened Records
  import opened Tables
  import opened Seqs
  import Text
  import LlmClient
  import opened Prompts

  /** `LIMIT 50` on the candidates scored. */
  const CandidatesScored: nat := 50
  /** A candidate is kept when its score is at least this. */
  const ScoreThreshold: real := 0.4
  /** The default of `top_n`. */
  const DefaultTopN: int := 20

  /** The message of the `IntegrityError` a repeated recommendation key raises on commit. */
  const DuplicateRecommendation: string := "IntegrityError: UNIQUE constraint failed: recommendations.user_id, recommendations.github_repo_id, recommendations.batch_id"

  /**
   * The outside services scoring depends on: the text-generation service,
   * `json.loads`, `float()` on a string (`None` for a `ValueError`), and how
   * Python prints a non-string value inside an f-string.
   */
  datatype Oracles = Oracles(
    llm: Prompt -> Result<string>,
    loads: string -> Option<Json>,
    parseFloat: string -> Option<real>,
    render: Json -> string)

  /** What `score_candidate` returns for a candidate it could score. */
  datatype Score = Score(score: real, explanation: Json)

  /** A kept candidate with its score: the dictionaries `scored` holds. */
  datatype Scored = Scored(candidate: CandidateRepo, score: real, explanation: Json)

  // ---------------------------------------------------------------------
  // score_candidate
  // ---------------------------------------------------------------------

  /**
   * The profile block of the scoring prompt.  The five fields are read in
   * the order the f-string reads them; the first that raises decides the
   * error.
   */
  function ProfileText(profile: Json, render: Json -> string): (r: Result<string>)
    ensures !profile.JObj? ==> r.Err?
  {
    var interests := JoinedField(profile, "primary_interests");
    var languages := JoinedField(profile, "languages");
    var types := JoinedField(profile, "project_types");
    var themes := JoinedField(profile, "themes");
    var summary := ShownField(profile, "summary", "N/A", render);
    if interests.Err? then Err(interests.message)
    else if languages.Err? then Err(languages.message)
    else if types.Err? then Err(types.message)
    else if themes.Err? then Err(themes.message)
    else if summary.Err? then Err(summary.message)
    else Ok("\nPrimary Interests: " + interests.value + "\nPreferred Languages: " + languages.value
            + "\nProject Types: " + types.value + "\nThemes: " + themes.value + "\nSummary: " + summary.value + "\n")
  }

  /** The texts the prompt shows for a candidate's optional columns. */
  datatype RepoTexts = RepoTexts(description: string, topics: string, language: string, stars: string)

  /**
   * The candidate's fields as the prompt shows them: a missing or empty
   * description, language or topic list and a missing or zero star count
   * give "No description", "Unknown", "No topics" and 0.
   */
  function Texts(c: CandidateRepo): (t: RepoTexts)
    ensures c.description.None? || c.description == Some("") ==> t.description == "No description"
    ensures c.language.None? || c.language == Some("") ==> t.language == "Unknown"
    ensures DecodeTopics(c.topics) == [] ==> t.topics == "No topics"
    ensures c.starsCount.None? || c.starsCount == Some(0) ==> t.stars == "0"
  {
    var topics := DecodeTopics(c.topics);
    RepoTexts(
      OrDefault(c.description, "No description"),
      if topics == [] then "No topics" else Text.Join(", ", topics),
      OrDefault(c.language, "Unknown"),
      Text.IntToString(c.starsCount.GetOr(0)))
  }

  /** `SCORING_PROMPT.format(...)` for a profile block and a candidate. */
  function ScoringPrompt(profileText: string, c: CandidateRepo): Prompt {
    var t := Texts(c);
    Scoring(profileText, c.fullName, t.description, t.topics, t.language, t.stars)
  }

  /**
   * `float(v)`: numbers are kept, booleans become 1.0 and 0.0, strings are
   * parsed, and anything else raises `TypeError`.
   */
  function ToFloat(v: Json, parseFloat: string -> Option<real>): (r: Result<real>)
    ensures v.JNum? ==> r == Ok(v.n)
    ensures v.JBool? ==> r == Ok(if v.b then 1.0 else 0.0)
    ensures v.JStr? ==> (r.Ok? <==> parseFloat(v.s).Some?)
    ensures v.JNull? || v.JArr? || v.JObj? ==> r.Err?
  {
    match v
    case JNum(n) => Ok(n)
    case JBool(b) => Ok(if b then 1.0 else 0.0)
    case JStr(s) =>
      (match parseFloat(s)
       case Some(x) => Ok(x)
       case None => Err("ValueError: could not convert string to float"))
    case _ => Err("TypeError: float() argument must be a string or a real number")
  }

  /**
   * The coercion of a parsed reply: a falsy reply scores nothing; otherwise
   * the reply must be an object, a missing score counts as 0 and a missing
   * explanation as the empty string.
   */
  function CoerceReply(reply: Json, parseFloat: string -> Option<real>): (r: Result<Option<Score>>)
    ensures !Truthy(reply) ==> r == Ok(None)
    ensures Truthy(reply) && !reply.JObj? ==> r.Err?
    ensures Truthy(reply) && reply.JObj? && "score" !in MemberKeys(reply.members) ==>
      r.Ok? && r.value.Some? && r.value.value.score == 0.0
    ensures Truthy(reply) && reply.JObj? && "explanation" !in MemberKeys(reply.members) && r.Ok? ==>
      r.value.Some? && r.value.value.explanation == JStr("")
    ensures r.Ok? && r.value.Some? ==> Truthy(reply) && reply.JObj?
  {
    if !Truthy(reply) then Ok(None)
    else match Get(reply, "score", JNum(0.0))
      case Err(e) => Err(e)
      case Ok(v) =>
        match ToFloat(v, parseFloat)
        case Err(e) => Err(e)
        case Ok(x) => Ok(Some(Score(x, Get(reply, "explanation", JStr("")).value)))
  }

  /**
   * `score_candidate(candidate, profile)`: `Ok(None)` when the service's
   * reply holds no JSON or only a falsy one; an error when the profile,
   * the service or the coercion raises.
   */
  function ScoreCandidate(c: CandidateRepo, profile: Json, o: Oracles): (r: Result<Option<Score>>)
    ensures !profile.JObj? ==> r.Err?
  {
    match ProfileText(profile, o.render)
    case Err(e) => Err(e)
    case Ok(text) =>
      match LlmClient.GenerateJson(ScoringPrompt(text, c), o.llm, o.loads)
      case Err(e) => Err(e)
      case Ok(None) => Ok(None)
      case Ok(Some(reply)) => CoerceReply(reply, o.parseFloat)
  }

  /** The kept entry for a candidate whose score passes the threshold. */
  predicate Passes(s: Result<Option<Score>>) {
    s.Ok? && s.value.Some? && s.value.value.score >= ScoreThreshold
  }

  // ---------------------------------------------------------------------
  // generate_recommendations: the specification
  // ---------------------------------------------------------------------

  function SourceKey(c: CandidateRepo): real {
    c.sourceCount as real
  }

  function ScoreKey(s: Scored): real {
    s.score
  }

  /** The candidates scored: the user's, by `source_count` descending (ties in table order), at most fifty. */
  function TopCandidates(candidates: seq<CandidateRepo>, userId: int): seq<CandidateRepo> {
    Take(SortDesc(OfUser(candidates, CandidateKey, userId), SourceKey), CandidatesScored)
  }

  /** `score_candidate` against one profile, as a function of the candidate. */
  function Judge(profile: Json, o: Oracles): CandidateRepo -> Result<Option<Score>> {
    c => ScoreCandidate(c, profile, o)
  }

  /** Whether a candidate passes the threshold under `judge`. */
  function PassingUnder(judge: CandidateRepo -> Result<Option<Score>>): CandidateRepo -> bool {
    c => Passes(judge(c))
  }

  /** The dictionary `scored` holds for a passing candidate: its own score and explanation. */
  function ScoredBy(c: CandidateRepo, judge: CandidateRepo -> Result<Option<Score>>): Scored
    requires Passes(judge(c))
  {
    Scored(c, judge(c).value.value.score, judge(c).value.value.explanation)
  }

  /** The candidates of the kept entries, in order. */
  function CandidatesOf(kept: seq<Scored>): seq<CandidateRepo> {
    if kept == [] then [] else CandidatesOf(kept[..|kept| - 1]) + [kept[|kept| - 1].candidate]
  }

  /**
   * The scoring loop: candidates scored in order, those passing the
   * threshold kept in that order; the first candidate whose scoring raises
   * ends the loop with its error.
   */
  function Kept(cs: seq<CandidateRepo>, judge: CandidateRepo -> Result<Option<Score>>): (r: Result<seq<Scored>>)
    ensures r.Ok? ==> forall k :: 0 <= k < |r.value| ==> r.value[k].score >= ScoreThreshold
    ensures r.Ok? ==> forall k :: 0 <= k < |r.value| ==> r.value[k].candidate in cs
    ensures r.Ok? ==> forall k :: 0 <= k < |cs| ==> judge(cs[k]).Ok?
    ensures r.Ok? ==> forall k :: 0 <= k < |cs| && Passes(judge(cs[k])) ==>
      Scored(cs[k], judge(cs[k]).value.value.score, judge(cs[k]).value.value.explanation) in r.value
    ensures r.Err? ==> exists k :: 0 <= k < |cs| && judge(cs[k]).Err?
    decreases |cs|
  {
    if cs == [] then Ok([])
    else
      var init := cs[..|cs| - 1];
      var last := cs[|cs| - 1];
      assert forall k :: 0 <= k < |init| ==> init[k] == cs[k];
      match Kept(init, judge)
      case Err(e) => Err(e)
      case Ok(kept) =>
        var judged := judge(last);
        if judged.Err? then Err(judged.message)
        else if Passes(judged) then Ok(kept + [Scored(last, judged.value.value.score, judged.value.value.explanation)])
        else Ok(kept)
  }

  /** One more scored candidate: `Kept` grows by its entry exactly when it passes. */
  lemma KeptSnoc(init: seq<CandidateRepo>, last: CandidateRepo, judge: CandidateRepo -> Result<Option<Score>>)
    requires Kept(init, judge).Ok? && judge(last).Ok?
    ensures Kept(init + [last], judge)
      == Ok(Kept(init, judge).value + if Passes(judge(last)) then [ScoredBy(last, judge)] else [])
  {
    var cs := init + [last];
    assert cs[..|cs| - 1] == init && cs[|cs| - 1] == last;
    var kept := Kept(init, judge).value;
    assert kept + [] == kept;
  }

  /** When scoring succeeds, the last candidate was judged and so was every one before it. */
  lemma KeptInit(cs: seq<CandidateRepo>, judge: CandidateRepo -> Result<Option<Score>>)
    requires cs != [] && Kept(cs, judge).Ok?
    ensures Kept(cs[..|cs| - 1], judge).Ok? && judge(cs[|cs| - 1]).Ok?
  {
  }

  /**
   * The converse of `Kept`'s membership clause: the kept entries are the
   * passing candidates and nothing else, in the order they were scored.
   */
  lemma {:induction false} KeptIsFilter(cs: seq<CandidateRepo>, judge: CandidateRepo -> Result<Option<Score>>)
    requires Kept(cs, judge).Ok?
    ensures CandidatesOf(Kept(cs, judge).value) == Filter(cs, PassingUnder(judge))
    decreases |cs|
  {
    if cs != [] {
      var init, last := cs[..|cs| - 1], cs[|cs| - 1];
      assert init + [last] == cs;
      KeptInit(cs, judge);
      KeptIsFilter(init, judge);
      KeptSnoc(init, last, judge);
      FilterSnoc(init, last, PassingUnder(judge));
      assert PassingUnder(judge)(last) == Passes(judge(last));
      var s := Kept(cs, judge).value;
      if Passes(judge(last)) {
        assert s[..|s| - 1] == Kept(init, judge).value;
      }
    }
  }

  /** Every kept entry passed, and carries its own candidate's score and explanation. */
  lemma {:induction false} KeptEntriesOwnScore(cs: seq<CandidateRepo>, judge: CandidateRepo -> Result<Option<Score>>)
    requires Kept(cs, judge).Ok?
    ensures var kept := Kept(cs, judge).value;
      forall k :: 0 <= k < |kept| ==> Passes(judge(kept[k].candidate)) && kept[k] == ScoredBy(kept[k].candidate, judge)
    decreases |cs|
  {
    if cs != [] {
      var init, last := cs[..|cs| - 1], cs[|cs| - 1];
      assert init + [last] == cs;
      KeptInit(cs, judge);
      KeptEntriesOwnScore(init, judge);
      KeptSnoc(init, last, judge);
      var kept, all := Kept(init, judge).value, Kept(cs, judge).value;
      forall k | 0 <= k < |all|
        ensures Passes(judge(all[k].candidate)) && all[k] == ScoredBy(all[k].candidate, judge)
      {
        if k < |kept| {
          assert all[k] == kept[k];
        } else {
          assert all[k] == ScoredBy(last, judge);
        }
      }
    }
  }

  /** `scores[:n]` for any integer `n`: a negative bound drops that many from the end. */
  function SliceTo<T>(s: seq<T>, n: int): seq<T> {
    if n >= 0 then Take(s, n)
    else if |s| + n <= 0 then []
    else s[..|s| + n]
  }

  /** `scored.sort(key=score, reverse=True)` then `scored[:top_n]`. */
  function Ranked(kept: seq<Scored>, topN: int): seq<Scored> {
    SliceTo(SortDesc(kept, ScoreKey), topN)
  }

  /** What `generate_recommendations` settles on before storing anything. */
  function Plan(users: map<int, User>, candidates: seq<CandidateRepo>, userId: int, topN: int, o: Oracles)
    : Result<seq<Scored>>
  {
    if userId !in users || users[userId].tasteProfile.None? then Ok([])
    else
      var cs := TopCandidates(candidates, userId);
      if cs == [] then Ok([])
      else match Kept(cs, Judge(users[userId].tasteProfile.value, o))
        case Err(e) => Err(e)
        case Ok(kept) => Ok(Ranked(kept, topN))
  }

  /** The row stored for a kept candidate; topics NULL in the candidate row become the empty list. */
  function BatchRow(s: Scored, userId: int, batchId: string, id: int, now: int): Recommendation {
    Recommendation(id, userId, s.candidate.githubRepoId, s.candidate.fullName, s.candidate.description,
                   Some(DecodeTopics(s.candidate.topics)), s.candidate.language, s.candidate.starsCount,
                   s.score, s.explanation, None, batchId, now)
  }

  function BatchRows(top: seq<Scored>, userId: int, batchId: string, firstId: int, now: int)
    : (rows: seq<Recommendation>)
    ensures |rows| == |top|
    ensures forall k :: 0 <= k < |top| ==> rows[k] == BatchRow(top[k], userId, batchId, firstId + k, now)
  {
    seq(|top|, k requires 0 <= k < |top| => BatchRow(top[k], userId, batchId, firstId + k, now))
  }

  /** Whether the commit of a planned batch succeeds. */
  predicate Commits(recs: seq<Recommendation>, top: seq<Scored>, userId: int, batchId: string, now: int) {
    UniqueBy(recs + BatchRows(top, userId, batchId, |recs| + 1, now), RecommendationKey)
  }

  /** What `generate_recommendations` returns. */
  function Outcome(recs: seq<Recommendation>, plan: Result<seq<Scored>>, userId: int, batchId: string, now: int)
    : Result<seq<Scored>>
  {
    match plan
    case Err(e) => Err(e)
    case Ok(top) => if Commits(recs, top, userId, batchId, now) then Ok(top) else Err(DuplicateRecommendation)
  }

  /** The recommendations table afterwards: the batch is appended when it commits. */
  function RecommendationsAfter(recs: seq<Recommendation>, plan: Result<seq<Scored>>, userId: int,
                                batchId: string, now: int): seq<Recommendation>
  {
    if plan.Ok? && Commits(recs, plan.value, userId, batchId, now)
    then recs + BatchRows(plan.value, userId, batchId, |recs| + 1, now)
    else recs
  }

  // ---------------------------------------------------------------------
  // generate_recommendations: the implementation
  // ---------------------------------------------------------------------

  /** An error anywhere in a prefix is the error of the whole scoring loop. */
  lemma {:induction false} KeptErrorSticks(cs: seq<CandidateRepo>, i: nat, judge: CandidateRepo -> Result<Option<Score>>)
    requires i <= |cs| && Kept(cs[..i], judge).Err?
    ensures Kept(cs, judge) == Kept(cs[..i], judge)
    decreases |cs|
  {
    if i < |cs| {
      assert cs[..|cs| - 1][..i] == cs[..i];
      KeptErrorSticks(cs[..|cs| - 1], i, judge);
    } else {
      assert cs[..i] == cs;
    }
  }

  /** The scoring loop of `generate_recommendations`, with `score_candidate` against the profile as `judge`. */
  method ScoreAll(cs: seq<CandidateRepo>, judge: CandidateRepo -> Result<Option<Score>>)
    returns (r: Result<seq<Scored>>)
    ensures r == Kept(cs, judge)
  {
    var scored: seq<Scored> := [];
    for i := 0 to |cs|
      invariant Kept(cs[..i], judge) == Ok(scored)
    {
      assert cs[..i + 1][..i] == cs[..i];
      var result := judge(cs[i]);
      if result.Err? {
        KeptErrorSticks(cs, i + 1, judge);
        return Err(result.message);
      }
      if result.value.Some? && result.value.value.score >= ScoreThreshold {
        scored := scored + [Scored(cs[i], result.value.value.score, result.value.value.explanation)];
      }
    }
    assert cs[..|cs|] == cs;
    r := Ok(scored);
  }

  /** The loop that builds one row per kept candidate, all under one batch id. */
  method BuildRows(top: seq<Scored>, userId: int, batchId: string, firstId: int, now: int)
    returns (rows: seq<Recommendation>)
    ensures rows == BatchRows(top, userId, batchId, firstId, now)
  {
    rows := [];
    for i := 0 to |top|
      invariant rows == BatchRows(top[..i], userId, batchId, firstId, now)
    {
      rows := rows + [BatchRow(top[i], userId, batchId, firstId + i, now)];
    }
    assert top[..|top|] == top;
  }

  /**
   * `generate_recommendations(user_id, top_n)`, with the outside services,
   * the fresh batch id and the clock as parameters.
   */
  method GenerateRecommendations(db: Database, userId: int, topN: int, o: Oracles, batchId: string, now: int)
    returns (r: Result<seq<Scored>>)
    requires db.Valid()
    modifies db`recommendations
    ensures db.Valid()
    ensures r == Outcome(old(db.recommendations), Plan(db.users, db.candidates, userId, topN, o), userId, batchId, now)
    ensures db.recommendations
      == RecommendationsAfter(old(db.recommendations), Plan(db.users, db.candidates, userId, topN, o), userId, batchId, now)
  {
    assert db.recommendations + BatchRows([], userId, batchId, |db.recommendations| + 1, now) == db.recommendations;
    if userId !in db.users || db.users[userId].tasteProfile.None? {
      return Ok([]);
    }
    var profile := db.users[userId].tasteProfile.value;
    var cs := TopCandidates(db.candidates, userId);
    if cs == [] {
      return Ok([]);
    }
    var kept := ScoreAll(cs, Judge(profile, o));
    if kept.Err? {
      return Err(kept.message);
    }
    var top := Ranked(kept.value, topN);
    var rows := BuildRows(top, userId, batchId, |db.recommendations| + 1, now);
    var ok := db.AppendRecommendations(rows);
    if !ok {
      return Err(DuplicateRecommendation);
    }
    r := Ok(top);
  }

  // ---------------------------------------------------------------------
  // Properties
  // ---------------------------------------------------------------------

  /** Without the user, without a profile, or without candidates, nothing is scored or written. */
  lemma NothingToScore(recs: seq<Recommendation>, users: map<int, User>, candidates: seq<CandidateRepo>,
                       userId: int, topN: int, o: Oracles, batchId: string, now: int)
    requires UniqueBy(recs, RecommendationKey)
    requires userId !in users || users[userId].tasteProfile.None?
          || forall k :: 0 <= k < |candidates| ==> candidates[k].userId != userId
    ensures Outcome(recs, Plan(users, candidates, userId, topN, o), userId, batchId, now) == Ok([])
    ensures RecommendationsAfter(recs, Plan(users, candidates, userId, topN, o), userId, batchId, now) == recs
  {
    assert recs + BatchRows([], userId, batchId, |recs| + 1, now) == recs;
    if !(userId !in users || users[userId].tasteProfile.None?) {
      OfUserOfOthers(candidates, CandidateKey, userId);
    }
  }

  /**
   * At most fifty candidates are scored, all the user's, by `source_count`
   * descending, and every one of them when there are no more than fifty.
   */
  lemma TopCandidatesFacts(candidates: seq<CandidateRepo>, userId: int)
    ensures var cs := TopCandidates(candidates, userId);
      && |cs| <= CandidatesScored
      && (forall k :: 0 <= k < |cs| ==> cs[k].userId == userId && cs[k] in candidates)
      && (forall i, j :: 0 <= i < j < |cs| ==> cs[i].sourceCount >= cs[j].sourceCount)
      && (|OfUser(candidates, CandidateKey, userId)| <= CandidatesScored ==>
            multiset(cs) == multiset(OfUser(candidates, CandidateKey, userId)))
  {
    var mine := OfUser(candidates, CandidateKey, userId);
    var sorted := SortDesc(mine, SourceKey);
    var cs := TopCandidates(candidates, userId);
    SortDescFacts(mine, SourceKey);
    TakeSorted(sorted, SourceKey, CandidatesScored);
    forall k | 0 <= k < |cs| ensures cs[k].userId == userId && cs[k] in candidates {
      assert cs[k] == sorted[k];
      assert sorted[k] in mine;
    }
    forall i, j | 0 <= i < j < |cs| ensures cs[i].sourceCount >= cs[j].sourceCount {
      assert SourceKey(cs[i]) >= SourceKey(cs[j]);
    }
  }

  /**
   * The ranking is ordered by score, holds only kept candidates, is cut at
   * `top_n`, and keeps candidates of equal score in the order they were
   * scored; with room for all of them it loses none.
   */
  lemma RankedFacts(kept: seq<Scored>, topN: int)
    ensures var r := Ranked(kept, topN);
      && SortedDesc(r, ScoreKey)
      && (forall x :: x in r ==> x in kept)
      && (topN >= 0 ==> |r| == if |kept| <= topN then |kept| else topN)
      && (topN >= |kept| ==> multiset(r) == multiset(kept))
      && (topN >= |kept| ==> forall k :: WithKey(r, ScoreKey, k) == WithKey(kept, ScoreKey, k))
  {
    var sorted := SortDesc(kept, ScoreKey);
    var r := Ranked(kept, topN);
    SortDescFacts(kept, ScoreKey);
    if topN >= 0 {
      TakeSorted(sorted, ScoreKey, topN);
    } else {
      assert SortedDesc(r, ScoreKey);
    }
    forall x | x in r ensures x in kept {
      assert x in sorted;
    }
  }

  /** Every score stored or returned is at least 0.4; nothing bounds it from above. */
  lemma KeptScoresPass(users: map<int, User>, candidates: seq<CandidateRepo>, userId: int, topN: int, o: Oracles)
    requires Plan(users, candidates, userId, topN, o).Ok?
    ensures forall s :: s in Plan(users, candidates, userId, topN, o).value ==> s.score >= ScoreThreshold
  {
    if userId in users && users[userId].tasteProfile.Some? && TopCandidates(candidates, userId) != [] {
      var cs := TopCandidates(candidates, userId);
      var judge := Judge(users[userId].tasteProfile.value, o);
      var kept := Kept(cs, judge).value;
      assert Plan(users, candidates, userId, topN, o).value == Ranked(kept, topN);
      RankedFacts(kept, topN);
      forall s | s in Ranked(kept, topN) ensures s.score >= ScoreThreshold {
        assert s in kept;
        var k :| 0 <= k < |kept| && kept[k] == s;
      }
    }
  }

  /**
   * No clamp: a reply `{"score": x}` with `x` at least 0.4 — 2.0, say — is
   * kept with that very score, and its stored row carries it as the relevance.
   */
  lemma UnclampedScoreKept(c: CandidateRepo, profile: Json, o: Oracles, x: real,
                           userId: int, batchId: string, id: int, now: int)
    requires x >= ScoreThreshold
    requires ProfileText(profile, o.render).Ok?
    requires LlmClient.GenerateJson(ScoringPrompt(ProfileText(profile, o.render).value, c), o.llm, o.loads)
      == Ok(Some(JObj([("score", JNum(x))])))
    ensures ScoreCandidate(c, profile, o) == Ok(Some(Score(x, JStr(""))))
    ensures Kept([c], Judge(profile, o)) == Ok([Scored(c, x, JStr(""))])
    ensures BatchRow(Scored(c, x, JStr("")), userId, batchId, id, now).relevanceScore == x
  {
    ScoreOnlyReply(x, o.parseFloat);
    KeptOne(c, Judge(profile, o));
  }

  /** A reply holding only a numeric score gets that score and an empty explanation. */
  lemma ScoreOnlyReply(x: real, parseFloat: string -> Option<real>)
    ensures CoerceReply(JObj([("score", JNum(x))]), parseFloat) == Ok(Some(Score(x, JStr(""))))
  {
    var members := [("score", JNum(x))];
    assert members[..0] == [];
    assert Lookup(members, "score") == Some(JNum(x));
    assert Lookup(members, "explanation") == None;
  }

  /** The scoring loop over one candidate keeps it exactly when it passes. */
  lemma KeptOne(c: CandidateRepo, judge: CandidateRepo -> Result<Option<Score>>)
    requires Passes(judge(c))
    ensures Kept([c], judge) == Ok([Scored(c, judge(c).value.value.score, judge(c).value.value.explanation)])
  {
    var kept := Scored(c, judge(c).value.value.score, judge(c).value.value.explanation);
    assert [c][..0] == [] && [c][0] == c;
    assert Kept([], judge) == Ok([]);
    assert [] + [kept] == [kept];
  }

  /** The score on the 0.0 to 1.0 scale the scoring prompt asks for: `max(0.0, min(1.0, score))`. */
  function ClampedScore(x: real): (r: real)
    ensures 0.0 <= r <= 1.0
    ensures 0.0 <= x <= 1.0 ==> r == x
    ensures x > 1.0 ==> r == 1.0
  {
    if x < 0.0 then 0.0 else if x > 1.0 then 1.0 else x
  }

  /** Clamping keeps the threshold's verdict and the order of scores. */
  lemma ClampedScoreKeepsOrder(x: real, y: real)
    ensures x >= ScoreThreshold <==> ClampedScore(x) >= ScoreThreshold
    ensures x <= y ==> ClampedScore(x) <= ClampedScore(y)
  {
  }

  /**
   * Storing appends: earlier recommendations are never changed or removed,
   * and every new row carries the user, the one batch id, the time and a
   * fresh auto-increment id.
   */
  lemma AppendOnly(recs: seq<Recommendation>, plan: Result<seq<Scored>>, userId: int, batchId: string, now: int)
    ensures var after := RecommendationsAfter(recs, plan, userId, batchId, now);
      && recs <= after
      && forall k :: |recs| <= k < |after| ==>
           after[k].userId == userId && after[k].batchId == batchId && after[k].createdAt == now
           && after[k].id == k + 1
  {
  }

  /** A kept entry is keyed by its candidate's key. */
  function ScoredKey(s: Scored): (int, int) {
    CandidateKey(s.candidate)
  }

  /** Scoring distinct candidates keeps at most one entry per candidate. */
  lemma {:induction false} KeptUnique(cs: seq<CandidateRepo>, judge: CandidateRepo -> Result<Option<Score>>)
    requires UniqueBy(cs, CandidateKey)
    ensures Kept(cs, judge).Ok? ==> UniqueBy(Kept(cs, judge).value, ScoredKey)
    decreases |cs|
  {
    if cs != [] {
      var init := cs[..|cs| - 1];
      var last := cs[|cs| - 1];
      forall i, j | 0 <= i < j < |init| ensures CandidateKey(init[i]) != CandidateKey(init[j]) {
        assert init[i] == cs[i] && init[j] == cs[j];
      }
      KeptUnique(init, judge);
      var prev := Kept(init, judge);
      if prev.Ok? && Passes(judge(last)) {
        var kept := prev.value;
        forall k | 0 <= k < |kept| ensures ScoredKey(kept[k]) != CandidateKey(last) {
          var m :| 0 <= m < |init| && init[m] == kept[k].candidate;
          assert init[m] == cs[m];
        }
      }
    }
  }

  /** The scored candidates are the user's and distinct, since the candidates table is unique. */
  lemma TopCandidatesUnique(candidates: seq<CandidateRepo>, userId: int)
    requires UniqueBy(candidates, CandidateKey)
    ensures UniqueBy(TopCandidates(candidates, userId), CandidateKey)
  {
    var mine := OfUser(candidates, CandidateKey, userId);
    OfUserKeepsUnique(candidates, CandidateKey, userId);
    SortKeepsUnique(mine, SourceKey, CandidateKey);
  }

  /** The ranking of distinct entries is distinct. */
  lemma RankedUnique(kept: seq<Scored>, topN: int)
    requires UniqueBy(kept, ScoredKey)
    ensures UniqueBy(Ranked(kept, topN), ScoredKey)
  {
    SortKeepsUnique(kept, ScoreKey, ScoredKey);
  }

  /** Every entry of the plan is a distinct candidate of the user. */
  lemma PlanUnique(users: map<int, User>, candidates: seq<CandidateRepo>, userId: int, topN: int, o: Oracles)
    requires UniqueBy(candidates, CandidateKey)
    requires Plan(users, candidates, userId, topN, o).Ok?
    ensures var top := Plan(users, candidates, userId, topN, o).value;
      UniqueBy(top, ScoredKey) && forall k :: 0 <= k < |top| ==> top[k].candidate.userId == userId
  {
    if userId in users && users[userId].tasteProfile.Some? && TopCandidates(candidates, userId) != [] {
      var cs := TopCandidates(candidates, userId);
      var judge := Judge(users[userId].tasteProfile.value, o);
      var kept := Kept(cs, judge).value;
      TopCandidatesFacts(candidates, userId);
      TopCandidatesUnique(candidates, userId);
      KeptUnique(cs, judge);
      RankedUnique(kept, topN);
      RankedFacts(kept, topN);
      var top := Ranked(kept, topN);
      forall k | 0 <= k < |top| ensures top[k].candidate.userId == userId {
        assert top[k] in kept;
        var m :| 0 <= m < |kept| && kept[m] == top[k];
        var n :| 0 <= n < |cs| && cs[n] == kept[m].candidate;
      }
    }
  }

  /**
   * A batch under a batch id no stored row carries always commits: the
   * batch holds each candidate once, and the candidates table is unique.
   */
  lemma FreshBatchCommits(recs: seq<Recommendation>, users: map<int, User>, candidates: seq<CandidateRepo>,
                          userId: int, topN: int, o: Oracles, batchId: string, now: int)
    requires UniqueBy(recs, RecommendationKey) && UniqueBy(candidates, CandidateKey)
    requires forall k :: 0 <= k < |recs| ==> recs[k].batchId != batchId
    requires Plan(users, candidates, userId, topN, o).Ok?
    ensures Commits(recs, Plan(users, candidates, userId, topN, o).value, userId, batchId, now)
  {
    var top := Plan(users, candidates, userId, topN, o).value;
    PlanUnique(users, candidates, userId, topN, o);
    var rows := BatchRows(top, userId, batchId, |recs| + 1, now);
    var all := recs + rows;
    forall i, j | 0 <= i < j < |all| ensures RecommendationKey(all[i]) != RecommendationKey(all[j]) {
      if j < |recs| {
        assert all[i] == recs[i] && all[j] == recs[j];
      } else if i < |recs| {
        assert all[i] == recs[i] && all[j] == rows[j - |recs|];
      } else {
        assert all[i] == rows[i - |recs|] && all[j] == rows[j - |recs|];
        assert ScoredKey(top[i - |recs|]) != ScoredKey(top[j - |recs|]);
      }
    }
  }
}
