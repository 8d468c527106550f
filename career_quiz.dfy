/** The five-question career quiz: its question table and phases, the
    answer flow that submits the scores for a prediction, the cache of
    study-group lists per level, and what a failed join does. HTTP calls
    are recorded as requests; their replies are passed in. */
module CareerQuiz {
  import opened Common
  import opened Text
  import MlService
  import QuestionnaireController
  import GroupController

  type Answer = QuestionnaireController.Answer

  datatype ScoredOption = ScoredOption(score: int, tag: string)

  /** The options of each question. Every question offers the same three
      scores, one per domain. */
  const Questions: seq<seq<ScoredOption>> := [
    [ScoredOption(1, "AI"), ScoredOption(2, "ML"), ScoredOption(3, "Cyber")],
    [ScoredOption(1, "AI"), ScoredOption(2, "ML"), ScoredOption(3, "Cyber")],
    [ScoredOption(1, "AI"), ScoredOption(2, "ML"), ScoredOption(3, "Cyber")],
    [ScoredOption(1, "AI"), ScoredOption(2, "ML"), ScoredOption(3, "Cyber")],
    [ScoredOption(1, "AI"), ScoredOption(2, "ML"), ScoredOption(3, "Cyber")]
  ]

  /** Every score the quiz can submit lies in the range the prediction
      service accepts. */
  lemma ScoresInServiceRange()
    ensures forall q, k :: 0 <= q < |Questions| && 0 <= k < |Questions[q]| ==> MlService.ValidScore(Questions[q][k].score)
  {
  }

  /** The question ranges of the three phases, inclusive. */
  const Phases: seq<(nat, nat)> := [(0, 1), (2, 3), (4, 4)]

  const Levels: seq<string> := ["Beginner", "Intermediate", "Advanced"]

  datatype PhaseStatus = Done | Active | Inactive

  function StatusClass(s: PhaseStatus): string
  {
    match s
    case Done => "s-done"
    case Active => "s-active"
    case Inactive => "s-inactive"
  }

  /** `getPhaseStatus(range)` */
  function GetPhaseStatus(done: bool, current: nat, range: (nat, nat)): (s: PhaseStatus)
    ensures done ==> s == Done
    ensures !done ==> (s == Active <==> range.0 <= current <= range.1)
    ensures !done ==> (s == Done <==> !(range.0 <= current <= range.1) && current > range.1)
    ensures !done ==> (s == Inactive <==> !(range.0 <= current <= range.1) && current <= range.1)
  {
    if done then Done
    else if current >= range.0 && current <= range.1 then Active
    else if current > range.1 then Done
    else Inactive
  }

  /** While the quiz runs, exactly one phase is active, every earlier one
      is done and every later one inactive; once done, all are done. */
  lemma OneActivePhase(current: nat)
    requires current < |Questions|
    ensures exists p :: 0 <= p < |Phases| && GetPhaseStatus(false, current, Phases[p]) == Active
    ensures forall p, q ::
              (0 <= p < |Phases| && 0 <= q < |Phases| && GetPhaseStatus(false, current, Phases[p]) == Active
               && GetPhaseStatus(false, current, Phases[q]) == Active) ==> p == q
    ensures forall p, q :: 0 <= p < q < |Phases| && GetPhaseStatus(false, current, Phases[q]) == Active ==>
              GetPhaseStatus(false, current, Phases[p]) == Done
    ensures forall p, q :: 0 <= p < q < |Phases| && GetPhaseStatus(false, current, Phases[p]) == Active ==>
              GetPhaseStatus(false, current, Phases[q]) == Inactive
    ensures forall p :: 0 <= p < |Phases| ==> GetPhaseStatus(true, current, Phases[p]) == Done
  {
    var p := if current <= 1 then 0 else if current <= 3 then 1 else 2;
    assert GetPhaseStatus(false, current, Phases[p]) == Active;
  }

  /** `Q1` … `Q5` */
  function QuestionId(i: nat): string
  {
    "Q" + Decimal(i + 1)
  }

  /** The answers are those of questions 1, 2, … in order, each with a
      score from the table. */
  ghost predicate InOrder(answers: seq<Answer>)
  {
    forall i :: 0 <= i < |answers| ==>
      answers[i].questionId == QuestionId(i) && MlService.ValidScore(answers[i].score)
  }

  /** Answering the next question with a score from the table keeps the
      answers in order. */
  lemma InOrderAppend(answers: seq<Answer>, q: nat, k: nat)
    requires InOrder(answers) && q == |answers| && q < |Questions| && k < |Questions[q]|
    ensures InOrder(answers + [QuestionnaireController.Answer(QuestionId(q), Questions[q][k].score)])
  {
    ScoresInServiceRange();
    var ext := answers + [QuestionnaireController.Answer(QuestionId(q), Questions[q][k].score)];
    assert forall i :: 0 <= i < |answers| ==> ext[i] == answers[i];
  }

  /** A full list in order passes the server's validation, and with the
      prediction service up and a class it knows, the prediction goes
      through. */
  lemma FullListIsAccepted(userId: ObjectId, answers: seq<Answer>,
                           classify: (int, int, int, int, int) -> int, confidence: string)
    requires InOrder(answers) && |answers| == |Questions|
    requires 0 <= classify(answers[0].score, answers[1].score, answers[2].score, answers[3].score, answers[4].score) <= 2
    ensures QuestionnaireController.Submit(userId, Some(answers), true,
                                           QuestionnaireController.Service(classify, confidence)).reply.status == 200
  {
    QuestionnaireController.InRangeScoresPredict(userId, answers, classify, confidence);
  }

  /** The HTTP requests the page makes. */
  datatype Request = SubmitAnswers(answers: seq<Answer>) | FetchGroups(domain: string, level: string)

  /** The reply to the submission: the fields the page reads, or the
      `message` and `error` fields of the error response. */
  datatype SubmitReply =
    | Predicted(recommendedDomain: string, confidence: string)
    | SubmitFailed(message: Option<string>, error: Option<string>)

  const SubmitFallback := "Submission failed. Please check your connection."

  /** `domainLabels[tag]` */
  function DomainLabel(tag: string): (r: Option<string>)
    ensures r.Some? <==> tag in {"AI", "ML", "Cyber"}
  {
    if tag == "AI" then Some("Artificial Intelligence")
    else if tag == "ML" then Some("Machine Learning")
    else if tag == "Cyber" then Some("Cybersecurity")
    else None
  }

  /** The result panel: the recommended tag, its label and the confidence. */
  datatype CareerResult = CareerResult(topTag: string, topDomain: Option<string>, confidence: string)

  /** The first of the optional texts that is present and non-empty, else
      the fallback (`a || b || fallback`). */
  function FirstText(a: Option<string>, b: Option<string>, fallback: string): (r: string)
    ensures Truthy(a) ==> r == a.value
    ensures !Truthy(a) && Truthy(b) ==> r == b.value
    ensures !Truthy(a) && !Truthy(b) ==> r == fallback
  {
    if Truthy(a) then a.value else if Truthy(b) then b.value else fallback
  }

  /** The outcome of `POST /api/groups/join/:id` as `handleJoin` sees it. */
  datatype JoinReply = JoinOk | JoinFailed(message: Option<string>)

  datatype JoinAction = Navigate(path: string) | Alert(text: string)

  /** What `handleJoin` does after the join request: go to the room when
      it succeeded or when the error message mentions "already" in any
      case, otherwise alert the message or a fallback. */
  function JoinFollowUp(groupId: string, reply: JoinReply): (a: JoinAction)
    ensures reply.JoinOk? ==> a == Navigate("/group-chat/" + groupId)
    ensures reply.JoinFailed? ==>
              var msg := if reply.message.Some? then reply.message.value else "";
              (Contains(ToLower(msg), "already") ==> a == Navigate("/group-chat/" + groupId))
              && (!Contains(ToLower(msg), "already") ==>
                    a == Alert(if msg != "" then msg else "Could not join group. Try again."))
  {
    match reply
    case JoinOk => Navigate("/group-chat/" + groupId)
    case JoinFailed(m) =>
      var msg := if m.Some? then m.value else "";
      if Contains(ToLower(msg), "already") then Navigate("/group-chat/" + groupId)
      else Alert(if msg != "" then msg else "Could not join group. Try again.")
  }

  /** A message starting with "Already" mentions "already" once lower-cased. */
  lemma StartsWithAlready(msg: string)
    requires |msg| >= 7 && msg[..7] == "Already"
    ensures Contains(ToLower(msg), "already")
  {
    var low := ToLower(msg);
    var p := msg[..7];
    assert p[0] == 'A' && p[1] == 'l' && p[2] == 'r' && p[3] == 'e' && p[4] == 'a' && p[5] == 'd' && p[6] == 'y';
    assert low[0] == 'a' && low[1] == 'l' && low[2] == 'r' && low[3] == 'e' && low[4] == 'a' && low[5] == 'd' && low[6] == 'y' by {
      assert forall k :: 0 <= k < 7 ==> low[k] == LowerChar(p[k]);
    }
    assert low[..7] == "already";
    assert OccursAt(low, "already", 0);
  }

  /** The server's rejection of a repeated join sends the user to the room. */
  lemma AlreadyJoinedNavigates(groupId: string)
    ensures JoinFollowUp(groupId, JoinFailed(Some(GroupController.AlreadyJoined))) == Navigate("/group-chat/" + groupId)
  {
    assert GroupController.AlreadyJoined[..7] == "Already";
    StartsWithAlready(GroupController.AlreadyJoined);
  }

  class Quiz {
    var current: nat
    var answers: seq<Answer>
    var selectedIdx: Option<nat>
    var done: bool
    var result: Option<CareerResult>
    /** The cached group lists (by id), per level. */
    var groups: map<string, seq<ObjectId>>
    var activeLevel: string
    var error: Option<string>
    /** Every HTTP request made, in order. */
    var requests: seq<Request>

    /** One answer per question passed, in order; a submitted list stays
        in `answers` whether it succeeded (done) or failed (error). */
    ghost predicate Valid()
      reads this
    {
      && current < |Questions|
      && (selectedIdx.Some? ==> selectedIdx.value < |Questions[current]|)
      && InOrder(answers)
      && |answers| == current + (if done || error.Some? then 1 else 0)
      && (done ==> current == |Questions| - 1 && result.Some? && error.None?)
      && (error.Some? ==> current == |Questions| - 1)
      && (result.Some? ==> done)
    }

    constructor ()
      ensures Valid()
      ensures current == 0 && answers == [] && selectedIdx == None && !done && result == None
      ensures groups == map[] && activeLevel == "Beginner" && error == None && requests == []
    {
      current, answers, selectedIdx, done, result := 0, [], None, false, None;
      groups, activeLevel, error, requests := map[], "Beginner", None, [];
    }

    /** Clicking option `i` of the current question. */
    method Select(i: nat)
      requires Valid() && i < |Questions[current]|
      modifies this
      ensures Valid() && selectedIdx == Some(i)
      ensures current == old(current) && answers == old(answers) && done == old(done) && result == old(result)
      ensures groups == old(groups) && error == old(error) && requests == old(requests) && activeLevel == old(activeLevel)
    {
      selectedIdx := Some(i);
    }

    /** `handleNext`, offered only while the question card is shown (not
        done, no error). With nothing selected it does nothing. Otherwise
        it appends `{ questionId: "Q" + (current + 1), score }` for the
        chosen option; before the last question it moves on and clears the
        selection. After the last one it submits the five answers: on
        success the result is set, the quiz is done and the groups of the
        recommended domain are fetched for all three levels; on failure
        the error text is shown. */
    method HandleNext(reply: SubmitReply)
      requires Valid() && !done && error.None?
      modifies this
      ensures Valid()
      ensures groups == old(groups) && activeLevel == old(activeLevel)
      ensures old(selectedIdx).None? ==>
                current == old(current) && answers == old(answers) && selectedIdx == old(selectedIdx)
                && !done && result == old(result) && error == old(error) && requests == old(requests)
      ensures old(selectedIdx).Some? ==>
                answers == old(answers) + [QuestionnaireController.Answer(QuestionId(old(current)),
                                                                          Questions[old(current)][old(selectedIdx).value].score)]
      ensures old(selectedIdx).Some? && old(current) + 1 < |Questions| ==>
                current == old(current) + 1 && selectedIdx == None && !done && result == old(result)
                && error == None && requests == old(requests)
      ensures old(selectedIdx).Some? && old(current) + 1 == |Questions| ==>
                && current == old(current) && selectedIdx == old(selectedIdx)
                && |answers| == |Questions| && InOrder(answers)
                && |requests| > |old(requests)| && requests[|old(requests)|] == SubmitAnswers(answers)
                && (reply.Predicted? ==>
                      && done && error == None
                      && result == Some(CareerResult(reply.recommendedDomain, DomainLabel(reply.recommendedDomain), reply.confidence))
                      && requests == old(requests) + [SubmitAnswers(answers)]
                                     + [FetchGroups(reply.recommendedDomain, Levels[0]),
                                        FetchGroups(reply.recommendedDomain, Levels[1]),
                                        FetchGroups(reply.recommendedDomain, Levels[2])])
                && (reply.SubmitFailed? ==>
                      && !done && result == old(result)
                      && error == Some(FirstText(reply.message, reply.error, SubmitFallback))
                      && requests == old(requests) + [SubmitAnswers(answers)])
    {
      if selectedIdx.None? {
        return;
      }
      var newAnswers := answers + [QuestionnaireController.Answer(QuestionId(current), Questions[current][selectedIdx.value].score)];
      InOrderAppend(answers, current, selectedIdx.value);
      answers := newAnswers;
      if current + 1 < |Questions| {
        current := current + 1;
        selectedIdx := None;
        return;
      }
      error := None;
      requests := requests + [SubmitAnswers(newAnswers)];
      match reply
      case Predicted(domain, confidence) =>
        result := Some(CareerResult(domain, DomainLabel(domain), confidence));
        done := true;
        requests := requests + [FetchGroups(domain, Levels[0]), FetchGroups(domain, Levels[1]), FetchGroups(domain, Levels[2])];
      case SubmitFailed(message, err) =>
        error := Some(FirstText(message, err, SubmitFallback));
    }

    /** The completion of a `fetchGroups(domain, level)`: the list for that
        level is cached, an empty one when the request failed; nothing else
        changes. */
    method FetchCompleted(level: string, data: Option<seq<ObjectId>>)
      requires Valid()
      modifies this
      ensures Valid()
      ensures groups == old(groups)[level := if data.Some? then data.value else []]
      ensures current == old(current) && answers == old(answers) && selectedIdx == old(selectedIdx)
      ensures done == old(done) && result == old(result) && error == old(error)
      ensures requests == old(requests) && activeLevel == old(activeLevel)
    {
      groups := groups[level := if data.Some? then data.value else []];
    }

    /** `handleLevelTab`: the tab always becomes active; the groups of that
        level are fetched only when none are cached for it (an empty list
        counts as cached) and a result with a recommended tag exists. */
    method HandleLevelTab(level: string)
      requires Valid()
      modifies this
      ensures Valid() && activeLevel == level
      ensures current == old(current) && answers == old(answers) && selectedIdx == old(selectedIdx)
      ensures done == old(done) && result == old(result) && error == old(error) && groups == old(groups)
      ensures level !in old(groups) && result.Some? && result.value.topTag != "" ==>
                requests == old(requests) + [FetchGroups(result.value.topTag, level)]
      ensures !(level !in old(groups) && result.Some? && result.value.topTag != "") ==>
                requests == old(requests)
    {
      activeLevel := level;
      if level !in groups && result.Some? && result.value.topTag != "" {
        requests := requests + [FetchGroups(result.value.topTag, level)];
      }
    }

    /** `handleRestart`: every piece of quiz state back to its initial
        value; the requests already made stay made. */
    method HandleRestart()
      modifies this
      ensures Valid()
      ensures current == 0 && answers == [] && selectedIdx == None && !done && result == None
      ensures groups == map[] && error == None && activeLevel == "Beginner"
      ensures requests == old(requests)
    {
      current, answers, selectedIdx, done, result := 0, [], None, false, None;
      groups, error, activeLevel := map[], None, "Beginner";
    }
  }
}
