/** The questionnaire endpoints: `submitQuestionnaire` validates five
    answers, stores them, asks the prediction service and maps its reply;
    `getUserQuestionnaire` reads a user's stored answers back. The store
    write and the HTTP call are outcomes passed in. */
module QuestionnaireController {
  import opened Common
  import MlService

  /** One entry of `answers`: `{ questionId, score }`. */
  datatype Answer = Answer(questionId: string, score: int)

  /** A stored questionnaire. */
  datatype Questionnaire = Questionnaire(user: ObjectId, answers: seq<Answer>)

  /** The body of the prediction request. */
  datatype Payload = Payload(q1: int, q2: int, q3: int, q4: int, q5: int)

  /** The external calls `submitQuestionnaire` makes, in order. */
  datatype Effect = StoreCreate(doc: Questionnaire) | MlPost(payload: Payload)

  datatype Body =
    | Note(message: string)
    | Prediction(message: string, clusterLabel: int, recommendedDomain: string, confidence: string)
    | Stored(questionnaire: Questionnaire)
    | ErrorBody(error: string)

  /** The calls made and the reply sent. */
  datatype Submission = Submission(effects: seq<Effect>, reply: Reply<Body>)

  const AnswersRequired := "5 answers required"
  const PredictionFailed := "Prediction failed"
  const NoneFound := "No questionnaire found"

  function Scores(p: Payload): seq<int>
  {
    [p.q1, p.q2, p.q3, p.q4, p.q5]
  }

  /** `{ Q1: answers[0].score, …, Q5: answers[4].score }` */
  function PayloadOf(answers: seq<Answer>): (p: Payload)
    requires |answers| == 5
    ensures forall i :: 0 <= i < 5 ==> Scores(p)[i] == answers[i].score
  {
    Payload(answers[0].score, answers[1].score, answers[2].score, answers[3].score, answers[4].score)
  }

  /** `submitQuestionnaire` for user `userId`. Missing answers, or any
      number but five, get 400 and no call at all. Otherwise the answers
      are stored first; if that fails, nothing is posted and the reply is
      500. Then the scores are posted; a failed post is also 500 with the
      same error. A reply maps the class number, the field, and the
      confidence followed by "%". */
  function Submit(userId: ObjectId, answers: Option<seq<Answer>>, storeOk: bool,
                  post: Payload -> Result<MlService.MlReply>): (r: Submission)
    ensures answers.None? || |answers.value| != 5 <==> r == Submission([], Reply(400, Note(AnswersRequired)))
    ensures answers.Some? && |answers.value| == 5 ==>
              |r.effects| >= 1 && r.effects[0] == StoreCreate(Questionnaire(userId, answers.value))
    ensures answers.Some? && |answers.value| == 5 && !storeOk ==>
              r == Submission([StoreCreate(Questionnaire(userId, answers.value))], Reply(500, ErrorBody(PredictionFailed)))
    ensures answers.Some? && |answers.value| == 5 && storeOk ==>
              var p := PayloadOf(answers.value);
              && r.effects == [StoreCreate(Questionnaire(userId, answers.value)), MlPost(p)]
              && (post(p).Err? ==> r.reply == Reply(500, ErrorBody(PredictionFailed)))
              && (post(p).Ok? ==>
                    var m := post(p).value;
                    r.reply == Reply(200, Prediction("Prediction successful", m.predictedClassNumber,
                                                     m.predictedField, m.confidencePercent + "%")))
  {
    if answers.None? || |answers.value| != 5 then Submission([], Reply(400, Note(AnswersRequired)))
    else
      var doc := Questionnaire(userId, answers.value);
      if !storeOk then Submission([StoreCreate(doc)], Reply(500, ErrorBody(PredictionFailed)))
      else
        var p := PayloadOf(answers.value);
        var reply := match post(p)
          case Err(_) => Reply(500, ErrorBody(PredictionFailed))
          case Ok(m) => Reply(200, Prediction("Prediction successful", m.predictedClassNumber,
                                              m.predictedField, m.confidencePercent + "%"));
        Submission([StoreCreate(doc), MlPost(p)], reply)
  }

  /** `axios.post` to the prediction service when the service is up. */
  function Service(classify: (int, int, int, int, int) -> int, confidence: string): Payload -> Result<MlService.MlReply>
  {
    (p: Payload) => MlService.Predict(p.q1, p.q2, p.q3, p.q4, p.q5, classify, confidence)
  }

  /** Posting to the prediction service itself: an answer whose score is
      outside 1 to 3 ends in 500 "Prediction failed", after the answers
      were already stored. */
  lemma OutOfRangeScoreFails(userId: ObjectId, answers: seq<Answer>, k: nat,
                             classify: (int, int, int, int, int) -> int, confidence: string)
    requires |answers| == 5 && k < 5 && !MlService.ValidScore(answers[k].score)
    ensures var r := Submit(userId, Some(answers), true, Service(classify, confidence));
            r.reply == Reply(500, ErrorBody(PredictionFailed))
            && r.effects[0] == StoreCreate(Questionnaire(userId, answers))
  {
    var p := PayloadOf(answers);
    assert !MlService.ValidScore(Scores(p)[k]);
  }

  /** With every score in range and a class the map knows, the prediction
      goes through, and the recommended domain is one of the three. */
  lemma InRangeScoresPredict(userId: ObjectId, answers: seq<Answer>,
                             classify: (int, int, int, int, int) -> int, confidence: string)
    requires |answers| == 5 && forall k :: 0 <= k < 5 ==> MlService.ValidScore(answers[k].score)
    requires 0 <= classify(answers[0].score, answers[1].score, answers[2].score, answers[3].score, answers[4].score) <= 2
    ensures var r := Submit(userId, Some(answers), true, Service(classify, confidence));
            r.reply.status == 200 && r.reply.body.Prediction?
            && r.reply.body.recommendedDomain in {"AI", "ML", "Cyber"}
            && r.reply.body.confidence == confidence + "%"
  {
  }

  /** `Questionnaire.findOne({ user })` */
  function FindByUser(docs: seq<Questionnaire>, user: ObjectId): (r: Option<Questionnaire>)
    ensures r.Some? ==> r.value in docs && r.value.user == user
    ensures r.None? <==> forall d :: d in docs ==> d.user != user
  {
    if docs == [] then None
    else if docs[0].user == user then Some(docs[0])
    else FindByUser(docs[1..], user)
  }

  /** `getUserQuestionnaire`: 404 when the user has stored nothing, a read
      failure 500, and otherwise the user's first stored questionnaire. */
  function GetUserQuestionnaire(docs: seq<Questionnaire>, user: ObjectId, readFailure: Option<string>): (reply: Reply<Body>)
    ensures readFailure.Some? ==> reply == Reply(500, ErrorBody(readFailure.value))
    ensures readFailure.None? ==>
              ((forall d :: d in docs ==> d.user != user) <==> reply == Reply(404, Note(NoneFound)))
    ensures reply.status == 200 ==> reply.body.Stored? && reply.body.questionnaire in docs
                                    && reply.body.questionnaire.user == user
    ensures readFailure.None? && FindByUser(docs, user).Some? ==>
              reply == Reply(200, Stored(FindByUser(docs, user).value))
  {
    if readFailure.Some? then Reply(500, ErrorBody(readFailure.value))
    else
      match FindByUser(docs, user)
      case None => Reply(404, Note(NoneFound))
      case Some(d) => Reply(200, Stored(d))
  }

  /** After a submission stored its answers, reading back finds a
      questionnaire for that user; the first submission's answers are the
      ones returned. */
  lemma {:induction false} ReadBackAfterSubmit(docs: seq<Questionnaire>, userId: ObjectId, answers: seq<Answer>)
    ensures GetUserQuestionnaire(docs + [Questionnaire(userId, answers)], userId, None).status == 200
    ensures FindByUser(docs, userId).None? ==>
              GetUserQuestionnaire(docs + [Questionnaire(userId, answers)], userId, None)
                == Reply(200, Stored(Questionnaire(userId, answers)))
  {
    if docs != [] {
      ReadBackAfterSubmit(docs[1..], userId, answers);
      assert (docs + [Questionnaire(userId, answers)])[1..] == docs[1..] + [Questionnaire(userId, answers)];
    }
  }
}
