/** The prediction service's contract as the server sees it: five scores,
    each 1 to 3, in; a class number and the interest it stands for out.
    The classifier itself is a parameter. */
module MlService {
  import opened Common

  datatype Interest = AI | ML | Cyber

  function InterestName(i: Interest): string
  {
    match i
    case AI => "AI"
    case ML => "ML"
    case Cyber => "Cyber"
  }

  /** `interest_map[n]`: classes 0, 1 and 2; any other key is missing. */
  function InterestOf(n: int): (r: Option<Interest>)
    ensures r.Some? <==> 0 <= n <= 2
    ensures r == Some(AI) <==> n == 0
    ensures r == Some(ML) <==> n == 1
    ensures r == Some(Cyber) <==> n == 2
  {
    if n == 0 then Some(AI) else if n == 1 then Some(ML) else if n == 2 then Some(Cyber) else None
  }

  /** The range `StudentInput` admits for each of `Q1`..`Q5`. */
  predicate ValidScore(q: int)
  {
    1 <= q <= 3
  }

  /** The body of a successful `/predict` reply. The confidence arrives
      already rendered as text. */
  datatype MlReply = MlReply(predictedClassNumber: int, predictedField: string, confidencePercent: string)

  /** `POST /predict` for scores `q`: rejected unless every score is in
      range; otherwise `classify` picks the class and the class map names
      it, a class outside the map failing the request. */
  function Predict(q1: int, q2: int, q3: int, q4: int, q5: int,
                   classify: (int, int, int, int, int) -> int, confidence: string): (r: Result<MlReply>)
    ensures r.Ok? <==> ValidScore(q1) && ValidScore(q2) && ValidScore(q3) && ValidScore(q4) && ValidScore(q5)
                       && InterestOf(classify(q1, q2, q3, q4, q5)).Some?
    ensures r.Ok? ==> r.value.predictedClassNumber == classify(q1, q2, q3, q4, q5)
                      && r.value.predictedField == InterestName(InterestOf(r.value.predictedClassNumber).value)
                      && r.value.predictedField in {"AI", "ML", "Cyber"}
  {
    if !(ValidScore(q1) && ValidScore(q2) && ValidScore(q3) && ValidScore(q4) && ValidScore(q5)) then
      Err("422 Unprocessable Entity")
    else
      var n := classify(q1, q2, q3, q4, q5);
      match InterestOf(n)
      case None => Err("500 Internal Server Error")
      case Some(i) => Ok(MlReply(n, InterestName(i), confidence))
  }
}
