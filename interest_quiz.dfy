/** The seven-question interest quiz: its question table, the `getResult`
    tally that picks the most chosen domain tag, and the quiz's answer
    flow. Only the tags of the options matter to the logic; the option
    labels and question texts are display text and are not modelled. */
module InterestQuiz {
  import opened Common
  import opened Text
  import GroupSchema

  /** A chosen option, as far as the result depends on it. */
  datatype QuizOption = QuizOption(tag: string)

  /** The option tags of each question, in order. */
  const Questions: seq<seq<string>> := [
    ["AI/ML", "DAS/DS", "Cyber", "IoT", "Web-JSX"],
    ["DAS", "DE", "DB", "AI/ML"],
    ["Cyber", "IoT", "Web-JSX", "Web-Python"],
    ["DB/DE", "DS/ML", "Web-JSX", "Web-Python", "Cyber"],
    ["AI/ML", "DE", "Cyber", "IoT", "Web-JSX"],
    ["Web-JSX", "Web-Python/DB", "DS/AI/ML"],
    ["Beginner", "Intermediate", "Advanced"]
  ]

  const MlTags: seq<string> := ["AI/ML", "DS/ML", "DS/AI/ML"]

  /** The keys of `domainMap`, in declaration order. */
  const DomainKeys: seq<string> := [
    "AI/ML", "DS/ML", "DS/AI/ML", "DAS", "DAS/DS", "DE", "DB", "DB/DE",
    "Cyber", "IoT", "Web-JSX", "Web-Python", "Web-Python/DB"
  ]

  /** `domainLabels`, index for index with `DomainKeys`. */
  const DomainLabels: seq<string> := [
    "Artificial Intelligence / Machine Learning",
    "Data Science / Machine Learning",
    "Data Science & AI/ML",
    "Data Analytics",
    "Data Analytics / Data Science",
    "Data Engineering",
    "Database Engineering",
    "Database / Data Engineering",
    "Cybersecurity",
    "Internet of Things",
    "Frontend Web Development (React)",
    "Backend Web Development (Python)",
    "Backend / Database Development"
  ]

  /** Every tag of the first six questions is a `domainMap` key. */
  lemma DomainQuestionTagsAreKeys()
    ensures forall q, k :: 0 <= q < 6 && 0 <= k < |Questions[q]| ==> Questions[q][k] in DomainKeys
  {
    forall q, k | 0 <= q < 6 && 0 <= k < |Questions[q]| ensures Questions[q][k] in DomainKeys {
      if q == 0 {
        assert Questions[0][k] in Questions[0];
      }
      assert Questions[q] in Questions[..6];
    }
  }

  /** The tags of the level question are exactly the group levels. */
  lemma LevelQuestionTagsAreLevels()
    ensures forall k :: 0 <= k < |Questions[6]| ==> GroupSchema.ParseLevel(Questions[6][k]).Some?
    ensures forall l: GroupSchema.Level :: GroupSchema.LevelName(l) in Questions[6]
  {
    forall l: GroupSchema.Level ensures GroupSchema.LevelName(l) in Questions[6] {
      match l
      case Beginner => assert Questions[6][0] == "Beginner";
      case Intermediate => assert Questions[6][1] == "Intermediate";
      case Advanced => assert Questions[6][2] == "Advanced";
    }
  }

  /** The filter of `mlCount`: the tag equals an ML tag, or contains "ML"
      or "AI". */
  predicate MlTagged(tag: string)
  {
    exists t :: t in MlTags && (tag == t || Contains(tag, "ML") || Contains(tag, "AI"))
  }

  /** Since every ML tag contains "ML", the test is the substring test alone. */
  lemma MlTaggedIff(tag: string)
    ensures MlTagged(tag) <==> Contains(tag, "ML") || Contains(tag, "AI")
  {
    assert MlTags[0] in MlTags;
    if tag in MlTags {
      assert OccursAt("AI/ML", "ML", 3);
      assert OccursAt("DS/ML", "ML", 3);
      assert OccursAt("DS/AI/ML", "ML", 6);
    }
  }

  /** `mlCount`: how many answers have an ML tag. */
  function MlCount(answers: seq<QuizOption>): (n: nat)
    ensures n <= |answers|
    ensures n == 0 <==> forall i :: 0 <= i < |answers| ==> !MlTagged(answers[i].tag)
  {
    if answers == [] then 0
    else (if MlTagged(answers[0].tag) then 1 else 0) + MlCount(answers[1..])
  }

  /** How many of the answers carry exactly `tag`. */
  function CountTag(answers: seq<QuizOption>, tag: string): (n: nat)
    ensures n <= |answers|
  {
    if answers == [] then 0
    else CountTag(answers[..|answers| - 1], tag) + (if answers[|answers| - 1].tag == tag then 1 else 0)
  }

  /** The tally `domainMap` holds after the `forEach`, key by key. */
  function Tally(answers: seq<QuizOption>): (t: seq<nat>)
    ensures |t| == |DomainKeys|
  {
    seq(|DomainKeys|, j requires 0 <= j < |DomainKeys| => CountTag(answers, DomainKeys[j]))
  }

  /** The first position of a largest count: what a stable descending sort
      puts first. */
  function FirstMax(counts: seq<nat>): (i: nat)
    requires |counts| > 0
    ensures i < |counts|
    ensures forall k :: 0 <= k < |counts| ==> counts[k] <= counts[i]
    ensures forall k :: 0 <= k < i ==> counts[k] < counts[i]
    decreases |counts|
  {
    if |counts| == 1 then 0
    else
      var j := FirstMax(counts[..|counts| - 1]);
      assert forall k :: 0 <= k < |counts| - 1 ==> counts[..|counts| - 1][k] == counts[k];
      if counts[|counts| - 1] > counts[j] then |counts| - 1 else j
  }

  /** What `getResult` returns. */
  datatype QuizResult = QuizResult(isML: bool, topDomain: string, level: string)

  /** `getResult`: at least three ML-tagged answers make the user an ML
      profile; the top domain is the label of the first key with the
      largest tally (so "AI/ML" when nothing counts); the level is the
      seventh answer's tag, or "Beginner" when there is none. */
  function Outcome(answers: seq<QuizOption>): (r: QuizResult)
    ensures r.isML <==> MlCount(answers) >= 3
    ensures exists i :: 0 <= i < |DomainKeys| && r.topDomain == DomainLabels[i]
                        && (forall k :: 0 <= k < |DomainKeys| ==> CountTag(answers, DomainKeys[k]) <= CountTag(answers, DomainKeys[i]))
                        && (forall k :: 0 <= k < i ==> CountTag(answers, DomainKeys[k]) < CountTag(answers, DomainKeys[i]))
    ensures r.level == if |answers| > 6 && answers[6].tag != "" then answers[6].tag else "Beginner"
  {
    var t := Tally(answers);
    var i := FirstMax(t);
    assert forall k :: 0 <= k < |DomainKeys| ==> t[k] == CountTag(answers, DomainKeys[k]);
    assert |DomainLabels| == |DomainKeys|;
    QuizResult(MlCount(answers) >= 3, DomainLabels[i],
               if |answers| > 6 && answers[6].tag != "" then answers[6].tag else "Beginner")
  }

  /** A tag no answer carries has a zero count. */
  lemma {:induction false} CountTagAbsent(answers: seq<QuizOption>, tag: string)
    requires forall i :: 0 <= i < |answers| ==> answers[i].tag != tag
    ensures CountTag(answers, tag) == 0
  {
    if answers != [] {
      CountTagAbsent(answers[..|answers| - 1], tag);
    }
  }

  /** When no answer carries a domain tag, every count is zero and the
      first key, "AI/ML", gives the top domain. */
  lemma NoDomainTagGivesFirstLabel(answers: seq<QuizOption>)
    requires forall i :: 0 <= i < |answers| ==> answers[i].tag !in DomainKeys
    ensures Outcome(answers).topDomain == DomainLabels[0]
  {
    forall k | 0 <= k < |DomainKeys| ensures CountTag(answers, DomainKeys[k]) == 0 {
      CountTagAbsent(answers, DomainKeys[k]);
    }
    var t := Tally(answers);
    var i := FirstMax(t);
    assert t[0] == 0 && t[i] == 0;
  }

  /** After a full quiz answered from the table, the result's level names a
      study-group level. */
  lemma FullQuizLevelIsGroupLevel(answers: seq<QuizOption>)
    requires |answers| == |Questions|
    requires forall q :: 0 <= q < |Questions| ==> answers[q].tag in Questions[q]
    ensures GroupSchema.ParseLevel(Outcome(answers).level).Some?
  {
    var tag := answers[6].tag;
    assert tag == "Beginner" || tag == "Intermediate" || tag == "Advanced" by {
      assert tag in Questions[6];
    }
    assert Outcome(answers).level == tag;
  }

  /** Counting one more answer adds one exactly for its own tag. */
  lemma CountTagStep(answers: seq<QuizOption>, i: nat)
    requires i < |answers|
    ensures forall tag :: CountTag(answers[..i + 1], tag)
                          == CountTag(answers[..i], tag) + (if answers[i].tag == tag then 1 else 0)
  {
    assert answers[..i + 1][..i] == answers[..i];
  }

  /** A map holding each key's tally, read in key order, is the tally. */
  lemma MapReadsTally(answers: seq<QuizOption>, domainMap: map<string, nat>)
    requires forall k :: k in DomainKeys ==> k in domainMap && domainMap[k] == CountTag(answers, k)
    ensures seq(|DomainKeys|, j requires 0 <= j < |DomainKeys| => domainMap[DomainKeys[j]]) == Tally(answers)
  {
  }

  /** No `domainMap` key is the empty tag. */
  lemma EmptyTagIsNoKey()
    ensures "" !in DomainKeys
  {
    forall j | 0 <= j < |DomainKeys| ensures DomainKeys[j] != "" {
      assert |DomainKeys[j]| > 0;
    }
  }

  /** The `forEach` of `getResult`: every answer whose tag is a key adds
      one to that key's count. */
  method TallyAnswers(answers: seq<QuizOption>) returns (domainMap: map<string, nat>)
    ensures forall k :: k in DomainKeys ==> k in domainMap && domainMap[k] == CountTag(answers, k)
  {
    EmptyTagIsNoKey();
    domainMap := map k | k in DomainKeys :: 0;
    var i := 0;
    while i < |answers|
      invariant 0 <= i <= |answers|
      invariant "" !in domainMap
      invariant forall k :: k in DomainKeys ==> k in domainMap
      invariant forall k :: k in domainMap ==> domainMap[k] == CountTag(answers[..i], k)
    {
      CountTagStep(answers, i);
      var a := answers[i];
      if a.tag != "" && a.tag in domainMap {
        domainMap := domainMap[a.tag := domainMap[a.tag] + 1];
      }
      i := i + 1;
    }
    assert answers[..i] == answers;
  }

  /** `getResult`, tallying the answers into `domainMap` one by one and
      taking the first key of the sorted entries. */
  method GetResult(answers: seq<QuizOption>) returns (r: QuizResult)
    ensures r == Outcome(answers)
  {
    var mlCount := MlCount(answers);
    var domainMap := TallyAnswers(answers);
    MapReadsTally(answers, domainMap);
    var counts := seq(|DomainKeys|, j requires 0 <= j < |DomainKeys| => domainMap[DomainKeys[j]]);
    var top := FirstMax(counts);
    var level := if |answers| > 6 && answers[6].tag != "" then answers[6].tag else "Beginner";
    r := QuizResult(mlCount >= 3, DomainLabels[top], level);
  }

  /** The quiz page's state. */
  class Quiz {
    var current: nat
    var answers: seq<QuizOption>
    var selected: Option<QuizOption>
    var done: bool
    var result: Option<QuizResult>

    /** One answer per question passed; the result exists once, and only
        once, the last question is answered. */
    ghost predicate Valid()
      reads this
    {
      && current < |Questions|
      && |answers| == current + (if done then 1 else 0)
      && (done <==> result.Some?)
      && (done ==> current == |Questions| - 1 && result == Some(Outcome(answers)))
    }

    constructor ()
      ensures Valid()
      ensures current == 0 && answers == [] && selected == None && !done && result == None
    {
      current, answers, selected, done, result := 0, [], None, false, None;
    }

    /** `handleSelect` */
    method Select(opt: QuizOption)
      requires Valid()
      modifies this
      ensures Valid() && selected == Some(opt)
      ensures current == old(current) && answers == old(answers) && done == old(done) && result == old(result)
    {
      selected := Some(opt);
    }

    /** `handleNext`, offered only while the quiz is not done. With nothing
        selected it does nothing. Otherwise the selection is appended to
        the answers; after the last question the result is computed from
        all of them, before it the quiz moves to the next question with
        the selection cleared. */
    method HandleNext()
      requires Valid() && !done
      modifies this
      ensures Valid()
      ensures old(selected).None? ==>
                current == old(current) && answers == old(answers) && selected == old(selected)
                && done == old(done) && result == old(result)
      ensures old(selected).Some? ==> answers == old(answers) + [old(selected).value]
      ensures old(selected).Some? && old(current) + 1 < |Questions| ==>
                current == old(current) + 1 && selected == None && !done && result == None
      ensures old(selected).Some? && old(current) + 1 == |Questions| ==>
                current == old(current) && done && result == Some(Outcome(answers))
    {
      if selected.None? {
        return;
      }
      var newAnswers := answers + [selected.value];
      answers := newAnswers;
      if current + 1 == |Questions| {
        var res := GetResult(newAnswers);
        result := Some(res);
        done := true;
      } else {
        current := current + 1;
        selected := None;
      }
    }

    /** `handleRestart`: every piece of quiz state back to its initial value. */
    method HandleRestart()
      modifies this
      ensures Valid()
      ensures current == 0 && answers == [] && selected == None && !done && result == None
    {
      current, answers, selected, done, result := 0, [], None, false, None;
    }
  }
}
