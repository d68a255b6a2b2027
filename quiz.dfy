/** Quiz grading (api/quiz.js `POST /grade`, app/api/quiz/route.ts `POST`): validate the
    submission, count the matching answers, record the attempt, run the badge rules and
    report score, verdict, running total and new badges. */
module Quiz {
  import opened Wrappers
  import opened ProgressStore
  import opened DrillStore
  import opened UserStore
  import opened Catalogue
  import opened Badges

  /** One submitted answer: a number, or any other JSON value (which never equals a stored answer). */
  datatype Answer = Choice(index: int) | NotANumber

  /** The request body; an absent field is None, and `answers` is None unless it is an array. */
  datatype GradeRequest = GradeRequest(moduleId: Option<string>, userId: Option<string>, answers: Option<seq<Answer>>)

  datatype GradeResponse =
    | Graded(score: nat, total: nat, passed: bool, totalScore: nat, newBadges: seq<string>)
    | Failed(status: int, error: string)

  /** The outcome of the checks that precede any write. */
  datatype Checked = Reject(status: int, error: string) | Accept(user: User, quizModule: Module, answers: seq<Answer>)

  /** JavaScript falsiness of a string field. */
  predicate Falsy(v: Option<string>) {
    v.None? || v.value == ""
  }

  /** The checks in source order: missing fields (400), unknown user (404), unknown module (404),
      length mismatch (400). */
  function ValidateGrade(catalogue: seq<Module>, users: seq<User>, req: GradeRequest): (r: Checked)
    ensures Falsy(req.moduleId) || Falsy(req.userId) || req.answers.None? ==>
      r == Reject(400, "moduleId, userId, and answers are required")
    ensures r.Accept? <==>
      !Falsy(req.moduleId) && !Falsy(req.userId) && req.answers.Some? &&
      FindById(users, req.userId.value).Some? && FindModule(catalogue, req.moduleId.value).Some? &&
      |FindModule(catalogue, req.moduleId.value).value.quiz| == |req.answers.value|
    ensures r.Accept? ==> (Some(r.user) == FindById(users, req.userId.value) &&
      Some(r.quizModule) == FindModule(catalogue, req.moduleId.value) && r.answers == req.answers.value)
    ensures r.Reject? ==> r.status in {400, 404}
    ensures (!Falsy(req.moduleId) && !Falsy(req.userId) && req.answers.Some? &&
             FindById(users, req.userId.value).None?) ==>
      r == Reject(404, "User not found")
    ensures (!Falsy(req.moduleId) && !Falsy(req.userId) && req.answers.Some? &&
             FindById(users, req.userId.value).Some? && FindModule(catalogue, req.moduleId.value).None?) ==>
      r == Reject(404, "Module not found")
    ensures (!Falsy(req.moduleId) && !Falsy(req.userId) && req.answers.Some? &&
             FindById(users, req.userId.value).Some? && FindModule(catalogue, req.moduleId.value).Some? &&
             |FindModule(catalogue, req.moduleId.value).value.quiz| != |req.answers.value|) ==>
      r == Reject(400, "Answers length does not match quiz length")
  {
    if Falsy(req.moduleId) || Falsy(req.userId) || req.answers.None? then
      Reject(400, "moduleId, userId, and answers are required")
    else match FindById(users, req.userId.value)
      case None => Reject(404, "User not found")
      case Some(user) =>
        match FindModule(catalogue, req.moduleId.value)
        case None => Reject(404, "Module not found")
        case Some(found) =>
          if |found.quiz| != |req.answers.value| then Reject(400, "Answers length does not match quiz length")
          else Accept(user, found, req.answers.value)
  }

  /** The number of positions whose submitted answer equals the stored one. */
  function MatchCount(quiz: seq<QuizItem>, answers: seq<Answer>): (r: nat)
    requires |quiz| == |answers|
    ensures r <= |quiz|
  {
    if quiz == [] then 0
    else
      MatchCount(quiz[..|quiz| - 1], answers[..|answers| - 1])
      + (if answers[|answers| - 1] == Choice(quiz[|quiz| - 1].answer) then 1 else 0)
  }

  /** The score counts exactly the matching positions. */
  lemma {:induction false} MatchCountCountsPositions(quiz: seq<QuizItem>, answers: seq<Answer>)
    requires |quiz| == |answers|
    ensures MatchCount(quiz, answers) == |set i | 0 <= i < |quiz| && answers[i] == Choice(quiz[i].answer)|
  {
    if quiz != [] {
      var n := |quiz| - 1;
      MatchCountCountsPositions(quiz[..n], answers[..n]);
      var before := set i | 0 <= i < n && answers[..n][i] == Choice(quiz[..n][i].answer);
      var after := set i | 0 <= i < |quiz| && answers[i] == Choice(quiz[i].answer);
      if answers[n] == Choice(quiz[n].answer) {
        assert after == before + {n};
      } else {
        assert after == before;
      }
    }
  }

  /** The scoring loop over the questions. */
  method ScoreAnswers(quiz: seq<QuizItem>, answers: seq<Answer>) returns (score: nat)
    requires |quiz| == |answers|
    ensures score == MatchCount(quiz, answers)
  {
    score := 0;
    var index := 0;
    while index < |quiz|
      invariant 0 <= index <= |quiz|
      invariant score == MatchCount(quiz[..index], answers[..index])
    {
      assert quiz[..index + 1][..index] == quiz[..index];
      assert answers[..index + 1][..index] == answers[..index];
      if answers[index] == Choice(quiz[index].answer) {
        score := score + 1;
      }
      index := index + 1;
    }
    assert quiz[..index] == quiz && answers[..index] == answers;
  }

  /** The score reaches half the question count (a real division). */
  predicate Passed(score: nat, total: nat) {
    (score as real) >= (total as real) / 2.0
  }

  /** The verdict's threshold is the module rule's half rounded up: for whole scores the two agree. */
  lemma PassThreshold(score: nat, total: nat)
    ensures Passed(score, total) <==> score >= CeilHalf(total)
  {
    if score >= CeilHalf(total) {
      assert 2 * score >= total;
      assert (score as real) * 2.0 >= total as real;
    } else {
      assert 2 * score < total;
      assert (score as real) * 2.0 < total as real;
    }
  }

  /** The grading flow against the three stores; the clock reading is a parameter. */
  method Grade(catalogue: seq<Module>, users: UserFile, progress: ProgressLog, drills: DrillLog, req: GradeRequest, now: nat)
    returns (resp: GradeResponse)
    modifies users, progress
    ensures var v := ValidateGrade(catalogue, old(users.Users()), req);
      v.Reject? ==> resp == Failed(v.status, v.error) && unchanged(users) && unchanged(progress)
    ensures var v := ValidateGrade(catalogue, old(users.Users()), req);
      v.Accept? ==>
        var uid := req.userId.value;
        var mid := req.moduleId.value;
        var score := MatchCount(v.quizModule.quiz, v.answers);
        var earned := NewBadges(catalogue, v.user, progress.attempts, drills.records);
        progress.attempts == old(progress.attempts) + [Attempt(AttemptId(uid, mid, now), uid, mid, score, now)] &&
        users.records == (if earned == [] then old(users.records)
                          else Upsert(old(users.Users()), v.user.(badges := Listed(HeldBadges(v.user.badges) + earned)))) &&
        resp == Graded(score, |v.quizModule.quiz|, Passed(score, |v.quizModule.quiz|), TotalScore(progress.attempts, uid), earned)
  {
    var v := ValidateGrade(catalogue, users.Users(), req);
    if v.Reject? {
      return Failed(v.status, v.error);
    }
    var userId := req.userId.value;
    var moduleId := req.moduleId.value;
    var user := v.user;
    var quiz := v.quizModule.quiz;
    var k := IndexOfId(users.Users(), userId).value;
    assert user == users.Users()[k];

    var score := ScoreAnswers(quiz, v.answers);
    progress.SaveQuizAttempt(userId, moduleId, score, now);

    var newBadges, updated := CheckAndAwardBadges(catalogue, user, progress.attempts, drills.records);
    if |newBadges| > 0 {
      users.SaveUser(updated);
    }

    var totalScore := progress.GetTotalScoreByUserId(userId);
    var passed := (score as real) >= (|quiz| as real) / 2.0;
    resp := Graded(score, |quiz|, passed, totalScore, newBadges);
  }

  /** The Next.js route: the same flow, and an unreadable body becomes 500. */
  method GradeRoute(catalogue: seq<Module>, users: UserFile, progress: ProgressLog, drills: DrillLog, body: Option<GradeRequest>, now: nat)
    returns (resp: GradeResponse)
    modifies users, progress
    ensures body.None? ==> resp == Failed(500, "Internal server error") && unchanged(users) && unchanged(progress)
    ensures body.Some? ==> var v := ValidateGrade(catalogue, old(users.Users()), body.value);
      v.Reject? ==> resp == Failed(v.status, v.error) && unchanged(users) && unchanged(progress)
    ensures body.Some? ==> var v := ValidateGrade(catalogue, old(users.Users()), body.value);
      v.Accept? ==>
        var uid := body.value.userId.value;
        var mid := body.value.moduleId.value;
        var score := MatchCount(v.quizModule.quiz, v.answers);
        var earned := NewBadges(catalogue, v.user, progress.attempts, drills.records);
        progress.attempts == old(progress.attempts) + [Attempt(AttemptId(uid, mid, now), uid, mid, score, now)] &&
        users.records == (if earned == [] then old(users.records)
                          else Upsert(old(users.Users()), v.user.(badges := Listed(HeldBadges(v.user.badges) + earned)))) &&
        resp == Graded(score, |v.quizModule.quiz|, Passed(score, |v.quizModule.quiz|), TotalScore(progress.attempts, uid), earned)
  {
    if body.None? {
      return Failed(500, "Internal server error");
    }
    resp := Grade(catalogue, users, progress, drills, body.value, now);
  }

  /** A four-question module answered [0, 1, 2, 3] against the key [0, 1, 2, 3] scores 4 and passes;
      answered [1, 1, 2, 3] it scores 3 and still passes. */
  lemma GradingExample(q0: string, q1: string, q2: string, q3: string, c: seq<string>)
    ensures var quiz := [QuizItem(q0, c, 0), QuizItem(q1, c, 1), QuizItem(q2, c, 2), QuizItem(q3, c, 3)];
      MatchCount(quiz, [Choice(0), Choice(1), Choice(2), Choice(3)]) == 4 && Passed(4, 4) &&
      MatchCount(quiz, [Choice(1), Choice(1), Choice(2), Choice(3)]) == 3 && Passed(3, 4)
  {
    var quiz := [QuizItem(q0, c, 0), QuizItem(q1, c, 1), QuizItem(q2, c, 2), QuizItem(q3, c, 3)];
    var a := [Choice(0), Choice(1), Choice(2), Choice(3)];
    var b := [Choice(1), Choice(1), Choice(2), Choice(3)];
    assert quiz[..3][..2] == quiz[..2] && quiz[..2][..1] == quiz[..1] && quiz[..1][..0] == [];
    assert a[..3][..2] == a[..2] && a[..2][..1] == a[..1] && a[..1][..0] == [];
    assert b[..3][..2] == b[..2] && b[..2][..1] == b[..1] && b[..1][..0] == [];
    assert MatchCount(quiz[..1], a[..1]) == 1 && MatchCount(quiz[..1], b[..1]) == 0;
    assert MatchCount(quiz[..2], a[..2]) == 2 && MatchCount(quiz[..2], b[..2]) == 1;
    assert MatchCount(quiz[..3], a[..3]) == 3 && MatchCount(quiz[..3], b[..3]) == 2;
  }
}
