/**
 * The reconciler of wafr/workload.py: creating or updating a workload from a template, call by
 * call, against the service's client. Each command is proved to send exactly the calls of its
 * specification in WorkloadSpec, and to stop at the same failure.
 */
module Workload {
  import opened Wrappers
  import opened Text
  import opened Config
  import opened Gateway
  import opened WorkloadSpec
  import Lens

  /** get_workload_id: the first workload of the list with that name. */
  method GetWorkloadId(workloads: seq<WorkloadSummary>, workloadName: string) returns (id: Option<string>)
    ensures id == FirstWorkloadId(workloads, workloadName)
  {
    for i := 0 to |workloads|
      invariant FirstWorkloadId(workloads, workloadName) == FirstWorkloadId(workloads[i..], workloadName)
    {
      if workloads[i].workloadName == workloadName {
        return Some(workloads[i].workloadId);
      }
      assert workloads[i..][1..] == workloads[i + 1..];
    }
    return None;
  }

  /** get_lens_alias of workload.py: the template's lens key, looked up among the published lenses. */
  method GetLensAlias(f: TemplateFile, lenses: seq<LensSummary>) returns (r: Result<Option<string>>)
    ensures r == TemplateLensAlias(f, lenses)
  {
    if f.lens.None? {
      return Err(MissingKey("lens"));
    }
    var alias := Lens.GetLensAlias(lenses, f.lens.value);
    return Ok(alias);
  }

  /** A choice the operator's prompt loop has settled on. */
  predicate Settled(choice: string)
  {
    Lower(choice) == "y" || Lower(choice) == "n"
  }

  /** update_allowed: asks until an answer is empty or lowercases to y or n, reading `inputs` in order. */
  method UpdateAllowed(inputs: seq<string>) returns (allowed: Result<bool>)
    ensures allowed == PromptDecision(inputs)
  {
    var choice := "";
    var i := 0;
    while !Settled(choice)
      invariant 0 <= i <= |inputs|
      invariant !Settled(choice) ==> PromptDecision(inputs) == PromptDecision(inputs[i..])
      invariant Settled(choice) ==> PromptDecision(inputs) == Ok(Lower(choice) == "y")
      invariant choice == Lower(choice)
      decreases |inputs| - i, if Settled(choice) then 0 else 1
    {
      if i == |inputs| {
        return Err(EndOfInput);
      }
      var answer := inputs[i];
      assert inputs[i..][0] == answer && inputs[i..][1..] == inputs[i + 1..];
      if answer == "" {
        choice := "n";
      } else {
        choice := Lower(answer);
      }
      LowerIdempotent(answer);
      i := i + 1;
    }
    return Ok(choice == "y");
  }

  /** update_answer: one choice update for a marked answer; its payload is read before the call is sent. */
  method UpdateAnswer(client: Client, a: TemplateAnswer, workloadId: string, questionId: string, notes: string,
                      alias: Option<string>)
    returns (failure: Option<Error>)
    requires a.status.Some?
    modifies client
    ensures var r := AnswerRun(workloadId, alias, Some(questionId), notes, a);
            client.calls == old(client.calls) + r.calls && failure == r.failure
  {
    var payload := ChoicePayload(a);
    if payload.Err? {
      return Some(payload.error);
    }
    failure := client.UpdateAnswerChoice(workloadId, alias, questionId, payload.value.0, payload.value.1, notes);
  }

  /** The marks of one question: a single call when it is not applicable, otherwise one per marked answer. */
  method ApplyQuestionMarks(client: Client, workloadId: string, q: TemplateQuestion, alias: Option<string>)
    returns (failure: Option<Error>)
    modifies client
    ensures var r := QuestionRun(workloadId, alias, q);
            client.calls == old(client.calls) + r.calls && failure == r.failure
  {
    var notes := if q.notes.Some? then q.notes.value else "";
    if q.notApplicable == Some(true) {
      if q.questionId.None? {
        return Some(MissingKey("question_id"));
      }
      failure := client.UpdateAnswerApplicability(workloadId, alias, q.questionId.value, notes);
      return;
    }
    if q.answers.Absent? {
      return Some(MissingKey("answers"));
    }
    if q.answers.Null? {
      return Some(NotIterable("answers"));
    }
    var answers := q.answers.items;
    for i := 0 to |answers|
      invariant client.calls == old(client.calls) + AnswersRun(workloadId, alias, q.questionId, notes, answers[..i]).calls
      invariant AnswersRun(workloadId, alias, q.questionId, notes, answers[..i]).failure.None?
    {
      var step := AnswerRun(workloadId, alias, q.questionId, notes, answers[i]);
      ghost var prefix := AnswersRun(workloadId, alias, q.questionId, notes, answers[..i]);
      TakeSnoc(answers, i);
      AnswersRunSnoc(workloadId, alias, q.questionId, notes, answers[..i], answers[i]);
      if answers[i].status.Some? {
        if q.questionId.None? {
          AnswersRunStops(workloadId, alias, q.questionId, notes, answers, i + 1);
          return Some(MissingKey("question_id"));
        }
        failure := UpdateAnswer(client, answers[i], workloadId, q.questionId.value, notes, alias);
        AppendAssociative(old(client.calls), prefix.calls, step.calls);
        if failure.Some? {
          AnswersRunStops(workloadId, alias, q.questionId, notes, answers, i + 1);
          return;
        }
      } else {
        assert prefix.calls + [] == prefix.calls;
      }
    }
    assert answers[..|answers|] == answers;
    failure := None;
  }

  /** The marks of the questions of one pillar, in order. */
  method ApplyPillarMarks(client: Client, workloadId: string, p: TemplatePillar, alias: Option<string>)
    returns (failure: Option<Error>)
    modifies client
    ensures var r := PillarRun(workloadId, alias, p);
            client.calls == old(client.calls) + r.calls && failure == r.failure
  {
    if p.questions.None? {
      return Some(NotIterable(p.name));
    }
    var qs := p.questions.value;
    for j := 0 to |qs|
      invariant client.calls == old(client.calls) + QuestionsRun(workloadId, alias, qs[..j]).calls
      invariant QuestionsRun(workloadId, alias, qs[..j]).failure.None?
    {
      ghost var prefix := QuestionsRun(workloadId, alias, qs[..j]);
      failure := ApplyQuestionMarks(client, workloadId, qs[j], alias);
      TakeSnoc(qs, j);
      QuestionsRunSnoc(workloadId, alias, qs[..j], qs[j]);
      AppendAssociative(old(client.calls), prefix.calls, QuestionRun(workloadId, alias, qs[j]).calls);
      if failure.Some? {
        QuestionsRunStops(workloadId, alias, qs, j + 1);
        return;
      }
    }
    assert qs[..|qs|] == qs;
    failure := None;
  }

  /** apply_marks_in_well_architected_tool: the marks of every pillar of the template, in order. */
  method ApplyMarks(client: Client, workloadId: string, pillars: seq<TemplatePillar>, alias: Option<string>)
    returns (failure: Option<Error>)
    modifies client
    ensures var r := MarksRun(workloadId, alias, pillars);
            client.calls == old(client.calls) + r.calls && failure == r.failure
  {
    for k := 0 to |pillars|
      invariant client.calls == old(client.calls) + MarksRun(workloadId, alias, pillars[..k]).calls
      invariant MarksRun(workloadId, alias, pillars[..k]).failure.None?
    {
      ghost var prefix := MarksRun(workloadId, alias, pillars[..k]);
      failure := ApplyPillarMarks(client, workloadId, pillars[k], alias);
      TakeSnoc(pillars, k);
      MarksRunSnoc(workloadId, alias, pillars[..k], pillars[k]);
      AppendAssociative(old(client.calls), prefix.calls, PillarRun(workloadId, alias, pillars[k]).calls);
      if failure.Some? {
        MarksRunStops(workloadId, alias, pillars, k + 1);
        return;
      }
    }
    assert pillars[..|pillars|] == pillars;
    failure := None;
  }

  /** The questions of one pillar of the standard template, each marked not applicable. */
  method DisablePillarQuestions(client: Client, workloadId: string, standardAlias: string, p: TemplatePillar)
    returns (failure: Option<Error>)
    modifies client
    ensures var r := DisablePillarRun(workloadId, standardAlias, p);
            client.calls == old(client.calls) + r.calls && failure == r.failure
  {
    if p.questions.None? {
      return Some(NotIterable(p.name));
    }
    var qs := p.questions.value;
    for j := 0 to |qs|
      invariant client.calls == old(client.calls) + DisableQuestionsRun(workloadId, standardAlias, qs[..j]).calls
      invariant DisableQuestionsRun(workloadId, standardAlias, qs[..j]).failure.None?
    {
      ghost var prefix := DisableQuestionsRun(workloadId, standardAlias, qs[..j]);
      TakeSnoc(qs, j);
      DisableQuestionsRunSnoc(workloadId, standardAlias, qs[..j], qs[j]);
      if qs[j].questionId.None? {
        DisableQuestionsRunStops(workloadId, standardAlias, qs, j + 1);
        return Some(MissingKey("question_id"));
      }
      failure := client.UpdateAnswerApplicability(workloadId, Some(standardAlias), qs[j].questionId.value, "");
      AppendAssociative(old(client.calls), prefix.calls, DisableQuestionRun(workloadId, standardAlias, qs[j]).calls);
    }
    assert qs[..|qs|] == qs;
    failure := None;
  }

  /** disable_standard_questions: every question of the standard template, in order. */
  method DisableStandardQuestions(client: Client, cfg: Config, workloadId: string, pillars: seq<TemplatePillar>)
    returns (failure: Option<Error>)
    modifies client
    ensures var r := DisableRun(workloadId, cfg.standardLensAlias, pillars);
            client.calls == old(client.calls) + r.calls && failure == r.failure
  {
    for k := 0 to |pillars|
      invariant client.calls == old(client.calls) + DisableRun(workloadId, cfg.standardLensAlias, pillars[..k]).calls
      invariant DisableRun(workloadId, cfg.standardLensAlias, pillars[..k]).failure.None?
    {
      ghost var prefix := DisableRun(workloadId, cfg.standardLensAlias, pillars[..k]);
      failure := DisablePillarQuestions(client, workloadId, cfg.standardLensAlias, pillars[k]);
      TakeSnoc(pillars, k);
      DisableRunSnoc(workloadId, cfg.standardLensAlias, pillars[..k], pillars[k]);
      AppendAssociative(old(client.calls), prefix.calls, DisablePillarRun(workloadId, cfg.standardLensAlias, pillars[k]).calls);
      if failure.Some? {
        DisableRunStops(workloadId, cfg.standardLensAlias, pillars, k + 1);
        return;
      }
    }
    assert pillars[..|pillars|] == pillars;
    failure := None;
  }

  /** Reads the standard template and disables its questions. */
  method DisableStandardTemplate(client: Client, cfg: Config, workloadId: string, standardFile: TemplateFile)
    returns (failure: Option<Error>)
    modifies client
    ensures var r := StandardRun(cfg, workloadId, standardFile);
            client.calls == old(client.calls) + r.calls && failure == r.failure
  {
    var standard := GetTemplateContent(standardFile);
    if standard.Err? {
      return Some(standard.error);
    }
    failure := DisableStandardQuestions(client, cfg, workloadId, standard.value);
  }

  /**
   * create_new_workload. `workloadId` stands for the id the service answers create_workload with;
   * the request token made from the clock is not modelled.
   */
  method CreateNewWorkload(client: Client, cfg: Config, f: TemplateFile, lenses: seq<LensSummary>,
                           workloadName: string, description: string, environment: string,
                           accountIds: seq<string>, regions: seq<string>, reviewOwner: string,
                           disableStandard: bool, standardFile: TemplateFile, workloadId: string)
    returns (failure: Option<Error>)
    modifies client
    ensures var r := CreateRun(cfg, f, lenses, workloadName, description, environment, accountIds, regions,
                               reviewOwner, disableStandard, standardFile, workloadId);
            client.calls == old(client.calls) + r.calls && failure == r.failure
  {
    var template := GetTemplateContent(f);
    if template.Err? {
      return Some(template.error);
    }
    var found := GetLensAlias(f, lenses);
    var alias := found.value;
    if !Truthy(alias) {
      return None;
    }
    var create := Call.CreateWorkload(workloadName, description, ConvertEnvironment(environment), accountIds, regions,
                                      reviewOwner, PillarPriorities, [alias.value]);
    client.CreateWorkload(workloadName, description, ConvertEnvironment(environment), accountIds, regions,
                          reviewOwner, PillarPriorities, [alias.value]);
    var standard := Done;
    if DisablingStandardLens(cfg, disableStandard, alias) {
      standard := StandardRun(cfg, workloadId, standardFile);
      failure := DisableStandardTemplate(client, cfg, workloadId, standardFile);
      if failure.Some? {
        return;
      }
    } else {
      assert [create] + [] == [create];
    }
    ghost var before := client.calls;
    failure := ApplyMarks(client, workloadId, template.value, alias);
    AppendAssociative(old(client.calls), [create], standard.calls);
    AppendAssociative(old(client.calls), [create] + standard.calls, MarksRun(workloadId, alias, template.value).calls);
  }

  /** The association step of update_existing_workload: only for a new lens, and only when the operator allows it. */
  method AssociateIfNew(client: Client, workloadId: string, alias: Option<string>, workloadLenses: seq<string>,
                        inputs: seq<string>)
    returns (failure: Option<Error>)
    modifies client
    ensures var r := AssociationRun(workloadId, alias, workloadLenses, inputs);
            client.calls == old(client.calls) + r.calls && failure == r.failure
  {
    if AddingNewLens(alias, workloadLenses) {
      var allowed := UpdateAllowed(inputs);
      if allowed.Err? {
        return Some(allowed.error);
      }
      if allowed.value {
        failure := client.AssociateLenses(workloadId, alias);
        return;
      }
    }
    failure := None;
  }

  /**
   * update_existing_workload. `workloads` is the service's workload list, `workloadLenses` the
   * lenses of the named workload and `inputs` the operator's answers to the prompt.
   */
  method UpdateExistingWorkload(client: Client, cfg: Config, f: TemplateFile, lenses: seq<LensSummary>,
                                workloads: seq<WorkloadSummary>, workloadName: string,
                                workloadLenses: seq<string>, inputs: seq<string>,
                                disableStandard: bool, standardFile: TemplateFile)
    returns (failure: Option<Error>)
    modifies client
    ensures var r := UpdateRun(cfg, f, lenses, workloads, workloadName, workloadLenses, inputs, disableStandard, standardFile);
            client.calls == old(client.calls) + r.calls && failure == r.failure
  {
    var template := GetTemplateContent(f);
    if template.Err? {
      return Some(template.error);
    }
    var found := GetLensAlias(f, lenses);
    var alias := found.value;
    var workloadId := GetWorkloadId(workloads, workloadName);
    if workloadId.None? {
      return Some(InvalidParameter("WorkloadId"));
    }
    var id := workloadId.value;
    ghost var association := AssociationRun(id, alias, workloadLenses, inputs);
    failure := AssociateIfNew(client, id, alias, workloadLenses, inputs);
    if failure.Some? {
      return;
    }
    ghost var marks := MarksRun(id, alias, template.value);
    failure := ApplyMarks(client, id, template.value, alias);
    AppendAssociative(old(client.calls), association.calls, marks.calls);
    if failure.Some? {
      return;
    }
    if DisablingStandardLens(cfg, disableStandard, alias) {
      ghost var standard := StandardRun(cfg, id, standardFile);
      failure := DisableStandardTemplate(client, cfg, id, standardFile);
      AppendAssociative(old(client.calls), association.calls + marks.calls, standard.calls);
    } else {
      assert association.calls + marks.calls + [] == association.calls + marks.calls;
    }
  }

  // ----- Step lemmas: a run over a longer list is the shorter run followed by one more step -----

  lemma AnswersRunSnoc(workloadId: string, alias: Option<string>, questionId: Option<string>, notes: string,
                       answers: seq<TemplateAnswer>, a: TemplateAnswer)
    ensures AnswersRun(workloadId, alias, questionId, notes, answers + [a])
            == AnswersRun(workloadId, alias, questionId, notes, answers).Then(AnswerRun(workloadId, alias, questionId, notes, a))
  {
    assert (answers + [a])[..|answers|] == answers;
  }

  lemma QuestionsRunSnoc(workloadId: string, alias: Option<string>, qs: seq<TemplateQuestion>, q: TemplateQuestion)
    ensures QuestionsRun(workloadId, alias, qs + [q]) == QuestionsRun(workloadId, alias, qs).Then(QuestionRun(workloadId, alias, q))
  {
    assert (qs + [q])[..|qs|] == qs;
  }

  lemma MarksRunSnoc(workloadId: string, alias: Option<string>, ps: seq<TemplatePillar>, p: TemplatePillar)
    ensures MarksRun(workloadId, alias, ps + [p]) == MarksRun(workloadId, alias, ps).Then(PillarRun(workloadId, alias, p))
  {
    assert (ps + [p])[..|ps|] == ps;
  }

  lemma DisableQuestionsRunSnoc(workloadId: string, standardAlias: string, qs: seq<TemplateQuestion>, q: TemplateQuestion)
    ensures DisableQuestionsRun(workloadId, standardAlias, qs + [q])
            == DisableQuestionsRun(workloadId, standardAlias, qs).Then(DisableQuestionRun(workloadId, standardAlias, q))
  {
    assert (qs + [q])[..|qs|] == qs;
  }

  lemma DisableRunSnoc(workloadId: string, standardAlias: string, ps: seq<TemplatePillar>, p: TemplatePillar)
    ensures DisableRun(workloadId, standardAlias, ps + [p])
            == DisableRun(workloadId, standardAlias, ps).Then(DisablePillarRun(workloadId, standardAlias, p))
  {
    assert (ps + [p])[..|ps|] == ps;
  }
}
