/** The review service as the tool sees it: the data it answers with, and a log of the calls that change it. */
module Gateway {
  import opened Wrappers

  // ----- What the service answers with (read operations become input data) -----

  /** A choice of a question, as listed in an answer summary. */
  datatype Choice = Choice(choiceId: string, title: string)

  /** An entry of list_answers' AnswerSummaries. */
  datatype AnswerSummary = AnswerSummary(
    questionId: string,
    questionTitle: string,
    isApplicable: bool,
    choices: seq<Choice>)

  /** A marked choice of get_answer's ChoiceAnswers. */
  datatype ChoiceAnswer = ChoiceAnswer(choiceId: string, status: string, reason: string, notes: string)

  /** get_answer's Answer: the Notes and ChoiceAnswers keys may be absent. */
  datatype AnswerDetail = AnswerDetail(notes: Option<string>, choiceAnswers: Option<seq<ChoiceAnswer>>)

  /** An entry of list_lenses' LensSummaries. */
  datatype LensSummary = LensSummary(lensName: string, lensArn: string)

  /** An entry of list_workloads' WorkloadSummaries. */
  datatype WorkloadSummary = WorkloadSummary(workloadName: string, workloadId: string)

  // ----- The calls that change the service -----

  /** The ChoiceUpdates entry of one choice. */
  datatype ChoiceUpdate =
    | StatusOnly(status: string)
    | StatusWithReason(status: string, reason: string, notes: string)

  datatype Call =
    | UpdateApplicability(workloadId: string, lensAlias: string, questionId: string, notes: string)
      // update_answer with IsApplicable=False
    | UpdateChoice(workloadId: string, lensAlias: string, questionId: string,
                   choiceId: string, update: ChoiceUpdate, notes: string)
      // update_answer with ChoiceUpdates={choiceId: update}
    | CreateWorkload(workloadName: string, description: string, environment: string,
                     accountIds: seq<string>, awsRegions: seq<string>, reviewOwner: string,
                     pillarPriorities: seq<string>, lenses: seq<string>)
    | AssociateLenses(workloadId: string, lensAliases: seq<string>)
    | ImportLens(alias: Option<string>, jsonString: string)
    | CreateLensVersion(lensAlias: string, lensVersion: string)

  /** The calls one step issues, and the failure that stopped it, if any. A failure keeps the calls made before it. */
  datatype Run = Run(calls: seq<Call>, failure: Option<Error>) {

    /** This step followed by `next`, which runs only when this step did not fail. */
    function Then(next: Run): (r: Run)
      ensures calls <= r.calls
      ensures r.failure.None? <==> failure.None? && next.failure.None?
      ensures failure.Some? ==> r == this
      ensures failure.None? ==> r.calls[|calls|..] == next.calls && r.failure == next.failure
    {
      if failure.Some? then this else Run(calls + next.calls, next.failure)
    }
  }

  const Done := Run([], None)

  /** The step that sends nothing and does not fail is the identity of `Then`, on either side. */
  lemma ThenDone(r: Run)
    ensures Done.Then(r) == r && r.Then(Done) == r
  {
  }

  /** Chaining steps does not depend on how they are grouped. */
  lemma ThenAssociative(a: Run, b: Run, c: Run)
    ensures a.Then(b).Then(c) == a.Then(b.Then(c))
  {
  }

  /** Issuing `call` with lens alias `alias`: the client library refuses a None alias before sending. */
  function Issue(alias: Option<string>, call: Call): (r: Run)
    ensures r.calls <= [call]
    ensures r.failure.None? <==> r.calls == [call]
    ensures r.failure.None? <==> alias.Some?
    ensures r.failure.Some? ==> r.failure.value == InvalidParameter("LensAlias")
  {
    if alias.None? then Run([], Some(InvalidParameter("LensAlias"))) else Run([call], None)
  }

  /** The service's client: `calls` is everything sent to it so far, in order. */
  class Client {
    var calls: seq<Call>

    constructor ()
      ensures calls == []
    {
      calls := [];
    }

    /** update_answer(IsApplicable=False); a None lens alias is refused. */
    method UpdateAnswerApplicability(workloadId: string, lensAlias: Option<string>, questionId: string, notes: string)
      returns (failure: Option<Error>)
      modifies this
      ensures var r := Issue(lensAlias, UpdateApplicability(workloadId, lensAlias.GetOr(""), questionId, notes));
              calls == old(calls) + r.calls && failure == r.failure
    {
      if lensAlias.None? {
        failure := Some(InvalidParameter("LensAlias"));
      } else {
        calls := calls + [UpdateApplicability(workloadId, lensAlias.value, questionId, notes)];
        failure := None;
      }
    }

    /** update_answer(ChoiceUpdates={choiceId: update}); a None lens alias is refused. */
    method UpdateAnswerChoice(workloadId: string, lensAlias: Option<string>, questionId: string,
                              choiceId: string, update: ChoiceUpdate, notes: string)
      returns (failure: Option<Error>)
      modifies this
      ensures var r := Issue(lensAlias, UpdateChoice(workloadId, lensAlias.GetOr(""), questionId, choiceId, update, notes));
              calls == old(calls) + r.calls && failure == r.failure
    {
      if lensAlias.None? {
        failure := Some(InvalidParameter("LensAlias"));
      } else {
        calls := calls + [UpdateChoice(workloadId, lensAlias.value, questionId, choiceId, update, notes)];
        failure := None;
      }
    }

    /** create_workload; the service's answer, the new workload's id, is a parameter of the callers. */
    method CreateWorkload(workloadName: string, description: string, environment: string,
                          accountIds: seq<string>, awsRegions: seq<string>, reviewOwner: string,
                          pillarPriorities: seq<string>, lenses: seq<string>)
      modifies this
      ensures calls == old(calls) + [Call.CreateWorkload(workloadName, description, environment, accountIds,
                                                         awsRegions, reviewOwner, pillarPriorities, lenses)]
    {
      calls := calls + [Call.CreateWorkload(workloadName, description, environment, accountIds,
                                            awsRegions, reviewOwner, pillarPriorities, lenses)];
    }

    /** associate_lenses(LensAliases=[lensAlias]); a None alias in the list is refused. */
    method AssociateLenses(workloadId: string, lensAlias: Option<string>) returns (failure: Option<Error>)
      modifies this
      ensures lensAlias.None? ==> calls == old(calls) && failure == Some(InvalidParameter("LensAliases"))
      ensures lensAlias.Some? ==> calls == old(calls) + [Call.AssociateLenses(workloadId, [lensAlias.value])] && failure.None?
    {
      if lensAlias.None? {
        failure := Some(InvalidParameter("LensAliases"));
      } else {
        calls := calls + [Call.AssociateLenses(workloadId, [lensAlias.value])];
        failure := None;
      }
    }

    /** import_lens, with or without LensAlias. */
    method ImportLens(alias: Option<string>, jsonString: string)
      modifies this
      ensures calls == old(calls) + [Call.ImportLens(alias, jsonString)]
    {
      calls := calls + [Call.ImportLens(alias, jsonString)];
    }

    /** create_lens_version. */
    method CreateLensVersion(lensAlias: string, lensVersion: string)
      modifies this
      ensures calls == old(calls) + [Call.CreateLensVersion(lensAlias, lensVersion)]
    {
      calls := calls + [Call.CreateLensVersion(lensAlias, lensVersion)];
    }
  }
}
