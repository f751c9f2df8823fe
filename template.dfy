/**
 * generate_new_template and the helpers that append to the template list (wafr/template.py:36-145).
 * The service's answers are inputs: `service(alias)(p)` is what list_answers and get_answer return
 * for pillar `p` of the workload under lens alias `alias`.
 */
module Template {
  import opened Wrappers
  import opened Text
  import opened Pillars
  import opened Config
  import opened Gateway
  import opened TemplateFormat
  import opened TemplateSpec
  import Lens

  /** The template list that the append helpers extend, one rendered line at a time. */
  class TemplateBuffer {
    var lines: seq<string>

    constructor ()
      ensures lines == []
    {
      lines := [];
    }

    /** append_new_line. */
    method AppendNewLine(indent: nat, key: Key, value: string)
      modifies this
      ensures lines == old(lines) + RenderAll([Line(indent, key, value)])
    {
      lines := lines + [Render(Line(indent, key, value))];
    }

    /** append_pillar: the pillar's header line. */
    method AppendPillar(p: Pillar)
      modifies this
      ensures lines == old(lines) + RenderAll([Line(Indent0, Named(Id(p)), "")])
    {
      AppendNewLine(Indent0, Named(Id(p)), "");
    }

    method AppendQuestionLabel(p: Pillar, count: nat)
      modifies this
      ensures lines == old(lines) + RenderAll([Line(Indent1, LabelKey, LabelValue(p, count))])
    {
      AppendNewLine(Indent1, LabelKey, Label(p) + " " + NatToString(count));
    }

    method AppendQuestionId(questionId: string)
      modifies this
      ensures lines == old(lines) + RenderAll([Line(Indent2, QuestionIdKey, questionId)])
    {
      AppendNewLine(Indent2, QuestionIdKey, questionId);
    }

    method AppendQuestionTitle(questionTitle: string)
      modifies this
      ensures lines == old(lines) + RenderAll([Line(Indent2, TitleKey, questionTitle)])
    {
      AppendNewLine(Indent2, TitleKey, questionTitle);
    }

    /** append_question_note: the note as a literal block, built segment by segment. */
    method AppendQuestionNote(note: string)
      modifies this
      ensures lines == old(lines) + RenderAll([Line(Indent2, NotesKey, NotesValue(note))])
    {
      var segments := Split(note, '\n');
      var value := "|-\n";
      for i := 0 to |segments|
        invariant value == "|-\n" + NoteBody(segments, i)
      {
        value := value + Spaces(Indent3) + segments[i] + AddNewLine(i, |segments| - 1);
      }
      AppendNewLine(Indent2, NotesKey, value);
    }

    method AppendAnswersHeader()
      modifies this
      ensures lines == old(lines) + RenderAll([Line(Indent2, AnswersKey, "")])
    {
      AppendNewLine(Indent2, AnswersKey, "");
    }

    method AppendAnswerId(choiceId: string)
      modifies this
      ensures lines == old(lines) + RenderAll([Line(Indent3, IdKey, choiceId)])
    {
      AppendNewLine(Indent3, IdKey, choiceId);
    }

    method AppendAnswerTitle(title: string)
      modifies this
      ensures lines == old(lines) + RenderAll([Line(Indent4, TitleKey, title)])
    {
      AppendNewLine(Indent4, TitleKey, title);
    }

    method AppendAnswerStatus(status: string)
      modifies this
      ensures lines == old(lines) + RenderAll([Line(Indent4, StatusKey, status)])
    {
      AppendNewLine(Indent4, StatusKey, status);
    }

    method AppendAnswerReason(reason: string)
      modifies this
      ensures lines == old(lines) + RenderAll([Line(Indent4, ReasonKey, reason)])
    {
      AppendNewLine(Indent4, ReasonKey, reason);
    }

    method AppendAnswerNotes(notes: string)
      modifies this
      ensures lines == old(lines) + RenderAll([Line(Indent4, NotesKey, notes)])
    {
      AppendNewLine(Indent4, NotesKey, notes);
    }

    method AppendAnswerNotApplicable()
      modifies this
      ensures lines == old(lines) + RenderAll([Line(Indent2, NotApplicableKey, "true")])
    {
      AppendNewLine(Indent2, NotApplicableKey, "true");
    }

    /** The body of append_answer_status_and_comments' loop: one marked answer, if it is for the choice. */
    method AppendMark(choiceId: string, m: ChoiceAnswer)
      modifies this
      ensures lines == old(lines) + RenderAll(MarkLines(choiceId, m))
    {
      if m.choiceId == choiceId {
        ghost var status := Line(Indent4, StatusKey, m.status);
        AppendAnswerStatus(m.status);
        if m.status == NotApplicableStatus {
          ghost var reason := Line(Indent4, ReasonKey, m.reason);
          ghost var notes := Line(Indent4, NotesKey, m.notes);
          AppendAnswerReason(m.reason);
          RenderAllExtend(old(lines), [status], [reason]);
          AppendAnswerNotes(m.notes);
          RenderAllExtend(old(lines), [status] + [reason], [notes]);
          assert [status] + [reason] + [notes] == [status] + [reason, notes];
        } else {
          assert [status] + [] == [status];
        }
      } else {
        assert RenderAll([]) == [];
        assert old(lines) + [] == old(lines);
      }
    }

    /** append_answer_status_and_comments: every marked answer of the choice, in the order the service lists them. */
    method AppendAnswerStatusAndComments(choiceId: string, marked: seq<ChoiceAnswer>)
      modifies this
      ensures lines == old(lines) + RenderAll(StatusLines(choiceId, marked))
    {
      for i := 0 to |marked|
        invariant lines == old(lines) + RenderAll(StatusLines(choiceId, marked[..i]))
      {
        ghost var prev := StatusLines(choiceId, marked[..i]);
        AppendMark(choiceId, marked[i]);
        RenderAllExtend(old(lines), prev, MarkLines(choiceId, marked[i]));
        TakeSnoc(marked, i);
        StatusLinesSnoc(choiceId, marked[..i], marked[i]);
      }
      assert marked[..|marked|] == marked;
    }

    /** append_answers: the answers header, then every choice with its id, title and, when saving, its marks. */
    method AppendAnswers(q: QuestionInput, save: bool)
      modifies this
      ensures lines == old(lines) + RenderAll(AnswersLines(q, save))
    {
      ghost var header := [Line(Indent2, AnswersKey, "")];
      AppendAnswersHeader();
      var marked := if q.detail.choiceAnswers.Some? then q.detail.choiceAnswers.value else [];
      assert marked == MarkedAnswers(q.detail);
      var choices := q.summary.choices;
      assert choices[..0] == [];
      for i := 0 to |choices|
        invariant lines == old(lines) + RenderAll(header + ChoicesLines(choices[..i], marked, save))
      {
        var c := choices[i];
        ghost var done := ChoicesLines(choices[..i], marked, save);
        ghost var prev := header + done;
        ghost var id := Line(Indent3, IdKey, c.choiceId);
        ghost var title := Line(Indent4, TitleKey, c.title);
        AppendAnswerId(c.choiceId);
        RenderAllExtend(old(lines), prev, [id]);
        AppendAnswerTitle(c.title);
        RenderAllExtend(old(lines), prev + [id], [title]);
        AppendAssociative(prev, [id], [title]);
        assert [id] + [title] == [id, title];
        if save {
          AppendAnswerStatusAndComments(c.choiceId, marked);
          RenderAllExtend(old(lines), prev + [id, title], StatusLines(c.choiceId, marked));
          AppendAssociative(prev, [id, title], StatusLines(c.choiceId, marked));
        } else {
          assert [id, title] + [] == [id, title];
        }
        assert lines == old(lines) + RenderAll(prev + ChoiceLines(c, marked, save));
        AppendAssociative(header, done, ChoiceLines(c, marked, save));
        TakeSnoc(choices, i);
        ChoicesLinesSnoc(choices[..i], c, marked, save);
      }
      assert choices[..|choices|] == choices;
    }

    /** The body of generate_new_template's inner loop: one question of pillar `p`. */
    method AppendQuestion(p: Pillar, count: nat, q: QuestionInput, save: bool)
      modifies this
      ensures lines == old(lines) + RenderAll(QuestionLines(p, count, q, save))
    {
      ghost var labelLine := Line(Indent1, LabelKey, LabelValue(p, count));
      ghost var id := Line(Indent2, QuestionIdKey, q.summary.questionId);
      ghost var title := Line(Indent2, TitleKey, q.summary.questionTitle);
      AppendQuestionLabel(p, count);
      AppendQuestionId(q.summary.questionId);
      RenderAllExtend(old(lines), [labelLine], [id]);
      AppendQuestionTitle(q.summary.questionTitle);
      RenderAllExtend(old(lines), [labelLine] + [id], [title]);
      ghost var head := QuestionHead(p, count, q);
      assert [labelLine] + [id] + [title] == head;
      if q.detail.notes.Some? {
        AppendQuestionNote(q.detail.notes.value);
        RenderAllExtend(old(lines), head, NoteLines(q.detail));
      } else {
        assert head + NoteLines(q.detail) == head;
      }
      ghost var noted := head + NoteLines(q.detail);
      if save && !q.summary.isApplicable {
        AppendAnswerNotApplicable();
      } else {
        AppendAnswers(q, save);
      }
      RenderAllExtend(old(lines), noted, QuestionTail(q, save));
    }

    /** generate_new_template's inner loop: the questions of pillar `p`, numbered from one. */
    method AppendQuestions(p: Pillar, qs: seq<QuestionInput>, save: bool)
      modifies this
      ensures lines == old(lines) + RenderAll(QuestionsLines(p, qs, save))
    {
      var counter := InitQuestionCounter();
      for j := 0 to |qs|
        invariant counter == j + 1
        invariant lines == old(lines) + RenderAll(QuestionsLines(p, qs[..j], save))
      {
        ghost var prev := QuestionsLines(p, qs[..j], save);
        AppendQuestion(p, counter, qs[j], save);
        RenderAllExtend(old(lines), prev, QuestionLines(p, j + 1, qs[j], save));
        TakeSnoc(qs, j);
        QuestionsLinesSnoc(p, qs[..j], qs[j], save);
        counter := IncreaseQuestionCounter(counter);
      }
      assert qs[..|qs|] == qs;
    }
  }

  /**
   * The lens alias the answers are read under: the standard lens's alias, or, when the EKS lens
   * is asked for, the alias of the published lens with the EKS lens's name, if there is one.
   */
  function TemplateAlias(cfg: Config, customLens: string, lenses: seq<LensSummary>): (alias: Option<string>)
    ensures customLens != cfg.eksLensAlias ==> alias == Some(cfg.standardLensAlias)
    ensures customLens == cfg.eksLensAlias ==>
              (alias.None? <==> forall i :: 0 <= i < |lenses| ==> lenses[i].lensName != cfg.eksLensLabel)
  {
    if customLens == cfg.eksLensAlias then Lens.FirstLensArn(lenses, cfg.eksLensLabel) else Some(cfg.standardLensAlias)
  }

  /**
   * The outcome of generate_new_template: the rendered template over the answers read under the
   * resolved alias, or the client library's refusal of a None LensAlias when the EKS lens is not published.
   */
  function Generated(cfg: Config, customLens: string, lenses: seq<LensSummary>,
                     service: string -> Pillar -> seq<QuestionInput>, save: bool): Result<seq<string>>
  {
    var alias := TemplateAlias(cfg, customLens, lenses);
    if alias.None? then Err(InvalidParameter("LensAlias"))
    else Ok(RenderAll(TemplateLines(cfg, customLens, service(alias.value), save)))
  }

  /**
   * Generation fails exactly when the EKS template is asked for and no lens with the EKS label is
   * published; otherwise every element of the text reads back as its line of the template over the
   * answers read under the resolved alias.
   */
  lemma GeneratedOutcome(cfg: Config, customLens: string, lenses: seq<LensSummary>,
                         service: string -> Pillar -> seq<QuestionInput>, save: bool)
    requires WellFormedText(cfg.lensKey)
    ensures var r := Generated(cfg, customLens, lenses, service, save);
            r.Err? <==> customLens == cfg.eksLensAlias && forall i :: 0 <= i < |lenses| ==> lenses[i].lensName != cfg.eksLensLabel
    ensures Generated(cfg, customLens, lenses, service, save).Err? ==>
              Generated(cfg, customLens, lenses, service, save).error == InvalidParameter("LensAlias")
    ensures var r := Generated(cfg, customLens, lenses, service, save);
            var alias := TemplateAlias(cfg, customLens, lenses);
            r.Ok? ==> alias.Some? &&
                      var ls := TemplateLines(cfg, customLens, service(alias.value), save);
                      |r.value| == |ls| && forall i :: 0 <= i < |ls| ==> ParseLine(r.value[i]) == Some(FieldsOf(ls[i]))
  {
    var alias := TemplateAlias(cfg, customLens, lenses);
    if alias.Some? {
      TemplateTextReadsBack(cfg, customLens, service(alias.value), save);
    }
  }

  /** generate_new_template: the lens line, then every pillar in order with its numbered questions. */
  method GenerateNewTemplate(cfg: Config, customLens: string, lenses: seq<LensSummary>,
                             service: string -> Pillar -> seq<QuestionInput>, save: bool)
    returns (r: Result<seq<string>>)
    ensures r == Generated(cfg, customLens, lenses, service, save)
  {
    var template := new TemplateBuffer();
    var alias := Some(cfg.standardLensAlias);
    if customLens == cfg.eksLensAlias {
      alias := Lens.GetLensAlias(lenses, cfg.eksLensLabel);
      template.AppendNewLine(Indent0, Named(cfg.lensKey), cfg.eksLensLabel);
    } else {
      template.AppendNewLine(Indent0, Named(cfg.lensKey), cfg.standardLensLabel);
    }
    if alias.None? {
      return Err(InvalidParameter("LensAlias"));
    }
    var answers := service(alias.value);
    ghost var lensLine := [Line(Indent0, Named(cfg.lensKey), LensLabel(cfg, customLens))];
    assert template.lines == RenderAll(lensLine + PillarsLines(Order[..0], answers, save)) by {
      assert Order[..0] == [];
      assert lensLine + [] == lensLine;
    }
    for k := 0 to |Order|
      invariant template.lines == RenderAll(lensLine + PillarsLines(Order[..k], answers, save))
    {
      var p := Order[k];
      ghost var prev := lensLine + PillarsLines(Order[..k], answers, save);
      ghost var header := [Line(Indent0, Named(Id(p)), "")];
      ghost var questions := QuestionsLines(p, answers(p), save);
      template.AppendPillar(p);
      RenderAllConcat(prev, header);
      template.AppendQuestions(p, answers(p), save);
      RenderAllConcat(prev + header, questions);
      AppendAssociative(prev, header, questions);
      assert template.lines == RenderAll(prev + PillarLines(p, answers(p), save));
      AppendAssociative(lensLine, PillarsLines(Order[..k], answers, save), PillarLines(p, answers(p), save));
      TakeSnoc(Order, k);
      ghost var next := PillarsLines(Order[..k + 1], answers, save);
      PillarsLinesSnoc(Order[..k], p, answers, save);
      assert lensLine + next == prev + PillarLines(p, answers(p), save);
      assert template.lines == RenderAll(lensLine + next);
    }
    assert Order[..|Order|] == Order;
    return Ok(template.lines);
  }

  // ----- One more element of a list -----

  lemma PillarsLinesSnoc(ps: seq<Pillar>, p: Pillar, answers: Pillar -> seq<QuestionInput>, save: bool)
    ensures PillarsLines(ps + [p], answers, save) == PillarsLines(ps, answers, save) + PillarLines(p, answers(p), save)
  {
    assert (ps + [p])[..|ps|] == ps;
  }

  lemma QuestionsLinesSnoc(p: Pillar, qs: seq<QuestionInput>, q: QuestionInput, save: bool)
    ensures QuestionsLines(p, qs + [q], save) == QuestionsLines(p, qs, save) + QuestionLines(p, |qs| + 1, q, save)
  {
    assert (qs + [q])[..|qs|] == qs;
  }

  lemma ChoicesLinesSnoc(choices: seq<Choice>, c: Choice, marked: seq<ChoiceAnswer>, save: bool)
    ensures ChoicesLines(choices + [c], marked, save) == ChoicesLines(choices, marked, save) + ChoiceLines(c, marked, save)
  {
    assert (choices + [c])[..|choices|] == choices;
  }

  lemma StatusLinesSnoc(choiceId: string, marked: seq<ChoiceAnswer>, m: ChoiceAnswer)
    ensures StatusLines(choiceId, marked + [m]) == StatusLines(choiceId, marked) + MarkLines(choiceId, m)
  {
    assert (marked + [m])[..|marked|] == marked;
  }
}
