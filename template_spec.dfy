/**
 * What generate_new_template produces, as a function of the service's answers
 * (wafr/template.py:36-142), and the properties of that output.
 */
module TemplateSpec {
  import opened Wrappers
  import opened Text
  import opened Pillars
  import opened Config
  import opened Gateway
  import opened TemplateFormat

  const NotApplicableStatus: string := "NOT_APPLICABLE"

  /** One question of a pillar: its list_answers summary and its get_answer detail. */
  datatype QuestionInput = QuestionInput(summary: AnswerSummary, detail: AnswerDetail)

  /** The lens name written under the lens key: the EKS lens when it was asked for, the standard one otherwise. */
  function LensLabel(cfg: Config, customLens: string): string
  {
    if customLens == cfg.eksLensAlias then cfg.eksLensLabel else cfg.standardLensLabel
  }

  /** init_question_counter: questions are numbered from one, never from zero. */
  function InitQuestionCounter(): (r: nat)
    ensures r > 0
  {
    1
  }

  /** increase_question_counter: the next question's number, one more than the current one's. */
  function IncreaseQuestionCounter(counter: nat): (r: nat)
    ensures r > counter && r - counter == 1
  {
    counter + 1
  }

  /** The value of a question's label line: the pillar's label and the question's number. */
  function LabelValue(p: Pillar, count: nat): string
  {
    Label(p) + " " + NatToString(count)
  }

  /** The labels of the first `n` questions of pillar `p`. */
  function Labels(p: Pillar, n: nat): (r: seq<string>)
    ensures |r| == n
    ensures forall i :: 0 <= i < n ==> r[i] == LabelValue(p, i + 1)
  {
    if n == 0 then [] else Labels(p, n - 1) + [LabelValue(p, n)]
  }

  predicate WellFormedKeys(ls: seq<Line>)
  {
    forall l :: l in ls ==> WellFormedKey(l.key)
  }

  /** No status, reason or notes line of a choice: the only lines at the deepest level are choice titles. */
  predicate Unmarked(ls: seq<Line>)
  {
    forall l :: l in ls ==> l.indent == Indent4 ==> l.key == TitleKey
  }

  /** A marked answer whose status is NOT_APPLICABLE, which carries a reason and notes. */
  predicate IsNotApplicable(m: ChoiceAnswer)
  {
    m.status == NotApplicableStatus
  }

  // ----- The lines, level by level -----

  /** The lines one marked answer contributes to the choice `choiceId`. */
  function MarkLines(choiceId: string, m: ChoiceAnswer): seq<Line>
  {
    if m.choiceId == choiceId then
      [Line(Indent4, StatusKey, m.status)]
      + (if IsNotApplicable(m) then [Line(Indent4, ReasonKey, m.reason), Line(Indent4, NotesKey, m.notes)] else [])
    else []
  }

  /** append_answer_status_and_comments: the marks of one choice. */
  function StatusLines(choiceId: string, marked: seq<ChoiceAnswer>): seq<Line>
  {
    if marked == [] then []
    else StatusLines(choiceId, marked[..|marked| - 1]) + MarkLines(choiceId, marked[|marked| - 1])
  }

  /** One choice: its id, its title and, when the marks are saved, its status lines. */
  function ChoiceLines(c: Choice, marked: seq<ChoiceAnswer>, save: bool): seq<Line>
  {
    [Line(Indent3, IdKey, c.choiceId), Line(Indent4, TitleKey, c.title)]
    + (if save then StatusLines(c.choiceId, marked) else [])
  }

  function ChoicesLines(choices: seq<Choice>, marked: seq<ChoiceAnswer>, save: bool): seq<Line>
  {
    if choices == [] then []
    else ChoicesLines(choices[..|choices| - 1], marked, save) + ChoiceLines(choices[|choices| - 1], marked, save)
  }

  /** The marked answers of a question; a detail without ChoiceAnswers has none. */
  function MarkedAnswers(detail: AnswerDetail): seq<ChoiceAnswer>
  {
    detail.choiceAnswers.GetOr([])
  }

  /** append_answers: the answers header and every choice in the order listed. */
  function AnswersLines(q: QuestionInput, save: bool): seq<Line>
  {
    [Line(Indent2, AnswersKey, "")] + ChoicesLines(q.summary.choices, MarkedAnswers(q.detail), save)
  }

  function NoteLines(detail: AnswerDetail): seq<Line>
  {
    if detail.notes.Some? then [Line(Indent2, NotesKey, NotesValue(detail.notes.value))] else []
  }

  /** What follows a question's notes: the not-applicable line when the marks are saved, its answers otherwise. */
  function QuestionTail(q: QuestionInput, save: bool): seq<Line>
  {
    if save && !q.summary.isApplicable then [Line(Indent2, NotApplicableKey, "true")] else AnswersLines(q, save)
  }

  /** The first three lines of the `count`-th question of pillar `p`. */
  function QuestionHead(p: Pillar, count: nat, q: QuestionInput): seq<Line>
  {
    [Line(Indent1, LabelKey, LabelValue(p, count)),
     Line(Indent2, QuestionIdKey, q.summary.questionId),
     Line(Indent2, TitleKey, q.summary.questionTitle)]
  }

  /** The lines of the `count`-th question of pillar `p`. */
  function QuestionLines(p: Pillar, count: nat, q: QuestionInput, save: bool): seq<Line>
  {
    QuestionHead(p, count, q) + NoteLines(q.detail) + QuestionTail(q, save)
  }

  /** The questions of a pillar; the last of `qs` is question number |qs|. */
  function QuestionsLines(p: Pillar, qs: seq<QuestionInput>, save: bool): seq<Line>
  {
    if qs == [] then []
    else QuestionsLines(p, qs[..|qs| - 1], save) + QuestionLines(p, |qs|, qs[|qs| - 1], save)
  }

  /** A pillar: its header line, keyed by the pillar id with an empty value, then its questions. */
  function PillarLines(p: Pillar, qs: seq<QuestionInput>, save: bool): seq<Line>
  {
    [Line(Indent0, Named(Id(p)), "")] + QuestionsLines(p, qs, save)
  }

  lemma IdWellFormed(p: Pillar)
    ensures WellFormedKey(Named(Id(p)))
  {
  }

  function PillarsLines(ps: seq<Pillar>, answers: Pillar -> seq<QuestionInput>, save: bool): seq<Line>
  {
    if ps == [] then []
    else PillarsLines(ps[..|ps| - 1], answers, save) + PillarLines(ps[|ps| - 1], answers(ps[|ps| - 1]), save)
  }

  /** The whole template: the lens line, then every pillar in the fixed order. */
  function TemplateLines(cfg: Config, customLens: string, answers: Pillar -> seq<QuestionInput>, save: bool): seq<Line>
  {
    [Line(Indent0, Named(cfg.lensKey), LensLabel(cfg, customLens))] + PillarsLines(Order, answers, save)
  }

  // ----- The shape of each level -----

  /**
   * Every line lies at `indent` or deeper and has a fixed key; unless the marks are saved, the
   * only lines at the deepest level are choice titles.
   */
  predicate Nested(ls: seq<Line>, indent: nat, save: bool)
  {
    forall l :: l in ls ==> l.indent >= indent && !l.key.Named? && (!save && l.indent == Indent4 ==> l.key == TitleKey)
  }

  /** Only status, reason and notes lines, all at the deepest level. */
  predicate MarksOnly(ls: seq<Line>)
  {
    forall l :: l in ls ==> l.indent == Indent4 && l.key != TitleKey && !l.key.Named?
  }

  lemma {:induction false} StatusLinesShape(choiceId: string, marked: seq<ChoiceAnswer>)
    ensures MarksOnly(StatusLines(choiceId, marked))
  {
    if marked != [] {
      StatusLinesShape(choiceId, marked[..|marked| - 1]);
    }
  }

  lemma {:induction false} ChoicesShape(choices: seq<Choice>, marked: seq<ChoiceAnswer>, save: bool)
    ensures Nested(ChoicesLines(choices, marked, save), Indent3, save)
  {
    if choices != [] {
      ChoicesShape(choices[..|choices| - 1], marked, save);
      StatusLinesShape(choices[|choices| - 1].choiceId, marked);
    }
  }

  lemma AnswersShape(q: QuestionInput, save: bool)
    ensures Nested(AnswersLines(q, save), Indent2, save)
  {
    ChoicesShape(q.summary.choices, MarkedAnswers(q.detail), save);
  }

  lemma TailShape(q: QuestionInput, save: bool)
    ensures Nested(QuestionTail(q, save), Indent2, save)
  {
    AnswersShape(q, save);
  }

  lemma QuestionShape(p: Pillar, count: nat, q: QuestionInput, save: bool)
    ensures Nested(QuestionLines(p, count, q, save), Indent1, save)
  {
    TailShape(q, save);
  }

  lemma {:induction false} QuestionsShape(p: Pillar, qs: seq<QuestionInput>, save: bool)
    ensures Nested(QuestionsLines(p, qs, save), Indent1, save)
  {
    if qs != [] {
      QuestionsShape(p, qs[..|qs| - 1], save);
      QuestionShape(p, |qs|, qs[|qs| - 1], save);
    }
  }

  lemma PillarShape(p: Pillar, qs: seq<QuestionInput>, save: bool)
    ensures WellFormedKeys(PillarLines(p, qs, save))
    ensures !save ==> Unmarked(PillarLines(p, qs, save))
  {
    QuestionsShape(p, qs, save);
    IdWellFormed(p);
  }

  /** The keys taken from data in the pillars are the pillar ids, which read back; without save_workload no line is a mark. */
  lemma {:induction false} PillarsShape(ps: seq<Pillar>, answers: Pillar -> seq<QuestionInput>, save: bool)
    ensures WellFormedKeys(PillarsLines(ps, answers, save))
    ensures !save ==> Unmarked(PillarsLines(ps, answers, save))
  {
    if ps != [] {
      PillarsShape(ps[..|ps| - 1], answers, save);
      PillarShape(ps[|ps| - 1], answers(ps[|ps| - 1]), save);
    }
  }

  // ----- Reading lines by level and key -----

  /** The value of `l` when it has the given indentation and key. */
  function Pick(l: Line, indent: nat, key: Key): seq<string>
  {
    if l.indent == indent && l.key == key then [l.value] else []
  }

  /** The values of the lines with the given indentation and key, in order. */
  function ValuesAt(ls: seq<Line>, indent: nat, key: Key): seq<string>
  {
    if ls == [] then [] else ValuesAt(ls[..|ls| - 1], indent, key) + Pick(ls[|ls| - 1], indent, key)
  }

  /** The key and value of `l` when it has the given indentation. */
  function Entry(l: Line, indent: nat): seq<(Key, string)>
  {
    if l.indent == indent then [(l.key, l.value)] else []
  }

  /** The key and value of every line with the given indentation, in order. */
  function EntriesAt(ls: seq<Line>, indent: nat): seq<(Key, string)>
  {
    if ls == [] then [] else EntriesAt(ls[..|ls| - 1], indent) + Entry(ls[|ls| - 1], indent)
  }

  lemma {:induction false} ValuesAtConcat(a: seq<Line>, b: seq<Line>, indent: nat, key: Key)
    ensures ValuesAt(a + b, indent, key) == ValuesAt(a, indent, key) + ValuesAt(b, indent, key)
  {
    if b == [] {
      assert a + b == a;
    } else {
      assert (a + b)[..|a + b| - 1] == a + b[..|b| - 1];
      ValuesAtConcat(a, b[..|b| - 1], indent, key);
    }
  }

  lemma {:induction false} EntriesAtConcat(a: seq<Line>, b: seq<Line>, indent: nat)
    ensures EntriesAt(a + b, indent) == EntriesAt(a, indent) + EntriesAt(b, indent)
  {
    if b == [] {
      assert a + b == a;
    } else {
      assert (a + b)[..|a + b| - 1] == a + b[..|b| - 1];
      EntriesAtConcat(a, b[..|b| - 1], indent);
    }
  }

  lemma {:induction false} ValuesAtNone(ls: seq<Line>, indent: nat, key: Key)
    requires forall l :: l in ls ==> l.indent != indent || l.key != key
    ensures ValuesAt(ls, indent, key) == []
  {
    if ls != [] {
      assert ls[|ls| - 1] in ls;
      forall l | l in ls[..|ls| - 1] ensures l in ls { }
      ValuesAtNone(ls[..|ls| - 1], indent, key);
    }
  }

  lemma {:induction false} EntriesAtNone(ls: seq<Line>, indent: nat)
    requires forall l :: l in ls ==> l.indent != indent
    ensures EntriesAt(ls, indent) == []
  {
    if ls != [] {
      assert ls[|ls| - 1] in ls;
      forall l | l in ls[..|ls| - 1] ensures l in ls { }
      EntriesAtNone(ls[..|ls| - 1], indent);
    }
  }

  lemma ValuesAtOne(a: Line, indent: nat, key: Key)
    ensures ValuesAt([a], indent, key) == Pick(a, indent, key)
  {
    assert [a][..0] == [];
  }

  lemma ValuesAtPair(a: Line, b: Line, indent: nat, key: Key)
    ensures ValuesAt([a, b], indent, key) == Pick(a, indent, key) + Pick(b, indent, key)
  {
    assert [a, b][..1] == [a];
    ValuesAtOne(a, indent, key);
  }

  lemma ValuesAtTriple(a: Line, b: Line, c: Line, indent: nat, key: Key)
    ensures ValuesAt([a, b, c], indent, key) == Pick(a, indent, key) + Pick(b, indent, key) + Pick(c, indent, key)
  {
    assert [a, b, c][..2] == [a, b];
    ValuesAtPair(a, b, indent, key);
  }

  lemma EntriesAtOne(a: Line, indent: nat)
    ensures EntriesAt([a], indent) == Entry(a, indent)
  {
    assert [a][..0] == [];
  }

  // ----- The parts of each level, for any level and key -----

  lemma QuestionValues(p: Pillar, count: nat, q: QuestionInput, save: bool, indent: nat, key: Key)
    ensures ValuesAt(QuestionLines(p, count, q, save), indent, key) ==
            Pick(Line(Indent1, LabelKey, LabelValue(p, count)), indent, key)
            + Pick(Line(Indent2, QuestionIdKey, q.summary.questionId), indent, key)
            + Pick(Line(Indent2, TitleKey, q.summary.questionTitle), indent, key)
            + ValuesAt(NoteLines(q.detail), indent, key)
            + ValuesAt(QuestionTail(q, save), indent, key)
  {
    var head := QuestionHead(p, count, q);
    var notes := NoteLines(q.detail);
    ValuesAtConcat(head + notes, QuestionTail(q, save), indent, key);
    ValuesAtConcat(head, notes, indent, key);
    ValuesAtTriple(head[0], head[1], head[2], indent, key);
  }

  lemma AnswersValues(q: QuestionInput, save: bool, indent: nat, key: Key)
    ensures ValuesAt(AnswersLines(q, save), indent, key) ==
            Pick(Line(Indent2, AnswersKey, ""), indent, key)
            + ValuesAt(ChoicesLines(q.summary.choices, MarkedAnswers(q.detail), save), indent, key)
  {
    var header := Line(Indent2, AnswersKey, "");
    ValuesAtConcat([header], ChoicesLines(q.summary.choices, MarkedAnswers(q.detail), save), indent, key);
    ValuesAtOne(header, indent, key);
  }

  lemma ChoiceValues(c: Choice, marked: seq<ChoiceAnswer>, save: bool, indent: nat, key: Key)
    ensures ValuesAt(ChoiceLines(c, marked, save), indent, key) ==
            Pick(Line(Indent3, IdKey, c.choiceId), indent, key)
            + Pick(Line(Indent4, TitleKey, c.title), indent, key)
            + (if save then ValuesAt(StatusLines(c.choiceId, marked), indent, key) else [])
  {
    var head := [Line(Indent3, IdKey, c.choiceId), Line(Indent4, TitleKey, c.title)];
    var marks := if save then StatusLines(c.choiceId, marked) else [];
    ValuesAtConcat(head, marks, indent, key);
    ValuesAtPair(head[0], head[1], indent, key);
  }

  lemma PillarValues(p: Pillar, qs: seq<QuestionInput>, save: bool, indent: nat, key: Key)
    ensures ValuesAt(PillarLines(p, qs, save), indent, key) ==
            Pick(Line(Indent0, Named(Id(p)), ""), indent, key) + ValuesAt(QuestionsLines(p, qs, save), indent, key)
  {
    var header := Line(Indent0, Named(Id(p)), "");
    ValuesAtConcat([header], QuestionsLines(p, qs, save), indent, key);
    ValuesAtOne(header, indent, key);
  }

  lemma NoteValues(detail: AnswerDetail, indent: nat, key: Key)
    ensures ValuesAt(NoteLines(detail), indent, key) ==
            if detail.notes.Some? then Pick(Line(Indent2, NotesKey, NotesValue(detail.notes.value)), indent, key) else []
  {
    if detail.notes.Some? {
      ValuesAtOne(Line(Indent2, NotesKey, NotesValue(detail.notes.value)), indent, key);
    }
  }

  /** At the level of a question's own keys, its tail holds only the not_applicable line or the answers header. */
  lemma TailValues(q: QuestionInput, save: bool, key: Key)
    ensures ValuesAt(QuestionTail(q, save), Indent2, key) ==
            if save && !q.summary.isApplicable then Pick(Line(Indent2, NotApplicableKey, "true"), Indent2, key)
            else Pick(Line(Indent2, AnswersKey, ""), Indent2, key)
  {
    if save && !q.summary.isApplicable {
      ValuesAtOne(Line(Indent2, NotApplicableKey, "true"), Indent2, key);
    } else {
      AnswersValues(q, save, Indent2, key);
      ChoicesBelow(q.summary.choices, MarkedAnswers(q.detail), save, Indent2, key);
    }
  }

  lemma TailBelow(q: QuestionInput, save: bool, indent: nat, key: Key)
    requires indent < Indent2
    ensures ValuesAt(QuestionTail(q, save), indent, key) == []
  {
    TailShape(q, save);
    ValuesAtNone(QuestionTail(q, save), indent, key);
  }

  /** Status lines hold only the status, reason and notes of a choice, at the deepest level. */
  lemma StatusLinesOnly(choiceId: string, marked: seq<ChoiceAnswer>, indent: nat, key: Key)
    requires indent != Indent4 || key == TitleKey || key.Named?
    ensures ValuesAt(StatusLines(choiceId, marked), indent, key) == []
  {
    StatusLinesShape(choiceId, marked);
    ValuesAtNone(StatusLines(choiceId, marked), indent, key);
  }

  lemma ChoicesBelow(choices: seq<Choice>, marked: seq<ChoiceAnswer>, save: bool, indent: nat, key: Key)
    requires indent < Indent3
    ensures ValuesAt(ChoicesLines(choices, marked, save), indent, key) == []
  {
    ChoicesShape(choices, marked, save);
    ValuesAtNone(ChoicesLines(choices, marked, save), indent, key);
  }

  lemma QuestionsBelow(p: Pillar, qs: seq<QuestionInput>, save: bool, indent: nat, key: Key)
    requires indent < Indent1
    ensures ValuesAt(QuestionsLines(p, qs, save), indent, key) == []
  {
    QuestionsShape(p, qs, save);
    ValuesAtNone(QuestionsLines(p, qs, save), indent, key);
  }

  // ----- The pillars -----

  /** The header entry of each pillar, in the given order. */
  function Headers(ps: seq<Pillar>): (r: seq<(Key, string)>)
    ensures |r| == |ps|
    ensures forall i :: 0 <= i < |ps| ==> r[i] == (Named(Id(ps[i])), "")
  {
    if ps == [] then [] else Headers(ps[..|ps| - 1]) + [(Named(Id(ps[|ps| - 1])), "")]
  }

  lemma {:induction false} PillarsTopLevel(ps: seq<Pillar>, answers: Pillar -> seq<QuestionInput>, save: bool)
    ensures EntriesAt(PillarsLines(ps, answers, save), Indent0) == Headers(ps)
  {
    if ps != [] {
      var init := ps[..|ps| - 1];
      var p := ps[|ps| - 1];
      var header := Line(Indent0, Named(Id(p)), "");
      var questions := QuestionsLines(p, answers(p), save);
      PillarsTopLevel(init, answers, save);
      EntriesAtConcat(PillarsLines(init, answers, save), PillarLines(p, answers(p), save), Indent0);
      EntriesAtConcat([header], questions, Indent0);
      EntriesAtOne(header, Indent0);
      QuestionsShape(p, answers(p), save);
      EntriesAtNone(questions, Indent0);
    }
  }

  /**
   * The first line is the lens line. The lines at the top level are that line and then one header
   * per pillar, in the order SEC, REL, OPS, PERF, COST, SUS, keyed by the pillar id with an empty value.
   */
  lemma TemplateTopLevel(cfg: Config, customLens: string, answers: Pillar -> seq<QuestionInput>, save: bool)
    ensures TemplateLines(cfg, customLens, answers, save)[0] == Line(Indent0, Named(cfg.lensKey), LensLabel(cfg, customLens))
    ensures EntriesAt(TemplateLines(cfg, customLens, answers, save), Indent0) ==
            [(Named(cfg.lensKey), LensLabel(cfg, customLens)),
             (Named("security"), ""), (Named("reliability"), ""), (Named("operationalExcellence"), ""),
             (Named("performance"), ""), (Named("costOptimization"), ""), (Named("sustainability"), "")]
  {
    var lensLine := Line(Indent0, Named(cfg.lensKey), LensLabel(cfg, customLens));
    var pillars := PillarsLines(Order, answers, save);
    assert EntriesAt(TemplateLines(cfg, customLens, answers, save), Indent0) == [(Named(cfg.lensKey), LensLabel(cfg, customLens))] + Headers(Order) by {
      PillarsTopLevel(Order, answers, save);
      EntriesAtConcat([lensLine], pillars, Indent0);
      EntriesAtOne(lensLine, Indent0);
    }
    HeadersOfOrder();
  }

  lemma HeadersOfOrder()
    ensures Headers(Order) ==
            [(Named("security"), ""), (Named("reliability"), ""), (Named("operationalExcellence"), ""),
             (Named("performance"), ""), (Named("costOptimization"), ""), (Named("sustainability"), "")]
  {
    var h := Headers(Order);
    assert h[0] == (Named("security"), "");
    assert h[1] == (Named("reliability"), "");
    assert h[2] == (Named("operationalExcellence"), "");
    assert h[3] == (Named("performance"), "");
    assert h[4] == (Named("costOptimization"), "");
    assert h[5] == (Named("sustainability"), "");
  }

  // ----- The questions of a pillar -----

  /** The question ids, in order. */
  function QuestionIds(xs: seq<QuestionInput>): (r: seq<string>)
    ensures |r| == |xs|
    ensures forall i :: 0 <= i < |xs| ==> r[i] == xs[i].summary.questionId
  {
    if xs == [] then [] else QuestionIds(xs[..|xs| - 1]) + [xs[|xs| - 1].summary.questionId]
  }

  /** Each question has one label line, one question_id line and one title line at its own level. */
  lemma QuestionLabelLine(p: Pillar, count: nat, q: QuestionInput, save: bool)
    ensures ValuesAt(QuestionLines(p, count, q, save), Indent1, LabelKey) == [LabelValue(p, count)]
  {
    QuestionValues(p, count, q, save, Indent1, LabelKey);
    NoteValues(q.detail, Indent1, LabelKey);
    TailBelow(q, save, Indent1, LabelKey);
  }

  lemma QuestionIdLine(p: Pillar, count: nat, q: QuestionInput, save: bool)
    ensures ValuesAt(QuestionLines(p, count, q, save), Indent2, QuestionIdKey) == [q.summary.questionId]
  {
    QuestionValues(p, count, q, save, Indent2, QuestionIdKey);
    NoteValues(q.detail, Indent2, QuestionIdKey);
    TailValues(q, save, QuestionIdKey);
  }

  lemma QuestionTitleLine(p: Pillar, count: nat, q: QuestionInput, save: bool)
    ensures ValuesAt(QuestionLines(p, count, q, save), Indent2, TitleKey) == [q.summary.questionTitle]
  {
    QuestionValues(p, count, q, save, Indent2, TitleKey);
    NoteValues(q.detail, Indent2, TitleKey);
    TailValues(q, save, TitleKey);
  }

  lemma {:induction false} QuestionsLabels(p: Pillar, qs: seq<QuestionInput>, save: bool)
    ensures ValuesAt(QuestionsLines(p, qs, save), Indent1, LabelKey) == Labels(p, |qs|)
  {
    if qs != [] {
      var n := |qs|;
      var init := qs[..n - 1];
      var q := qs[n - 1];
      var before := QuestionsLines(p, init, save);
      var last := QuestionLines(p, n, q, save);
      assert ValuesAt(QuestionsLines(p, qs, save), Indent1, LabelKey) == ValuesAt(before, Indent1, LabelKey) + ValuesAt(last, Indent1, LabelKey) by {
        assert QuestionsLines(p, qs, save) == before + last;
        ValuesAtConcat(before, last, Indent1, LabelKey);
      }
      QuestionLabelLine(p, n, q, save);
      QuestionsLabels(p, init, save);
    }
  }

  lemma {:induction false} QuestionsIds(p: Pillar, qs: seq<QuestionInput>, save: bool)
    ensures ValuesAt(QuestionsLines(p, qs, save), Indent2, QuestionIdKey) == QuestionIds(qs)
  {
    if qs != [] {
      var n := |qs|;
      var init := qs[..n - 1];
      var q := qs[n - 1];
      var before := QuestionsLines(p, init, save);
      var last := QuestionLines(p, n, q, save);
      assert ValuesAt(QuestionsLines(p, qs, save), Indent2, QuestionIdKey) == ValuesAt(before, Indent2, QuestionIdKey) + ValuesAt(last, Indent2, QuestionIdKey) by {
        assert QuestionsLines(p, qs, save) == before + last;
        ValuesAtConcat(before, last, Indent2, QuestionIdKey);
      }
      QuestionIdLine(p, n, q, save);
      QuestionsIds(p, init, save);
    }
  }

  /**
   * A pillar lists its questions in the order given, one question_id line each, and labels them
   * with the pillar's label numbered 1, 2, ..., so the label counter restarts with every pillar.
   */
  lemma PillarQuestions(p: Pillar, qs: seq<QuestionInput>, save: bool)
    ensures ValuesAt(PillarLines(p, qs, save), Indent2, QuestionIdKey) == QuestionIds(qs)
    ensures ValuesAt(PillarLines(p, qs, save), Indent1, LabelKey) == Labels(p, |qs|)
  {
    PillarValues(p, qs, save, Indent2, QuestionIdKey);
    PillarValues(p, qs, save, Indent1, LabelKey);
    QuestionsIds(p, qs, save);
    QuestionsLabels(p, qs, save);
  }

  /** Different numbers give different labels, so the labels of a pillar are pairwise distinct. */
  lemma LabelValueInjective(p: Pillar, n: nat, m: nat)
    requires LabelValue(p, n) == LabelValue(p, m)
    ensures n == m
  {
    var k := |Label(p)| + 1;
    assert NatToString(n) == LabelValue(p, n)[k..];
    assert NatToString(m) == LabelValue(p, m)[k..];
    ParseNatToString(n);
    ParseNatToString(m);
  }

  // ----- One question -----

  /** A question has a notes line exactly when its detail has Notes, and its value is the encoded note. */
  lemma QuestionNotes(p: Pillar, count: nat, q: QuestionInput, save: bool)
    ensures ValuesAt(QuestionLines(p, count, q, save), Indent2, NotesKey) ==
            if q.detail.notes.Some? then [NotesValue(q.detail.notes.value)] else []
  {
    QuestionValues(p, count, q, save, Indent2, NotesKey);
    if q.detail.notes.Some? {
      ValuesAtOne(NoteLines(q.detail)[0], Indent2, NotesKey);
    }
    if !(save && !q.summary.isApplicable) {
      AnswersValues(q, save, Indent2, NotesKey);
      ChoicesBelow(q.summary.choices, MarkedAnswers(q.detail), save, Indent2, NotesKey);
    } else {
      ValuesAtOne(QuestionTail(q, save)[0], Indent2, NotesKey);
    }
  }

  /** With the marks saved, a not-applicable question has one not_applicable line and no answers header. */
  lemma NotApplicableQuestion(p: Pillar, count: nat, q: QuestionInput)
    requires !q.summary.isApplicable
    ensures ValuesAt(QuestionLines(p, count, q, true), Indent2, NotApplicableKey) == ["true"]
    ensures ValuesAt(QuestionLines(p, count, q, true), Indent2, AnswersKey) == []
  {
    var tail := QuestionTail(q, true);
    QuestionValues(p, count, q, true, Indent2, NotApplicableKey);
    QuestionValues(p, count, q, true, Indent2, AnswersKey);
    ValuesAtNone(NoteLines(q.detail), Indent2, NotApplicableKey);
    ValuesAtNone(NoteLines(q.detail), Indent2, AnswersKey);
    ValuesAtOne(tail[0], Indent2, NotApplicableKey);
    ValuesAtOne(tail[0], Indent2, AnswersKey);
  }

  /** Nor does it have a choice line: nothing of it lies deeper than its own keys. */
  lemma NotApplicableQuestionHasNoChoices(p: Pillar, count: nat, q: QuestionInput)
    requires !q.summary.isApplicable
    ensures EntriesAt(QuestionLines(p, count, q, true), Indent3) == []
    ensures EntriesAt(QuestionLines(p, count, q, true), Indent4) == []
  {
    var ql := QuestionLines(p, count, q, true);
    assert ql == QuestionHead(p, count, q) + NoteLines(q.detail) + [Line(Indent2, NotApplicableKey, "true")];
    assert forall l :: l in ql ==> l.indent <= Indent2;
    EntriesAtNone(ql, Indent3);
    EntriesAtNone(ql, Indent4);
  }

  /** The choice ids, in order. */
  function ChoiceIds(xs: seq<Choice>): (r: seq<string>)
    ensures |r| == |xs|
    ensures forall i :: 0 <= i < |xs| ==> r[i] == xs[i].choiceId
  {
    if xs == [] then [] else ChoiceIds(xs[..|xs| - 1]) + [xs[|xs| - 1].choiceId]
  }

  /** The choice titles, in order. */
  function ChoiceTitles(xs: seq<Choice>): (r: seq<string>)
    ensures |r| == |xs|
    ensures forall i :: 0 <= i < |xs| ==> r[i] == xs[i].title
  {
    if xs == [] then [] else ChoiceTitles(xs[..|xs| - 1]) + [xs[|xs| - 1].title]
  }

  lemma {:induction false} ChoicesIds(choices: seq<Choice>, marked: seq<ChoiceAnswer>, save: bool)
    ensures ValuesAt(ChoicesLines(choices, marked, save), Indent3, IdKey) == ChoiceIds(choices)
  {
    if choices != [] {
      var n := |choices|;
      var init := choices[..n - 1];
      var c := choices[n - 1];
      var before := ChoicesLines(init, marked, save);
      var last := ChoiceLines(c, marked, save);
      assert ValuesAt(ChoicesLines(choices, marked, save), Indent3, IdKey) == ValuesAt(before, Indent3, IdKey) + ValuesAt(last, Indent3, IdKey) by {
        assert ChoicesLines(choices, marked, save) == before + last;
        ValuesAtConcat(before, last, Indent3, IdKey);
      }
      assert ValuesAt(last, Indent3, IdKey) == [c.choiceId] by {
        ChoiceValues(c, marked, save, Indent3, IdKey);
        StatusLinesOnly(c.choiceId, marked, Indent3, IdKey);
      }
      ChoicesIds(init, marked, save);
    }
  }

  lemma {:induction false} ChoicesTitles(choices: seq<Choice>, marked: seq<ChoiceAnswer>, save: bool)
    ensures ValuesAt(ChoicesLines(choices, marked, save), Indent4, TitleKey) == ChoiceTitles(choices)
  {
    if choices != [] {
      var n := |choices|;
      var init := choices[..n - 1];
      var c := choices[n - 1];
      var before := ChoicesLines(init, marked, save);
      var last := ChoiceLines(c, marked, save);
      assert ValuesAt(ChoicesLines(choices, marked, save), Indent4, TitleKey) == ValuesAt(before, Indent4, TitleKey) + ValuesAt(last, Indent4, TitleKey) by {
        assert ChoicesLines(choices, marked, save) == before + last;
        ValuesAtConcat(before, last, Indent4, TitleKey);
      }
      assert ValuesAt(last, Indent4, TitleKey) == [c.title] by {
        ChoiceValues(c, marked, save, Indent4, TitleKey);
        StatusLinesOnly(c.choiceId, marked, Indent4, TitleKey);
      }
      ChoicesTitles(init, marked, save);
    }
  }

  /** An answered question has one answers header and no not_applicable line. */
  lemma AnsweredQuestion(p: Pillar, count: nat, q: QuestionInput, save: bool)
    requires !save || q.summary.isApplicable
    ensures ValuesAt(QuestionLines(p, count, q, save), Indent2, AnswersKey) == [""]
    ensures ValuesAt(QuestionLines(p, count, q, save), Indent2, NotApplicableKey) == []
  {
    var marked := MarkedAnswers(q.detail);
    QuestionValues(p, count, q, save, Indent2, AnswersKey);
    QuestionValues(p, count, q, save, Indent2, NotApplicableKey);
    ValuesAtNone(NoteLines(q.detail), Indent2, AnswersKey);
    ValuesAtNone(NoteLines(q.detail), Indent2, NotApplicableKey);
    AnswersValues(q, save, Indent2, AnswersKey);
    AnswersValues(q, save, Indent2, NotApplicableKey);
    ChoicesBelow(q.summary.choices, marked, save, Indent2, AnswersKey);
    ChoicesBelow(q.summary.choices, marked, save, Indent2, NotApplicableKey);
  }

  /** Its choice lines are an id line and a title line per choice, in the order listed. */
  lemma AnsweredQuestionChoices(p: Pillar, count: nat, q: QuestionInput, save: bool)
    requires !save || q.summary.isApplicable
    ensures ValuesAt(QuestionLines(p, count, q, save), Indent3, IdKey) == ChoiceIds(q.summary.choices)
    ensures ValuesAt(QuestionLines(p, count, q, save), Indent4, TitleKey) == ChoiceTitles(q.summary.choices)
  {
    var marked := MarkedAnswers(q.detail);
    QuestionValues(p, count, q, save, Indent3, IdKey);
    QuestionValues(p, count, q, save, Indent4, TitleKey);
    ValuesAtNone(NoteLines(q.detail), Indent3, IdKey);
    ValuesAtNone(NoteLines(q.detail), Indent4, TitleKey);
    AnswersValues(q, save, Indent3, IdKey);
    AnswersValues(q, save, Indent4, TitleKey);
    ChoicesIds(q.summary.choices, marked, save);
    ChoicesTitles(q.summary.choices, marked, save);
  }

  // ----- The marks of a choice -----

  /** The marked answers that belong to the choice `choiceId`, in order. */
  function Matching(choiceId: string, marked: seq<ChoiceAnswer>): seq<ChoiceAnswer>
  {
    if marked == [] then []
    else Matching(choiceId, marked[..|marked| - 1])
         + (if marked[|marked| - 1].choiceId == choiceId then [marked[|marked| - 1]] else [])
  }

  /** Those of them whose status is NOT_APPLICABLE. */
  function MatchingNotApplicable(choiceId: string, marked: seq<ChoiceAnswer>): seq<ChoiceAnswer>
  {
    if marked == [] then []
    else MatchingNotApplicable(choiceId, marked[..|marked| - 1])
         + (if marked[|marked| - 1].choiceId == choiceId && IsNotApplicable(marked[|marked| - 1])
            then [marked[|marked| - 1]] else [])
  }

  /** The statuses of marked answers, in order. */
  function Statuses(xs: seq<ChoiceAnswer>): (r: seq<string>)
    ensures |r| == |xs|
    ensures forall i :: 0 <= i < |xs| ==> r[i] == xs[i].status
  {
    if xs == [] then [] else Statuses(xs[..|xs| - 1]) + [xs[|xs| - 1].status]
  }

  /** Their reasons. */
  function Reasons(xs: seq<ChoiceAnswer>): (r: seq<string>)
    ensures |r| == |xs|
    ensures forall i :: 0 <= i < |xs| ==> r[i] == xs[i].reason
  {
    if xs == [] then [] else Reasons(xs[..|xs| - 1]) + [xs[|xs| - 1].reason]
  }

  /** Their notes. */
  function MarkNotes(xs: seq<ChoiceAnswer>): (r: seq<string>)
    ensures |r| == |xs|
    ensures forall i :: 0 <= i < |xs| ==> r[i] == xs[i].notes
  {
    if xs == [] then [] else MarkNotes(xs[..|xs| - 1]) + [xs[|xs| - 1].notes]
  }

  lemma MarkLinesValues(choiceId: string, m: ChoiceAnswer)
    ensures ValuesAt(MarkLines(choiceId, m), Indent4, StatusKey) == if m.choiceId == choiceId then [m.status] else []
    ensures ValuesAt(MarkLines(choiceId, m), Indent4, ReasonKey) ==
            if m.choiceId == choiceId && IsNotApplicable(m) then [m.reason] else []
    ensures ValuesAt(MarkLines(choiceId, m), Indent4, NotesKey) ==
            if m.choiceId == choiceId && IsNotApplicable(m) then [m.notes] else []
  {
    var s := Line(Indent4, StatusKey, m.status);
    var r := Line(Indent4, ReasonKey, m.reason);
    var n := Line(Indent4, NotesKey, m.notes);
    if m.choiceId == choiceId && IsNotApplicable(m) {
      assert MarkLines(choiceId, m) == [s, r, n];
      ValuesAtTriple(s, r, n, Indent4, StatusKey);
      ValuesAtTriple(s, r, n, Indent4, ReasonKey);
      ValuesAtTriple(s, r, n, Indent4, NotesKey);
    } else if m.choiceId == choiceId {
      assert MarkLines(choiceId, m) == [s];
      ValuesAtOne(s, Indent4, StatusKey);
      ValuesAtOne(s, Indent4, ReasonKey);
      ValuesAtOne(s, Indent4, NotesKey);
    }
  }

  lemma {:induction false} StatusLinesStatuses(choiceId: string, marked: seq<ChoiceAnswer>)
    ensures ValuesAt(StatusLines(choiceId, marked), Indent4, StatusKey) == Statuses(Matching(choiceId, marked))
  {
    if marked != [] {
      var init := marked[..|marked| - 1];
      var m := marked[|marked| - 1];
      var a := Matching(choiceId, init);
      StatusLinesStatuses(choiceId, init);
      MarkLinesValues(choiceId, m);
      ValuesAtConcat(StatusLines(choiceId, init), MarkLines(choiceId, m), Indent4, StatusKey);
      assert a + [] == a;
    }
  }

  lemma {:induction false} StatusLinesReasons(choiceId: string, marked: seq<ChoiceAnswer>)
    ensures ValuesAt(StatusLines(choiceId, marked), Indent4, ReasonKey) == Reasons(MatchingNotApplicable(choiceId, marked))
  {
    if marked != [] {
      var init := marked[..|marked| - 1];
      var m := marked[|marked| - 1];
      var b := MatchingNotApplicable(choiceId, init);
      StatusLinesReasons(choiceId, init);
      MarkLinesValues(choiceId, m);
      ValuesAtConcat(StatusLines(choiceId, init), MarkLines(choiceId, m), Indent4, ReasonKey);
      assert b + [] == b;
    }
  }

  lemma {:induction false} StatusLinesNotes(choiceId: string, marked: seq<ChoiceAnswer>)
    ensures ValuesAt(StatusLines(choiceId, marked), Indent4, NotesKey) == MarkNotes(MatchingNotApplicable(choiceId, marked))
  {
    if marked != [] {
      var init := marked[..|marked| - 1];
      var m := marked[|marked| - 1];
      var b := MatchingNotApplicable(choiceId, init);
      StatusLinesNotes(choiceId, init);
      MarkLinesValues(choiceId, m);
      ValuesAtConcat(StatusLines(choiceId, init), MarkLines(choiceId, m), Indent4, NotesKey);
      assert b + [] == b;
    }
  }

  /**
   * With the marks saved, a choice gets one status line per marked answer with its id, in order,
   * and a reason and a notes line for each of those whose status is NOT_APPLICABLE; a choice that
   * no marked answer names gets none of them.
   */
  lemma ChoiceMarks(c: Choice, marked: seq<ChoiceAnswer>)
    ensures ValuesAt(ChoiceLines(c, marked, true), Indent4, StatusKey) == Statuses(Matching(c.choiceId, marked))
    ensures ValuesAt(ChoiceLines(c, marked, true), Indent4, ReasonKey) == Reasons(MatchingNotApplicable(c.choiceId, marked))
    ensures ValuesAt(ChoiceLines(c, marked, true), Indent4, NotesKey) == MarkNotes(MatchingNotApplicable(c.choiceId, marked))
  {
    ChoiceValues(c, marked, true, Indent4, StatusKey);
    ChoiceValues(c, marked, true, Indent4, ReasonKey);
    ChoiceValues(c, marked, true, Indent4, NotesKey);
    StatusLinesStatuses(c.choiceId, marked);
    StatusLinesReasons(c.choiceId, marked);
    StatusLinesNotes(c.choiceId, marked);
  }

  /** A choice that no marked answer names gets no status line, and a marked answer with another status no reason. */
  lemma UnmatchedChoice(c: Choice, marked: seq<ChoiceAnswer>)
    requires forall m :: m in marked ==> m.choiceId != c.choiceId
    ensures ValuesAt(ChoiceLines(c, marked, true), Indent4, StatusKey) == []
  {
    ChoiceMarks(c, marked);
    NoneMatching(c.choiceId, marked);
  }

  lemma {:induction false} NoneMatching(choiceId: string, marked: seq<ChoiceAnswer>)
    requires forall m :: m in marked ==> m.choiceId != choiceId
    ensures Matching(choiceId, marked) == []
  {
    if marked != [] {
      assert marked[|marked| - 1] in marked;
      forall m | m in marked[..|marked| - 1] ensures m in marked { }
      NoneMatching(choiceId, marked[..|marked| - 1]);
    }
  }

  /** A detail without ChoiceAnswers counts as no marked answer: no choice of the question gets a status line. */
  lemma MissingChoiceAnswers(c: Choice, q: QuestionInput)
    requires q.detail.choiceAnswers.None?
    ensures MarkedAnswers(q.detail) == []
    ensures ValuesAt(ChoiceLines(c, MarkedAnswers(q.detail), true), Indent4, StatusKey) == []
  {
    UnmatchedChoice(c, MarkedAnswers(q.detail));
  }

  /** Without save_workload no choice of any question gets a status, reason or notes line. */
  lemma NoMarksWithoutSave(cfg: Config, customLens: string, answers: Pillar -> seq<QuestionInput>)
    ensures ValuesAt(TemplateLines(cfg, customLens, answers, false), Indent4, StatusKey) == []
    ensures ValuesAt(TemplateLines(cfg, customLens, answers, false), Indent4, ReasonKey) == []
    ensures ValuesAt(TemplateLines(cfg, customLens, answers, false), Indent4, NotesKey) == []
  {
    var tl := TemplateLines(cfg, customLens, answers, false);
    PillarsShape(Order, answers, false);
    assert Unmarked(tl);
    ValuesAtNone(tl, Indent4, StatusKey);
    ValuesAtNone(tl, Indent4, ReasonKey);
    ValuesAtNone(tl, Indent4, NotesKey);
  }

  // ----- The text -----

  /** Every element of the generated text reads back as the indentation, key and value of its line. */
  lemma TemplateTextReadsBack(cfg: Config, customLens: string, answers: Pillar -> seq<QuestionInput>, save: bool)
    requires WellFormedText(cfg.lensKey)
    ensures |RenderAll(TemplateLines(cfg, customLens, answers, save))| == |TemplateLines(cfg, customLens, answers, save)|
    ensures forall i :: 0 <= i < |TemplateLines(cfg, customLens, answers, save)| ==>
              ParseLine(RenderAll(TemplateLines(cfg, customLens, answers, save))[i])
              == Some(FieldsOf(TemplateLines(cfg, customLens, answers, save)[i]))
  {
    PillarsShape(Order, answers, save);
    ParseRenderAll(TemplateLines(cfg, customLens, answers, save));
  }
}
