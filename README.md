# aws-wafr-cli core, modelled in Dafny

The tool moves a Well-Architected review between the review service and an editable text
template. This project models its three pieces of logic and proves what they promise:

- **The template serializer** (`wafr/template.py`). `generate_new_template` walks the six pillars
  in a fixed order. For each question it writes a numbered label, the question id, the title, the
  question's notes as a literal block, and then either a `not_applicable: true` line or the
  answers, with each choice's status, reason and notes when marks are saved.
  - The model is a `TemplateBuffer` class whose `lines` field is the template list; every
    `append_*` helper is a method on it.
  - `GenerateNewTemplate` is the pillar loop. Each method is proved to append exactly the
    rendering of a line-level specification (`TemplateSpec`).
  - The properties of the template are lemmas about that specification. The rendered text reads
    back, element by element, as the lines it came from.
- **The reconciler** (`wafr/workload.py`). It walks a parsed template (pillar, questions,
  answers) and issues the service's `update_answer` calls. It also creates a workload or updates
  an existing one.
  - The service's client is a `Client` class holding the log of calls sent.
  - Every command is a method, with the source's loops. Each is proved to append exactly the calls
    of a specification function and to stop with the same failure.
  - The specification functions return a `Run`: the calls sent before a failure, and the failure.
- **Lens resolution** (`wafr/lens.py`). The first-match scan over the published lenses, the alias
  decision of `import_lens`, and the import-then-version sequence of `publish_lens`.

Python failures that end a command become values of `Wrappers.Error`:
- a `KeyError` on a missing template or response key becomes `MissingKey`;
- the client library refusing a `None` parameter becomes `InvalidParameter`;
- `input()` on exhausted input becomes `EndOfInput`;
- a `TypeError` from looping over a null list key becomes `NotIterable`.

A failure keeps the calls already sent, since nothing is rolled back.

The service itself is assumed to accept every call the client library lets through. A rejection by
the service (a botocore `ClientError`, such as an `update_answer` under a lens the workload does not
have) would also end the command after that call; it is not modelled (see "## Left out").

The service's read operations (`list_answers`, `get_answer`, `list_lenses`, `list_workloads`,
`get_workload`) become input data:
- the answers of a pillar are a function of the lens alias they are read under;
- the console answers of the update prompt are a sequence of strings.

Constants of `config.config`, which is not part of this model, are the fields of a `Config`
parameter: the lens key, the standard and EKS lens aliases and labels.

A mark whose status is not SELECTED reads its `reason` and `notes` keys. A missing key fails with
a `KeyError`; an empty string is sent as it is (`WorkloadSpec.ChoicePayload`).

A list-valued key written with no entries (a pillar header with no questions, an `answers:` header
with no choices) reads back from YAML as null. Looping over it raises a `TypeError`, which becomes
`NotIterable`; the calls sent for the keys before it stay sent.

## Model

| member | source | states |
|---|---|---|
| Text.Spaces | wafr/template.py:145 | the padding `f"{'':<{n}}"` is exactly n blanks |
| Text.SplitPieces | wafr/template.py:92 | `split('\n')` gives one more piece than the note has newlines, and no piece holds a newline |
| Text.JoinSplit | wafr/template.py:92 | joining the pieces of a split with the separator gives back the string |
| Text.SplitJoin | wafr/template.py:92-95 | splitting separator-free pieces joined by the separator gives back the pieces |
| Text.Lower | wafr/workload.py:58-64 | keeps the length, lowercases each ASCII letter and keeps every other character |
| Text.LowerIdempotent | wafr/workload.py:58-64 | lowercasing an already lowered choice changes nothing, so the loop test sees the stored choice |
| Text.LowerToLetter | wafr/workload.py:58-64 | exactly "y" and "Y" lowercase to "y", and exactly "n" and "N" to "n" |
| Text.NatToString | wafr/template.py:83 | `str(count)` is a non-empty string of decimal digits |
| Text.ParseNatToString | wafr/template.py:83 | reading back `str(count)` gives the count, so different counters give different text |
| Pillars.Ids | wafr/template.py:17-23 | the pillar ids of a sequence of pillars, position by position |
| Pillars.OrderEnumeratesPillars | wafr/template.py:18-23 | the fixed order lists each of the six pillars exactly once, and labels and ids tell pillars apart |
| Gateway.Issue | wafr/workload.py:156-162 | all or nothing: the call is sent exactly when the result does not fail, which is exactly when the alias is not None; the failure is the refused LensAlias |
| Gateway.Run.Then | wafr/workload.py:103-127 | the calls already sent stay a prefix of the result; the result fails exactly when either step fails; after a failure the next step sends nothing |
| Gateway.ThenDone | wafr/workload.py:103-127 | the step that sends nothing and does not fail is the identity of chaining, on either side |
| Gateway.ThenAssociative | wafr/workload.py:103-127 | chaining steps does not depend on how they are grouped, so the calls of nested loops are the calls of the flattened loop |
| Gateway.Client.UpdateAnswerApplicability | wafr/workload.py:111-117 | an `update_answer` with IsApplicable=False is logged, unless the alias is None |
| Gateway.Client.UpdateAnswerChoice | wafr/workload.py:156-162 | an `update_answer` with ChoiceUpdates is logged, unless the alias is None |
| Gateway.Client.CreateWorkload | wafr/workload.py:17-27 | `create_workload` is logged with its parameters |
| Gateway.Client.AssociateLenses | wafr/workload.py:69-75 | `associate_lenses` with the one alias is logged; a None alias in the list is refused |
| Gateway.Client.ImportLens | wafr/lens.py:21-28 | `import_lens`, with or without a LensAlias, is logged |
| Gateway.Client.CreateLensVersion | wafr/lens.py:10-13 | `create_lens_version` is logged |
| TemplateFormat.RenderAllIndex | wafr/template.py:144-145 | one template element per line, element i being the text of line i |
| TemplateFormat.ParseRender | wafr/template.py:144-145 | an element `indent blanks + key + ": " + value` reads back as its indentation, key and value, whatever the value holds |
| TemplateFormat.ParseRenderAll | wafr/template.py:144-145 | every element of a rendered template reads back as its line |
| TemplateFormat.AddNewLine | wafr/template.py:98-101 | a newline exactly before the last segment, nothing from the last segment on; NoteBodyJoin proves no trailing newline |
| TemplateFormat.NoteBodyJoin | wafr/template.py:93-101 | after k segments, the loop's text is the first k indented segments joined by newlines, with a newline after all but the last segment |
| TemplateFormat.NotesValueShape | wafr/template.py:91-101 | the notes value is the block marker line, then every segment indented by six blanks, joined by '\n' with none at the end; segments = newlines + 1 |
| TemplateFormat.NotesRoundTrip | wafr/template.py:91-96 | the block has one line per segment of the note, and unindenting and joining them gives back the note |
| TemplateSpec.InitQuestionCounter | wafr/template.py:73-74 | numbering starts above zero; with the next row, Labels proves the n-th question is numbered n |
| TemplateSpec.IncreaseQuestionCounter | wafr/template.py:76-77 | the next question's number is one more than the current one's |
| TemplateSpec.Labels | wafr/template.py:73-77 | the labels of the first n questions are numbered 1 to n |
| TemplateSpec.PillarsShape | wafr/template.py:44-61 | every key taken from data is a pillar id, which reads back; without save_workload no line is a status, reason or notes line |
| TemplateSpec.PillarsTopLevel | wafr/template.py:44-46 | the top-level lines of the pillars are one header per pillar, in order, keyed by its id with an empty value |
| TemplateSpec.HeadersOfOrder | wafr/template.py:18-23 | the headers are security, reliability, operationalExcellence, performance, costOptimization, sustainability |
| TemplateSpec.TemplateTopLevel | wafr/template.py:38-46 | the first line is the lens key line. The top-level lines are that line, then the six pillar headers in the fixed order with empty values |
| TemplateSpec.QuestionLabelLine | wafr/template.py:82-83 | a question has one label line, `<pillar label> <count>` |
| TemplateSpec.QuestionIdLine | wafr/template.py:85-86 | a question has one question_id line, holding its id |
| TemplateSpec.QuestionTitleLine | wafr/template.py:88-89 | a question has one title line at its level, holding its title |
| TemplateSpec.QuestionsLabels | wafr/template.py:47-61 | the label lines of a pillar's questions are numbered 1, 2, ... in order |
| TemplateSpec.QuestionsIds | wafr/template.py:48-51 | the question_id lines of a pillar list its questions in input order |
| TemplateSpec.PillarQuestions | wafr/template.py:46-61 | a pillar's questions appear in order, labelled 1..k; the counter restarts with every pillar |
| TemplateSpec.LabelValueInjective | wafr/template.py:83 | two questions of a pillar with different numbers have different labels |
| TemplateSpec.QuestionNotes | wafr/template.py:53-54 | a notes line appears exactly when the detail has Notes, and holds the encoded note |
| TemplateSpec.NotApplicableQuestion | wafr/template.py:55-57 | with save_workload and IsApplicable false: one `not_applicable: true` line and no answers header |
| TemplateSpec.NotApplicableQuestionHasNoChoices | wafr/template.py:55-59 | such a question has no choice id, title or mark line |
| TemplateSpec.TailValues | wafr/template.py:55-59 | after the notes, a question has only the not_applicable line or only the answers header at its own level |
| TemplateSpec.AnsweredQuestion | wafr/template.py:58-59 | any other question has one answers header and no not_applicable line |
| TemplateSpec.AnsweredQuestionChoices | wafr/template.py:109-122 | its choice lines are one id line and one title line per choice, in input order |
| TemplateSpec.StatusLinesOnly | wafr/template.py:124-139 | the mark lines of a choice are status, reason and notes lines at the deepest level only |
| TemplateSpec.ChoiceMarks | wafr/template.py:124-139 | with save_workload: one status line per marked answer naming the choice, in order; a reason and a notes line only for NOT_APPLICABLE ones |
| TemplateSpec.UnmatchedChoice | wafr/template.py:125-127 | a choice that no marked answer names gets no status line |
| TemplateSpec.MissingChoiceAnswers | wafr/template.py:105-108 | a detail without ChoiceAnswers counts as an empty list: no status line |
| TemplateSpec.NoMarksWithoutSave | wafr/template.py:112-113 | without save_workload the template has no status, reason or notes line |
| TemplateSpec.TemplateTextReadsBack | wafr/template.py:36-62 | every element of the generated text reads back as the indentation, key and value of its line |
| Template.TemplateBuffer.AppendNewLine | wafr/template.py:144-145 | exactly one element is appended, `indent` blanks + key + ": " + value; earlier elements are unchanged |
| Template.TemplateBuffer.AppendPillar | wafr/template.py:79-80 | appends the pillar's header: its id at the top level with an empty value |
| Template.TemplateBuffer.AppendQuestionLabel | wafr/template.py:82-83 | appends `  - label: <pillar label> <count>` |
| Template.TemplateBuffer.AppendQuestionId | wafr/template.py:85-86 | appends the question_id line |
| Template.TemplateBuffer.AppendQuestionTitle | wafr/template.py:88-89 | appends the question's title line |
| Template.TemplateBuffer.AppendQuestionNote | wafr/template.py:91-96 | the loop builds the literal block segment by segment; one notes line holding the encoded note is appended |
| Template.TemplateBuffer.AppendAnswersHeader | wafr/template.py:115-116 | appends the answers header with an empty value |
| Template.TemplateBuffer.AppendAnswerId | wafr/template.py:118-119 | appends the choice's `- id` line |
| Template.TemplateBuffer.AppendAnswerTitle | wafr/template.py:121-122 | appends the choice's title line |
| Template.TemplateBuffer.AppendAnswerStatus | wafr/template.py:132-133 | appends a status line |
| Template.TemplateBuffer.AppendAnswerReason | wafr/template.py:135-136 | appends a reason line |
| Template.TemplateBuffer.AppendAnswerNotes | wafr/template.py:138-139 | appends a notes line at the choice level |
| Template.TemplateBuffer.AppendAnswerNotApplicable | wafr/template.py:141-142 | appends `not_applicable: true` |
| Template.TemplateBuffer.AppendMark | wafr/template.py:126-130 | one marked answer: nothing unless it names the choice; then its status, and reason and notes for NOT_APPLICABLE |
| Template.TemplateBuffer.AppendAnswerStatusAndComments | wafr/template.py:124-130 | the loop over marked answers appends the choice's mark lines, in order |
| Template.TemplateBuffer.AppendAnswers | wafr/template.py:103-113 | appends the header, then id, title and (with save_workload) marks per choice, in order |
| Template.TemplateBuffer.AppendQuestion | wafr/template.py:49-59 | appends one question's label, id, title, notes when present, then its not_applicable line or its answers |
| Template.TemplateBuffer.AppendQuestions | wafr/template.py:47-61 | the counter loop appends a pillar's questions numbered from 1, rising by one per question |
| Template.TemplateAlias | wafr/template.py:38-40 | the standard alias unless the EKS lens is asked for; then the scan's result, None iff no lens has the EKS label |
| Template.GeneratedOutcome | wafr/template.py:36-62 | generation fails (None LensAlias refused) exactly when the EKS lens is asked for and not published; otherwise the text reads back as the template lines |
| Template.GenerateNewTemplate | wafr/template.py:36-62 | the pillar loop builds exactly the rendered template: lens line, then the pillars in order with their questions |
| Lens.FirstLensArn | wafr/lens.py:36-41 | None exactly when no lens has the name; otherwise the ARN of the first lens with it |
| Lens.GetLensAlias | wafr/lens.py:36-41 | the loop with early return gives the first match's ARN, or None |
| Lens.FirstNamedUnique | wafr/lens.py:38-40 | the first lens with a name determines the alias found |
| Lens.ImportLens | wafr/lens.py:15-29 | one import call, with the found alias when one is truthy, else without; returns that alias or the assigned ARN |
| Lens.PublishLens | wafr/lens.py:7-13 | after the import, one `create_lens_version` with exactly the alias the import returned and the given version |
| Lens.ImportFailsOnlyWithoutName | wafr/lens.py:17 | the import fails exactly when the file has no name key, and then nothing is sent |
| Lens.ImportKeepsExistingAlias | wafr/lens.py:19-24 | a lens already published under the name is re-imported under its ARN, which is returned unchanged |
| Lens.ImportNewLens | wafr/lens.py:25-29 | an unpublished lens is imported without an alias, and the ARN from the response is returned |
| WorkloadSpec.PillarPrioritiesFollowOrder | wafr/workload.py:24 | the priorities of a new workload are the pillar ids in the template's pillar order |
| WorkloadSpec.TemplateContentNeedsLensKey | wafr/workload.py:96-100 | a template without a lens key fails with a missing-key error before create or update sends anything, and so does a standard template without one |
| WorkloadSpec.TemplateLensAlias | wafr/workload.py:90-94 | fails exactly when the lens key is missing; None exactly when no published lens has the key's name; otherwise the ARN of the first lens with that name |
| WorkloadSpec.DisablingStandardLens | wafr/workload.py:45-46 | disabling happens only when asked for, never for a template of the standard lens itself, and for every other template when asked for |
| WorkloadSpec.AddingNewLens | wafr/workload.py:48-54 | a lens already among the workload's lenses is not new; any other alias, and a None alias, is new |
| WorkloadSpec.AnswerIsSelected | wafr/workload.py:164-165 | only the exact status SELECTED is selected; ChoicePayload states what that decides |
| WorkloadSpec.NullPillarStopsMarks | wafr/workload.py:104-105 | a pillar key holding null ends the marks with a TypeError; the earlier pillars' calls stay sent and no later pillar is reached |
| WorkloadSpec.NullAnswersStopQuestions | wafr/workload.py:118-119 | an applicable question whose answers key holds null ends its pillar with a TypeError after the earlier questions' calls |
| WorkloadSpec.NullPillarStopsDisable | wafr/workload.py:130-131 | a null pillar of the standard template ends the disabling the same way |
| WorkloadSpec.ConvertEnvironment | wafr/workload.py:77-82 | "prod" and only "prod" gives PRODUCTION; anything else PREPRODUCTION |
| WorkloadSpec.ChoicePayload | wafr/workload.py:141-155 | SELECTED maps the id to its status only, any other status to status, reason and notes; fails exactly when id, reason or notes is missing |
| WorkloadSpec.FirstWorkloadId | wafr/workload.py:84-88 | the id of the first workload with the name, or None exactly when there is none |
| WorkloadSpec.AnswersCalls | wafr/workload.py:119-127 | every call for a question's answers is a choice update of that question, under the alias and with the question's notes |
| WorkloadSpec.QuestionCalls | wafr/workload.py:106-127 | every call for a question carries its id, the alias and its notes (default ''); with a None alias nothing is sent |
| WorkloadSpec.NotApplicableQuestionRun | wafr/workload.py:110-117 | a question marked not applicable gets exactly one IsApplicable=False call with its notes, and no choice update |
| WorkloadSpec.MarkedAnswersRun | wafr/workload.py:118-127 | with the payload keys present: exactly one choice update per answer carrying a status, in answer order; none for the rest |
| WorkloadSpec.QuestionsCalls | wafr/workload.py:105-127 | every call for a pillar's questions is an answer update of the workload under the template's alias |
| WorkloadSpec.MarksCalls | wafr/workload.py:103-127 | every call of the marks is an answer update of the workload under the template's alias; a None alias sends nothing |
| WorkloadSpec.DisableCallsIndex | wafr/workload.py:131-138 | call i disables question i under the standard alias with empty notes |
| WorkloadSpec.DisableQuestionsCalls | wafr/workload.py:131-138 | a pillar's questions with ids give one disabling call each, in order |
| WorkloadSpec.DisableAll | wafr/workload.py:129-138 | exactly one IsApplicable=False call per question of the template, in order, under the standard alias with empty notes |
| WorkloadSpec.StandardCalls | wafr/workload.py:129-138 | disabling the standard questions only sends IsApplicable=False calls |
| WorkloadSpec.PromptDecidedByFirstDecisive | wafr/workload.py:56-67 | the first answer that is empty or lowercases to y/n decides; the result is true iff it lowercases to y |
| WorkloadSpec.PromptExhausted | wafr/workload.py:56-67 | the prompt runs out of input exactly when no answer is decisive |
| WorkloadSpec.EmptyAnswerDeclines | wafr/workload.py:61-62 | an empty answer is a no |
| WorkloadSpec.CreateOrder | wafr/workload.py:14-31 | create_workload comes first, with the alias as only lens and the fixed priorities. Standard disabling (when asked for) follows, then the marks |
| WorkloadSpec.CreateNeedsPublishedLens | wafr/workload.py:14-15 | with no published lens for the template, nothing is sent |
| WorkloadSpec.AssociationAssociates | wafr/workload.py:38-39 | the association step associates exactly when the lens is new to the workload, the operator allows it and the alias is known |
| WorkloadSpec.UpdateAssociatesOnlyWhenAllowed | wafr/workload.py:38-42 | a whole update sends an association exactly under those conditions |
| WorkloadSpec.UpdateOrder | wafr/workload.py:38-42 | on update: association, then the marks under the template's alias either way, then standard disabling |
| WorkloadSpec.UpdateNeedsWorkload | wafr/workload.py:37-38 | updating a workload that does not exist fails before any call |
| Workload.GetWorkloadId | wafr/workload.py:84-88 | the loop with early return gives the first match's id, or None |
| Workload.GetLensAlias | wafr/workload.py:90-94 | the template's lens key looked up among the published lenses |
| Workload.UpdateAllowed | wafr/workload.py:56-67 | the while loop over the answers gives the prompt's decision, or end of input |
| Workload.UpdateAnswer | wafr/workload.py:141-162 | one choice update with the payload, unless a payload key is missing or the alias is None |
| Workload.ApplyQuestionMarks | wafr/workload.py:106-127 | one question's calls, stopping at the first failure, as in the specification |
| Workload.ApplyPillarMarks | wafr/workload.py:105-127 | a pillar's questions in order, stopping at the first failure; a pillar key holding null fails at once |
| Workload.ApplyMarks | wafr/workload.py:103-127 | every pillar's questions in order: exactly the calls of the marks, and their failure |
| Workload.DisablePillarQuestions | wafr/workload.py:131-138 | a pillar's questions disabled in order; a missing question_id or a null pillar stops it |
| Workload.DisableStandardQuestions | wafr/workload.py:129-138 | every question of the standard template disabled, in order |
| Workload.DisableStandardTemplate | wafr/workload.py:30 | the standard template is read (its lens key must be present), then its questions are disabled |
| Workload.CreateNewWorkload | wafr/workload.py:11-32 | exactly the calls and the failure of the create specification |
| Workload.AssociateIfNew | wafr/workload.py:38-39 | the prompt and the association only for a new lens |
| Workload.UpdateExistingWorkload | wafr/workload.py:34-43 | exactly the calls and the failure of the update specification |

## Left out

- The boto3 client is not modelled. Read operations are inputs; the calls that change the service are records in `Client.calls`.
- Workload.CreateNewWorkload, Workload.UpdateExistingWorkload: every call that passes the client library's None check is assumed to succeed. A service rejection (a botocore `ClientError`) is not modelled. In the program it would end the command right after the rejected call and keep the calls sent before it. An example is an `update_answer` under a lens alias the workload does not have, after the operator declined the association. The model goes on to the remaining marks and the standard disabling. The same assumption holds for every other call in `Workload` and `Lens`.
- File, YAML and JSON I/O are left out: `write_template`, `load_template`, opening the template in `get_template_content` and `get_lens_alias`, and `json.dumps`. The model starts from the parsed map, and the lens file's JSON text is a parameter.
- A YAML null in a text-valued key (an empty `notes:`, `reason:` or `question_id:`) is not distinguished from a string: such a key is absent or holds text. The list-valued keys (a pillar's questions, a question's answers) do model null.
- `print` output, `list_all_workloads` and `start_generation` only print or dispatch; they have no logic to verify.
- `ClientRequestToken=str(datetime.now())` depends on the clock and is not part of the `CreateWorkload` record.
- The service answers requests, so the id of a new workload and the ARN of a newly imported lens are parameters.
- The `MaxResults` page sizes (30 answers per pillar, 20 workloads when listing) are service behaviour. The answers of a pillar are whatever list the service returns.
- `get_answer` is assumed to return Reason and Notes for every marked choice. A missing one is not modelled as a failure.
- Text.Lower: `str.lower()` is modelled on ASCII letters only, and every other character is kept. So `Lower` keeps the length, which Python's `lower()` does not do for every character (U+0130 becomes two characters).
- `TemplateSpec` takes the answers of the six pillars as a function of the pillar, read under the resolved alias. How the workload id selects them is left to the service.
- wafr-cli.py passes `trusted_advisor` to `create_new_workload`, which takes no such parameter. That call fails before anything in this model runs, and argument parsing is not modelled.
- The round trip from a generated template through a YAML parser back into the reconciler is left out, because it needs a model of YAML parsing.
  - The serializer writes UNSELECTED marks without reason and notes.
  - The reconciler reads both keys for any status other than SELECTED.
- `Lens.GetLensName` and `WorkloadSpec.GetTemplateContent` are key lookups with no contract of their own; `ImportFailsOnlyWithoutName` and `TemplateContentNeedsLensKey` state what they decide.
