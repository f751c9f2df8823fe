/**
 * The line format of a generated template: every element of the template list is one
 * `key: value` text, indented by a multiple of two blanks (wafr/template.py:10-15, 144-145),
 * and question notes are written as a literal block (wafr/template.py:91-101).
 */
module TemplateFormat {
  import opened Wrappers
  import opened Text

  /** The indentation of level k is k times an indent size of two blanks. */
  const Indent0: nat := 0
  const Indent1: nat := 2
  const Indent2: nat := 4
  const Indent3: nat := 6
  const Indent4: nat := 8

  /**
   * The keys of template lines. `Named` carries a key taken from data (the lens key of the
   * configuration, a pillar id); the others are the fixed keys of template.py.
   */
  datatype Key =
    | Named(name: string)
    | LabelKey | QuestionIdKey | TitleKey | NotesKey | NotApplicableKey
    | AnswersKey | IdKey | StatusKey | ReasonKey

  function KeyText(k: Key): string
  {
    match k
    case Named(name) => name
    case LabelKey => "- label"
    case QuestionIdKey => "question_id"
    case TitleKey => "title"
    case NotesKey => "notes"
    case NotApplicableKey => "not_applicable"
    case AnswersKey => "answers"
    case IdKey => "- id"
    case StatusKey => "status"
    case ReasonKey => "reason"
  }

  /** One element of the template before it is rendered to text. */
  datatype Line = Line(indent: nat, key: Key, value: string)

  /** A key text that can be read back from its line: no colon, and no leading blank. */
  predicate WellFormedText(t: string)
  {
    ':' !in t && (t == [] || t[0] != ' ')
  }

  /** Every fixed key is well formed, so only the keys taken from data need a condition. */
  predicate WellFormedKey(key: Key)
  {
    key.Named? ==> WellFormedText(key.name)
  }

  lemma FixedKeysReadable(k: Key)
    requires WellFormedKey(k)
    ensures WellFormedText(KeyText(k))
  {
  }

  /** The text that append_new_line appends for a line. */
  function Render(l: Line): string
  {
    Spaces(l.indent) + KeyText(l.key) + ": " + l.value
  }

  /** What can be read back from a line of text: its indentation, its key and its value. */
  datatype Fields = Fields(indent: nat, key: string, value: string)

  function FieldsOf(l: Line): Fields
  {
    Fields(l.indent, KeyText(l.key), l.value)
  }

  /** The template list for a sequence of lines, one rendered text per line. */
  function RenderAll(ls: seq<Line>): seq<string>
  {
    if ls == [] then [] else RenderAll(ls[..|ls| - 1]) + [Render(ls[|ls| - 1])]
  }

  lemma {:induction false} RenderAllConcat(a: seq<Line>, b: seq<Line>)
    ensures RenderAll(a + b) == RenderAll(a) + RenderAll(b)
  {
    if b == [] {
      assert a + b == a;
    } else {
      assert (a + b)[..|a + b| - 1] == a + b[..|b| - 1];
      RenderAllConcat(a, b[..|b| - 1]);
    }
  }

  /** Appending the rendering of `a` and then of `b` is appending the rendering of `a + b`. */
  lemma RenderAllExtend(base: seq<string>, a: seq<Line>, b: seq<Line>)
    ensures base + RenderAll(a) + RenderAll(b) == base + RenderAll(a + b)
  {
    RenderAllConcat(a, b);
    AppendAssociative(base, RenderAll(a), RenderAll(b));
  }

  /** Element i of the template list is the rendering of line i. */
  lemma {:induction false} RenderAllIndex(ls: seq<Line>)
    ensures |RenderAll(ls)| == |ls|
    ensures forall i :: 0 <= i < |ls| ==> RenderAll(ls)[i] == Render(ls[i])
  {
    if ls != [] {
      RenderAllIndex(ls[..|ls| - 1]);
    }
  }

  /** Number of leading blanks. */
  function LeadingSpaces(s: string): (n: nat)
    ensures n <= |s|
    ensures forall i :: 0 <= i < n ==> s[i] == ' '
    ensures n < |s| ==> s[n] != ' '
  {
    if s != [] && s[0] == ' ' then 1 + LeadingSpaces(s[1..]) else 0
  }

  /** Index of the first `c` in `s`, or `|s|` when there is none. */
  function IndexOf(s: string, c: char): (k: nat)
    ensures k <= |s|
    ensures forall i :: 0 <= i < k ==> s[i] != c
    ensures k < |s| ==> s[k] == c
  {
    if s == [] then 0 else if s[0] == c then 0 else 1 + IndexOf(s[1..], c)
  }

  /** Reads one element back: its indentation, the key up to the first colon, and the value after ": ". */
  function ParseLine(s: string): Option<Fields>
  {
    var n := LeadingSpaces(s);
    var rest := s[n..];
    var k := IndexOf(rest, ':');
    if k + 1 < |rest| && rest[k + 1] == ' ' then Some(Fields(n, rest[..k], rest[k + 2..])) else None
  }

  /** Every rendered line reads back as the line it was made from, whatever its value holds. */
  lemma ParseRender(l: Line)
    requires WellFormedKey(l.key)
    ensures ParseLine(Render(l)) == Some(FieldsOf(l))
  {
    FixedKeysReadable(l.key);
    var key := KeyText(l.key);
    var s := Render(l);
    var n := LeadingSpaces(s);
    assert s[l.indent] == if key == [] then ':' else key[0];
    assert n == l.indent;
    var rest := s[n..];
    assert rest == key + ": " + l.value;
    var k := IndexOf(rest, ':');
    assert rest[|key|] == ':';
    assert k == |key|;
    assert rest[..k] == key;
    assert rest[k + 2..] == l.value;
  }

  /** The text of a template determines its lines: each element reads back as the fields of its line. */
  lemma {:induction false} ParseRenderAll(ls: seq<Line>)
    requires forall l :: l in ls ==> WellFormedKey(l.key)
    ensures |RenderAll(ls)| == |ls|
    ensures forall i :: 0 <= i < |ls| ==> ParseLine(RenderAll(ls)[i]) == Some(FieldsOf(ls[i]))
  {
    RenderAllIndex(ls);
    forall i | 0 <= i < |ls|
      ensures ParseLine(RenderAll(ls)[i]) == Some(FieldsOf(ls[i]))
    {
      ParseRender(ls[i]);
    }
  }

  // ----- Notes as a literal block -----

  /** add_new_line: a newline after every segment but the last. */
  function AddNewLine(index: int, lastIndex: int): (r: string)
    ensures r == "\n" <==> index < lastIndex
    ensures r == "" <==> lastIndex <= index
  {
    if index < lastIndex then "\n" else ""
  }

  /** What the loop of append_question_note has built after the first `k` segments. */
  function NoteBody(segments: seq<string>, k: nat): string
    requires k <= |segments|
  {
    if k == 0 then ""
    else NoteBody(segments, k - 1) + Spaces(Indent3) + segments[k - 1] + AddNewLine(k - 1, |segments| - 1)
  }

  /** The value of a question's notes line. */
  function NotesValue(note: string): string
  {
    var segments := Split(note, '\n');
    "|-\n" + NoteBody(segments, |segments|)
  }

  /** Each segment indented one level below the notes key. */
  function IndentSegments(segments: seq<string>): (r: seq<string>)
    ensures |r| == |segments|
    ensures forall i :: 0 <= i < |r| ==> r[i] == Spaces(Indent3) + segments[i]
  {
    seq(|segments|, i requires 0 <= i < |segments| => Spaces(Indent3) + segments[i])
  }

  lemma {:induction false} NoteBodyJoin(segments: seq<string>, k: nat)
    requires 1 <= k <= |segments|
    ensures NoteBody(segments, k) == Join(IndentSegments(segments)[..k], '\n') + AddNewLine(k - 1, |segments| - 1)
  {
    var ind := IndentSegments(segments);
    if k == 1 {
      assert ind[..1] == [ind[0]];
    } else {
      NoteBodyJoin(segments, k - 1);
      assert AddNewLine(k - 2, |segments| - 1) == "\n";
      assert ind[..k] == ind[..k - 1] + [ind[k - 1]];
      JoinSnoc(ind[..k - 1], ind[k - 1], '\n');
    }
  }

  /**
   * The notes value is the block marker "|-" and a newline, then every newline-separated segment of
   * the note indented by six blanks, joined by newlines with none at the end.
   */
  lemma NotesValueShape(note: string)
    ensures var segments := Split(note, '\n');
            |segments| == Count(note, '\n') + 1 &&
            NotesValue(note) == "|-\n" + Join(IndentSegments(segments), '\n')
  {
    var segments := Split(note, '\n');
    SplitPieces(note, '\n');
    NoteBodyJoin(segments, |segments|);
    assert IndentSegments(segments)[..|segments|] == IndentSegments(segments);
  }

  /** A block line without its six blanks of indentation. */
  function Unindent(line: string): string
  {
    if |line| >= Indent3 && line[..Indent3] == Spaces(Indent3) then line[Indent3..] else line
  }

  /** Reads a literal-block value back: drop the marker line, unindent every line, join them again. */
  function DecodeNotesValue(v: string): Option<string>
  {
    if |v| >= 3 && v[..3] == "|-\n" then
      var lines := Split(v[3..], '\n');
      Some(Join(seq(|lines|, i requires 0 <= i < |lines| => Unindent(lines[i])), '\n'))
    else None
  }

  /**
   * The literal block holds exactly one line per segment of the note, and reading it back gives
   * the note: the encoding loses nothing, whatever the note contains.
   */
  lemma NotesRoundTrip(note: string)
    ensures Split(NotesValue(note)[3..], '\n') == IndentSegments(Split(note, '\n'))
    ensures DecodeNotesValue(NotesValue(note)) == Some(note)
  {
    var segments := Split(note, '\n');
    var ind := IndentSegments(segments);
    SplitPieces(note, '\n');
    NotesValueShape(note);
    var v := NotesValue(note);
    assert v[..3] == "|-\n";
    assert v[3..] == Join(ind, '\n');
    forall i | 0 <= i < |ind| ensures '\n' !in ind[i] {
      assert ind[i] == Spaces(Indent3) + segments[i];
    }
    SplitJoin(ind, '\n');
    var lines := Split(v[3..], '\n');
    var unindented := seq(|lines|, i requires 0 <= i < |lines| => Unindent(lines[i]));
    forall i | 0 <= i < |lines| ensures unindented[i] == segments[i] {
      assert lines[i] == Spaces(Indent3) + segments[i];
      assert lines[i][..Indent3] == Spaces(Indent3);
      assert lines[i][Indent3..] == segments[i];
    }
    assert unindented == segments;
    JoinSplit(note, '\n');
  }
}
