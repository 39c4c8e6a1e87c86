/** The admin content library's form serialisers: how the text typed into the content,
    question and prompt forms becomes the string lists that are stored (and that the
    matcher later reads as tags), the form reset after a successful add, and the
    prompt-type label. Stored lists are `seq<string>`; their JSON encoding is not modelled. */
module AdminForms {
  import opened Wrappers
  import opened Seqs
  import opened Text
  import opened Content
  import Retrieval

  // ----- Content tags -----

  /** The tags of a new content item: an empty field gives no tags, otherwise one tag per
      comma-separated piece, trimmed, with empty pieces kept. */
  function ParseContentTags(input: string): (tags: seq<string>)
    ensures input == "" ==> tags == []
    ensures input != "" ==> |tags| == Occurrences(input, ',') + 1
    ensures input != "" ==> |tags| == |Split(input, ',')|
    ensures input != "" ==> forall i :: 0 <= i < |tags| ==> tags[i] == Trim(Split(input, ',')[i])
    ensures forall t :: t in tags ==> IsTrimmed(t) && ',' !in t
  {
    if input == "" then []
    else
      SplitCount(input, ',');
      SplitPiecesFree(input, ',');
      TrimEachFree(Split(input, ','), ',');
      TrimEach(Split(input, ','))
  }

  /** Two adjacent commas leave an empty tag behind. */
  lemma AdjacentCommasGiveEmptyTag(x: string, y: string)
    ensures "" in ParseContentTags(x + ",," + y)
  {
    var s := x + ",," + y;
    var a, b := Split(x, ','), Split(y, ',');
    assert Split(s, ',') == a + ([""] + b) by {
      assert s == x + [','] + ([','] + y);
      SplitConcat(x, [','] + y, ',');
      SplitLeadingSep(y, ',');
    }
    EmptyPieceTrims(a, b);
  }

  /** An empty piece between two runs of pieces trims to an empty tag. */
  lemma EmptyPieceTrims(a: seq<string>, b: seq<string>)
    ensures "" in TrimEach(a + ([""] + b))
  {
    var parts := a + ([""] + b);
    assert parts[|a|] == "";
    assert TrimEach(parts)[|a|] == "";
  }

  // ----- Question templates -----

  /** The answer options of a new question: an empty field gives none; otherwise the lines
      that are not blank after trimming, kept untrimmed and in their original order. */
  function ParseAnswerOptions(input: string): (r: Option<seq<string>>)
    ensures r.None? <==> input == ""
    ensures r.Some? ==> IsSubsequence(r.value, Split(input, '\n'))
    ensures r.Some? ==> forall o :: o in r.value <==> o in Split(input, '\n') && Trim(o) != []
    ensures r.Some? ==> forall o :: multiset(r.value)[o]
                                   == if Trim(o) != [] then multiset(Split(input, '\n'))[o] else 0
    ensures r.Some? ==> forall o :: o in r.value ==> '\n' !in o
  {
    SplitPiecesFree(input, '\n');
    if input == "" then None else Some(KeepNotBlank(Split(input, '\n')))
  }

  /** The learning objectives of a new question: an empty field gives none; otherwise one
      trimmed objective per comma-separated piece, empty pieces kept. */
  function ParseLearningObjectives(input: string): (r: Option<seq<string>>)
    ensures r.None? <==> input == ""
    ensures r.Some? ==> |r.value| == Occurrences(input, ',') + 1
    ensures r.Some? ==> |r.value| == |Split(input, ',')|
    ensures r.Some? ==> forall i :: 0 <= i < |r.value| ==> r.value[i] == Trim(Split(input, ',')[i])
  {
    if input == "" then None
    else
      SplitCount(input, ',');
      Some(TrimEach(Split(input, ',')))
  }

  // ----- Prompt context tags -----

  /** What the prompt editor stores: non-empty, trimmed and free of commas. */
  predicate WellFormedTag(t: string) {
    t != "" && IsTrimmed(t) && ',' !in t
  }

  predicate NonEmpty(t: string) {
    t != ""
  }

  /** Trims every piece and drops the ones left empty. */
  function CleanTags(parts: seq<string>): (tags: seq<string>)
    ensures |tags| <= |parts|
    ensures forall t :: t in tags ==> t != "" && IsTrimmed(t) && t in TrimEach(parts)
  {
    Filter(NonEmpty, TrimEach(parts))
  }

  lemma CleanTagsConcat(a: seq<string>, b: seq<string>)
    ensures CleanTags(a + b) == CleanTags(a) + CleanTags(b)
  {
    TrimEachConcat(a, b);
    FilterConcat(NonEmpty, TrimEach(a), TrimEach(b));
  }

  /** The prompt editor's context-tag field as it is stored on every keystroke. */
  function ParseContextTags(input: string): (tags: seq<string>)
    ensures |tags| <= Occurrences(input, ',') + 1
    ensures forall t :: t in tags ==> WellFormedTag(t)
    ensures tags == Filter(NonEmpty, TrimEach(Split(input, ',')))
  {
    SplitCount(input, ',');
    SplitPiecesFree(input, ',');
    TrimEachFree(Split(input, ','), ',');
    CleanTags(Split(input, ','))
  }

  /** The context tags as the prompt card and the editor field show them: absent tags show
      as the empty string, present ones joined with a comma and a space. */
  function DisplayContextTags(stored: Option<seq<string>>): (r: string)
    ensures stored.None? || stored == Some([]) ==> r == ""
    ensures stored.Some? && |stored.value| == 1 ==> r == stored.value[0]
    ensures stored.Some? ==> r == Join(stored.value, ", ")
  {
    match stored
    case None => ""
    case Some(tags) => Join(tags, ", ")
  }

  /** Trimming a tag preceded by nothing or by one space gives the tag. */
  lemma TrimPrefixed(pre: string, t: string)
    requires pre == "" || pre == " "
    requires IsTrimmed(t)
    ensures Trim(pre + t) == t
  {
    if pre == "" {
      assert pre + t == t;
      TrimOfTrimmed(t);
    } else {
      assert pre + t == " " + t;
      TrimAfterSpace(t);
      TrimOfTrimmed(t);
    }
  }

  /** A single piece that is not blank cleans to its trimmed self. */
  lemma CleanOne(u: string)
    requires Trim(u) != ""
    ensures CleanTags([u]) == [Trim(u)]
  {
    assert TrimEach([u]) == [Trim(u)];
    assert [Trim(u)][1..] == [];
  }

  /** A single well-formed tag, after nothing or after the space that follows a comma,
      parses back to itself. */
  lemma ParseOneTag(pre: string, t: string)
    requires pre == "" || pre == " "
    requires WellFormedTag(t)
    ensures CleanTags(Split(pre + t, ',')) == [t]
  {
    assert ',' !in pre + t;
    assert Split(pre + t, ',') == [pre + t];
    TrimPrefixed(pre, t);
    CleanOne(pre + t);
  }

  /** The first comma of the display separates the first tag from the rest. */
  lemma SplitJoinedStep(pre: string, tags: seq<string>)
    requires |tags| >= 2
    ensures Split(pre + Join(tags, ", "), ',')
         == Split(pre + tags[0], ',') + Split(" " + Join(tags[1..], ", "), ',')
  {
    var t, rest := tags[0], tags[1..];
    assert tags == [t] + rest;
    JoinCons(t, rest, ", ");
    assert pre + Join(tags, ", ") == (pre + t) + [','] + (" " + Join(rest, ", "));
    SplitConcat(pre + t, " " + Join(rest, ", "), ',');
  }

  /** Parsing pieces that fall into a first tag and the rest of the tags gives all the tags. */
  lemma CleanSplitCombine(s: string, first: seq<string>, rest: seq<string>, tags: seq<string>)
    requires |tags| >= 1
    requires Split(s, ',') == first + rest
    requires CleanTags(first) == [tags[0]]
    requires CleanTags(rest) == tags[1..]
    ensures CleanTags(Split(s, ',')) == tags
  {
    CleanTagsConcat(first, rest);
    assert [tags[0]] + tags[1..] == tags;
  }

  /** Re-parsing `pre` followed by the displayed tags, where `pre` is the space that follows
      each comma in the display, gives the tags back. */
  lemma {:induction false} ParseJoined(pre: string, tags: seq<string>)
    requires |tags| >= 1
    requires pre == "" || pre == " "
    requires forall t :: t in tags ==> WellFormedTag(t)
    ensures CleanTags(Split(pre + Join(tags, ", "), ',')) == tags
    decreases |tags|
  {
    ParseOneTag(pre, tags[0]);
    if |tags| == 1 {
      assert Join(tags, ", ") == tags[0];
    } else {
      SplitJoinedStep(pre, tags);
      ParseJoined(" ", tags[1..]);
      CleanSplitCombine(pre + Join(tags, ", "), Split(pre + tags[0], ','),
        Split(" " + Join(tags[1..], ", "), ','), tags);
    }
  }

  /** Displaying well-formed tags in the editor field and parsing the field again gives
      the same tags back. */
  lemma ContextTagsRoundTrip(tags: seq<string>)
    requires forall t :: t in tags ==> WellFormedTag(t)
    ensures ParseContextTags(DisplayContextTags(Some(tags))) == tags
  {
    if tags == [] {
      assert Split("", ',') == [""];
      assert TrimEach([""]) == [""];
    } else {
      ParseJoined("", tags);
      assert "" + Join(tags, ", ") == Join(tags, ", ");
    }
  }

  /** The tags a keystroke in the field stores, shown back in the field, parse to themselves. */
  lemma EditingIsStable(input: string)
    ensures ParseContextTags(DisplayContextTags(Some(ParseContextTags(input)))) == ParseContextTags(input)
  {
    ContextTagsRoundTrip(ParseContextTags(input));
  }

  // ----- Forms and the records they create -----

  datatype ContentForm = ContentForm(
    title: string,
    contentType: ContentType,
    content: string,
    description: string,
    tags: string,
    category: string,
    difficulty: DifficultyLevel,
    source: string)

  datatype QuestionType = MultipleChoice | OpenEnded | CaseBased

  datatype QuestionForm = QuestionForm(
    contentId: string,
    questionText: string,
    questionType: QuestionType,
    correctAnswer: string,
    answerOptions: string,
    explanation: string,
    learningObjectives: string)

  datatype QuestionRecord = QuestionRecord(
    id: string,
    contentId: string,
    questionText: string,
    questionType: QuestionType,
    correctAnswer: string,
    answerOptions: Option<seq<string>>,
    explanation: string,
    learningObjectives: Option<seq<string>>)

  /** The content form when the page opens and after every successful add. */
  const BlankContentForm := ContentForm("", Text, "", "", "", "", Intermediate, "")

  /** The question form when the page opens and after every successful add. */
  const BlankQuestionForm := QuestionForm("", "", MultipleChoice, "", "", "", "")

  /** The content record created from the form: the form's fields as typed, the tags parsed.
      `active` is the store's own default for new rows, which the form does not set. */
  function NewContentRecord(form: ContentForm, id: string, active: bool): (item: ContentItem)
    ensures item.id == id && item.title == form.title && item.category == form.category
    ensures item.contentType == form.contentType && item.content == form.content
    ensures item.description == Some(form.description) && item.source == Some(form.source)
    ensures item.difficulty == Some(form.difficulty) && item.active == active
    ensures form.tags == "" ==> item.tags == []
    ensures form.tags != "" ==> |item.tags| == Occurrences(form.tags, ',') + 1
    ensures item.tags == ParseContentTags(form.tags)
  {
    ContentItem(id, form.title, form.contentType, form.content, Some(form.description),
      ParseContentTags(form.tags), form.category, Some(form.difficulty), Some(form.source), active)
  }

  /** A content item whose tag field held two adjacent commas carries an empty tag, so once
      it is in the library it matches every question a student asks. */
  lemma AdjacentCommasMatchEverything(form: ContentForm, id: string, x: string, y: string,
                                      transcript: string, corpus: seq<ContentItem>)
    requires form.tags == x + ",," + y
    requires NewContentRecord(form, id, true) in corpus
    ensures NewContentRecord(form, id, true) in Retrieval.MatchContent(transcript, corpus)
  {
    AdjacentCommasGiveEmptyTag(x, y);
    Retrieval.EmptyTagMatchesEverything(transcript, NewContentRecord(form, id, true), corpus);
  }

  /** The question record created from the form: options and objectives parsed, the rest as typed. */
  function NewQuestionRecord(form: QuestionForm, id: string): (q: QuestionRecord)
    ensures q.id == id && q.contentId == form.contentId && q.questionText == form.questionText
    ensures q.questionType == form.questionType && q.correctAnswer == form.correctAnswer
    ensures q.explanation == form.explanation
    ensures q.answerOptions.None? <==> form.answerOptions == ""
    ensures q.learningObjectives.None? <==> form.learningObjectives == ""
    ensures q.answerOptions.Some? ==>
      forall o :: o in q.answerOptions.value ==> Trim(o) != [] && '\n' !in o
    ensures q.answerOptions == ParseAnswerOptions(form.answerOptions)
    ensures q.learningObjectives == ParseLearningObjectives(form.learningObjectives)
  {
    QuestionRecord(id, form.contentId, form.questionText, form.questionType, form.correctAnswer,
      ParseAnswerOptions(form.answerOptions), form.explanation,
      ParseLearningObjectives(form.learningObjectives))
  }

  /** The content form after an add attempt: blank again, with text content and intermediate
      difficulty, when the record was stored; as it was when storing failed. */
  function AfterAddContent(form: ContentForm, stored: bool): (r: ContentForm)
    ensures stored ==> r.title == "" && r.content == "" && r.description == "" && r.tags == ""
    ensures stored ==> r.category == "" && r.source == ""
    ensures stored ==> r.contentType == Text && r.difficulty == Intermediate
    ensures !stored ==> r == form
  {
    if stored then BlankContentForm else form
  }

  /** The question form after an add attempt: blank again, multiple choice, when the record
      was stored; as it was when storing failed. */
  function AfterAddQuestion(form: QuestionForm, stored: bool): (r: QuestionForm)
    ensures stored ==> r.contentId == "" && r.questionText == "" && r.correctAnswer == ""
    ensures stored ==> r.answerOptions == "" && r.explanation == "" && r.learningObjectives == ""
    ensures stored ==> r.questionType == MultipleChoice
    ensures !stored ==> r == form
  {
    if stored then BlankQuestionForm else form
  }

  /** A reset form creates a record with no tags, no options and no objectives. */
  lemma ResetFormsAreEmpty(cf: ContentForm, qf: QuestionForm, id: string, active: bool)
    ensures NewContentRecord(AfterAddContent(cf, true), id, active).tags == []
    ensures NewQuestionRecord(AfterAddQuestion(qf, true), id).answerOptions == None
    ensures NewQuestionRecord(AfterAddQuestion(qf, true), id).learningObjectives == None
  {
  }

  // ----- Prompt types -----

  datatype PromptType = QuestionGeneration | AnswerEvaluation | Feedback | CaseScenario

  /** The stored key of each prompt type, written as the words around its underscore. */
  function PromptTypeKey(t: PromptType): string {
    match t
    case QuestionGeneration => "question" + "_" + "generation"
    case AnswerEvaluation => "answer" + "_" + "evaluation"
    case Feedback => "feedback"
    case CaseScenario => "case" + "_" + "scenario"
  }

  /** A two-word key's label is the two words with a space between them. */
  lemma TwoWordLabel(first: string, second: string)
    requires '_' !in first && '_' !in second
    ensures ReplaceFirst(first + "_" + second, '_', ' ') == first + " " + second
    ensures '_' !in first + " " + second
  {
    ReplaceFirstAt(first, '_', ' ', second);
  }

  /** The card title and dialog text for a prompt type: the key with its first underscore
      turned into a space. Every key has at most one underscore, so no underscore is left. */
  function PromptTypeLabel(t: PromptType): (title: string)
    ensures '_' !in title
  {
    match t
    case QuestionGeneration =>
      TwoWordLabel("question", "generation");
      ReplaceFirst(PromptTypeKey(t), '_', ' ')
    case AnswerEvaluation =>
      TwoWordLabel("answer", "evaluation");
      ReplaceFirst(PromptTypeKey(t), '_', ' ')
    case Feedback =>
      ReplaceFirst(PromptTypeKey(t), '_', ' ')
    case CaseScenario =>
      TwoWordLabel("case", "scenario");
      ReplaceFirst(PromptTypeKey(t), '_', ' ')
  }

  /** The labels of the four prompt types, one lemma each: the words of the key with a
      space where the underscore was. */
  lemma QuestionGenerationLabel()
    ensures PromptTypeLabel(QuestionGeneration) == "question" + " " + "generation"
  {
    TwoWordLabel("question", "generation");
  }

  lemma AnswerEvaluationLabel()
    ensures PromptTypeLabel(AnswerEvaluation) == "answer" + " " + "evaluation"
  {
    TwoWordLabel("answer", "evaluation");
  }

  lemma FeedbackLabel()
    ensures PromptTypeLabel(Feedback) == "feedback"
  {
  }

  lemma CaseScenarioLabel()
    ensures PromptTypeLabel(CaseScenario) == "case" + " " + "scenario"
  {
    TwoWordLabel("case", "scenario");
  }

  /** A key with two underscores would keep its second one. */
  lemma OnlyFirstUnderscoreReplaced()
    ensures ReplaceFirst("a_b_c", '_', ' ') == "a b_c"
  {
    assert IndexOf("a_b_c", '_') == 1;
  }
}
