/** The form-field extractor of `readTheInputsFrom`: every
    `div.fb-dash-form-element` container of an Easy Apply form step is
    classified into an input kind, and the question text, the coarse
    `required` flag, the options and the current answer are read from it.

    The HTML parser is not modelled. A container is given by what the
    extractor asks the parser about it (the `Container` datatype), and the
    page by the list of its containers in document order. */
module Extractor {
  import opened Seqs
  import opened Questions
  import opened Text

  /** A fieldset (or, for dropdowns, a `<select>`) that marks a kind of
      field. `innerSpan` is the raw text of the `span[aria-hidden=true]`
      inside its `fb-dash-form-element__label` element, when both exist. */
  datatype Probe = Absent | Present(innerSpan: Option<string>)

  /** The container's first `<legend>`: its full text, and the text of its
      `span.fb-dash-form-element__label` when it has one. */
  datatype Legend = Legend(text: string, labelSpan: Option<string>)

  /** What the extractor queries of one field container. All texts are raw,
      before stripping. */
  datatype Container = Container(
    checkboxGroup: Probe,               // fieldset[data-test-checkbox-form-component=true]
    radioGroup: Probe,                  // fieldset[data-test-form-builder-radio-button-form-component=true]
    select: Probe,                      // a <select>; the span is that of the container's label.fb-dash-form-element__label
    hasTextInput: bool,                 // input[type=text]
    hasEmailInput: bool,                // input[type=email]
    hasTelInput: bool,                  // input[type=tel]
    firstLabel: Option<string>,         // text of the first <label>
    firstLegend: Option<Legend>,        // the first <legend>
    markup: string,                     // str(element), the serialized container
    optionLabels: seq<string>,          // texts of every label.t-14
    checkedValues: seq<Option<string>>, // `value` of every checked input
    optionTexts: seq<string>,           // texts of every <option>
    selectedOption: Option<string>,     // text of the first selected <option>
    firstInputValue: Option<string>)    // `value` of the first <input>

  /** The dropdown placeholder that is never an option nor an answer. */
  const Placeholder: string := "Select an option"

  /** The second required marker the source tests, on the raw markup. */
  const AriaRequiredTrue: string := "aria-required=\"true\""

  // ---------------------------------------------------------------------
  // Specification of one container

  /** The stripped inner-span text of a marker, "" when there is none. */
  function SpanText(p: Probe): string {
    if p.Present? && p.innerSpan.Some? then Trim(p.innerSpan.value) else ""
  }

  /** The generic fallback: the first label, else the first legend's label
      span, else the legend itself. */
  function FallbackText(c: Container): string {
    match c.firstLabel
    case Some(t) => Trim(t)
    case None =>
      match c.firstLegend
      case None => ""
      case Some(l) => Trim(if l.labelSpan.Some? then l.labelSpan.value else l.text)
  }

  /** The question text: the checkbox legend, else the radio legend, else
      the dropdown label, else the generic fallback; each step is taken only
      if everything before it gave nothing. */
  function QuestionText(c: Container): (r: string)
    ensures r == "" || (!IsSpace(r[0]) && !IsSpace(r[|r| - 1]))
  {
    if SpanText(c.checkboxGroup) != "" then SpanText(c.checkboxGroup)
    else if SpanText(c.radioGroup) != "" then SpanText(c.radioGroup)
    else if SpanText(c.select) != "" then SpanText(c.select)
    else FallbackText(c)
  }

  /** The input kind. A group whose legend gave a question decides the kind
      outright; otherwise the select and the typed inputs are tried in order,
      and if none is present the last group seen (radio after checkbox)
      keeps its kind. The kind names only a marker the container has, and
      is Unknown exactly when it has none. */
  function KindOf(c: Container): (r: InputKind)
    ensures r == Checkbox ==> c.checkboxGroup.Present?
    ensures r == Radio ==> c.radioGroup.Present?
    ensures r == Dropdown ==> c.select.Present?
    ensures r == TextInput ==> c.hasTextInput
    ensures r == EmailInput ==> c.hasEmailInput
    ensures r == PhoneInput ==> c.hasTelInput
    ensures r == Unknown <==>
      && c.checkboxGroup.Absent? && c.radioGroup.Absent? && c.select.Absent?
      && !c.hasTextInput && !c.hasEmailInput && !c.hasTelInput
  {
    if SpanText(c.checkboxGroup) != "" then Checkbox
    else if SpanText(c.radioGroup) != "" then Radio
    else if c.select.Present? then Dropdown
    else if c.hasTextInput then TextInput
    else if c.hasEmailInput then EmailInput
    else if c.hasTelInput then PhoneInput
    else if c.radioGroup.Present? then Radio
    else if c.checkboxGroup.Present? then Checkbox
    else Unknown
  }

  /** The coarse required test: the marker anywhere in the lowered markup. */
  predicate RequiredMarker(markup: string) {
    Contains(Lower(markup), "required")
  }

  /** The option texts of a checkbox or radio group: the stripped label
      texts, in order, dropping the empty ones. */
  function LabelOptions(labels: seq<string>): (r: seq<string>)
    ensures |r| <= |labels|
    ensures forall i :: 0 <= i < |r| ==> r[i] != ""
  {
    if labels == [] then []
    else
      var t := Trim(labels[0]);
      if t != "" then [t] + LabelOptions(labels[1..]) else LabelOptions(labels[1..])
  }

  /** The option texts of a dropdown: the stripped option texts, in order,
      dropping the empty ones and the placeholder. */
  function DropdownOptions(texts: seq<string>): (r: seq<string>)
    ensures |r| <= |texts|
    ensures forall i :: 0 <= i < |r| ==> r[i] != "" && r[i] != Placeholder
  {
    if texts == [] then []
    else
      var t := Trim(texts[0]);
      if t != "" && t != Placeholder then [t] + DropdownOptions(texts[1..]) else DropdownOptions(texts[1..])
  }

  /** Each group option is the stripped text of some label. */
  lemma {:induction false} LabelOptionSource(labels: seq<string>, x: string) returns (i: nat)
    requires x in LabelOptions(labels)
    ensures i < |labels| && Trim(labels[i]) == x && Trim(x) == x
  {
    var t, rest := Trim(labels[0]), LabelOptions(labels[1..]);
    assert LabelOptions(labels) == if t != "" then [t] + rest else rest;
    if t != "" && x == t {
      i := 0;
      TrimIdempotent(labels[0]);
    } else {
      assert x in rest;
      var j := LabelOptionSource(labels[1..], x);
      i := j + 1;
    }
  }

  /** No label whose stripped text is non-empty is lost. */
  lemma {:induction false} LabelOptionKept(labels: seq<string>, i: nat)
    requires i < |labels| && Trim(labels[i]) != ""
    ensures Trim(labels[i]) in LabelOptions(labels)
  {
    var t, rest := Trim(labels[0]), LabelOptions(labels[1..]);
    assert LabelOptions(labels) == if t != "" then [t] + rest else rest;
    if i > 0 {
      assert labels[1..][i - 1] == labels[i];
      LabelOptionKept(labels[1..], i - 1);
    }
  }

  /** Each dropdown option is the stripped text of some `<option>`. */
  lemma {:induction false} DropdownOptionSource(texts: seq<string>, x: string) returns (i: nat)
    requires x in DropdownOptions(texts)
    ensures i < |texts| && Trim(texts[i]) == x && Trim(x) == x
  {
    var t := Trim(texts[0]);
    if t != "" && t != Placeholder && x == t {
      i := 0;
      TrimIdempotent(texts[0]);
    } else {
      var j := DropdownOptionSource(texts[1..], x);
      i := j + 1;
    }
  }

  /** No `<option>` whose stripped text is neither empty nor the placeholder
      is lost. */
  lemma {:induction false} DropdownOptionKept(texts: seq<string>, i: nat)
    requires i < |texts| && Trim(texts[i]) != "" && Trim(texts[i]) != Placeholder
    ensures Trim(texts[i]) in DropdownOptions(texts)
  {
    if i > 0 {
      DropdownOptionKept(texts[1..], i - 1);
    }
  }

  /** The option one group label contributes: its stripped text, unless
      that is blank. */
  function NonBlank(labelText: string): Option<string> {
    var t := Trim(labelText);
    if t != "" then Some(t) else None
  }

  /** The option one `<option>` contributes: its stripped text, unless that
      is blank or the placeholder. */
  function Listed(text: string): Option<string> {
    var t := Trim(text);
    if t != "" && t != Placeholder then Some(t) else None
  }

  /** Group options keep the order and the repetitions of the labels: they
      are what each label contributes, label after label. */
  lemma {:induction false} LabelOptionsInOrder(labels: seq<string>)
    ensures LabelOptions(labels) == Kept(NonBlank, labels)
  {
    if labels != [] {
      var head, tail := labels[0], labels[1..];
      var first := match NonBlank(head) case Some(t) => [t] case None => [];
      assert LabelOptions(labels) == first + LabelOptions(tail);
      LabelOptionsInOrder(tail);
      assert labels == [head] + tail;
      KeptCons(NonBlank, head, tail);
    }
  }

  /** Dropdown options keep the order and the repetitions of the
      `<option>` elements: they are what each contributes, in order. */
  lemma {:induction false} DropdownOptionsInOrder(texts: seq<string>)
    ensures DropdownOptions(texts) == Kept(Listed, texts)
  {
    if texts != [] {
      var head, tail := texts[0], texts[1..];
      var first := match Listed(head) case Some(t) => [t] case None => [];
      assert DropdownOptions(texts) == first + DropdownOptions(tail);
      DropdownOptionsInOrder(tail);
      assert texts == [head] + tail;
      KeptCons(Listed, head, tail);
    }
  }

  /** The i-th group option is the stripped text of a label j, and the
      labels before j give exactly the i options before it. */
  lemma LabelOptionOrder(labels: seq<string>, i: nat) returns (j: nat)
    requires i < |LabelOptions(labels)|
    ensures j < |labels| && Trim(labels[j]) == LabelOptions(labels)[i]
    ensures |LabelOptions(labels[..j])| == i
  {
    LabelOptionsInOrder(labels);
    j := KeptSource(NonBlank, labels, i);
    LabelOptionsInOrder(labels[..j]);
  }

  /** The i-th dropdown option is the stripped text of an `<option>` j, and
      the options before j give exactly the i options before it. */
  lemma DropdownOptionOrder(texts: seq<string>, i: nat) returns (j: nat)
    requires i < |DropdownOptions(texts)|
    ensures j < |texts| && Trim(texts[j]) == DropdownOptions(texts)[i]
    ensures |DropdownOptions(texts[..j])| == i
  {
    DropdownOptionsInOrder(texts);
    j := KeptSource(Listed, texts, i);
    DropdownOptionsInOrder(texts[..j]);
  }

  /** The options collected for a container of the given kind. */
  function CollectedOptions(c: Container, kind: InputKind): seq<string> {
    if kind == Checkbox || kind == Radio then LabelOptions(c.optionLabels)
    else if kind == Dropdown then DropdownOptions(c.optionTexts)
    else []
  }

  /** The current answer read from a container of the given kind: a list
      for a checkbox group only, never the placeholder for a dropdown, never
      blank for a typed input, and none for an unknown kind. */
  function AnswerOf(c: Container, kind: InputKind): (r: Option<Answer>)
    ensures r.Some? ==> (r.value.Many? <==> kind == Checkbox)
    ensures kind == Dropdown && r.Some? ==> r.value.text != Placeholder
    ensures IsTextLike(kind) && r.Some? ==> r.value.text != ""
    ensures kind == Unknown ==> r.None?
  {
    if kind == Checkbox then
      if c.checkedValues == [] then None else Some(Many(c.checkedValues))
    else if kind == Radio then
      if c.checkedValues == [] || c.checkedValues[0].None? then None
      else Some(Single(c.checkedValues[0].value))
    else if kind == Dropdown then
      if c.selectedOption.None? || Trim(c.selectedOption.value) == Placeholder then None
      else Some(Single(Trim(c.selectedOption.value)))
    else if kind == TextInput || kind == EmailInput || kind == PhoneInput then
      if c.firstInputValue.None? || c.firstInputValue.value == "" then None
      else Some(Single(c.firstInputValue.value))
    else None
  }

  predicate IsTextLike(k: InputKind) {
    k == TextInput || k == EmailInput || k == PhoneInput
  }

  /** The record a container yields, if any: a container without question
      text is dropped. */
  function FieldOf(c: Container): (r: Option<Field>)
    ensures r.Some? <==> QuestionText(c) != ""
    ensures r.Some? ==> r.value.question == QuestionText(c) && r.value.kind == KindOf(c)
  {
    var text := QuestionText(c);
    if text == "" then None
    else
      var kind := KindOf(c);
      var options := CollectedOptions(c, kind);
      Some(Field(text, kind, RequiredMarker(c.markup), if options == [] then None else Some(options), AnswerOf(c, kind)))
  }

  /** A checkbox group whose legend gives a question decides the record:
      the radio, select, typed-input, label and legend checks are never
      consulted, so changing what they would find changes nothing. */
  lemma CheckboxLegendDecides(c: Container, radio: Probe, select: Probe, text: bool, email: bool, tel: bool,
                              firstLabel: Option<string>, firstLegend: Option<Legend>)
    requires SpanText(c.checkboxGroup) != ""
    ensures FieldOf(c).Some? && FieldOf(c).value.kind == Checkbox
    ensures FieldOf(c).value.question == SpanText(c.checkboxGroup)
    ensures FieldOf(c.(radioGroup := radio, select := select, hasTextInput := text, hasEmailInput := email,
                       hasTelInput := tel, firstLabel := firstLabel, firstLegend := firstLegend)) == FieldOf(c)
  {
  }

  /** Failing that, a radio group whose legend gives a question decides the
      record, whatever the select, typed-input, label and legend checks
      would find. */
  lemma RadioLegendDecides(c: Container, select: Probe, text: bool, email: bool, tel: bool,
                           firstLabel: Option<string>, firstLegend: Option<Legend>)
    requires SpanText(c.checkboxGroup) == "" && SpanText(c.radioGroup) != ""
    ensures FieldOf(c).Some? && FieldOf(c).value.kind == Radio
    ensures FieldOf(c).value.question == SpanText(c.radioGroup)
    ensures FieldOf(c.(select := select, hasTextInput := text, hasEmailInput := email,
                       hasTelInput := tel, firstLabel := firstLabel, firstLegend := firstLegend)) == FieldOf(c)
  {
  }

  /** A group whose legend gives no question does not stop the later
      checks. Its text then comes from the select's label or else from the
      first label or legend, whatever the group probes hold. A select, or
      failing that a typed input, overrides the group's kind. Only when
      neither is present does a group fix the kind, the radio group first. */
  lemma GroupFallsThrough(c: Container, checkbox: Probe, radio: Probe)
    requires SpanText(c.checkboxGroup) == "" && SpanText(c.radioGroup) == ""
    requires SpanText(checkbox) == "" && SpanText(radio) == ""
    ensures QuestionText(c) == if SpanText(c.select) != "" then SpanText(c.select) else FallbackText(c)
    ensures QuestionText(c.(checkboxGroup := checkbox, radioGroup := radio)) == QuestionText(c)
    ensures c.select.Present? ==> KindOf(c) == Dropdown
    ensures c.select.Present? || c.hasTextInput || c.hasEmailInput || c.hasTelInput ==>
              && KindOf(c.(checkboxGroup := checkbox, radioGroup := radio)) == KindOf(c)
              && KindOf(c) != Checkbox && KindOf(c) != Radio
    ensures c.select.Absent? && !c.hasTextInput && !c.hasEmailInput && !c.hasTelInput ==>
              && (KindOf(c) == Radio <==> c.radioGroup.Present?)
              && (KindOf(c) == Checkbox <==> c.radioGroup.Absent? && c.checkboxGroup.Present?)
  {
  }

  /** `required` is the case-insensitive marker test, and options are
      absent rather than empty and belong to the choice kinds only. */
  lemma FieldRequiredAndOptions(c: Container)
    requires FieldOf(c).Some?
    ensures var f := FieldOf(c).value;
      && (f.required <==> Contains(Lower(c.markup), "required"))
      && (f.options.Some? ==> f.options.value != [] && f.kind in {Checkbox, Radio, Dropdown})
      && (f.kind in {Checkbox, Radio} ==>
            f.options == if LabelOptions(c.optionLabels) == [] then None else Some(LabelOptions(c.optionLabels)))
      && (f.kind == Dropdown ==>
            f.options == if DropdownOptions(c.optionTexts) == [] then None else Some(DropdownOptions(c.optionTexts)))
      && (f.options.Some? && f.kind == Dropdown ==> Placeholder !in f.options.value && "" !in f.options.value)
  {
  }

  /** The current answer, per kind: all checked values for a checkbox
      group, the first checked value for a radio group, the selected option
      unless it is the placeholder for a dropdown, the non-empty value of
      the first input for the typed inputs, and none otherwise. */
  lemma FieldAnswer(c: Container)
    requires FieldOf(c).Some?
    ensures var f := FieldOf(c).value;
      && (f.kind == Checkbox ==>
            f.currentAnswer == if c.checkedValues == [] then None else Some(Many(c.checkedValues)))
      && (f.kind == Radio ==>
            && (f.currentAnswer.Some? <==> c.checkedValues != [] && c.checkedValues[0].Some?)
            && (f.currentAnswer.Some? ==> f.currentAnswer.value == Single(c.checkedValues[0].value)))
      && (f.kind == Dropdown ==>
            && (f.currentAnswer.Some? <==> c.selectedOption.Some? && Trim(c.selectedOption.value) != Placeholder)
            && (f.currentAnswer.Some? ==> f.currentAnswer.value == Single(Trim(c.selectedOption.value))))
      && (IsTextLike(f.kind) ==>
            && f.options.None?
            && (f.currentAnswer.Some? <==> c.firstInputValue.Some? && c.firstInputValue.value != "")
            && (f.currentAnswer.Some? ==> f.currentAnswer.value == Single(c.firstInputValue.value)))
      && (f.kind == Unknown ==> f.options.None? && f.currentAnswer.None?)
  {
  }

  /** The records of a page, in document order, before numbering. */
  function Fields(form: seq<Container>): seq<Field> {
    Kept(FieldOf, form)
  }

  /** Each record comes from a container that has question text, and the
      containers before it produced exactly the records before it. */
  lemma RecordSource(form: seq<Container>, i: nat) returns (j: nat)
    requires i < |Fields(form)|
    ensures j < |form| && FieldOf(form[j]) == Some(Fields(form)[i])
    ensures Fields(form)[i].question == QuestionText(form[j]) != ""
    ensures |Fields(form[..j])| == i
  {
    j := KeptSource(FieldOf, form, i);
  }

  /** A page yields no record exactly when none of its containers has
      question text; in particular a page without containers yields none. */
  lemma NoRecordsWithoutQuestions(form: seq<Container>)
    ensures Fields(form) == [] <==> forall j :: 0 <= j < |form| ==> QuestionText(form[j]) == ""
  {
    KeptEmpty(FieldOf, form);
  }

  /** The first marker is already in lower case. */
  lemma RequiredIsLowercase()
    ensures Lower("required") == "required"
  {
    LowerOfLowercase("required");
  }

  /** The second marker is the first one between `aria-` and `="true"`. */
  lemma AriaMarkerSplits()
    ensures AriaRequiredTrue == "aria-" + "required" + "=\"true\""
  {
  }

  /** The `required` test of `readTheInputsFrom` and the marker test agree: any markup
      containing `aria-required="true"` also contains "required" once
      lowered, so the second disjunct never changes the outcome. */
  lemma AriaRequiredSubsumed(markup: string)
    ensures (Contains(Lower(markup), "required") || Contains(markup, AriaRequiredTrue))
            == RequiredMarker(markup)
  {
    if Contains(markup, AriaRequiredTrue) {
      AriaMarkerSplits();
      ContainsPiece(markup, "aria-", "required", "=\"true\"");
      LowerContains(markup, "required");
      RequiredIsLowercase();
    }
  }

  // ---------------------------------------------------------------------
  // The extraction loop, as the source runs it

  /** The classification part of the loop body (the checks on the
      checkbox and radio fieldsets, the select, the typed inputs and the
      label/legend fallback): determines the input type and the
      question text step by step. */
  method Classify(element: Container) returns (inputType: InputKind, questionText: string)
    ensures inputType == KindOf(element) && questionText == QuestionText(element)
  {
    inputType := Unknown;
    questionText := "";

    if element.checkboxGroup.Present? {
      inputType := Checkbox;
      if element.checkboxGroup.innerSpan.Some? {
        questionText := Trim(element.checkboxGroup.innerSpan.value);
      }
    }

    if questionText == "" && element.radioGroup.Present? {
      inputType := Radio;
      if element.radioGroup.innerSpan.Some? {
        questionText := Trim(element.radioGroup.innerSpan.value);
      }
    }

    if questionText == "" {
      if element.select.Present? {
        inputType := Dropdown;
        if element.select.innerSpan.Some? {
          questionText := Trim(element.select.innerSpan.value);
        }
      } else if element.hasTextInput {
        inputType := TextInput;
      } else if element.hasEmailInput {
        inputType := EmailInput;
      } else if element.hasTelInput {
        inputType := PhoneInput;
      }

      if questionText == "" {
        var labelText := element.firstLabel;
        if labelText.None? && element.firstLegend.Some? {
          var legend := element.firstLegend.value;
          labelText := Some(if legend.labelSpan.Some? then legend.labelSpan.value else legend.text);
        }
        if labelText.Some? {
          questionText := Trim(labelText.value);
        }
      }
    }
  }

  /** The part of the loop body after the `required` test (the branches on
      the input type): collects the options and the current
      answer of a container of the given type. */
  method ReadChoices(element: Container, inputType: InputKind) returns (options: seq<string>, currentAnswer: Option<Answer>)
    ensures options == CollectedOptions(element, inputType)
    ensures currentAnswer == AnswerOf(element, inputType)
  {
    options := [];
    currentAnswer := None;
    if inputType == Checkbox || inputType == Radio {
      options := LabelOptions(element.optionLabels);
      var selected := element.checkedValues;
      if selected != [] {
        currentAnswer := Some(Many(selected));
        if inputType == Radio {
          currentAnswer := if selected[0].Some? then Some(Single(selected[0].value)) else None;
        }
      }
    } else if inputType == Dropdown {
      options := DropdownOptions(element.optionTexts);
      var chosen := element.selectedOption;
      if chosen.Some? && Trim(chosen.value) != Placeholder {
        currentAnswer := Some(Single(Trim(chosen.value)));
      }
    } else if inputType == TextInput || inputType == EmailInput || inputType == PhoneInput {
      var value := element.firstInputValue;
      if value.Some? && value.value != "" {
        currentAnswer := Some(Single(value.value));
      }
    }
  }

  /** The body of the per-container loop: the record the container yields,
      or none when no question text was found. */
  method Analyze(element: Container) returns (field: Option<Field>)
    ensures field == FieldOf(element)
  {
    var inputType, questionText := Classify(element);
    if questionText == "" {
      return None;
    }
    var required := Contains(Lower(element.markup), "required") || Contains(element.markup, AriaRequiredTrue);
    AriaRequiredSubsumed(element.markup);
    var options, currentAnswer := ReadChoices(element, inputType);
    field := Some(Field(questionText, inputType, required, if options == [] then None else Some(options), currentAnswer));
  }

  /** The records numbered 1, 2, ... in order. */
  function Numbered(fields: seq<Field>): (r: seq<Question>)
    ensures |r| == |fields|
    ensures forall i :: 0 <= i < |r| ==> r[i] == Question(i + 1, fields[i])
  {
    if fields == [] then [] else Numbered(fields[..|fields| - 1]) + [Question(|fields|, fields[|fields| - 1])]
  }

  lemma NumberedSnoc(fields: seq<Field>, f: Field)
    ensures Numbered(fields + [f]) == Numbered(fields) + [Question(|fields| + 1, f)]
  {
    assert (fields + [f])[..|fields|] == fields;
  }

  /** One turn of the loop: the next element adds its record, numbered one
      past the records so far, or nothing. */
  lemma NumberedStep<A>(f: A -> Option<Field>, s: seq<A>, k: nat)
    requires k < |s|
    ensures Numbered(Kept(f, s[..k + 1])) ==
      match f(s[k]) case Some(x) => Numbered(Kept(f, s[..k])) + [Question(|Kept(f, s[..k])| + 1, x)] case None => Numbered(Kept(f, s[..k]))
  {
    assert s[..k + 1] == s[..k] + [s[k]];
    KeptSnoc(f, s[..k], s[k]);
    if f(s[k]).Some? {
      NumberedSnoc(Kept(f, s[..k]), f(s[k]).value);
    }
  }

  /** `readTheInputsFrom`: analyses every container in document order and
      numbers the records it produces 1, 2, ... consecutively, ending with
      `questionCount` equal to the number of records. */
  method ReadTheInputsFrom(form: seq<Container>) returns (questions: seq<Question>, questionCount: nat)
    ensures questions == Numbered(Fields(form))
    ensures questionCount == |questions| == |Fields(form)|
    ensures forall i :: 0 <= i < |questions| ==> questions[i].number == i + 1
  {
    questionCount := 0;
    questions := [];
    for k := 0 to |form|
      invariant questions == Numbered(Kept(FieldOf, form[..k]))
      invariant questionCount == |questions|
    {
      var field := Analyze(form[k]);
      NumberedStep(FieldOf, form, k);
      if field.Some? {
        questionCount := questionCount + 1;
        questions := questions + [Question(questionCount, field.value)];
      }
    }
    assert form[..|form|] == form;
  }
}
