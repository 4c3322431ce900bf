/** The question records the form extractor produces and the catalog
    stores, and the catalog key built from a question's text and type. */
module Questions {
  import opened Seqs

  /** The seven values the extractor gives a record's `type`. */
  datatype InputKind =
    | Checkbox
    | Radio
    | Dropdown
    | TextInput
    | EmailInput
    | PhoneInput
    | Unknown

  /** The type name as it appears in a record and in the catalog file. */
  function KindName(k: InputKind): string {
    match k
    case Checkbox => "Multiple Select (Checkbox)"
    case Radio => "Radio Button"
    case Dropdown => "Dropdown"
    case TextInput => "Text Input"
    case EmailInput => "Email Input"
    case PhoneInput => "Phone Input"
    case Unknown => "Unknown"
  }

  /** A record's `currentAnswer` when present: one string (radio button,
      dropdown, text-like input) or the list of the `value` attributes of
      all checked boxes, a missing attribute being `None`. */
  datatype Answer = Single(text: string) | Many(values: seq<Option<string>>)

  /** One extracted form field: everything a record holds except its number. */
  datatype Field = Field(
    question: string,
    kind: InputKind,
    required: bool,
    options: Option<seq<string>>,
    currentAnswer: Option<Answer>)

  /** One record of the list `readTheInputsFrom` builds: `number` is its
      1-based position among the records produced for the page. */
  datatype Question = Question(number: nat, field: Field)

  /** No type name contains the separator `_`. */
  lemma KindNameHasNoSeparator(k: InputKind)
    ensures forall i :: 0 <= i < |KindName(k)| ==> KindName(k)[i] != '_'
  {
    match k
    case Checkbox =>
    case Radio =>
    case Dropdown =>
    case TextInput =>
    case EmailInput =>
    case PhoneInput =>
    case Unknown =>
  }

  /** The catalog key `f"{question}_{type}"`: it starts with the question
      text, and its last `_` is the one right after that text. */
  function Key(question: string, kind: InputKind): (r: string)
    ensures question < r && r[|question|] == '_'
    ensures forall i :: |question| < i < |r| ==> r[i] != '_'
  {
    KindNameHasNoSeparator(kind);
    var name := KindName(kind);
    var r := question + "_" + name;
    assert forall i :: |question| < i < |r| ==> r[i] == name[i - |question| - 1];
    r
  }

  /** Distinct (question, type) pairs get distinct keys: the last `_` of a
      key ends the question text, so the concatenated key cannot collide
      for these seven type names. */
  lemma KeyInjective(q1: string, k1: InputKind, q2: string, k2: InputKind)
    requires Key(q1, k1) == Key(q2, k2)
    ensures q1 == q2 && k1 == k2
  {
    var s := Key(q1, k1);
    // each question ends where the last separator of the shared key is
    assert s[|q1|] == '_' && s[|q2|] == '_';
    assert q1 == s[..|q1|] == q2;
    assert KindName(k1) == s[|q1| + 1..] == KindName(k2);
  }
}
