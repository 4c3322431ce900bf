/** The question catalog of `saveQuestionsToJson`: a dictionary from the
    key `question + "_" + type` to an entry holding the latest known
    options and answer, a human-set `verified` flag, and the times the
    question was first and last seen. A batch of records is merged into it
    one record at a time.

    The catalog file is not modelled as bytes: loading yields either the
    stored dictionary or nothing (a missing file, or valid UTF-8 text that
    is not valid JSON), and saving writes the dictionary back. The clock is a parameter. */
module Catalog {
  import opened Seqs
  import opened Questions

  /** An ISO-8601 time stamp, as `datetime.now().isoformat()` gives it. */
  type Timestamp = string

  /** One catalog entry. */
  datatype Entry = Entry(
    question: string,
    kind: InputKind,
    required: bool,
    options: Option<seq<string>>,
    currentAnswer: Option<Answer>,
    verified: bool,
    firstSeen: Timestamp,
    lastSeen: Timestamp)

  /** The key a record is filed under. */
  function KeyOf(q: Question): string {
    Key(q.field.question, q.field.kind)
  }

  /** Two records share a catalog entry exactly when they have the same
      question text and type; options, answers, `required` and numbering
      play no part. */
  lemma SameEntryIffSameQuestion(q1: Question, q2: Question)
    ensures KeyOf(q1) == KeyOf(q2) <==> q1.field.question == q2.field.question && q1.field.kind == q2.field.kind
  {
    if KeyOf(q1) == KeyOf(q2) {
      KeyInjective(q1.field.question, q1.field.kind, q2.field.question, q2.field.kind);
    }
  }

  // ---------------------------------------------------------------------
  // Merging one record

  /** The entry created for a question seen for the first time. */
  function NewEntry(f: Field, now: Timestamp): (e: Entry)
    ensures !e.verified && e.firstSeen == now && e.lastSeen == now
    ensures Key(e.question, e.kind) == Key(f.question, f.kind) && e.required == f.required
    ensures e.options == f.options && e.currentAnswer == f.currentAnswer
  {
    Entry(f.question, f.kind, f.required, f.options, f.currentAnswer, false, now, now)
  }

  /** An existing entry after one more observation: seen now, with the
      record's options, and with the record's answer if it has one. */
  function Refreshed(e: Entry, f: Field, now: Timestamp): (r: Entry)
    ensures r.lastSeen == now && r.options == f.options
    ensures f.currentAnswer.Some? ==> r.currentAnswer == f.currentAnswer
    ensures f.currentAnswer.None? ==> r.currentAnswer == e.currentAnswer
    ensures r.verified == e.verified && r.firstSeen == e.firstSeen
    ensures r.question == e.question && r.kind == e.kind && r.required == e.required
  {
    e.(lastSeen := now, options := f.options,
       currentAnswer := if f.currentAnswer.Some? then f.currentAnswer else e.currentAnswer)
  }

  /** The entry after observing `f`, given what was stored under its key. */
  function Observe(prior: Option<Entry>, f: Field, now: Timestamp): Entry {
    match prior
    case None => NewEntry(f, now)
    case Some(e) => Refreshed(e, f, now)
  }

  function Lookup(m: map<string, Entry>, k: string): Option<Entry> {
    if k in m then Some(m[k]) else None
  }

  /** One turn of the merge loop. An unseen key gets a new unverified entry
      first and last seen now; a known key is seen now, takes the record's
      options, and takes its answer unless that is absent, while its
      question, type, `required`, `verified` and `first_seen` stay. No other
      key is touched and none is removed. */
  function MergeOne(m: map<string, Entry>, q: Question, now: Timestamp): (r: map<string, Entry>)
    ensures r.Keys == m.Keys + {KeyOf(q)}
    ensures forall k :: k in m && k != KeyOf(q) ==> r[k] == m[k]
    ensures KeyOf(q) !in m ==>
      var e := r[KeyOf(q)];
      && !e.verified && e.firstSeen == now && e.lastSeen == now
      && e.question == q.field.question && e.kind == q.field.kind && e.required == q.field.required
      && e.options == q.field.options && e.currentAnswer == q.field.currentAnswer
    ensures KeyOf(q) in m ==>
      var e, old_e := r[KeyOf(q)], m[KeyOf(q)];
      && e.lastSeen == now
      && e.options == q.field.options
      && e.currentAnswer == (if q.field.currentAnswer.Some? then q.field.currentAnswer else old_e.currentAnswer)
      && e.verified == old_e.verified && e.firstSeen == old_e.firstSeen
      && e.question == old_e.question && e.kind == old_e.kind && e.required == old_e.required
  {
    var k := KeyOf(q);
    m[k := Observe(Lookup(m, k), q.field, now)]
  }

  /** The catalog after merging a whole batch, record by record. */
  function MergeAll(m: map<string, Entry>, batch: seq<Question>, now: Timestamp): (r: map<string, Entry>)
    ensures m.Keys <= r.Keys
    ensures batch != [] ==> KeyOf(batch[|batch| - 1]) in r
  {
    if batch == [] then m
    else MergeOne(MergeAll(m, batch[..|batch| - 1], now), batch[|batch| - 1], now)
  }

  // ---------------------------------------------------------------------
  // The batch merge, key by key

  /** The keys of a batch. */
  function BatchKeys(batch: seq<Question>): set<string> {
    set q | q in batch :: KeyOf(q)
  }

  /** The records of a batch filed under key `k`, in order. */
  function WithKey(batch: seq<Question>, k: string): (r: seq<Field>)
    ensures forall i :: 0 <= i < |r| ==> Key(r[i].question, r[i].kind) == k
  {
    if batch == [] then []
    else
      var last := batch[|batch| - 1];
      WithKey(batch[..|batch| - 1], k) + (if KeyOf(last) == k then [last.field] else [])
  }

  /** Successive observations of one key, starting from what was stored. */
  function ObserveAll(prior: Option<Entry>, fs: seq<Field>, now: Timestamp): Option<Entry> {
    if fs == [] then prior
    else Some(Observe(ObserveAll(prior, fs[..|fs| - 1], now), fs[|fs| - 1], now))
  }

  /** The last answer among some observations, if any has one. */
  function LastAnswer(fs: seq<Field>): Option<Answer> {
    if fs == [] then None
    else if fs[|fs| - 1].currentAnswer.Some? then fs[|fs| - 1].currentAnswer
    else LastAnswer(fs[..|fs| - 1])
  }

  /** The keys of a batch are those of all but its last record, and the
      last record's key. */
  lemma BatchKeysSnoc(batch: seq<Question>)
    requires batch != []
    ensures BatchKeys(batch) == BatchKeys(batch[..|batch| - 1]) + {KeyOf(batch[|batch| - 1])}
  {
    var init, last := batch[..|batch| - 1], batch[|batch| - 1];
    assert batch == init + [last];
    forall q | q in batch
      ensures q in init || q == last
    {
    }
  }

  /** A key has records in a batch exactly when it is among the batch's
      keys. */
  lemma {:induction false} WithKeyEmpty(batch: seq<Question>, k: string)
    ensures WithKey(batch, k) == [] <==> k !in BatchKeys(batch)
  {
    if batch != [] {
      var init := batch[..|batch| - 1];
      WithKeyEmpty(init, k);
      BatchKeysSnoc(batch);
      assert WithKey(batch, k) == WithKey(init, k) + (if KeyOf(batch[|batch| - 1]) == k then [batch[|batch| - 1].field] else []);
    }
  }

  /** The merge treats keys independently: what the catalog holds under `k`
      afterwards depends only on what it held under `k` before and on the
      records of the batch filed under `k`, in order. */
  lemma {:induction false} MergePerKey(m: map<string, Entry>, batch: seq<Question>, now: Timestamp, k: string)
    ensures Lookup(MergeAll(m, batch, now), k) == ObserveAll(Lookup(m, k), WithKey(batch, k), now)
  {
    if batch != [] {
      var init, last := batch[..|batch| - 1], batch[|batch| - 1];
      MergePerKey(m, init, now, k);
      var before := MergeAll(m, init, now);
      assert MergeAll(m, batch, now) == MergeOne(before, last, now);
      if KeyOf(last) == k {
        var fs := WithKey(batch, k);
        assert fs == WithKey(init, k) + [last.field];
        assert fs[..|fs| - 1] == WithKey(init, k);
        assert Lookup(MergeOne(before, last, now), k) == Some(Observe(Lookup(before, k), last.field, now));
      } else {
        assert WithKey(batch, k) == WithKey(init, k);
        assert Lookup(MergeOne(before, last, now), k) == Lookup(before, k);
      }
    }
  }

  /** An entry that existed, after observations: seen now, with the last
      record's options, and with the last answer given if any. */
  lemma {:induction false} ObserveExisting(e: Entry, fs: seq<Field>, now: Timestamp)
    requires fs != []
    ensures ObserveAll(Some(e), fs, now) == Some(e.(
      lastSeen := now,
      options := fs[|fs| - 1].options,
      currentAnswer := if LastAnswer(fs).Some? then LastAnswer(fs) else e.currentAnswer))
  {
    var init := fs[..|fs| - 1];
    if init != [] {
      ObserveExisting(e, init, now);
    }
  }

  /** A key first seen in a batch: created from its first record, then
      carrying the last record's options and the last answer given. */
  lemma {:induction false} ObserveFresh(fs: seq<Field>, now: Timestamp)
    requires fs != []
    ensures ObserveAll(None, fs, now) == Some(NewEntry(fs[0], now).(
      options := fs[|fs| - 1].options,
      currentAnswer := LastAnswer(fs)))
  {
    var init := fs[..|fs| - 1];
    if init != [] {
      ObserveFresh(init, now);
      assert init[0] == fs[0];
    }
  }

  /** No key is ever removed, and the keys added are those of the batch. */
  lemma MergeKeys(m: map<string, Entry>, batch: seq<Question>, now: Timestamp)
    ensures MergeAll(m, batch, now).Keys == m.Keys + BatchKeys(batch)
  {
    var r := MergeAll(m, batch, now);
    forall k
      ensures k in r <==> k in m || k in BatchKeys(batch)
    {
      MergePerKey(m, batch, now, k);
      WithKeyEmpty(batch, k);
    }
  }

  /** Entries whose key is not in the batch are unchanged. */
  lemma MergeLeavesOthers(m: map<string, Entry>, batch: seq<Question>, now: Timestamp, k: string)
    requires k in m && k !in BatchKeys(batch)
    ensures k in MergeAll(m, batch, now) && MergeAll(m, batch, now)[k] == m[k]
  {
    MergePerKey(m, batch, now, k);
    WithKeyEmpty(batch, k);
  }

  /** A stored entry keeps its `verified` flag, its `first_seen`, its
      question, its type and its `required` flag, whatever is merged. */
  lemma MergeKeepsVerified(m: map<string, Entry>, batch: seq<Question>, now: Timestamp, k: string)
    requires k in m
    ensures k in MergeAll(m, batch, now)
    ensures var e, old_e := MergeAll(m, batch, now)[k], m[k];
      && e.verified == old_e.verified && e.firstSeen == old_e.firstSeen
      && e.question == old_e.question && e.kind == old_e.kind && e.required == old_e.required
  {
    MergePerKey(m, batch, now, k);
    var fs := WithKey(batch, k);
    if fs != [] {
      ObserveExisting(m[k], fs, now);
    }
  }

  /** A stored entry whose key is in the batch is seen now, takes the
      options of the last such record, and takes the last answer given if
      any record gave one. */
  lemma MergeRefreshes(m: map<string, Entry>, batch: seq<Question>, now: Timestamp, k: string)
    requires k in m && k in BatchKeys(batch)
    ensures k in MergeAll(m, batch, now)
    ensures var e, fs := MergeAll(m, batch, now)[k], WithKey(batch, k);
      && fs != []
      && e.lastSeen == now
      && e.options == fs[|fs| - 1].options
      && e.currentAnswer == if LastAnswer(fs).Some? then LastAnswer(fs) else m[k].currentAnswer
  {
    MergePerKey(m, batch, now, k);
    WithKeyEmpty(batch, k);
    ObserveExisting(m[k], WithKey(batch, k), now);
  }

  /** A key new to the catalog gets an unverified entry first and last seen
      now, with the question, type and `required` of its first record. */
  lemma MergeInserts(m: map<string, Entry>, batch: seq<Question>, now: Timestamp, k: string)
    requires k !in m && k in BatchKeys(batch)
    ensures k in MergeAll(m, batch, now)
    ensures var e, fs := MergeAll(m, batch, now)[k], WithKey(batch, k);
      && fs != []
      && !e.verified && e.firstSeen == now && e.lastSeen == now
      && e.question == fs[0].question && e.kind == fs[0].kind && e.required == fs[0].required
      && Key(e.question, e.kind) == k
      && e.options == fs[|fs| - 1].options && e.currentAnswer == LastAnswer(fs)
  {
    MergePerKey(m, batch, now, k);
    WithKeyEmpty(batch, k);
    ObserveFresh(WithKey(batch, k), now);
  }

  /** The catalog with the entries under `keys` marked as seen at `now`. */
  function Touched(m: map<string, Entry>, keys: set<string>, now: Timestamp): map<string, Entry> {
    map k | k in m :: if k in keys then m[k].(lastSeen := now) else m[k]
  }

  /** Merging the same batch again, key by key. */
  lemma ReMergeAtKey(m: map<string, Entry>, batch: seq<Question>, t1: Timestamp, t2: Timestamp, k: string)
    ensures var once := MergeAll(m, batch, t1);
      Lookup(MergeAll(once, batch, t2), k) == Lookup(Touched(once, BatchKeys(batch), t2), k)
  {
    var once := MergeAll(m, batch, t1);
    MergePerKey(m, batch, t1, k);
    MergePerKey(once, batch, t2, k);
    WithKeyEmpty(batch, k);
    var fs := WithKey(batch, k);
    if fs != [] {
      if k in m {
        ObserveExisting(m[k], fs, t1);
      } else {
        ObserveFresh(fs, t1);
      }
      ObserveExisting(once[k], fs, t2);
    }
  }

  /** Merging the same batch again changes nothing but `last_seen`. */
  lemma ReMergeOnlyRefreshes(m: map<string, Entry>, batch: seq<Question>, t1: Timestamp, t2: Timestamp)
    ensures var once := MergeAll(m, batch, t1);
      MergeAll(once, batch, t2) == Touched(once, BatchKeys(batch), t2)
  {
    var once := MergeAll(m, batch, t1);
    var twice := MergeAll(once, batch, t2);
    var expected := Touched(once, BatchKeys(batch), t2);
    forall k
      ensures k in twice <==> k in expected
      ensures k in twice ==> twice[k] == expected[k]
    {
      ReMergeAtKey(m, batch, t1, t2, k);
    }
  }

  // ---------------------------------------------------------------------
  // The catalog file and the in-place merge

  /** What reading the catalog file yields: no file, a file of valid UTF-8
      text that is not valid JSON (the decode error the loader catches), or
      a JSON object of entries. */
  datatype StoredCatalog = Missing | Unparsable | Stored(entries: map<string, Entry>)

  /** The catalog a read yields: the stored dictionary, or an empty one
      when the file is missing or its text is not valid JSON. */
  function Loaded(file: StoredCatalog): (r: map<string, Entry>)
    ensures file.Stored? ==> r == file.entries
    ensures !file.Stored? ==> r == map[]
  {
    if file.Stored? then file.entries else map[]
  }

  /** Every record of a batch has an entry after the merge. */
  lemma MergeCoversBatch(m: map<string, Entry>, batch: seq<Question>, now: Timestamp, i: nat)
    requires i < |batch|
    ensures KeyOf(batch[i]) in MergeAll(m, batch, now)
  {
    MergeKeys(m, batch, now);
    assert KeyOf(batch[i]) in BatchKeys(batch);
  }

  class QuestionCatalog {
    var entries: map<string, Entry>

    /** The load guarded by the existence test and by the `try`/`except
        json.JSONDecodeError` around `json.load`: a missing file or a JSON
        syntax error gives an empty catalog. */
    constructor Load(file: StoredCatalog)
      ensures entries == Loaded(file)
    {
      if file.Stored? {
        entries := file.entries;
      } else {
        entries := map[];
      }
    }

    /** The loop over `new_questions`: merges the batch record by record,
        inserting new entries and updating existing ones in place. */
    method SaveQuestions(newQuestions: seq<Question>, now: Timestamp)
      modifies this
      ensures entries == MergeAll(old(entries), newQuestions, now)
      ensures entries.Keys == old(entries).Keys + BatchKeys(newQuestions)
      ensures forall k :: k in old(entries) ==>
        entries[k].verified == old(entries)[k].verified && entries[k].firstSeen == old(entries)[k].firstSeen
    {
      for i := 0 to |newQuestions|
        invariant entries == MergeAll(old(entries), newQuestions[..i], now)
      {
        assert newQuestions[..i + 1][..i] == newQuestions[..i];
        var question := newQuestions[i];
        var questionKey := question.field.question + "_" + KindName(question.field.kind);
        if questionKey !in entries {
          var f := question.field;
          entries := entries[questionKey := Entry(f.question, f.kind, f.required, f.options, f.currentAnswer, false, now, now)];
        } else {
          var existing := entries[questionKey];
          existing := existing.(lastSeen := now);
          if existing.options != question.field.options {
            existing := existing.(options := question.field.options);
          }
          if question.field.currentAnswer.Some? {
            existing := existing.(currentAnswer := question.field.currentAnswer);
          }
          entries := entries[questionKey := existing];
        }
      }
      assert newQuestions[..|newQuestions|] == newQuestions;
      MergeKeys(old(entries), newQuestions, now);
      forall k | k in old(entries)
        ensures entries[k].verified == old(entries)[k].verified && entries[k].firstSeen == old(entries)[k].firstSeen
      {
        MergeKeepsVerified(old(entries), newQuestions, now, k);
      }
    }
  }
}
