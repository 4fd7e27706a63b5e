/** The five-step question-pack wizard (app/pack/new/page.tsx): per-question
    configuration and its validity, the step gate, selecting questions and
    trades, filter chips, custom questions, and the pack that saving emits.
    The clock and the random id suffixes are parameters. */
module PackWizard {
  import opened Wrappers
  import opened Text
  import opened Seqs
  import opened JsNumber
  import opened Types
  import PacksStore

  /** The number of wizard steps: details, trades, questions, preferences, review. */
  const StepCount: nat := 5

  /** The configuration of one selected question. */
  datatype QuestionConfig = QuestionConfig(
    catalogItem: CatalogItem,
    qtype: QuestionType,
    threshold: Option<Num>,
    comparator: Option<Comparator>,
    expectedBoolean: Option<bool>,
    expectedEnum: Option<string>,
    enumValues: Option<seq<string>>,
    critical: bool,
    weight: int)

  /** A `Partial<QuestionConfig>`: `Some` for every key the update object has
      (a key set to `undefined` is `Some(None)`). */
  datatype ConfigUpdate = ConfigUpdate(
    qtype: Option<QuestionType>,
    threshold: Option<Option<Num>>,
    comparator: Option<Option<Comparator>>,
    expectedBoolean: Option<Option<bool>>,
    expectedEnum: Option<Option<string>>,
    enumValues: Option<Option<seq<string>>>,
    critical: Option<bool>,
    weight: Option<int>)

  const NoUpdate := ConfigUpdate(None, None, None, None, None, None, None, None)

  /** `{ ...existing, ...updates }`. */
  function MergeConfig(c: QuestionConfig, u: ConfigUpdate): (r: QuestionConfig)
    ensures r.catalogItem == c.catalogItem
    ensures u == NoUpdate ==> r == c
    ensures u.qtype.Some? ==> r.qtype == u.qtype.value
    ensures u.qtype.None? ==> r.qtype == c.qtype
    ensures u.threshold.Some? ==> r.threshold == u.threshold.value
    ensures u.threshold.None? ==> r.threshold == c.threshold
    ensures u.comparator.Some? ==> r.comparator == u.comparator.value
    ensures u.comparator.None? ==> r.comparator == c.comparator
    ensures u.expectedBoolean.Some? ==> r.expectedBoolean == u.expectedBoolean.value
    ensures u.expectedBoolean.None? ==> r.expectedBoolean == c.expectedBoolean
    ensures u.expectedEnum.Some? ==> r.expectedEnum == u.expectedEnum.value
    ensures u.expectedEnum.None? ==> r.expectedEnum == c.expectedEnum
    ensures u.enumValues.Some? ==> r.enumValues == u.enumValues.value
    ensures u.enumValues.None? ==> r.enumValues == c.enumValues
    ensures u.critical.Some? ==> r.critical == u.critical.value
    ensures u.critical.None? ==> r.critical == c.critical
    ensures u.weight.Some? ==> r.weight == u.weight.value
    ensures u.weight.None? ==> r.weight == c.weight
  {
    QuestionConfig(c.catalogItem, u.qtype.GetOr(c.qtype), u.threshold.GetOr(c.threshold),
      u.comparator.GetOr(c.comparator), u.expectedBoolean.GetOr(c.expectedBoolean),
      u.expectedEnum.GetOr(c.expectedEnum), u.enumValues.GetOr(c.enumValues),
      u.critical.GetOr(c.critical), u.weight.GetOr(c.weight))
  }

  /** `isQuestionValid`: what each type needs before the question can be used. */
  predicate IsQuestionValid(c: QuestionConfig) {
    match c.qtype
    case BooleanType => c.expectedBoolean.Some?
    case NumberType => c.threshold.Some? && c.comparator.Some?
    case EnumType => c.expectedEnum.Some? && c.enumValues.Some? && |c.enumValues.value| > 0
    case LookupType => true
    case OtherType(_) => false
  }

  /** What a selected question starts as: boolean, not critical, weight 5. */
  function DefaultConfig(item: CatalogItem): (c: QuestionConfig)
    ensures c.catalogItem == item && c.qtype == BooleanType && !c.critical && c.weight == 5
    ensures !IsQuestionValid(c)
  {
    QuestionConfig(item, BooleanType, None, None, None, None, None, false, 5)
  }

  /** The threshold input: `parseFloat(text) || undefined`, which drops NaN and 0. */
  function ThresholdInput(text: string): (r: Option<Num>)
    ensures r.Some? ==> !IsZero(r.value) && ParseFloat(text) == r
    ensures ParseFloat(text).Some? && !IsZero(ParseFloat(text).value) ==> r == ParseFloat(text)
  {
    match ParseFloat(text)
    case None => None
    case Some(n) => if IsZero(n) then None else Some(n)
  }

  /** Entering a zero threshold leaves the threshold unset. */
  lemma ZeroThresholdDropped()
    ensures ThresholdInput("0") == None
  {
    var zero := "0";
    assert AllDigits(zero) && zero[..0] == [];
    assert DigitsValue(zero) == 0;
    ParseFloatDigits(zero);
  }

  /** `text.split(',')`. */
  function SplitOnComma(text: string): (r: seq<string>)
    ensures |r| >= 1
    ensures forall k :: 0 <= k < |r| ==> ',' !in r[k]
  {
    if text == [] then [""]
    else
      var rest := SplitOnComma(text[1..]);
      if text[0] == ',' then [""] + rest
      else [[text[0]] + rest[0]] + rest[1..]
  }

  function TrimAll(parts: seq<string>): (r: seq<string>)
    ensures |r| == |parts|
    ensures forall k :: 0 <= k < |r| ==> r[k] == Trim(parts[k])
  {
    seq(|parts|, k requires 0 <= k < |parts| => Trim(parts[k]))
  }

  predicate NonEmpty(s: string) {
    s != []
  }

  /** The allowed-values input: split on commas, trimmed, blanks dropped. */
  function EnumValuesInput(text: string): (r: seq<string>)
    ensures forall k :: 0 <= k < |r| ==> r[k] != [] && IsTrimmed(r[k]) && ',' !in r[k]
  {
    var parts := SplitOnComma(text);
    TrimAllKeepsOut(parts, ',');
    Filter(TrimAll(parts), (v: string) => NonEmpty(v))
  }

  /** Trimming a part never brings in a character it did not have. */
  lemma TrimAllKeepsOut(parts: seq<string>, c: char)
    requires forall k :: 0 <= k < |parts| ==> c !in parts[k]
    ensures forall v :: v in TrimAll(parts) ==> c !in v
  {
    var r := TrimAll(parts);
    forall k | 0 <= k < |r|
      ensures c !in r[k]
    {
      TrimKeepsOut(parts[k], c);
    }
  }

  // ---------------------------------------------------------------------------
  // Saving

  /** The selected ids whose configuration exists and is valid, in selection order. */
  function ValidIds(selected: seq<string>, configs: map<string, QuestionConfig>): (r: seq<string>)
    ensures forall k :: 0 <= k < |r| ==> r[k] in configs && IsQuestionValid(configs[r[k]]) && r[k] in selected
    ensures forall k :: 0 <= k < |selected| && selected[k] in configs && IsQuestionValid(configs[selected[k]]) ==> selected[k] in r
  {
    Filter(selected, (id: string) => id in configs && IsQuestionValid(configs[id]))
  }

  /** The catalog key a saved question records: "custom" for custom questions. */
  function KeyFor(catalogId: string): (k: string)
    ensures StartsWith(catalogId, "custom-") ==> k == "custom"
    ensures !StartsWith(catalogId, "custom-") ==> k == catalogId
  {
    if StartsWith(catalogId, "custom-") then "custom" else catalogId
  }

  /** A pack question built from a configuration. */
  function ToQuestion(c: QuestionConfig, id: string): Question {
    Question(id, KeyFor(c.catalogItem.id), c.catalogItem.text, c.qtype, c.threshold, c.comparator,
      c.expectedBoolean, c.expectedEnum, c.critical, c.weight)
  }

  /** A question carries what its type needs to be judged. */
  predicate Complete(q: Question) {
    match q.qtype
    case BooleanType => q.expectedBoolean.Some?
    case NumberType => q.threshold.Some? && q.comparator.Some?
    case EnumType => q.expectedEnum.Some?
    case LookupType => true
    case OtherType(_) => false
  }

  /** The questions `savePack` emits for the ids `ids`; `newId(k)` is the
      generated id of the k-th. */
  function SavedQuestions(ids: seq<string>, configs: map<string, QuestionConfig>, newId: nat -> string): (r: seq<Question>)
    requires forall k :: 0 <= k < |ids| ==> ids[k] in configs
    ensures |r| == |ids|
    ensures forall k :: 0 <= k < |ids| ==> r[k] == ToQuestion(configs[ids[k]], newId(k))
  {
    seq(|ids|, k requires 0 <= k < |ids| => ToQuestion(configs[ids[k]], newId(k)))
  }

  /** Every saved question comes from a selected valid configuration, so it
      is complete, and its key and text come from the configuration's item. */
  lemma SavedQuestionsComplete(selected: seq<string>, configs: map<string, QuestionConfig>, newId: nat -> string)
    ensures var ids := ValidIds(selected, configs);
      var qs := SavedQuestions(ids, configs, newId);
      forall k :: 0 <= k < |qs| ==>
        && Complete(qs[k])
        && qs[k].key == KeyFor(configs[ids[k]].catalogItem.id)
        && qs[k].text == configs[ids[k]].catalogItem.text
        && qs[k].weight == configs[ids[k]].weight
  {
    var ids := ValidIds(selected, configs);
    var qs := SavedQuestions(ids, configs, newId);
    forall k | 0 <= k < |qs| ensures Complete(qs[k]) {
      assert IsQuestionValid(configs[ids[k]]);
    }
  }

  /** The selection lists each id once, and exactly the ids with a config. */
  predicate SelectionMatches(selected: seq<string>, configs: map<string, QuestionConfig>) {
    && NoDuplicates(selected)
    && (forall id :: id in selected ==> id in configs)
    && (forall id :: id in configs ==> id in selected)
  }

  /** `new Set(prev).add(id)` on a selection, with the config map set at
      `id`, keeps the two in step. */
  lemma AddOnceMatches(selected: seq<string>, configs: map<string, QuestionConfig>, id: string, config: QuestionConfig)
    requires SelectionMatches(selected, configs)
    ensures SelectionMatches(if id in selected then selected else selected + [id], configs[id := config])
  {
    if id !in selected {
      var s := selected + [id];
      forall i, j | 0 <= i < j < |s| ensures s[i] != s[j] {
        if j == |selected| {
          assert s[i] == selected[i];
        } else {
          assert s[i] == selected[i] && s[j] == selected[j];
        }
      }
    }
  }

  datatype FilterKind = States | Markets

  // ---------------------------------------------------------------------------
  // The wizard's state

  class PackWizard {
    var currentStep: nat
    var packName: string
    var selectedTrades: seq<string>
    var questionConfigs: map<string, QuestionConfig>
    var selectedQuestions: seq<string>
    var filters: PackFilters
    var customQuestion: Option<QuestionConfig>
    var showCustomDialog: bool

    /** The step is one of the five, the selection holds each id once, and a
        question is selected exactly when it has a configuration. */
    predicate Valid()
      reads this
    {
      && currentStep < StepCount
      && SelectionMatches(selectedQuestions, questionConfigs)
    }

    constructor()
      ensures Valid()
      ensures currentStep == 0 && packName == "" && selectedTrades == [] && selectedQuestions == []
      ensures questionConfigs == map[] && filters == PackFilters([], []) && customQuestion.None?
    {
      currentStep := 0;
      packName := "";
      selectedTrades := [];
      questionConfigs := map[];
      selectedQuestions := [];
      filters := PackFilters([], []);
      customQuestion := None;
      showCustomDialog := false;
    }

    /** `canProceedFromStep`. */
    predicate CanProceedFromStep(step: int)
      reads this
    {
      if step == 0 then Trim(packName) != []
      else if step == 1 then |selectedTrades| > 0
      else if step == 2 then |ValidIds(selectedQuestions, questionConfigs)| > 0
      else true
    }

    /** Step 2 can be left exactly when some selected question is configured validly. */
    lemma QuestionStepGate()
      requires Valid()
      ensures CanProceedFromStep(2) <==> exists id :: id in questionConfigs && IsQuestionValid(questionConfigs[id])
    {
      var ids := ValidIds(selectedQuestions, questionConfigs);
      if exists id :: id in questionConfigs && IsQuestionValid(questionConfigs[id]) {
        var id :| id in questionConfigs && IsQuestionValid(questionConfigs[id]);
        assert id in selectedQuestions;
        var k :| 0 <= k < |selectedQuestions| && selectedQuestions[k] == id;
        assert id in ids;
      }
      if |ids| > 0 {
        assert ids[0] in questionConfigs && IsQuestionValid(questionConfigs[ids[0]]);
      }
    }

    /** `nextStep`. */
    method NextStep()
      requires Valid()
      modifies this
      ensures Valid()
      ensures old(currentStep) < StepCount - 1 && old(CanProceedFromStep(currentStep)) ==> currentStep == old(currentStep) + 1
      ensures !(old(currentStep) < StepCount - 1 && old(CanProceedFromStep(currentStep))) ==> currentStep == old(currentStep)
      ensures packName == old(packName) && selectedTrades == old(selectedTrades) && filters == old(filters)
      ensures questionConfigs == old(questionConfigs) && selectedQuestions == old(selectedQuestions)
      ensures customQuestion == old(customQuestion) && showCustomDialog == old(showCustomDialog)
    {
      if currentStep < StepCount - 1 && CanProceedFromStep(currentStep) {
        currentStep := currentStep + 1;
      }
    }

    /** `prevStep`. */
    method PrevStep()
      requires Valid()
      modifies this
      ensures Valid()
      ensures currentStep == if old(currentStep) > 0 then old(currentStep) - 1 else 0
      ensures packName == old(packName) && selectedTrades == old(selectedTrades) && filters == old(filters)
      ensures questionConfigs == old(questionConfigs) && selectedQuestions == old(selectedQuestions)
      ensures customQuestion == old(customQuestion) && showCustomDialog == old(showCustomDialog)
    {
      if currentStep > 0 {
        currentStep := currentStep - 1;
      }
    }

    /** The trade tile's click: deselect every copy, or select at the end. */
    method ToggleTrade(trade: string)
      modifies this
      ensures trade in old(selectedTrades) ==> selectedTrades == Filter(old(selectedTrades), (t: string) => t != trade)
      ensures trade !in old(selectedTrades) ==> selectedTrades == old(selectedTrades) + [trade]
      ensures trade in selectedTrades <==> trade !in old(selectedTrades)
      ensures currentStep == old(currentStep) && packName == old(packName) && filters == old(filters)
      ensures questionConfigs == old(questionConfigs) && selectedQuestions == old(selectedQuestions)
      ensures customQuestion == old(customQuestion) && showCustomDialog == old(showCustomDialog)
    {
      if trade in selectedTrades {
        selectedTrades := Filter(selectedTrades, (t: string) => t != trade);
      } else {
        selectedTrades := selectedTrades + [trade];
      }
    }

    /** `updateQuestionConfig`: merges into an existing entry only. */
    method UpdateQuestionConfig(catalogItemId: string, updates: ConfigUpdate)
      requires Valid()
      modifies this
      ensures Valid()
      ensures catalogItemId in old(questionConfigs) ==>
        questionConfigs == old(questionConfigs)[catalogItemId := MergeConfig(old(questionConfigs)[catalogItemId], updates)]
      ensures catalogItemId !in old(questionConfigs) ==> questionConfigs == old(questionConfigs)
      ensures currentStep == old(currentStep) && packName == old(packName) && filters == old(filters)
      ensures selectedTrades == old(selectedTrades) && selectedQuestions == old(selectedQuestions)
      ensures customQuestion == old(customQuestion) && showCustomDialog == old(showCustomDialog)
    {
      if catalogItemId in questionConfigs {
        questionConfigs := questionConfigs[catalogItemId := MergeConfig(questionConfigs[catalogItemId], updates)];
      }
    }

    /** `toggleQuestion`: deselecting drops the configuration; selecting adds
        the default one. */
    method ToggleQuestion(item: CatalogItem)
      requires Valid()
      modifies this
      ensures Valid()
      ensures item.id in old(selectedQuestions) ==>
        && selectedQuestions == Filter(old(selectedQuestions), (id: string) => id != item.id)
        && questionConfigs == old(questionConfigs) - {item.id}
      ensures item.id !in old(selectedQuestions) ==>
        && selectedQuestions == old(selectedQuestions) + [item.id]
        && questionConfigs == old(questionConfigs)[item.id := DefaultConfig(item)]
      ensures item.id in selectedQuestions <==> item.id !in old(selectedQuestions)
      ensures currentStep == old(currentStep) && packName == old(packName) && filters == old(filters)
      ensures selectedTrades == old(selectedTrades)
      ensures customQuestion == old(customQuestion) && showCustomDialog == old(showCustomDialog)
    {
      if item.id in selectedQuestions {
        var remaining := Filter(selectedQuestions, (id: string) => id != item.id);
        FilterNoDuplicates(selectedQuestions, (id: string) => id != item.id);
        forall id ensures id in remaining <==> id in selectedQuestions && id != item.id {
          if id in selectedQuestions && id != item.id {
            var k :| 0 <= k < |selectedQuestions| && selectedQuestions[k] == id;
          }
        }
        selectedQuestions := remaining;
        questionConfigs := questionConfigs - {item.id};
      } else {
        selectedQuestions := selectedQuestions + [item.id];
        questionConfigs := questionConfigs[item.id := DefaultConfig(item)];
      }
    }

    /** `addCustomQuestion`; `now` is `Date.now()`. */
    method AddCustomQuestion(now: int)
      requires Valid()
      modifies this
      ensures Valid()
      ensures old(customQuestion).None? || !IsQuestionValid(old(customQuestion).value) ==>
        && questionConfigs == old(questionConfigs) && selectedQuestions == old(selectedQuestions)
        && customQuestion == old(customQuestion) && showCustomDialog == old(showCustomDialog)
      ensures old(customQuestion).Some? && IsQuestionValid(old(customQuestion).value) ==>
        var customId := "custom-" + IntToString(now);
        var c := old(customQuestion).value;
        && selectedQuestions == (if customId in old(selectedQuestions) then old(selectedQuestions)
                                 else old(selectedQuestions) + [customId])
        && questionConfigs == old(questionConfigs)[customId :=
             c.(catalogItem := CatalogItem(customId, "Custom", c.catalogItem.text, c.qtype, c.qtype == NumberType))]
        && IsQuestionValid(questionConfigs[customId])
        && customQuestion.None? && !showCustomDialog
      ensures currentStep == old(currentStep) && packName == old(packName) && filters == old(filters)
      ensures selectedTrades == old(selectedTrades)
    {
      if customQuestion.None? || !IsQuestionValid(customQuestion.value) {
        return;
      }
      var c := customQuestion.value;
      var customId := "custom-" + IntToString(now);
      var customCatalogItem := CatalogItem(customId, "Custom", c.catalogItem.text, c.qtype, c.qtype == NumberType);
      var config := c.(catalogItem := customCatalogItem);
      var selected := if customId in selectedQuestions then selectedQuestions else selectedQuestions + [customId];
      AddOnceMatches(selectedQuestions, questionConfigs, customId, config);
      assert IsQuestionValid(config);
      selectedQuestions, questionConfigs := selected, questionConfigs[customId := config];
      customQuestion, showCustomDialog := None, false;
    }

    /** `addFilterChip`: a blank value is ignored, any other is appended trimmed. */
    method AddFilterChip(kind: FilterKind, value: string)
      modifies this
      ensures Trim(value) == [] ==> filters == old(filters)
      ensures Trim(value) != [] && kind == States ==> filters == old(filters).(states := old(filters).states + [Trim(value)])
      ensures Trim(value) != [] && kind == Markets ==> filters == old(filters).(markets := old(filters).markets + [Trim(value)])
      ensures currentStep == old(currentStep) && packName == old(packName) && selectedTrades == old(selectedTrades)
      ensures questionConfigs == old(questionConfigs) && selectedQuestions == old(selectedQuestions)
      ensures customQuestion == old(customQuestion) && showCustomDialog == old(showCustomDialog)
    {
      if Trim(value) == [] {
        return;
      }
      match kind
      case States => filters := filters.(states := filters.states + [Trim(value)]);
      case Markets => filters := filters.(markets := filters.markets + [Trim(value)]);
    }

    /** `removeFilterChip`: every equal entry of that list goes. */
    method RemoveFilterChip(kind: FilterKind, value: string)
      modifies this
      ensures kind == States ==> filters == old(filters).(states := Filter(old(filters).states, (v: string) => v != value))
      ensures kind == Markets ==> filters == old(filters).(markets := Filter(old(filters).markets, (v: string) => v != value))
      ensures kind == States ==> value !in filters.states
      ensures kind == Markets ==> value !in filters.markets
      ensures currentStep == old(currentStep) && packName == old(packName) && selectedTrades == old(selectedTrades)
      ensures questionConfigs == old(questionConfigs) && selectedQuestions == old(selectedQuestions)
      ensures customQuestion == old(customQuestion) && showCustomDialog == old(showCustomDialog)
    {
      match kind
      case States => filters := filters.(states := Filter(filters.states, (v: string) => v != value));
      case Markets => filters := filters.(markets := Filter(filters.markets, (v: string) => v != value));
    }

    /** `savePack`: adds a pack of the selected valid questions to the store.
        `packId` and `newId` stand for the generated ids, `now` for the clock. */
    method SavePack(store: PacksStore.PacksStore, packId: string, newId: nat -> string, now: int)
      requires Valid()
      modifies store
      ensures var ids := ValidIds(selectedQuestions, questionConfigs);
        store.packs == old(store.packs) + [QuestionPack(packId, packName, selectedTrades,
          SavedQuestions(ids, questionConfigs, newId), filters, now)]
    {
      var ids := ValidIds(selectedQuestions, questionConfigs);
      var questions := SavedQuestions(ids, questionConfigs, newId);
      var newPack := QuestionPack(packId, packName, selectedTrades, questions, filters, now);
      store.AddPack(newPack);
    }
  }

}
