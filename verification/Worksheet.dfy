/** The translators' worksheet: the rows a key owes, what a language already holds, and the import
    that takes a key whole or leaves it alone. */
module Worksheet {

  import opened Wrappers

  // ---- the catalog ------------------------------------------------------------------------------

  datatype Unit = Unit(state: string, value: string)

  type Forms = map<string, Unit>

  datatype Rule = Rule(name: string, argument: nat, specifier: string, forms: Forms)

  /** A sentence may have substitutions with plural forms of their own; a plural varies as a whole;
      any other kind of variation is not supported. */
  datatype Localization =
    | Sentence(unit: Unit, rules: seq<Rule>)
    | Plural(forms: Forms)
    | Unsupported

  datatype Entry = Entry(localizations: map<string, Localization>, wanted: bool)

  const SOURCE := "en"
  const OTHER := "other"
  const TRANSLATED := "translated"
  const NEEDS_REVIEW := "needs_review"

  datatype Slot = Slot(member: string, form: string)
  datatype Owed = Owed(slot: Slot, english: string)

  type Values = map<Slot, string>

  // ---- rows owed and texts held -------------------------------------------------------------------

  /** One row a form; a form the English lacks shows the English of `other`. */
  function FormSlots(member: string, english: Forms, forms: seq<string>): seq<Owed>
    requires OTHER in english
  {
    if forms == [] then [] else
      var shown := if forms[0] in english then english[forms[0]] else english[OTHER];
      [Owed(Slot(member, forms[0]), shown.value)] + FormSlots(member, english, forms[1..])
  }

  /** None where the tool stops: a rule without the form `other`. */
  function RuleSlots(rules: seq<Rule>, forms: seq<string>): Option<seq<Owed>> {
    if rules == [] then Some([])
    else if OTHER !in rules[0].forms then None
    else
      var rest := RuleSlots(rules[1..], forms);
      if rest.None? then None else Some(FormSlots(rules[0].name, rules[0].forms, forms) + rest.value)
  }

  function SourceSlots(key: string, entry: Entry, forms: seq<string>): Option<seq<Owed>> {
    if SOURCE !in entry.localizations then Some([Owed(Slot("", ""), key)])
    else match entry.localizations[SOURCE]
      case Unsupported => None
      case Plural(english) => if OTHER in english then Some(FormSlots("", english, forms)) else None
      case Sentence(unit, rules) =>
        var owed := RuleSlots(rules, forms);
        if owed.None? then None else Some([Owed(Slot("", ""), unit.value)] + owed.value)
  }

  function FormTexts(member: string, forms: Forms): Values {
    map f | f in forms :: Slot(member, f) := forms[f].value
  }

  function RuleTexts(rules: seq<Rule>): Values {
    if rules == [] then map[] else FormTexts(rules[0].name, rules[0].forms) + RuleTexts(rules[1..])
  }

  function Texts(localization: Localization): Option<Values> {
    match localization
    case Unsupported => None
    case Plural(forms) => Some(FormTexts("", forms))
    case Sentence(unit, rules) => Some(map[Slot("", "") := unit.value] + RuleTexts(rules))
  }

  function TranslatedSlots(entry: Entry, lang: string): Option<Values> {
    if lang in entry.localizations then Texts(entry.localizations[lang]) else Some(map[])
  }

  // ---- building a localization ----------------------------------------------------------------------

  function FormsFrom(member: string, values: Values, state: string): Forms {
    map slot | slot in values && slot.member == member :: slot.form := Unit(state, values[slot])
  }

  function RulesFrom(rules: seq<Rule>, values: Values, state: string): seq<Rule> {
    if rules == [] then []
    else [rules[0].(forms := FormsFrom(rules[0].name, values, state))] + RulesFrom(rules[1..], values, state)
  }

  function BuildLocalization(entry: Entry, values: Values, state: string): Localization {
    if SOURCE in entry.localizations && entry.localizations[SOURCE].Plural? then Plural(FormsFrom("", values, state))
    else
      var unit := Unit(state, if Slot("", "") in values then values[Slot("", "")] else "");
      if SOURCE in entry.localizations && entry.localizations[SOURCE].Sentence?
        then Sentence(unit, RulesFrom(entry.localizations[SOURCE].rules, values, state))
        else Sentence(unit, [])
  }

  function SlotSet(owed: seq<Owed>): set<Slot> {
    set o | o in owed :: o.slot
  }

  /** Rules have names of their own. */
  predicate WellNamed(rules: seq<Rule>) {
    && (forall i :: 0 <= i < |rules| ==> rules[i].name != "")
    && (forall i, j :: 0 <= i < j < |rules| ==> rules[i].name != rules[j].name)
  }

  predicate WellFormed(entry: Entry) {
    SOURCE in entry.localizations && entry.localizations[SOURCE].Sentence? ==>
      WellNamed(entry.localizations[SOURCE].rules)
  }

  lemma {:induction false} FormSlotSet(member: string, english: Forms, forms: seq<string>)
    requires OTHER in english
    ensures forall slot :: (slot in SlotSet(FormSlots(member, english, forms)) <==>
                            slot.member == member && slot.form in forms)
  {
    if forms != [] {
      FormSlotSet(member, english, forms[1..]);
      var rest := FormSlots(member, english, forms[1..]);
      var all := FormSlots(member, english, forms);
      assert all == [all[0]] + rest;
      assert forall slot :: slot in SlotSet(all) <==> slot == all[0].slot || slot in SlotSet(rest);
    }
  }

  predicate NamesRule(rules: seq<Rule>, name: string) {
    exists i :: 0 <= i < |rules| && rules[i].name == name
  }

  lemma {:induction false} RuleSlotSet(rules: seq<Rule>, forms: seq<string>)
    requires RuleSlots(rules, forms).Some?
    ensures forall slot :: (slot in SlotSet(RuleSlots(rules, forms).value) <==>
                            NamesRule(rules, slot.member) && slot.form in forms)
  {
    if rules != [] {
      RuleSlotSet(rules[1..], forms);
      FormSlotSet(rules[0].name, rules[0].forms, forms);
      var first, rest := FormSlots(rules[0].name, rules[0].forms, forms), RuleSlots(rules[1..], forms).value;
      assert forall slot :: slot in SlotSet(first + rest) <==> slot in SlotSet(first) || slot in SlotSet(rest);
      forall name ensures NamesRule(rules, name) <==> name == rules[0].name || NamesRule(rules[1..], name) {
        NamesRuleNext(rules, name);
      }
    }
  }

  lemma NamesRuleNext(rules: seq<Rule>, name: string)
    requires rules != []
    ensures NamesRule(rules, name) <==> name == rules[0].name || NamesRule(rules[1..], name)
  {
    if i :| 0 <= i < |rules| && rules[i].name == name {
      if i > 0 { assert rules[1..][i - 1] == rules[i]; }
    }
    if i :| 0 <= i < |rules[1..]| && rules[1..][i].name == name {
      assert rules[i + 1] == rules[1..][i];
    }
  }

  lemma FormTextsOf(member: string, values: Values, state: string)
    ensures var held := FormTexts(member, FormsFrom(member, values, state));
      && (forall slot :: slot in held <==> slot in values && slot.member == member)
      && (forall slot :: slot in held ==> held[slot] == values[slot])
  {
    var forms := FormsFrom(member, values, state);
    forall slot | slot in values && slot.member == member
      ensures slot.form in forms && forms[slot.form].value == values[slot]
    {
    }
    forall f | f in forms ensures Slot(member, f) in values {
      var slot :| slot in values && slot.member == member && slot.form == f;
      assert slot == Slot(member, f);
    }
  }

  lemma {:induction false} RuleTextsOf(rules: seq<Rule>, values: Values, state: string)
    requires WellNamed(rules)
    ensures var held := RuleTexts(RulesFrom(rules, values, state));
      && (forall slot :: slot in held <==> slot in values && NamesRule(rules, slot.member))
      && (forall slot :: slot in held ==> held[slot] == values[slot])
  {
    if rules != [] {
      var rest := rules[1..];
      RuleTextsOf(rest, values, state);
      FormTextsOf(rules[0].name, values, state);
      forall name ensures NamesRule(rules, name) <==> name == rules[0].name || NamesRule(rest, name) {
        NamesRuleNext(rules, name);
      }
      var built := RulesFrom(rules, values, state);
      assert built[0].name == rules[0].name && built[1..] == RulesFrom(rest, values, state);
      assert RuleTexts(built) == FormTexts(rules[0].name, built[0].forms) + RuleTexts(built[1..]);
      hide FormTexts, RuleTexts, FormsFrom, RulesFrom, NamesRule;
    }
  }

  /** The English text shown for a slot: of its form, or of `other` where it lacks the form. */
  predicate Shows(english: Forms, form: string, text: string) {
    if form in english then text == english[form].value else OTHER in english && text == english[OTHER].value
  }

  lemma {:induction false} FormSlotsShow(member: string, english: Forms, forms: seq<string>)
    requires OTHER in english
    ensures var owed := FormSlots(member, english, forms);
      |owed| == |forms| && forall i :: 0 <= i < |owed| ==>
        owed[i].slot == Slot(member, forms[i]) && Shows(english, forms[i], owed[i].english)
  {
    if forms != [] { FormSlotsShow(member, english, forms[1..]); }
  }

  lemma {:induction false} RuleSlotsShow(rules: seq<Rule>, forms: seq<string>, o: Owed)
    requires RuleSlots(rules, forms).Some? && o in RuleSlots(rules, forms).value
    ensures exists i :: 0 <= i < |rules| && o.slot.member == rules[i].name && o.slot.form in forms
                        && Shows(rules[i].forms, o.slot.form, o.english)
  {
    FormSlotsShow(rules[0].name, rules[0].forms, forms);
    if o !in FormSlots(rules[0].name, rules[0].forms, forms) {
      RuleSlotsShow(rules[1..], forms, o);
      var i :| 0 <= i < |rules[1..]| && o.slot.member == rules[1..][i].name && o.slot.form in forms
               && Shows(rules[1..][i].forms, o.slot.form, o.english);
      assert rules[i + 1] == rules[1..][i];
    }
  }

  /** A key owes itself where there is no English, one row a form of a plural, and one row for a
      sentence besides one a form of each of its substitutions. */
  lemma OwedShowsEnglish(key: string, entry: Entry, forms: seq<string>, o: Owed)
    requires SourceSlots(key, entry, forms).Some? && o in SourceSlots(key, entry, forms).value
    ensures SOURCE !in entry.localizations ==> o == Owed(Slot("", ""), key)
    ensures SOURCE in entry.localizations && entry.localizations[SOURCE].Plural? ==>
      o.slot.member == "" && o.slot.form in forms && Shows(entry.localizations[SOURCE].forms, o.slot.form, o.english)
    ensures SOURCE in entry.localizations && entry.localizations[SOURCE].Sentence? ==>
      || o == Owed(Slot("", ""), entry.localizations[SOURCE].unit.value)
      || exists i :: 0 <= i < |entry.localizations[SOURCE].rules|
           && o.slot.member == entry.localizations[SOURCE].rules[i].name && o.slot.form in forms
           && Shows(entry.localizations[SOURCE].rules[i].forms, o.slot.form, o.english)
  {
    if SOURCE in entry.localizations {
      match entry.localizations[SOURCE]
      case Plural(english) => FormSlotsShow("", english, forms);
      case Sentence(unit, rules) =>
        if o != Owed(Slot("", ""), unit.value) { RuleSlotsShow(rules, forms, o); }
    }
  }

  lemma {:induction false} RulesStop(rules: seq<Rule>, forms: seq<string>)
    ensures RuleSlots(rules, forms).Some? <==> forall i :: 0 <= i < |rules| ==> "other" in rules[i].forms
  {
    if rules != [] {
      RulesStop(rules[1..], forms);
      if j :| 0 <= j < |rules| && "other" !in rules[j].forms {
        if j > 0 { assert rules[1..][j - 1] == rules[j]; }
      } else {
        assert forall i :: 0 <= i < |rules[1..]| ==> rules[1..][i] == rules[i + 1];
      }
    }
  }

  /** The tool stops only at a variation it does not know and at plural forms without `other`. */
  lemma OnlyTheseStop(key: string, entry: Entry, forms: seq<string>)
    ensures SourceSlots(key, entry, forms).None? <==>
      match English(entry)
      case None => false
      case Some(Unsupported) => true
      case Some(Plural(english)) => "other" !in english
      case Some(Sentence(_, rules)) => exists i :: 0 <= i < |rules| && "other" !in rules[i].forms
  {
    if English(entry).Some? && English(entry).value.Sentence? {
      RulesStop(English(entry).value.rules, forms);
    }
  }

  /** Same kind of localization, and substitutions of the same names, arguments and specifiers. */
  ghost predicate SameShape(english: Option<Localization>, built: Localization) {
    && (english.Some? && english.value.Plural? <==> built.Plural?)
    && (built.Sentence? ==>
          if english.Some? && english.value.Sentence? then
            && |built.rules| == |english.value.rules|
            && forall i :: 0 <= i < |built.rules| ==>
                 && built.rules[i].name == english.value.rules[i].name
                 && built.rules[i].argument == english.value.rules[i].argument
                 && built.rules[i].specifier == english.value.rules[i].specifier
          else built.rules == [])
  }

  function English(entry: Entry): Option<Localization> {
    if SOURCE in entry.localizations then Some(entry.localizations[SOURCE]) else None
  }

  lemma {:induction false} RulesKeepShape(rules: seq<Rule>, values: Values, state: string)
    ensures var built := RulesFrom(rules, values, state);
      |built| == |rules| && forall i :: 0 <= i < |rules| ==>
        && built[i].name == rules[i].name && built[i].argument == rules[i].argument
        && built[i].specifier == rules[i].specifier
  {
    if rules != [] { RulesKeepShape(rules[1..], values, state); }
  }

  lemma BuiltKeepsShape(entry: Entry, values: Values, state: string)
    ensures SameShape(English(entry), BuildLocalization(entry, values, state))
  {
    if SOURCE in entry.localizations && entry.localizations[SOURCE].Sentence? {
      RulesKeepShape(entry.localizations[SOURCE].rules, values, state);
    }
  }

  function With(entry: Entry, lang: string, localization: Localization): Entry {
    entry.(localizations := entry.localizations[lang := localization])
  }

  /** A key without a source text owes its own name. */
  lemma PlainIsHeld(key: string, entry: Entry, forms: seq<string>, values: Values, state: string, lang: string)
    requires SOURCE !in entry.localizations && SourceSlots(key, entry, forms).Some?
    requires values.Keys == SlotSet(SourceSlots(key, entry, forms).value)
    ensures TranslatedSlots(With(entry, lang, BuildLocalization(entry, values, state)), lang) == Some(values)
  {
    assert SourceSlots(key, entry, forms).value == [Owed(Slot("", ""), key)];
    assert values.Keys == {Slot("", "")};
    assert RuleTexts([]) == map[];
    assert map[Slot("", "") := values[Slot("", "")]] + map[] == values;
  }

  /** What was built for exactly the slots owed is held again, text by text. */
  lemma BuiltIsHeld(key: string, entry: Entry, forms: seq<string>, values: Values, state: string, lang: string)
    requires WellFormed(entry) && SourceSlots(key, entry, forms).Some?
    requires values.Keys == SlotSet(SourceSlots(key, entry, forms).value)
    ensures TranslatedSlots(With(entry, lang, BuildLocalization(entry, values, state)), lang) == Some(values)
  {
    var owed := SourceSlots(key, entry, forms).value;
    if SOURCE !in entry.localizations {
      PlainIsHeld(key, entry, forms, values, state, lang);
    } else {
      match entry.localizations[SOURCE]
      case Plural(english) =>
        FormSlotSet("", english, forms);
        FormTextsOf("", values, state);
        assert forall slot :: slot in values <==> slot in SlotSet(owed);
        assert FormTexts("", FormsFrom("", values, state)) == values;
      case Sentence(unit, rules) =>
        SentenceIsHeld(unit, rules, forms, values, state);
    }
  }

  lemma SentenceIsHeld(unit: Unit, rules: seq<Rule>, forms: seq<string>, values: Values, state: string)
    requires WellNamed(rules) && RuleSlots(rules, forms).Some?
    requires values.Keys == SlotSet([Owed(Slot("", ""), unit.value)] + RuleSlots(rules, forms).value)
    ensures Slot("", "") in values
    ensures map[Slot("", "") := values[Slot("", "")]] + RuleTexts(RulesFrom(rules, values, state)) == values
  {
    var owed := RuleSlots(rules, forms).value;
    RuleSlotSet(rules, forms);
    RuleTextsOf(rules, values, state);
    var first := Owed(Slot("", ""), unit.value);
    SlotsOfBoth(first, owed);
    assert !NamesRule(rules, "");
    assert forall slot :: slot in values <==> slot in SlotSet([first] + owed);
    hide *;
    OneAndTheRest(first.slot, RuleTexts(RulesFrom(rules, values, state)), values);
  }

  lemma OneAndTheRest(first: Slot, held: Values, values: Values)
    requires forall slot :: slot in held ==> slot in values && held[slot] == values[slot]
    requires first in values && forall slot :: slot in values ==> slot == first || slot in held
    ensures map[first := values[first]] + held == values
  {
  }

  lemma SlotsOfBoth(first: Owed, owed: seq<Owed>)
    ensures forall slot :: slot in SlotSet([first] + owed) <==> slot == first.slot || slot in SlotSet(owed)
  {
  }

  // ---- how far a key is -----------------------------------------------------------------------------

  datatype Review = Missing | Draft | Finished

  predicate AllInState(forms: Forms, state: string) {
    forall f :: f in forms ==> forms[f].state == state
  }

  predicate AllTranslated(localization: Localization) {
    match localization
    case Unsupported => true
    case Plural(forms) => AllInState(forms, TRANSLATED)
    case Sentence(unit, rules) =>
      unit.state == TRANSLATED && forall i :: 0 <= i < |rules| ==> AllInState(rules[i].forms, TRANSLATED)
  }

  function ReviewState(entry: Entry, lang: string, forms: seq<string>): Option<Review> {
    if lang !in entry.localizations then Some(Missing)
    else
      var held, owed := TranslatedSlots(entry, lang), SourceSlots("", entry, forms);
      if held.None? || owed.None? then None
      else if exists o :: o in owed.value && o.slot !in held.value then Some(Missing)
      else if AllTranslated(entry.localizations[lang]) then Some(Finished) else Some(Draft)
  }

  /** Missing exactly where a slot owed is not held; finished exactly where all units are translated. */
  lemma ReviewIsExact(entry: Entry, lang: string, forms: seq<string>)
    requires SourceSlots("", entry, forms).Some?
    ensures lang !in entry.localizations ==> ReviewState(entry, lang, forms) == Some(Missing)
    ensures lang in entry.localizations && Texts(entry.localizations[lang]).Some? ==>
      var held := Texts(entry.localizations[lang]).value;
      var whole := forall slot :: slot in SlotSet(SourceSlots("", entry, forms).value) ==> slot in held;
      && (!whole ==> ReviewState(entry, lang, forms) == Some(Missing))
      && (whole && entry.localizations[lang].Plural? ==>
            (ReviewState(entry, lang, forms) == Some(Finished) <==>
             forall f :: f in entry.localizations[lang].forms ==>
               entry.localizations[lang].forms[f].state == "translated"))
      && (whole && entry.localizations[lang].Sentence? ==>
            (ReviewState(entry, lang, forms) == Some(Finished) <==>
             entry.localizations[lang].unit.state == "translated"
             && forall i, f :: (0 <= i < |entry.localizations[lang].rules|
                                && f in entry.localizations[lang].rules[i].forms) ==>
                  entry.localizations[lang].rules[i].forms[f].state == "translated"))
      && (whole && ReviewState(entry, lang, forms) != Some(Finished) ==>
            ReviewState(entry, lang, forms) == Some(Draft))
  {
    if lang in entry.localizations && Texts(entry.localizations[lang]).Some? {
      var held, owed := Texts(entry.localizations[lang]).value, SourceSlots("", entry, forms).value;
      hide SourceSlots, Texts;
      if o :| o in owed && o.slot !in held {
        assert o.slot in SlotSet(owed);
      } else {
        assert forall slot :: slot in SlotSet(owed) ==> slot in held;
      }
    }
  }

  // ---- the rows of a worksheet ------------------------------------------------------------------------

  /** A data row, with the translation stripped of outer whitespace as it was read. */
  datatype Row = Row(catalog: string, key: string, slot: Slot, text: string)

  /** The texts given for one key; of two rows for a slot the later counts. */
  function Given(rows: seq<Row>, catalog: string, key: string): Values {
    if rows == [] then map[] else
      var row, before := rows[|rows| - 1], Given(rows[..|rows| - 1], catalog, key);
      if row.catalog == catalog && row.key == key then before[row.slot := row.text] else before
  }

  /** The row counts for this key. */
  predicate RowFor(row: Row, catalog: string, key: string, slot: Slot) {
    row.catalog == catalog && row.key == key && row.slot == slot
  }

  predicate LastFor(rows: seq<Row>, i: int, catalog: string, key: string, slot: Slot) {
    && 0 <= i < |rows| && RowFor(rows[i], catalog, key, slot)
    && forall j :: i < j < |rows| ==> !RowFor(rows[j], catalog, key, slot)
  }

  /** A slot is given exactly where there is a row for it. */
  lemma {:induction false} GivenHasRow(rows: seq<Row>, catalog: string, key: string, slot: Slot)
    ensures slot in Given(rows, catalog, key) <==> exists i :: 0 <= i < |rows| && RowFor(rows[i], catalog, key, slot)
  {
    if rows != [] {
      var front, last := rows[..|rows| - 1], |rows| - 1;
      GivenHasRow(front, catalog, key, slot);
      assert forall i :: 0 <= i < last ==> front[i] == rows[i];
    }
  }

  /** And its text is that of the last such row. */
  lemma {:induction false} GivenIsLast(rows: seq<Row>, i: nat, catalog: string, key: string, slot: Slot)
    requires LastFor(rows, i, catalog, key, slot)
    ensures slot in Given(rows, catalog, key) && Given(rows, catalog, key)[slot] == rows[i].text
  {
    if i < |rows| - 1 {
      var front := rows[..|rows| - 1];
      assert front[i] == rows[i] && !RowFor(rows[|rows| - 1], catalog, key, slot);
      GivenIsLast(front, i, catalog, key, slot);
    }
  }

  method GroupRows(rows: seq<Row>, catalog: string) returns (byKey: map<string, Values>)
    ensures forall key :: key in byKey ==> byKey[key] == Given(rows, catalog, key)
    ensures forall key :: key in byKey <==> Given(rows, catalog, key) != map[]
  {
    byKey := map[];
    for i := 0 to |rows|
      invariant forall key :: key in byKey ==> byKey[key] == Given(rows[..i], catalog, key)
      invariant forall key :: key in byKey <==> Given(rows[..i], catalog, key) != map[]
    {
      var row := rows[i];
      assert rows[..i + 1][..i] == rows[..i];
      if row.catalog == catalog {
        var group := if row.key in byKey then byKey[row.key] else map[];
        assert row.slot in group[row.slot := row.text];
        byKey := byKey[row.key := group[row.slot := row.text]];
      }
    }
    assert rows[..|rows|] == rows;
  }

  // ---- importing ----------------------------------------------------------------------------------------

  /** The spellings the linter forbids, and whether it has a complaint about a key's entry. */
  datatype Linter = Linter(forbidden: string -> bool, complains: (string, Entry) -> bool)

  datatype Verdict =
    | NotForTranslation
    | NoRows
    | ExtraRows
    | LacksRows
    | EmptyTexts
    | ForbiddenSpelling
    | Complaint
    | Accepted(localization: Localization)

  function StateOf(draft: bool): string {
    if draft then NEEDS_REVIEW else TRANSLATED
  }

  /** What becomes of one key; None where the import stops altogether. */
  function Judge(key: string, entry: Entry, given: Values, forms: seq<string>, lang: string, draft: bool,
          linter: Linter)
    : Option<Verdict>
  {
    if !entry.wanted then Some(NotForTranslation)
    else
      var owed := SourceSlots(key, entry, forms);
      if owed.None? then None
      else if given == map[] then Some(NoRows)
      else if exists slot :: slot in given && slot !in SlotSet(owed.value) then Some(ExtraRows)
      else if exists o :: o in owed.value && o.slot !in given then Some(LacksRows)
      else if exists slot :: slot in given && given[slot] == "" then Some(EmptyTexts)
      else if exists slot :: slot in given && linter.forbidden(given[slot]) then Some(ForbiddenSpelling)
      else
        var localization := BuildLocalization(entry, given, StateOf(draft));
        if linter.complains(key, With(entry, lang, localization)) then Some(Complaint)
        else Some(Accepted(localization))
  }

  predicate Takes(key: string, entry: Entry, given: Values, forms: seq<string>, lang: string, draft: bool,
          linter: Linter) {
    var verdict := Judge(key, entry, given, forms, lang, draft, linter);
    verdict.Some? && verdict.value.Accepted?
  }

  function Outcome(key: string, entry: Entry, given: Values, forms: seq<string>, lang: string, draft: bool,
          linter: Linter)
    : Entry
  {
    if Takes(key, entry, given, forms, lang, draft, linter)
      then With(entry, lang, Judge(key, entry, given, forms, lang, draft, linter).value.localization) else entry
  }

  /** One import of a worksheet into one catalog. */
  datatype Job = Job(catalog: string, rows: seq<Row>, forms: seq<string>, lang: string, draft: bool, linter: Linter)

  function VerdictOn(job: Job, key: string, entry: Entry): Option<Verdict> {
    Judge(key, entry, Given(job.rows, job.catalog, key), job.forms, job.lang, job.draft, job.linter)
  }

  function After(job: Job, key: string, entry: Entry): Entry {
    Outcome(key, entry, Given(job.rows, job.catalog, key), job.forms, job.lang, job.draft, job.linter)
  }

  ghost function TakenKeys(job: Job, strings: map<string, Entry>): set<string> {
    set key | key in strings && VerdictOn(job, key, strings[key]).Some?
              && VerdictOn(job, key, strings[key]).value.Accepted?
  }

  method JudgeRows(job: Job, byKey: map<string, Values>, key: string, entry: Entry)
    returns (verdict: Option<Verdict>, after: Entry)
    requires key in byKey ==> byKey[key] == Given(job.rows, job.catalog, key)
    requires key !in byKey ==> Given(job.rows, job.catalog, key) == map[]
    ensures verdict == VerdictOn(job, key, entry) && after == After(job, key, entry)
    ensures verdict.None? || !verdict.value.Accepted? ==> after == entry
  {
    var given := if key in byKey then byKey[key] else map[];
    verdict := Judge(key, entry, given, job.forms, job.lang, job.draft, job.linter);
    after := entry;
    hide Judge;
    if verdict.Some? && verdict.value.Accepted? {
      after := With(entry, job.lang, verdict.value.localization);
    }
  }

  /** The rows fill every slot the key owes and no other, with allowed texts, and the linter has no
      complaint about what they make of the key. */
  ghost predicate Fit(job: Job, key: string, entry: Entry) {
    var given, owed := Given(job.rows, job.catalog, key), SourceSlots(key, entry, job.forms);
    && entry.wanted && given != map[] && owed.Some? && given.Keys == SlotSet(owed.value)
    && (forall slot :: slot in given ==> given[slot] != "" && !job.linter.forbidden(given[slot]))
    && !job.linter.complains(key, Imported(job, key, entry))
  }

  /** The key as the import writes it. */
  function Imported(job: Job, key: string, entry: Entry): Entry {
    var state := if job.draft then NEEDS_REVIEW else TRANSLATED;
    With(entry, job.lang, BuildLocalization(entry, Given(job.rows, job.catalog, key), state))
  }

  /** The verdict comes down to these. */
  lemma TheFitAreTaken(job: Job, key: string, entry: Entry)
    ensures VerdictOn(job, key, entry).None? <==> entry.wanted && SourceSlots(key, entry, job.forms).None?
    ensures (VerdictOn(job, key, entry).Some? && VerdictOn(job, key, entry).value.Accepted?) <==> Fit(job, key, entry)
    ensures After(job, key, entry) == if Fit(job, key, entry) then Imported(job, key, entry) else entry
  {
    var given, owed := Given(job.rows, job.catalog, key), SourceSlots(key, entry, job.forms);
    hide Given, SourceSlots, BuildLocalization;
    if owed.Some? {
      if given.Keys == SlotSet(owed.value) {
        forall o | o in owed.value ensures o.slot in given { assert o.slot in SlotSet(owed.value); }
      }
    }
  }

  /** Go through the keys of a catalog; one that stops the import leaves the catalog unwritten. */
  method ImportCatalog(job: Job, strings: map<string, Entry>)
    returns (result: Option<map<string, Entry>>, imported: nat)
    ensures result.None? <==> exists key :: key in strings && VerdictOn(job, key, strings[key]).None?
    ensures result.Some? ==> result.value.Keys == strings.Keys
    ensures result.Some? ==> forall key :: key in strings ==> result.value[key] == After(job, key, strings[key])
    ensures result.Some? ==> imported == |TakenKeys(job, strings)|
    // Taken are exactly the keys that fit, and the linter passes all that changed.
    ensures result.None? <==>
      exists key :: key in strings && strings[key].wanted && SourceSlots(key, strings[key], job.forms).None?
    ensures result.Some? ==> forall key :: key in strings ==>
      result.value[key] == if Fit(job, key, strings[key]) then Imported(job, key, strings[key]) else strings[key]
    ensures result.Some? ==> imported == |set key | key in strings && Fit(job, key, strings[key])|
    ensures result.Some? ==> forall key :: key in strings && result.value[key] != strings[key] ==>
      !job.linter.complains(key, result.value[key])
  {
    hide *;
    FitIsWhatCounts(job, strings);
    var byKey := GroupRows(job.rows, job.catalog);
    var out := strings;
    imported := 0;
    var left := strings.Keys;
    NoneTaken(job, strings);
    ProgressStarts(job, strings);
    while left != {}
      invariant left <= strings.Keys && imported == Taken(job, strings, left) && Progress(job, strings, out, left)
    {
      var key :| key in left;
      ProgressSoFar(job, strings, out, left, key);
      var verdict, after := JudgeRows(job, byKey, key, out[key]);
      if verdict.None? { return None, 0; }
      TakenNext(job, strings, left, key);
      ProgressNext(job, strings, out, left, key);
      left, out := left - {key}, out[key := after];
      if verdict.value.Accepted? {
        imported := imported + 1;
      }
    }
    ProgressEnds(job, strings, out);
    AllTaken(job, strings);
    result := Some(out);
  }

  lemma FitIsWhatCounts(job: Job, strings: map<string, Entry>)
    ensures (exists key :: key in strings && VerdictOn(job, key, strings[key]).None?) <==>
      exists key :: key in strings && strings[key].wanted && SourceSlots(key, strings[key], job.forms).None?
    ensures forall key :: key in strings ==>
      After(job, key, strings[key]) ==
        if Fit(job, key, strings[key]) then Imported(job, key, strings[key]) else strings[key]
    ensures forall key :: key in strings && After(job, key, strings[key]) != strings[key] ==>
      !job.linter.complains(key, After(job, key, strings[key]))
    ensures TakenKeys(job, strings) == set key | key in strings && Fit(job, key, strings[key])
  {
    forall key | key in strings
      ensures VerdictOn(job, key, strings[key]).None? <==>
        strings[key].wanted && SourceSlots(key, strings[key], job.forms).None?
      ensures After(job, key, strings[key]) ==
        if Fit(job, key, strings[key]) then Imported(job, key, strings[key]) else strings[key]
      ensures Fit(job, key, strings[key]) ==> !job.linter.complains(key, Imported(job, key, strings[key]))
      ensures key in TakenKeys(job, strings) <==> Fit(job, key, strings[key])
    {
      TheFitAreTaken(job, key, strings[key]);
      hide Imported, VerdictOn, After;
    }
    hide Imported, VerdictOn, After, Fit;
  }

  /** The keys no longer in `left` are done, the others untouched. */
  ghost predicate Progress(job: Job, strings: map<string, Entry>, out: map<string, Entry>, left: set<string>) {
    && out.Keys == strings.Keys
    && (forall key :: key in strings && key in left ==> out[key] == strings[key])
    && (forall key :: key in strings && key !in left ==>
          VerdictOn(job, key, strings[key]).Some? && out[key] == After(job, key, strings[key]))
  }

  lemma ProgressStarts(job: Job, strings: map<string, Entry>)
    ensures Progress(job, strings, strings, strings.Keys)
  {
  }

  lemma ProgressSoFar(job: Job, strings: map<string, Entry>, out: map<string, Entry>, left: set<string>, key: string)
    requires Progress(job, strings, out, left) && key in left && key in strings
    ensures key in out && out[key] == strings[key]
  {
  }

  lemma ProgressNext(job: Job, strings: map<string, Entry>, out: map<string, Entry>, left: set<string>, key: string)
    requires Progress(job, strings, out, left) && key in left && key in strings
    requires VerdictOn(job, key, strings[key]).Some?
    ensures Progress(job, strings, out[key := After(job, key, strings[key])], left - {key})
  {
    hide VerdictOn, After;
  }

  lemma ProgressEnds(job: Job, strings: map<string, Entry>, out: map<string, Entry>)
    requires Progress(job, strings, out, {})
    ensures out.Keys == strings.Keys
    ensures forall key :: key in strings ==> VerdictOn(job, key, strings[key]).Some?
    ensures forall key :: key in strings ==> out[key] == After(job, key, strings[key])
  {
    hide VerdictOn, After;
  }

  /** How many of the keys no longer in `left` are taken. */
  ghost function Taken(job: Job, strings: map<string, Entry>, left: set<string>): nat {
    |TakenKeys(job, strings) - left|
  }

  lemma NoneTaken(job: Job, strings: map<string, Entry>)
    ensures Taken(job, strings, strings.Keys) == 0
  {
    hide VerdictOn;
    assert TakenKeys(job, strings) - strings.Keys == {};
  }

  lemma AllTaken(job: Job, strings: map<string, Entry>)
    ensures Taken(job, strings, {}) == |TakenKeys(job, strings)|
  {
    hide TakenKeys;
    assert TakenKeys(job, strings) - {} == TakenKeys(job, strings);
  }

  lemma TakenNext(job: Job, strings: map<string, Entry>, left: set<string>, key: string)
    requires key in left && key in strings && VerdictOn(job, key, strings[key]).Some?
    ensures Taken(job, strings, left - {key}) ==
      Taken(job, strings, left) + if VerdictOn(job, key, strings[key]).value.Accepted? then 1 else 0
  {
    hide VerdictOn;
    var before, now := TakenKeys(job, strings) - left, TakenKeys(job, strings) - (left - {key});
    if VerdictOn(job, key, strings[key]).value.Accepted? {
      assert now == before + {key};
    } else {
      assert now == before;
    }
  }

  // ---- a key is imported whole or left alone ---------------------------------------------------------------

  lemma AcceptedIsWhole(key: string, entry: Entry, given: Values, forms: seq<string>, lang: string, draft: bool,
          linter: Linter)
    requires WellFormed(entry)
    requires Takes(key, entry, given, forms, lang, draft, linter)
    ensures var after := Outcome(key, entry, given, forms, lang, draft, linter);
      && TranslatedSlots(after, lang) == Some(given)
      && (forall other :: other in entry.localizations && other != lang ==>
            other in after.localizations && after.localizations[other] == entry.localizations[other])
    ensures SourceSlots(key, entry, forms).Some? && given.Keys == SlotSet(SourceSlots(key, entry, forms).value)
    ensures forall slot :: slot in given ==> given[slot] != "" && !linter.forbidden(given[slot])
    ensures var after := Outcome(key, entry, given, forms, lang, draft, linter);
      && !linter.complains(key, after) && entry.wanted
      && lang in after.localizations && SameShape(English(entry), after.localizations[lang])
  {
    BuiltKeepsShape(entry, given, StateOf(draft));
    hide SameShape;
    var owed := SourceSlots(key, entry, forms).value;
    assert given.Keys == SlotSet(owed);
    hide SourceSlots, TranslatedSlots, BuildLocalization, SlotSet;
    BuiltIsHeld(key, entry, forms, given, StateOf(draft), lang);
  }

  lemma {:induction false} RulesFromStates(rules: seq<Rule>, values: Values, state: string)
    ensures var built := RulesFrom(rules, values, state);
      |built| == |rules| && forall i :: 0 <= i < |built| ==> AllInState(built[i].forms, state)
  {
    if rules != [] { RulesFromStates(rules[1..], values, state); }
  }

  /** The rows a key owes do not depend on the key beyond the text shown. */
  lemma SlotsForAnyKey(key: string, other: string, entry: Entry, forms: seq<string>)
    ensures var a, b := SourceSlots(key, entry, forms), SourceSlots(other, entry, forms);
      a.Some? == b.Some? && (a.Some? ==> SlotSet(a.value) == SlotSet(b.value))
  {
    assert SlotSet([Owed(Slot("", ""), key)]) == {Slot("", "")} == SlotSet([Owed(Slot("", ""), other)]);
  }

  /** A taken key counts as finished, or as a draft if it was imported as one; `lang` is not the
      language the English stands in. */
  lemma AcceptedIsReviewed(key: string, entry: Entry, given: Values, forms: seq<string>, lang: string, draft: bool,
          linter: Linter)
    requires WellFormed(entry) && lang != SOURCE && forms != []
    requires Takes(key, entry, given, forms, lang, draft, linter)
    ensures ReviewState(Outcome(key, entry, given, forms, lang, draft, linter), lang, forms) ==
      Some(if draft then Draft else Finished)
  {
    var after := Outcome(key, entry, given, forms, lang, draft, linter);
    hide *;
    AcceptedIsWhole(key, entry, given, forms, lang, draft, linter);
    OutcomeIsBuilt(key, entry, given, forms, lang, draft, linter);
    SlotsForAnyKey(key, "", entry, forms);
    SlotsOfOutcome("", entry, lang, BuildLocalization(entry, given, StateOf(draft)), forms);
    BuiltStates(key, entry, given, forms, StateOf(draft));
    StatesDiffer(draft);
    var reviewed := AllTranslated(after.localizations[lang]);
    ReviewedFrom(after, lang, forms, given, SourceSlots("", after, forms).value, reviewed);
  }

  lemma StatesDiffer(draft: bool)
    ensures StateOf(draft) == TRANSLATED <==> !draft
  {
    assert TRANSLATED[0] != NEEDS_REVIEW[0];
  }

  lemma OutcomeIsBuilt(key: string, entry: Entry, given: Values, forms: seq<string>, lang: string, draft: bool,
          linter: Linter)
    requires Takes(key, entry, given, forms, lang, draft, linter)
    ensures var after := Outcome(key, entry, given, forms, lang, draft, linter);
      && after == With(entry, lang, BuildLocalization(entry, given, StateOf(draft)))
      && lang in after.localizations && after.localizations[lang] == BuildLocalization(entry, given, StateOf(draft))
  {
  }

  lemma SlotsOfOutcome(key: string, entry: Entry, lang: string, localization: Localization, forms: seq<string>)
    requires lang != SOURCE
    ensures SourceSlots(key, With(entry, lang, localization), forms) == SourceSlots(key, entry, forms)
  {
  }

  lemma ReviewedFrom(entry: Entry, lang: string, forms: seq<string>, given: Values, owed: seq<Owed>, done: bool)
    requires lang in entry.localizations && TranslatedSlots(entry, lang) == Some(given)
    requires SourceSlots("", entry, forms) == Some(owed) && given.Keys == SlotSet(owed)
    requires done == AllTranslated(entry.localizations[lang])
    ensures ReviewState(entry, lang, forms) == Some(if done then Finished else Draft)
  {
    hide SourceSlots, TranslatedSlots, AllTranslated;
    forall o | o in owed ensures o.slot in given {
      assert o.slot in SlotSet(owed);
    }
  }

  lemma BuiltStates(key: string, entry: Entry, values: Values, forms: seq<string>, state: string)
    requires WellFormed(entry) && forms != [] && SourceSlots(key, entry, forms).Some?
    requires values.Keys == SlotSet(SourceSlots(key, entry, forms).value)
    ensures AllTranslated(BuildLocalization(entry, values, state)) <==> state == TRANSLATED
  {
    if SOURCE in entry.localizations && entry.localizations[SOURCE].Plural? {
      FormSlotSet("", entry.localizations[SOURCE].forms, forms);
      assert Slot("", forms[0]) in values;
      assert forms[0] in FormsFrom("", values, state);
    } else if SOURCE in entry.localizations && entry.localizations[SOURCE].Sentence? {
      RulesFromStates(entry.localizations[SOURCE].rules, values, state);
    }
  }

  // ---- exporting and importing ---------------------------------------------------------------------------

  function StripFront(space: char -> bool, s: string): (r: string)
    ensures |r| <= |s| && (r != "" ==> !space(r[0]))
  {
    if s != "" && space(s[0]) then StripFront(space, s[1..]) else s
  }

  function StripEnd(space: char -> bool, s: string): (r: string)
    ensures |r| <= |s| && r == s[..|r|] && (r != "" ==> !space(r[|r| - 1]))
  {
    if s != "" && space(s[|s| - 1]) then StripEnd(space, s[..|s| - 1]) else s
  }

  /** What reading a row makes of its translation. */
  function Strip(space: char -> bool, s: string): (r: string)
    ensures r == s <==> s == "" || (!space(s[0]) && !space(s[|s| - 1]))
  {
    StripEnd(space, StripFront(space, s))
  }

  function HeldText(entry: Entry, lang: string, slot: Slot): string {
    var held := TranslatedSlots(entry, lang);
    if held.Some? && slot in held.value then held.value[slot] else ""
  }

  /** The rows of the slots a key owes, read back. */
  function RowsOf(catalog: string, key: string, entry: Entry, lang: string, owed: seq<Owed>,
          space: char -> bool): seq<Row> {
    if owed == [] then [] else
      var first := Row(catalog, key, owed[0].slot, Strip(space, HeldText(entry, lang, owed[0].slot)));
      [first] + RowsOf(catalog, key, entry, lang, owed[1..], space)
  }

  /** A worksheet of the given keys, in their order. */
  function Sheet(catalog: string, keys: seq<string>, strings: map<string, Entry>, forms: seq<string>, lang: string,
          space: char -> bool): seq<Row>
    requires forall key :: key in keys ==> key in strings && SourceSlots(key, strings[key], forms).Some?
  {
    if keys == [] then [] else
      var owed := SourceSlots(keys[0], strings[keys[0]], forms).value;
      RowsOf(catalog, keys[0], strings[keys[0]], lang, owed, space)
        + Sheet(catalog, keys[1..], strings, forms, lang, space)
  }

  /** Rows of another key or catalog do not matter. */
  lemma {:induction false} GivenSplits(a: seq<Row>, b: seq<Row>, catalog: string, key: string)
    ensures Given(a + b, catalog, key) == Given(a, catalog, key) + Given(b, catalog, key)
    decreases |b|
  {
    if b == [] {
      assert a + b == a;
      assert Given(a, catalog, key) + map[] == Given(a, catalog, key);
    } else {
      var front := b[..|b| - 1];
      assert (a + b)[..|a + b| - 1] == a + front;
      GivenSplits(a, front, catalog, key);
    }
  }

  lemma OneRowGives(row: Row, rest: seq<Row>)
    ensures Given([row] + rest, row.catalog, row.key) == map[row.slot := row.text] + Given(rest, row.catalog, row.key)
  {
    GivenSplits([row], rest, row.catalog, row.key);
    assert [row][..0] == [];
    assert Given([row], row.catalog, row.key) == map[row.slot := row.text];
  }

  lemma {:induction false} RowsGive(catalog: string, key: string, entry: Entry, lang: string, owed: seq<Owed>,
          space: char -> bool)
    ensures var given := Given(RowsOf(catalog, key, entry, lang, owed, space), catalog, key);
      && given.Keys == SlotSet(owed)
      && forall slot :: slot in given ==> given[slot] == Strip(space, HeldText(entry, lang, slot))
  {
    hide HeldText, Strip, Given;
    if owed == [] {
      assert Given([], catalog, key) == map[] by { NoRowsGiveNothing(catalog, key); }
    } else {
      var rest := owed[1..];
      RowsGive(catalog, key, entry, lang, rest, space);
      OneRowGives(Row(catalog, key, owed[0].slot, Strip(space, HeldText(entry, lang, owed[0].slot))),
        RowsOf(catalog, key, entry, lang, rest, space));
      assert owed == [owed[0]] + rest;
      SlotsOfBoth(owed[0], rest);
      hide SlotSet;
    }
  }

  lemma NoRowsGiveNothing(catalog: string, key: string)
    ensures Given([], catalog, key) == map[]
  {
  }

  lemma {:induction false} OtherRowsGiveNothing(catalog: string, key: string, entry: Entry, lang: string,
          owed: seq<Owed>, space: char -> bool, other: string)
    requires other != key
    ensures Given(RowsOf(catalog, key, entry, lang, owed, space), catalog, other) == map[]
  {
    if owed != [] {
      OtherRowsGiveNothing(catalog, key, entry, lang, owed[1..], space, other);
      var first := [Row(catalog, key, owed[0].slot, Strip(space, HeldText(entry, lang, owed[0].slot)))];
      GivenSplits(first, RowsOf(catalog, key, entry, lang, owed[1..], space), catalog, other);
      assert first[..0] == [];
    }
  }

  predicate Distinct(keys: seq<string>) {
    forall i, j :: 0 <= i < j < |keys| ==> keys[i] != keys[j]
  }

  /** The sheet gives each of its keys the stripped texts it holds, for exactly the slots it owes. */
  lemma {:induction false} SheetGives(catalog: string, keys: seq<string>, strings: map<string, Entry>,
          forms: seq<string>, lang: string, space: char -> bool, key: string)
    requires Distinct(keys)
    requires forall key :: key in keys ==> key in strings && SourceSlots(key, strings[key], forms).Some?
    ensures var given := Given(Sheet(catalog, keys, strings, forms, lang, space), catalog, key);
      if key in keys then
        && given.Keys == SlotSet(SourceSlots(key, strings[key], forms).value)
        && forall slot :: slot in given ==> given[slot] == Strip(space, HeldText(strings[key], lang, slot))
      else given == map[]
  {
    if keys != [] {
      var first, rest := keys[0], keys[1..];
      SheetGives(catalog, rest, strings, forms, lang, space, key);
      var owed := SourceSlots(first, strings[first], forms).value;
      GivenSplits(RowsOf(catalog, first, strings[first], lang, owed, space),
                  Sheet(catalog, rest, strings, forms, lang, space),
        catalog, key);
      assert key in keys <==> key == first || key in rest;
      assert first !in rest;
      if key == first {
        RowsGive(catalog, first, strings[first], lang, owed, space);
      } else {
        OtherRowsGiveNothing(catalog, first, strings[first], lang, owed, space, key);
      }
      hide SourceSlots, Strip, HeldText, RowsOf, Given, SlotSet;
    }
  }

  /** Importing an export back keeps every text of a slot that has no outer whitespace, whatever
      becomes of its key. */
  lemma ReimportKeepsTexts(job: Job, keys: seq<string>, strings: map<string, Entry>, space: char -> bool, key: string,
          slot: Slot)
    requires Distinct(keys) && key in keys
    requires forall key :: key in keys ==> key in strings && SourceSlots(key, strings[key], job.forms).Some?
    requires job.rows == Sheet(job.catalog, keys, strings, job.forms, job.lang, space)
    requires WellFormed(strings[key]) && slot in SlotSet(SourceSlots(key, strings[key], job.forms).value)
    requires var text := HeldText(strings[key], job.lang, slot); Strip(space, text) == text
    ensures HeldText(After(job, key, strings[key]), job.lang, slot) == HeldText(strings[key], job.lang, slot)
  {
    var entry, given := strings[key], Given(job.rows, job.catalog, key);
    SheetGives(job.catalog, keys, strings, job.forms, job.lang, space, key);
    hide SourceSlots, Strip, Given, SlotSet, TranslatedSlots, Sheet, Judge;
    if Takes(key, entry, given, job.forms, job.lang, job.draft, job.linter) {
      AcceptedIsWhole(key, entry, given, job.forms, job.lang, job.draft, job.linter);
    }
  }

  lemma CleanIsTaken(key: string, entry: Entry, given: Values, forms: seq<string>, lang: string, draft: bool,
          linter: Linter)
    requires entry.wanted && forms != [] && SourceSlots(key, entry, forms).Some?
    requires given.Keys == SlotSet(SourceSlots(key, entry, forms).value)
    requires forall slot :: slot in given ==> given[slot] != "" && !linter.forbidden(given[slot])
    requires !linter.complains(key, With(entry, lang, BuildLocalization(entry, given, StateOf(draft))))
    ensures Takes(key, entry, given, forms, lang, draft, linter)
  {
    var owed := SourceSlots(key, entry, forms).value;
    SomethingIsOwed(key, entry, forms);
    hide SourceSlots, BuildLocalization;
    assert owed[0].slot in SlotSet(owed);
    assert forall slot :: slot in given ==> slot in SlotSet(owed);
    forall o | o in owed ensures o.slot in given {
      assert o.slot in SlotSet(owed);
    }
  }

  /** A key whose slots are all held, by texts that are not blank and that the linter lets pass, is taken. */
  lemma CompleteKeyIsTaken(job: Job, keys: seq<string>, strings: map<string, Entry>, space: char -> bool, key: string)
    requires Distinct(keys) && key in keys && job.forms != []
    requires forall key :: key in keys ==> key in strings && SourceSlots(key, strings[key], job.forms).Some?
    requires job.rows == Sheet(job.catalog, keys, strings, job.forms, job.lang, space)
    requires strings[key].wanted
    requires forall slot :: slot in SlotSet(SourceSlots(key, strings[key], job.forms).value) ==>
      var text := Strip(space, HeldText(strings[key], job.lang, slot)); text != "" && !job.linter.forbidden(text)
    requires var values := Given(job.rows, job.catalog, key);
      var built := BuildLocalization(strings[key], values, StateOf(job.draft));
      !job.linter.complains(key, With(strings[key], job.lang, built))
    ensures VerdictOn(job, key, strings[key]).Some? && VerdictOn(job, key, strings[key]).value.Accepted?
  {
    var given := Given(job.rows, job.catalog, key);
    SheetGives(job.catalog, keys, strings, job.forms, job.lang, space, key);
    hide SourceSlots, Strip, Given, HeldText, Sheet, BuildLocalization, Judge, SlotSet;
    assert forall slot :: slot in given ==> slot in SlotSet(SourceSlots(key, strings[key], job.forms).value);
    CleanIsTaken(key, strings[key], given, job.forms, job.lang, job.draft, job.linter);
  }

  lemma SomethingIsOwed(key: string, entry: Entry, forms: seq<string>)
    requires SourceSlots(key, entry, forms).Some? && forms != []
    ensures SourceSlots(key, entry, forms).value != []
  {
  }
}
