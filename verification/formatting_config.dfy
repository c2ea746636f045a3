/**
 * The formatting rule editor (src/components/chat/FormattingConfigModal.tsx):
 * a copy of the chat's formatting settings that the user edits rule by rule
 * (update, append, delete) or switches on and off as a whole, and then either
 * saves, which hands the settings to the caller and closes, or cancels, which
 * only closes.
 *
 * The three rule-list edits are functions on the rule sequence; the modal is a
 * class whose `settings` field each handler replaces, and whose calls to the
 * `onSave` and `onClose` callbacks are recorded in order.
 */
module FormattingConfig {
  import opened Wrappers
  import opened Strings
  import opened TextFormatter

  /** `Partial<FormattingRule>`: the fields an edit overrides. */
  datatype RuleUpdate = RuleUpdate(
    id: Option<string>,
    delimiter: Option<string>,
    name: Option<string>,
    styles: Option<Styles>,
    enabled: Option<bool>)

  const NoUpdate: RuleUpdate := RuleUpdate(None, None, None, None, None)

  /** `{ ...rule, ...updates }`: each field the update holds replaces the rule's. */
  function Merge(rule: Rule, u: RuleUpdate): (r: Rule)
    ensures u == NoUpdate ==> r == rule
    ensures r.id == (if u.id.Some? then u.id.value else rule.id)
    ensures r.delimiter == (if u.delimiter.Some? then u.delimiter.value else rule.delimiter)
    ensures r.name == (if u.name.Some? then u.name.value else rule.name)
    ensures r.styles == (if u.styles.Some? then u.styles.value else rule.styles)
    ensures r.enabled == (if u.enabled.Some? then u.enabled.value else rule.enabled)
  {
    Rule(u.id.GetOr(rule.id), u.delimiter.GetOr(rule.delimiter), u.name.GetOr(rule.name),
         u.styles.GetOr(rule.styles), u.enabled.GetOr(rule.enabled))
  }

  /**
   * `updateRule(index, updates)`: the rule at `index` is merged with the
   * update, every other rule is kept, and the list keeps its length.
   */
  function UpdateRule(rules: seq<Rule>, index: int, u: RuleUpdate): (r: seq<Rule>)
    ensures |r| == |rules|
    ensures forall i :: 0 <= i < |rules| && i != index ==> r[i] == rules[i]
    ensures 0 <= index < |rules| ==> r[index] == Merge(rules[index], u)
  {
    seq(|rules|, i requires 0 <= i < |rules| => if i == index then Merge(rules[i], u) else rules[i])
  }

  /** An index outside the list changes nothing. */
  lemma UpdateOutOfRange(rules: seq<Rule>, index: int, u: RuleUpdate)
    requires index < 0 || index >= |rules|
    ensures UpdateRule(rules, index, u) == rules
  {
  }

  /** The rule `addRule` appends: delimiter "|", named "New Rule", black text, enabled. */
  function NewRule(now: nat): Rule {
    Rule("rule_" + NatToDecimal(now), "|", "New Rule", NoStyles.(color := Some("#000000")), true)
  }

  /** `addRule`, `now` standing for `Date.now()`: the new rule goes at the end, the others are kept. */
  function AddRule(rules: seq<Rule>, now: nat): (r: seq<Rule>)
    ensures |r| == |rules| + 1
    ensures r[..|rules|] == rules
    ensures r[|rules|].delimiter == "|" && r[|rules|].name == "New Rule" && r[|rules|].enabled
    ensures r[|rules|].styles == NoStyles.(color := Some("#000000"))
  {
    rules + [NewRule(now)]
  }

  /** `deleteRule(index)`: `rules.filter((_, i) => i !== index)`. */
  function DeleteRule(rules: seq<Rule>, index: int): (r: seq<Rule>)
    ensures |r| == if 0 <= index < |rules| then |rules| - 1 else |rules|
    decreases |rules|
  {
    if rules == [] then []
    else (if index == 0 then [] else [rules[0]]) + DeleteRule(rules[1..], index - 1)
  }

  /**
   * The filter removes exactly the rule at `index` and keeps the others in
   * their order; an index outside the list removes nothing.
   */
  lemma {:induction false} DeleteRuleRemovesOne(rules: seq<Rule>, index: int)
    ensures 0 <= index < |rules| ==> DeleteRule(rules, index) == rules[..index] + rules[index + 1..]
    ensures !(0 <= index < |rules|) ==> DeleteRule(rules, index) == rules
    decreases |rules|
  {
    if rules != [] {
      DeleteRuleRemovesOne(rules[1..], index - 1);
      if index == 0 {
        assert rules[..0] + rules[1..] == rules[1..];
      } else if 0 < index < |rules| {
        assert [rules[0]] + (rules[1..][..index - 1] + rules[1..][index..]) == rules[..index] + rules[index + 1..];
      } else {
        assert [rules[0]] + rules[1..] == rules;
      }
    }
  }

  /** Deleting the rule just added gives back the list as it was. */
  lemma DeleteUndoesAdd(rules: seq<Rule>, now: nat)
    ensures DeleteRule(AddRule(rules, now), |rules|) == rules
  {
    var added := AddRule(rules, now);
    DeleteRuleRemovesOne(added, |rules|);
    assert added[..|rules|] == rules;
    assert added[|rules| + 1..] == [];
  }

  /**
   * The editor accepts any delimiter of at most three characters, the empty
   * one included: clearing the delimiter of an enabled first rule leaves an
   * enabled rule with an empty delimiter in first position, and the scan as
   * written then matches it where it stands without moving.
   */
  lemma EditorAllowsStallingRule(settings: Settings, text: string, cur: nat)
    requires |settings.rules| > 0 && settings.rules[0].enabled
    requires cur < |text|
    ensures var edited := UpdateRule(settings.rules, 0, NoUpdate.(delimiter := Some("")));
      var active := EnabledRules(edited);
      && |active| > 0 && active[0].delimiter == ""
      && NextMatchAsWritten(text, active, cur) == Some(Match(cur, active[0], cur))
  {
    var edited := UpdateRule(settings.rules, 0, NoUpdate.(delimiter := Some("")));
    assert edited == [edited[0]] + edited[1..];
    EnabledRulesCons(edited);
    var active := EnabledRules(edited);
    EmptyDelimiterStalls(text, active, cur);
  }

  lemma EnabledRulesCons(rules: seq<Rule>)
    requires |rules| > 0 && rules[0].enabled
    ensures EnabledRules(rules) == [rules[0]] + EnabledRules(rules[1..])
  {
  }

  /** A call the modal makes to its parent. */
  datatype Callback = Saved(settings: Settings) | Closed

  class FormattingConfigModal {
    var settings: Settings
    /** The calls to `onSave` and `onClose`, in order. */
    var calls: seq<Callback>

    /** The settings the modal opens with: `currentSettings || createDefaultFormattingSettings()`. */
    static function InitialSettings(currentSettings: Option<Settings>): (s: Settings)
      ensures currentSettings.Some? ==> s == currentSettings.value
      ensures currentSettings.None? ==> s == CreateDefaultFormattingSettings()
    {
      currentSettings.GetOr(CreateDefaultFormattingSettings())
    }

    constructor(currentSettings: Option<Settings>)
      ensures settings == InitialSettings(currentSettings) && calls == []
    {
      settings := InitialSettings(currentSettings);
      calls := [];
    }

    /** The effect run when `currentSettings` or `isOpen` changes: the same choice, edits discarded. */
    method Reopen(currentSettings: Option<Settings>)
      modifies this
      ensures settings == InitialSettings(currentSettings) && calls == old(calls)
    {
      settings := InitialSettings(currentSettings);
    }

    /** The master switch: only `enabled` changes, the rules are untouched. */
    method HandleEnabledChange(enabled: bool)
      modifies this
      ensures settings.enabled == enabled && settings.rules == old(settings.rules)
      ensures calls == old(calls)
    {
      settings := settings.(enabled := enabled);
    }

    method UpdateRuleAt(index: int, u: RuleUpdate)
      modifies this
      ensures settings == old(settings).(rules := UpdateRule(old(settings.rules), index, u))
      ensures calls == old(calls)
    {
      settings := settings.(rules := UpdateRule(settings.rules, index, u));
    }

    method AddRuleNow(now: nat)
      modifies this
      ensures settings == old(settings).(rules := AddRule(old(settings.rules), now))
      ensures calls == old(calls)
    {
      settings := settings.(rules := AddRule(settings.rules, now));
    }

    method DeleteRuleAt(index: int)
      modifies this
      ensures settings == old(settings).(rules := DeleteRule(old(settings.rules), index))
      ensures calls == old(calls)
    {
      settings := settings.(rules := DeleteRule(settings.rules, index));
    }

    /** `handleSave`: `onSave` gets the edited settings, then the modal closes. */
    method HandleSave()
      modifies this
      ensures settings == old(settings)
      ensures calls == old(calls) + [Saved(settings), Closed]
    {
      calls := calls + [Saved(settings)];
      calls := calls + [Closed];
    }

    /** The Cancel button: the modal closes and `onSave` is not called. */
    method Cancel()
      modifies this
      ensures settings == old(settings)
      ensures calls == old(calls) + [Closed]
    {
      calls := calls + [Closed];
    }
  }
}
