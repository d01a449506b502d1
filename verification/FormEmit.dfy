/**
 The YAML generator of the policy editor. The emit methods push onto one shared list of lines, as the
 generator does.
 */
module FormEmit {
  import opened Prelude
  import opened YamlText
  import opened FormState
  import opened FormTree

  // ---------- the lines of each part ----------

  function TextLines(indent: nat, key: string, text: string): seq<Line> {
    if text == "" then [] else [Line(indent, false, key, Scalar(text))]
  }

  function ListLines(indent: nat, key: string, texts: seq<string>): seq<Line> {
    if texts == [] then [] else [Line(indent, false, key, Items(texts))]
  }

  function FlagLines(indent: nat, key: string, on: bool): seq<Line> {
    if on then [Line(indent, false, key, Scalar("true"))] else []
  }

  function FieldLines(f: Field, indent: nat): seq<Line> {
    match f.value
    case Text(t) => TextLines(indent, f.key, t)
    case Texts(ts) => ListLines(indent, f.key, ts)
    case Flag(on) => [Line(indent, false, f.key, Scalar(FlagText(on)))]
  }

  function FieldsLines(fields: seq<Field>, indent: nat): seq<Line> {
    if fields == [] then []
    else FieldsLines(fields[..|fields| - 1], indent) + FieldLines(fields[|fields| - 1], indent)
  }

  function ItemLines(item: FormItem, indent: nat): seq<Line> {
    [Line(indent, true, "type", Scalar(item.kind))] + FieldsLines(item.fields, indent + 2)
  }

  function ItemsLines(items: seq<FormItem>): seq<Line> {
    if items == [] then [] else ItemsLines(items[..|items| - 1]) + ItemLines(items[|items| - 1], 8)
  }

  function SectionLines(key: string, items: seq<FormItem>): seq<Line> {
    if items == [] then [] else [Line(6, false, key, Nothing)] + ItemsLines(items)
  }

  function ConditionFieldLines(c: FormConditions): seq<Line> {
    TextLines(8, "file_size_min", c.fileSizeMin) + TextLines(8, "file_size_max", c.fileSizeMax)
    + ListLines(8, "file_extensions", c.fileExtensions)
    + TextLines(8, "filename_regex", c.filenameRegex) + TextLines(8, "path_regex", c.pathRegex)
  }

  predicate AnyCondition(c: FormConditions) {
    c.fileSizeMin != "" || c.fileSizeMax != "" || c.fileExtensions != [] || c.filenameRegex != "" || c.pathRegex != ""
  }

  function ConditionsLines(cond: Option<FormConditions>): seq<Line> {
    if cond.None? || !AnyCondition(cond.value) then []
    else [Line(6, false, "conditions", Nothing)] + ConditionFieldLines(cond.value)
  }

  function TagsLines(tags: seq<Tag>): seq<Line> {
    if tags == [] then []
    else TagsLines(tags[..|tags| - 1]) + [Line(6, false, tags[|tags| - 1].key, Scalar(tags[|tags| - 1].value))]
  }

  predicate HasMode(t: FormTargets) {
    match t.mode
    case All => false
    case Tags => t.tags != []
    case Groups => t.groups != []
    case AgentIds => t.agentIds != []
  }

  function SelectorLines(t: FormTargets): seq<Line> {
    match t.mode
    case All => []
    case Tags => if t.tags == [] then [] else [Line(4, false, "tags", Nothing)] + TagsLines(t.tags)
    case Groups => ListLines(4, "groups", t.groups)
    case AgentIds => ListLines(4, "agent_ids", t.agentIds)
  }

  function TargetsLines(t: FormTargets): seq<Line> {
    if !HasMode(t) && t.os == [] then []
    else
      [Line(0, false, "targets", Nothing), Line(2, false, "match", Nothing)] + ListLines(4, "os", t.os)
      + SelectorLines(t)
  }

  function RuleHeadLines(r: FormRule): seq<Line> {
    [Line(4, true, "id", Scalar(r.id))] + TextLines(6, "name", r.name)
    + [Line(6, false, "severity", Scalar(r.severity))] + [Line(6, false, "action", Scalar(r.action))]
    + TextLines(6, "message", r.message)
    + FlagLines(6, "notify_user", r.notifyUser) + FlagLines(6, "forward_to_siem", r.forwardToSiem)
  }

  function RuleLines(form: Form): seq<Line> {
    RuleHeadLines(form.rule) + SectionLines("sources", form.sources) + SectionLines("destinations", form.destinations)
    + ConditionsLines(form.conditions)
  }

  function HeaderLines(form: Form): seq<Line> {
    [Line(0, false, "apiVersion", Scalar("scroogedlp.io/v1"))] + [Line(0, false, "kind", Scalar("Policy"))]
    + [Line(0, false, "metadata", Nothing)] + [Line(2, false, "name", Scalar(form.name))]
    + TextLines(2, "description", form.description)
  }

  function RulesLines(form: Form): seq<Line> {
    if form.rule.id == "" then []
    else [Line(0, false, "rules", Nothing)] + [Line(2, false, "outbound", Nothing)] + RuleLines(form)
  }

  function FormLines(form: Form): seq<Line> {
    HeaderLines(form) + TargetsLines(form.targets) + [Line(0, false, "priority", Scalar(IntText(form.priority)))]
    + RulesLines(form)
  }

  // ---------- the generator ----------

  lemma Regroup<T>(a: seq<T>, b: seq<T>, c: seq<T>)
    ensures (a + b) + c == a + (b + c)
  {
  }

  lemma Regroup4<T>(o: seq<T>, a: seq<T>, b: seq<T>, c: seq<T>, d: seq<T>)
    ensures o + a + b + c + d == o + (a + b + c + d)
  {
  }

  class Emitter {
    var lines: seq<Line>

    constructor ()
      ensures lines == []
    {
      lines := [];
    }

    method Push(indent: nat, dash: bool, key: string, value: Value)
      modifies this
      ensures lines == old(lines) + [Line(indent, dash, key, value)]
    {
      lines := lines + [Line(indent, dash, key, value)];
    }

    /** A string that is written only when it is not empty. */
    method PushText(indent: nat, key: string, text: string)
      modifies this
      ensures lines == old(lines) + TextLines(indent, key, text)
    {
      if text != "" {
        Push(indent, false, key, Scalar(text));
      }
    }

    /** A list that is written only when it is not empty. */
    method PushList(indent: nat, key: string, texts: seq<string>)
      modifies this
      ensures lines == old(lines) + ListLines(indent, key, texts)
    {
      if texts != [] {
        Push(indent, false, key, Items(texts));
      }
    }

    method PushFlag(indent: nat, key: string, on: bool)
      modifies this
      ensures lines == old(lines) + FlagLines(indent, key, on)
    {
      if on {
        Push(indent, false, key, Scalar("true"));
      }
    }

    method PushField(f: Field, indent: nat)
      modifies this
      ensures lines == old(lines) + FieldLines(f, indent)
    {
      match f.value {
        case Text(t) => PushText(indent, f.key, t);
        case Texts(ts) => PushList(indent, f.key, ts);
        case Flag(on) => Push(indent, false, f.key, Scalar(FlagText(on)));
      }
    }

    /** The type after the dash, then the fields two columns further in. */
    method EmitSourceLike(item: FormItem, indent: nat)
      modifies this
      ensures lines == old(lines) + ItemLines(item, indent)
    {
      Push(indent, true, "type", Scalar(item.kind));
      ghost var start := lines;
      for i := 0 to |item.fields|
        invariant lines == start + FieldsLines(item.fields[..i], indent + 2)
      {
        assert item.fields[..i + 1][..i] == item.fields[..i];
        Regroup(start, FieldsLines(item.fields[..i], indent + 2), FieldLines(item.fields[i], indent + 2));
        PushField(item.fields[i], indent + 2);
      }
      assert item.fields[..|item.fields|] == item.fields;
    }

    method EmitEach(items: seq<FormItem>)
      modifies this
      ensures lines == old(lines) + ItemsLines(items)
    {
      for i := 0 to |items|
        invariant lines == old(lines) + ItemsLines(items[..i])
      {
        assert items[..i + 1][..i] == items[..i];
        Regroup(old(lines), ItemsLines(items[..i]), ItemLines(items[i], 8));
        EmitSourceLike(items[i], 8);
      }
      assert items[..|items|] == items;
    }

    method EmitSection(key: string, items: seq<FormItem>)
      modifies this
      ensures lines == old(lines) + SectionLines(key, items)
    {
      if items != [] {
        Push(6, false, key, Nothing);
        ghost var start := lines;
        ghost var each := ItemsLines(items);
        EmitEach(items);
        assert lines == start + each;
        Regroup(old(lines), [Line(6, false, key, Nothing)], each);
      }
    }

    method EmitConditionFields(c: FormConditions)
      modifies this
      ensures lines == old(lines) + ConditionFieldLines(c)
    {
      PushText(8, "file_size_min", c.fileSizeMin);
      PushText(8, "file_size_max", c.fileSizeMax);
      PushList(8, "file_extensions", c.fileExtensions);
      PushText(8, "filename_regex", c.filenameRegex);
      PushText(8, "path_regex", c.pathRegex);
    }

    method EmitConditions(cond: Option<FormConditions>)
      modifies this
      ensures lines == old(lines) + ConditionsLines(cond)
    {
      if cond.None? || !AnyCondition(cond.value) {
        return;
      }
      Push(6, false, "conditions", Nothing);
      Regroup(old(lines), [Line(6, false, "conditions", Nothing)], ConditionFieldLines(cond.value));
      EmitConditionFields(cond.value);
    }

    method EmitTags(tags: seq<Tag>)
      modifies this
      ensures lines == old(lines) + TagsLines(tags)
    {
      ghost var start := lines;
      for i := 0 to |tags|
        invariant lines == start + TagsLines(tags[..i])
      {
        assert tags[..i + 1][..i] == tags[..i];
        Push(6, false, tags[i].key, Scalar(tags[i].value));
      }
      assert tags[..|tags|] == tags;
    }

    method EmitSelector(t: FormTargets)
      modifies this
      ensures lines == old(lines) + SelectorLines(t)
    {
      match t.mode {
        case All =>
        case Tags =>
          if t.tags != [] {
            Push(4, false, "tags", Nothing);
            EmitTags(t.tags);
          }
        case Groups => PushList(4, "groups", t.groups);
        case AgentIds => PushList(4, "agent_ids", t.agentIds);
      }
    }

    method EmitTargets(t: FormTargets)
      modifies this
      ensures lines == old(lines) + TargetsLines(t)
    {
      if !HasMode(t) && t.os == [] {
        return;
      }
      Push(0, false, "targets", Nothing);
      Push(2, false, "match", Nothing);
      PushList(4, "os", t.os);
      EmitSelector(t);
    }

    method EmitRuleHead(r: FormRule)
      modifies this
      ensures lines == old(lines) + RuleHeadLines(r)
    {
      Push(4, true, "id", Scalar(r.id));
      PushText(6, "name", r.name);
      Push(6, false, "severity", Scalar(r.severity));
      Push(6, false, "action", Scalar(r.action));
      PushText(6, "message", r.message);
      PushFlag(6, "notify_user", r.notifyUser);
      PushFlag(6, "forward_to_siem", r.forwardToSiem);
    }

    method EmitRule(form: Form)
      modifies this
      ensures lines == old(lines) + RuleLines(form)
    {
      EmitRuleHead(form.rule);
      EmitSection("sources", form.sources);
      EmitSection("destinations", form.destinations);
      EmitConditions(form.conditions);
      Regroup4(old(lines), RuleHeadLines(form.rule), SectionLines("sources", form.sources),
               SectionLines("destinations", form.destinations), ConditionsLines(form.conditions));
    }

    method EmitHeader(form: Form)
      modifies this
      ensures lines == old(lines) + HeaderLines(form)
    {
      Push(0, false, "apiVersion", Scalar("scroogedlp.io/v1"));
      Push(0, false, "kind", Scalar("Policy"));
      Push(0, false, "metadata", Nothing);
      Push(2, false, "name", Scalar(form.name));
      PushText(2, "description", form.description);
    }

    method EmitRules(form: Form)
      modifies this
      ensures lines == old(lines) + RulesLines(form)
    {
      if form.rule.id != "" {
        Push(0, false, "rules", Nothing);
        Push(2, false, "outbound", Nothing);
        EmitRule(form);
        Regroup(old(lines), [Line(0, false, "rules", Nothing)], [Line(2, false, "outbound", Nothing)]);
        Regroup(old(lines), [Line(0, false, "rules", Nothing)] + [Line(2, false, "outbound", Nothing)],
                RuleLines(form));
      }
    }

    method EmitForm(form: Form)
      modifies this
      ensures lines == old(lines) + FormLines(form)
    {
      EmitHeader(form);
      EmitTargets(form.targets);
      Push(0, false, "priority", Scalar(IntText(form.priority)));
      EmitRules(form);
      Regroup4(old(lines), HeaderLines(form), TargetsLines(form.targets),
               [Line(0, false, "priority", Scalar(IntText(form.priority)))], RulesLines(form));
    }
  }

  /** The whole document for a form. */
  method FormToYaml(form: Form) returns (text: string)
    ensures text == DocumentText(FormLines(form))
  {
    var e := new Emitter();
    e.EmitForm(form);
    assert [] + FormLines(form) == FormLines(form);
    text := DocumentText(e.lines);
  }
}
