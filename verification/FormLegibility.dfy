/** Which forms give a document that a YAML reader accepts: no bare dash as a value, no overlong tag key. */
module FormLegibility {
  import opened Prelude
  import opened PolicyModel
  import opened YamlScalar
  import opened YamlText
  import opened FormState
  import opened FormTree
  import opened FormEmit
  import opened EditorItems
  import FileSize

  // ---------- keys ----------

  lemma {:induction false} EscapeLength(s: string)
    ensures |Escape(s)| <= 2 * |s|
  {
    if s != "" {
      EscapeLength(s[1..]);
    }
  }

  /** Quoting at most doubles a key and adds two quotes, so the schema's own keys are never too long. */
  lemma ShortKey(key: string)
    requires |key| <= 500
    ensures LegibleKey(key)
  {
    TwoPassesAreOne(key);
    EscapeLength(key);
  }

  // ---------- parts of the document ----------

  lemma LegibleConcat(a: seq<Line>, b: seq<Line>)
    ensures AllLegible(a + b) <==> AllLegible(a) && AllLegible(b)
  {
    if AllLegible(a + b) {
      forall i | 0 <= i < |a| ensures Legible(a[i]) {
        assert (a + b)[i] == a[i];
      }
      forall i | 0 <= i < |b| ensures Legible(b[i]) {
        assert (a + b)[|a| + i] == b[i];
      }
    }
  }

  lemma LegibleConcat5(a: seq<Line>, b: seq<Line>, c: seq<Line>, d: seq<Line>, e: seq<Line>)
    ensures AllLegible(a + b + c + d + e) <==>
              AllLegible(a) && AllLegible(b) && AllLegible(c) && AllLegible(d) && AllLegible(e)
  {
    LegibleConcat(a, b);
    LegibleConcat(a + b, c);
    LegibleConcat(a + b + c, d);
    LegibleConcat(a + b + c + d, e);
  }

  lemma OneLegible(l: Line)
    ensures AllLegible([l]) <==> Legible(l)
  {
    assert [l][0] == l;
  }

  lemma HeadLegible(indent: nat, dash: bool, key: string)
    requires |key| <= 500
    ensures AllLegible([Line(indent, dash, key, Nothing)])
  {
    ShortKey(key);
    OneLegible(Line(indent, dash, key, Nothing));
  }

  lemma ScalarLegible(indent: nat, dash: bool, key: string, text: string)
    requires |key| <= 500
    ensures AllLegible([Line(indent, dash, key, Scalar(text))]) <==> text != "-"
  {
    ShortKey(key);
    OneLegible(Line(indent, dash, key, Scalar(text)));
  }

  lemma TextLegible(indent: nat, key: string, text: string)
    requires |key| <= 500
    ensures AllLegible(TextLines(indent, key, text)) <==> text != "-"
  {
    ScalarLegible(indent, false, key, text);
  }

  lemma ListLegible(indent: nat, key: string, texts: seq<string>)
    requires |key| <= 500
    ensures AllLegible(ListLines(indent, key, texts))
  {
    ShortKey(key);
    OneLegible(Line(indent, false, key, Items(texts)));
  }

  lemma FlagLegible(indent: nat, key: string, on: bool)
    requires |key| <= 500
    ensures AllLegible(FlagLines(indent, key, on))
  {
    ScalarLegible(indent, false, key, "true");
  }

  /** The items of sources and destinations: a kind, lists and flags under schema keys. */
  predicate TameItem(item: FormItem) {
    item.kind != "-" && forall i | 0 <= i < |item.fields| :: |item.fields[i].key| <= 500 && !item.fields[i].value.Text?
  }

  predicate TameItems(items: seq<FormItem>) {
    forall i | 0 <= i < |items| :: TameItem(items[i])
  }

  lemma {:induction false} FieldsLegible(fields: seq<Field>, indent: nat)
    requires forall i | 0 <= i < |fields| :: |fields[i].key| <= 500 && !fields[i].value.Text?
    ensures AllLegible(FieldsLines(fields, indent))
  {
    if fields != [] {
      var init, last := fields[..|fields| - 1], fields[|fields| - 1];
      FieldsLegible(init, indent);
      match last.value {
        case Texts(ts) => ListLegible(indent, last.key, ts);
        case Flag(on) => ScalarLegible(indent, false, last.key, FlagText(on));
      }
      LegibleConcat(FieldsLines(init, indent), FieldLines(last, indent));
    }
  }

  lemma ItemLegible(item: FormItem, indent: nat)
    requires TameItem(item)
    ensures AllLegible(ItemLines(item, indent))
  {
    ScalarLegible(indent, true, "type", item.kind);
    FieldsLegible(item.fields, indent + 2);
    LegibleConcat([Line(indent, true, "type", Scalar(item.kind))], FieldsLines(item.fields, indent + 2));
  }

  lemma {:induction false} ItemsLegible(items: seq<FormItem>)
    requires TameItems(items)
    ensures AllLegible(ItemsLines(items))
  {
    if items != [] {
      var init, last := items[..|items| - 1], items[|items| - 1];
      assert ItemsLines(items) == ItemsLines(init) + ItemLines(last, 8);
      ItemsLegible(init);
      ItemLegible(last, 8);
      LegibleConcat(ItemsLines(init), ItemLines(last, 8));
    }
  }

  lemma SectionLegible(key: string, items: seq<FormItem>)
    requires TameItems(items) && |key| <= 500
    ensures AllLegible(SectionLines(key, items))
  {
    if items != [] {
      var each := ItemsLines(items);
      assert AllLegible(each) by {
        ItemsLegible(items);
      }
      HeadLegible(6, false, key);
      LegibleConcat([Line(6, false, key, Nothing)], each);
    }
  }

  predicate LegibleConditions(c: FormConditions) {
    c.fileSizeMin != "-" && c.fileSizeMax != "-" && c.filenameRegex != "-" && c.pathRegex != "-"
  }

  lemma ConditionsLegible(cond: Option<FormConditions>)
    ensures AllLegible(ConditionsLines(cond)) <==> (cond.Some? ==> LegibleConditions(cond.value))
  {
    if cond.Some? {
      var c := cond.value;
      TextLegible(8, "file_size_min", c.fileSizeMin);
      TextLegible(8, "file_size_max", c.fileSizeMax);
      ListLegible(8, "file_extensions", c.fileExtensions);
      TextLegible(8, "filename_regex", c.filenameRegex);
      TextLegible(8, "path_regex", c.pathRegex);
      LegibleConcat5(TextLines(8, "file_size_min", c.fileSizeMin), TextLines(8, "file_size_max", c.fileSizeMax),
                     ListLines(8, "file_extensions", c.fileExtensions), TextLines(8, "filename_regex", c.filenameRegex),
                     TextLines(8, "path_regex", c.pathRegex));
      HeadLegible(6, false, "conditions");
      LegibleConcat([Line(6, false, "conditions", Nothing)], ConditionFieldLines(c));
    }
  }

  predicate LegibleTag(tag: Tag) {
    LegibleKey(tag.key) && tag.value != "-"
  }

  predicate LegibleTags(tags: seq<Tag>) {
    forall i | 0 <= i < |tags| :: LegibleTag(tags[i])
  }

  function TagLine(tag: Tag): Line {
    Line(6, false, tag.key, Scalar(tag.value))
  }

  lemma {:induction false} TagsLinesAt(tags: seq<Tag>)
    ensures |TagsLines(tags)| == |tags| && forall i | 0 <= i < |tags| :: TagsLines(tags)[i] == TagLine(tags[i])
  {
    if tags != [] {
      TagsLinesAt(tags[..|tags| - 1]);
    }
  }

  lemma TagLineLegible(tag: Tag)
    ensures Legible(TagLine(tag)) <==> LegibleTag(tag)
  {
  }

  lemma TagsLegible(tags: seq<Tag>)
    ensures AllLegible(TagsLines(tags)) <==> LegibleTags(tags)
  {
    var lines := TagsLines(tags);
    TagsLinesAt(tags);
    forall i | 0 <= i < |tags| ensures Legible(lines[i]) <==> LegibleTag(tags[i]) {
      TagLineLegible(tags[i]);
    }
  }

  lemma SelectorLegible(t: FormTargets)
    ensures AllLegible(SelectorLines(t)) <==> (t.mode.Tags? ==> LegibleTags(t.tags))
  {
    match t.mode {
      case All =>
      case Tags =>
        TagsLegible(t.tags);
        HeadLegible(4, false, "tags");
        LegibleConcat([Line(4, false, "tags", Nothing)], TagsLines(t.tags));
      case Groups => ListLegible(4, "groups", t.groups);
      case AgentIds => ListLegible(4, "agent_ids", t.agentIds);
    }
  }

  lemma TargetsLegible(t: FormTargets)
    ensures AllLegible(TargetsLines(t)) <==> (t.mode.Tags? ==> LegibleTags(t.tags))
  {
    if HasMode(t) || t.os != [] {
      var head := [Line(0, false, "targets", Nothing), Line(2, false, "match", Nothing)];
      HeadLegible(0, false, "targets");
      HeadLegible(2, false, "match");
      assert head == [Line(0, false, "targets", Nothing)] + [Line(2, false, "match", Nothing)];
      LegibleConcat([Line(0, false, "targets", Nothing)], [Line(2, false, "match", Nothing)]);
      ListLegible(4, "os", t.os);
      SelectorLegible(t);
      LegibleConcat(head, ListLines(4, "os", t.os));
      LegibleConcat(head + ListLines(4, "os", t.os), SelectorLines(t));
    }
  }

  predicate LegibleRule(r: FormRule) {
    r.id != "-" && r.name != "-" && r.severity != "-" && r.action != "-" && r.message != "-"
  }

  lemma RuleHeadLegible(r: FormRule)
    ensures AllLegible(RuleHeadLines(r)) <==> LegibleRule(r)
  {
    var id := [Line(4, true, "id", Scalar(r.id))];
    var name := TextLines(6, "name", r.name);
    var severity := [Line(6, false, "severity", Scalar(r.severity))];
    var action := [Line(6, false, "action", Scalar(r.action))];
    var message := TextLines(6, "message", r.message);
    var notify := FlagLines(6, "notify_user", r.notifyUser);
    var siem := FlagLines(6, "forward_to_siem", r.forwardToSiem);
    ScalarLegible(4, true, "id", r.id);
    TextLegible(6, "name", r.name);
    ScalarLegible(6, false, "severity", r.severity);
    ScalarLegible(6, false, "action", r.action);
    TextLegible(6, "message", r.message);
    FlagLegible(6, "notify_user", r.notifyUser);
    FlagLegible(6, "forward_to_siem", r.forwardToSiem);
    LegibleConcat5(id, name, severity, action, message);
    LegibleConcat(id + name + severity + action + message, notify);
    LegibleConcat(id + name + severity + action + message + notify, siem);
  }

  lemma RuleLegible(form: Form)
    requires TameItems(form.sources) && TameItems(form.destinations)
    ensures AllLegible(RuleLines(form)) <==>
              LegibleRule(form.rule) && (form.conditions.Some? ==> LegibleConditions(form.conditions.value))
  {
    var head, sources := RuleHeadLines(form.rule), SectionLines("sources", form.sources);
    var destinations, conditions := SectionLines("destinations", form.destinations), ConditionsLines(form.conditions);
    RuleHeadLegible(form.rule);
    SectionLegible("sources", form.sources);
    SectionLegible("destinations", form.destinations);
    ConditionsLegible(form.conditions);
    LegibleConcat(head, sources);
    LegibleConcat(head + sources, destinations);
    LegibleConcat(head + sources + destinations, conditions);
  }

  lemma HeaderLegible(form: Form)
    ensures AllLegible(HeaderLines(form)) <==> form.name != "-" && form.description != "-"
  {
    ScalarLegible(0, false, "apiVersion", "scroogedlp.io/v1");
    ScalarLegible(0, false, "kind", "Policy");
    HeadLegible(0, false, "metadata");
    ScalarLegible(2, false, "name", form.name);
    TextLegible(2, "description", form.description);
    LegibleConcat5([Line(0, false, "apiVersion", Scalar("scroogedlp.io/v1"))],
                   [Line(0, false, "kind", Scalar("Policy"))],
                   [Line(0, false, "metadata", Nothing)], [Line(2, false, "name", Scalar(form.name))],
                   TextLines(2, "description", form.description));
  }

  lemma IntIsNoDash(n: int)
    ensures IntText(n) != "-"
  {
    var digits := FileSize.DecimalText(if n < 0 then -n else n);
    assert FileSize.DigitChar(digits[0]);
  }

  predicate LegibleForm(form: Form) {
    && form.name != "-" && form.description != "-"
    && (form.targets.mode.Tags? ==> LegibleTags(form.targets.tags))
    && (form.rule.id != "" ==>
          LegibleRule(form.rule) && (form.conditions.Some? ==> LegibleConditions(form.conditions.value)))
  }

  lemma RulesLegible(form: Form)
    requires TameItems(form.sources) && TameItems(form.destinations) && form.rule.id != ""
    ensures AllLegible(RulesLines(form)) <==> AllLegible(RuleLines(form))
  {
    var a, b := [Line(0, false, "rules", Nothing)], [Line(2, false, "outbound", Nothing)];
    HeadLegible(0, false, "rules");
    HeadLegible(2, false, "outbound");
    LegibleConcat(a, b);
    LegibleConcat(a + b, RuleLines(form));
  }

  /** The pushed lines are all legible exactly for these forms. */
  lemma FormLegibleExactly(form: Form)
    requires TameItems(form.sources) && TameItems(form.destinations)
    ensures AllLegible(FormLines(form)) <==> LegibleForm(form)
  {
    var header, targets := HeaderLines(form), TargetsLines(form.targets);
    var priority, rules := [Line(0, false, "priority", Scalar(IntText(form.priority)))], RulesLines(form);
    HeaderLegible(form);
    TargetsLegible(form.targets);
    IntIsNoDash(form.priority);
    ScalarLegible(0, false, "priority", IntText(form.priority));
    if form.rule.id != "" {
      RulesLegible(form);
      RuleLegible(form);
    }
    LegibleConcat(header, targets);
    LegibleConcat(header + targets, priority);
    LegibleConcat(header + targets + priority, rules);
  }

  // ---------- policies ----------

  lemma {:induction false} SourcesTame(sources: seq<Source>)
    ensures TameItems(SourceItems(sources))
  {
    if sources != [] {
      SourceItemShape(sources[0]);
      SourcesTame(sources[1..]);
      assert SourceItems(sources) == [SourceItem(sources[0])] + SourceItems(sources[1..]);
    }
  }

  lemma {:induction false} DestinationsTame(destinations: seq<Destination>)
    ensures TameItems(DestinationItems(destinations))
  {
    if destinations != [] {
      DestinationItemShape(destinations[0]);
      DestinationsTame(destinations[1..]);
      assert DestinationItems(destinations) == [DestinationItem(destinations[0])] + DestinationItems(destinations[1..]);
    }
  }

  lemma SizeIsNoDash(size: Option<U64>)
    ensures SizeText(size) != "-"
  {
    if size.Some? {
      var k, unit := FileSize.PrettyUnit(size.value);
      assert FileSize.DigitChar(FileSize.DecimalText(k)[0]);
    }
  }

  predicate NoDash(o: Option<string>) {
    o != Some("-")
  }

  predicate LegibleRuleTexts(r: Rule) {
    && r.id != "-" && r.name != "-" && NoDash(r.message)
    && (r.conditions.Some? ==> NoDash(r.conditions.value.filenameRegex) && NoDash(r.conditions.value.pathRegex))
  }

  /** No string of the policy that becomes a block value is a lone dash, and no tag key is overlong. */
  predicate LegiblePolicy(p: Policy)
    requires p.outbound != []
  {
    && p.metadata.name != "-" && NoDash(p.metadata.description)
    && (forall k | k in p.targets.select.tags :: LegibleKey(k) && p.targets.select.tags[k] != "-")
    && LegibleRuleTexts(p.outbound[0])
  }

  lemma TagListLegible(order: seq<string>, tags: map<string, string>)
    requires Enumerates(order, tags)
    ensures LegibleTags(TagList(order, tags)) <==> forall k | k in tags :: LegibleKey(k) && tags[k] != "-"
  {
    var list := TagList(order, tags);
    if LegibleTags(list) {
      forall k | k in tags ensures LegibleKey(k) && tags[k] != "-" {
        assert k in order;
        var i :| 0 <= i < |order| && order[i] == k;
        assert LegibleTag(list[i]);
      }
    }
  }

  lemma RuleTextsLegible(r: Rule)
    ensures LegibleRuleTexts(r) <==>
              LegibleRule(RuleForm(r)) && (r.conditions.Some? ==> LegibleConditions(ConditionsForm(r.conditions.value)))
  {
    assert SeverityText(r.severity) != "-" && ActionText(r.action) != "-";
    if r.conditions.Some? {
      SizeIsNoDash(r.conditions.value.fileSizeMin);
      SizeIsNoDash(r.conditions.value.fileSizeMax);
    }
  }

  lemma PolicyLegibleExactly(p: Policy, order: seq<string>)
    requires p.outbound != [] && Enumerates(order, p.targets.select.tags) && p.outbound[0].id != ""
    ensures AllLegible(FormLines(FormOf(p, order))) <==> LegiblePolicy(p)
  {
    var form, r := FormOf(p, order), p.outbound[0];
    SourcesTame(r.sources);
    DestinationsTame(r.destinations);
    FormLegibleExactly(form);
    RuleTextsLegible(r);
    TagListLegible(order, p.targets.select.tags);
  }
}
