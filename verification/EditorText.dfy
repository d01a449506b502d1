/** When an emitted document is printable: no string in it breaks a line, and no block is empty. */
module EditorText {
  import opened Prelude
  import opened PolicyModel
  import opened YamlText
  import opened YamlTree
  import opened FormState
  import opened FormTree
  import FileSize

  predicate OneLineTexts(texts: seq<string>) {
    forall i | 0 <= i < |texts| :: OneLine(texts[i])
  }

  predicate OneLineSource(s: Source) {
    match s
    case Usb(serials) => OneLineTexts(serials)
    case NetworkDownload(domains, except) => OneLineTexts(domains) && OneLineTexts(except)
    case EmailAttachment => true
    case Directory(paths, _) => OneLineTexts(paths)
    case FileMatch(classifiers) => OneLineTexts(classifiers)
    case Any => true
  }

  predicate OneLineDestination(d: Destination) {
    match d
    case Directory(paths, _) => OneLineTexts(paths)
    case Usb(serials) => OneLineTexts(serials)
    case NetworkUpload(domains) => OneLineTexts(domains)
    case _ => true
  }

  predicate OneLineConditions(c: Conditions) {
    OneLineTexts(c.fileExtensions) && OneLine(TextOr(c.filenameRegex, "")) && OneLine(TextOr(c.pathRegex, ""))
  }

  predicate OneLineRule(r: Rule) {
    && OneLine(r.id) && OneLine(r.name) && OneLine(TextOr(r.message, ""))
    && (forall i | 0 <= i < |r.sources| :: OneLineSource(r.sources[i]))
    && (forall i | 0 <= i < |r.destinations| :: OneLineDestination(r.destinations[i]))
    && (r.conditions.Some? ==> OneLineConditions(r.conditions.value))
  }

  /** No string that reaches the document contains a line break. */
  predicate OneLinePolicy(p: Policy) {
    var s := p.targets.select;
    && OneLine(p.metadata.name) && OneLine(TextOr(p.metadata.description, ""))
    && OneLineTexts(s.os) && OneLineTexts(s.groups) && OneLineTexts(s.agentIds)
    && (forall k | k in s.tags :: OneLine(k) && OneLine(s.tags[k]))
    && (forall i | 0 <= i < |p.outbound| :: OneLineRule(p.outbound[i]))
  }

  lemma TextFormed(key: string, text: string)
    requires OneLine(key) && OneLine(text)
    ensures WellFormed([TextEntry(key, text)]) && WellFormed(TextEntries(key, text))
  {
    NodeFormed(key, Leaf(Scalar(text)));
  }

  lemma ListFormed(key: string, texts: seq<string>)
    requires OneLine(key) && OneLineTexts(texts)
    ensures WellFormed(ListEntries(key, texts))
  {
    if texts != [] {
      NodeFormed(key, Leaf(Items(texts)));
    }
  }

  lemma NodeFormed(key: string, node: Node)
    requires OneLine(key) && WellFormedNode(node)
    ensures WellFormed([Entry(key, node)])
  {
    assert [Entry(key, node)][1..] == [];
  }

  predicate OneLineField(f: Field) {
    OneLine(f.key) && (f.value.Text? ==> OneLine(f.value.text)) && (f.value.Texts? ==> OneLineTexts(f.value.texts))
  }

  predicate OneLineItem(item: FormItem) {
    OneLine(item.kind) && forall i | 0 <= i < |item.fields| :: OneLineField(item.fields[i])
  }

  lemma {:induction false} FieldsFormed(fields: seq<Field>)
    requires forall i | 0 <= i < |fields| :: OneLineField(fields[i])
    ensures WellFormed(FieldsEntries(fields))
  {
    if fields != [] {
      var f := fields[0];
      match f.value {
        case Text(t) => TextFormed(f.key, t);
        case Texts(ts) => ListFormed(f.key, ts);
        case Flag(on) => TextFormed(f.key, FlagText(on));
      }
      FieldsFormed(fields[1..]);
      WellFormedConcat(FieldEntries(f), FieldsEntries(fields[1..]));
    }
  }

  lemma {:induction false} ItemsFormed(items: seq<FormItem>)
    requires OneLineItems(items)
    ensures WellFormedItems(ItemNodes(items))
  {
    if items != [] {
      TextFormed("type", items[0].kind);
      FieldsFormed(items[0].fields);
      WellFormedConcat([TextEntry("type", items[0].kind)], FieldsEntries(items[0].fields));
      ItemsFormed(items[1..]);
    }
  }

  lemma SectionFormed(key: string, items: seq<FormItem>)
    requires OneLine(key) && OneLineItems(items)
    ensures WellFormed(SequenceEntries(key, items))
  {
    if items != [] {
      ItemsFormed(items);
      NodeFormed(key, Sequence(ItemNodes(items)));
    }
  }

  predicate OneLineItems(items: seq<FormItem>) {
    forall i | 0 <= i < |items| :: OneLineItem(items[i])
  }

  predicate OneLineFormRule(r: FormRule) {
    OneLine(r.id) && OneLine(r.name) && OneLine(r.severity) && OneLine(r.action) && OneLine(r.message)
  }

  predicate OneLineFormTargets(t: FormTargets) {
    && OneLineTexts(t.os) && OneLineTexts(t.groups) && OneLineTexts(t.agentIds)
    && forall i | 0 <= i < |t.tags| :: OneLine(t.tags[i].key) && OneLine(t.tags[i].value)
  }

  predicate OneLineForm(form: Form) {
    && OneLine(form.name) && OneLine(form.description)
    && OneLineFormTargets(form.targets) && OneLineFormRule(form.rule)
    && OneLineItems(form.sources) && OneLineItems(form.destinations)
    && (form.conditions.Some? ==> OneLineFormConditions(form.conditions.value))
  }

  predicate OneLineFormConditions(c: FormConditions) {
    && OneLine(c.fileSizeMin) && OneLine(c.fileSizeMax) && OneLineTexts(c.fileExtensions)
    && OneLine(c.filenameRegex) && OneLine(c.pathRegex)
  }

  lemma Formed5(a: seq<Entry>, b: seq<Entry>, c: seq<Entry>, d: seq<Entry>, e: seq<Entry>)
    requires WellFormed(a) && WellFormed(b) && WellFormed(c) && WellFormed(d) && WellFormed(e)
    ensures WellFormed(a + (b + (c + (d + e))))
  {
    WellFormedConcat(d, e);
    WellFormedConcat(c, d + e);
    WellFormedConcat(b, c + (d + e));
    WellFormedConcat(a, b + (c + (d + e)));
  }

  lemma ConditionKeysOneLine()
    ensures OneLine("file_size_min") && OneLine("file_size_max") && OneLine("file_extensions")
    ensures OneLine("filename_regex") && OneLine("path_regex")
  {
  }

  lemma ConditionFieldsFormed(v: FormConditions)
    requires OneLineFormConditions(v)
    ensures WellFormed(ConditionsFields(v))
  {
    ConditionKeysOneLine();
    TextFormed("file_size_min", v.fileSizeMin);
    TextFormed("file_size_max", v.fileSizeMax);
    ListFormed("file_extensions", v.fileExtensions);
    TextFormed("filename_regex", v.filenameRegex);
    TextFormed("path_regex", v.pathRegex);
    Formed5(TextEntries("file_size_min", v.fileSizeMin), TextEntries("file_size_max", v.fileSizeMax),
            ListEntries("file_extensions", v.fileExtensions), TextEntries("filename_regex", v.filenameRegex),
            TextEntries("path_regex", v.pathRegex));
  }

  lemma ConditionsFormed(c: Option<FormConditions>)
    requires c.Some? ==> OneLineFormConditions(c.value)
    ensures WellFormed(ConditionsEntries(c))
  {
    if c.Some? && ConditionsFields(c.value) != [] {
      ConditionFieldsFormed(c.value);
      NodeFormed("conditions", Node.Block(ConditionsFields(c.value)));
    }
  }

  lemma FlagFormed(key: string, on: bool)
    requires OneLine(key)
    ensures WellFormed(FlagEntries(key, on))
  {
    TextFormed(key, "true");
  }

  lemma HeadTextsFormed(r: FormRule)
    requires OneLineFormRule(r)
    ensures WellFormed([TextEntry("id", r.id)]) && WellFormed(TextEntries("name", r.name))
    ensures WellFormed([TextEntry("severity", r.severity)]) && WellFormed([TextEntry("action", r.action)])
    ensures WellFormed(TextEntries("message", r.message))
  {
    TextFormed("id", r.id);
    TextFormed("name", r.name);
    TextFormed("severity", r.severity);
    TextFormed("action", r.action);
    TextFormed("message", r.message);
  }

  lemma HeadFormed(r: FormRule)
    requires OneLineFormRule(r)
    ensures WellFormed(RuleHeadEntries(r))
  {
    var flags := FlagEntries("notify_user", r.notifyUser) + FlagEntries("forward_to_siem", r.forwardToSiem);
    HeadTextsFormed(r);
    FlagFormed("notify_user", r.notifyUser);
    FlagFormed("forward_to_siem", r.forwardToSiem);
    WellFormedConcat(FlagEntries("notify_user", r.notifyUser), FlagEntries("forward_to_siem", r.forwardToSiem));
    var rest := TextEntries("name", r.name)
      + ([TextEntry("severity", r.severity)]
         + ([TextEntry("action", r.action)] + (TextEntries("message", r.message) + flags)));
    Formed5(TextEntries("name", r.name), [TextEntry("severity", r.severity)], [TextEntry("action", r.action)],
            TextEntries("message", r.message), flags);
    WellFormedConcat([TextEntry("id", r.id)], rest);
  }

  lemma RuleFormed(form: Form)
    requires OneLineForm(form)
    ensures WellFormed(RuleEntries(form)) && RuleEntries(form) != []
  {
    var e3 := ConditionsEntries(form.conditions);
    var e2 := SequenceEntries("destinations", form.destinations) + e3;
    var e1 := SequenceEntries("sources", form.sources) + e2;
    ConditionsFormed(form.conditions);
    SectionFormed("destinations", form.destinations);
    SectionFormed("sources", form.sources);
    HeadFormed(form.rule);
    WellFormedConcat(SequenceEntries("destinations", form.destinations), e3);
    WellFormedConcat(SequenceEntries("sources", form.sources), e2);
    WellFormedConcat(RuleHeadEntries(form.rule), e1);
  }

  lemma RuleKeysOneLine()
    ensures OneLine("outbound") && OneLine("rules")
  {
  }

  lemma RulesFormed(form: Form)
    requires OneLineForm(form)
    ensures WellFormed(RulesEntries(form))
  {
    if form.rule.id != "" {
      RuleFormed(form);
      RuleKeysOneLine();
      OneItemFormed("outbound", RuleEntries(form));
      BlockFormed("rules", [Entry("outbound", Sequence([Item(RuleEntries(form))]))]);
    }
  }

  lemma BlockFormed(key: string, entries: seq<Entry>)
    requires OneLine(key) && WellFormed(entries) && entries != []
    ensures WellFormed([Entry(key, Node.Block(entries))])
  {
    NodeFormed(key, Node.Block(entries));
  }

  lemma OneItemFormed(key: string, entries: seq<Entry>)
    requires OneLine(key) && WellFormed(entries) && entries != []
    ensures WellFormed([Entry(key, Sequence([Item(entries)]))])
  {
    assert [Item(entries)][1..] == [];
    NodeFormed(key, Sequence([Item(entries)]));
  }

  lemma {:induction false} TagsFormed(tags: seq<Tag>)
    requires forall i | 0 <= i < |tags| :: OneLine(tags[i].key) && OneLine(tags[i].value)
    ensures WellFormed(TagEntries(tags))
  {
    if tags != [] {
      TagsFormed(tags[1..]);
    }
  }

  lemma SelectorFormed(t: FormTargets)
    requires OneLineFormTargets(t)
    ensures WellFormed(SelectorEntries(t))
  {
    match t.mode {
      case All =>
      case Tags =>
        TagsFormed(t.tags);
        if t.tags != [] {
          NodeFormed("tags", Node.Block(TagEntries(t.tags)));
        }
      case Groups => ListFormed("groups", t.groups);
      case AgentIds => ListFormed("agent_ids", t.agentIds);
    }
  }

  lemma TargetsFormed(t: FormTargets)
    requires OneLineFormTargets(t)
    ensures WellFormed(TargetsEntries(t))
  {
    SelectorFormed(t);
    ListFormed("os", t.os);
    WellFormedConcat(ListEntries("os", t.os), SelectorEntries(t));
    if MatchEntries(t) != [] {
      NodeFormed("match", Node.Block(MatchEntries(t)));
      NodeFormed("targets", Node.Block([Entry("match", Node.Block(MatchEntries(t)))]));
    }
  }

  lemma {:induction false} DigitsOneLine(n: int)
    ensures OneLine(IntText(n))
  {
    var digits := FileSize.DecimalText(if n < 0 then -n else n);
    assert forall i | 0 <= i < |digits| :: FileSize.DigitChar(digits[i]);
  }

  lemma HeaderFormed(form: Form)
    requires OneLine(form.name) && OneLine(form.description)
    ensures WellFormed(HeaderEntries(form))
  {
    var metadata := Entry("metadata", Node.Block(MetadataEntries(form)));
    HeaderKeysOneLine();
    MetadataFormed(form);
    TextFormed("kind", KIND);
    TextFormed("apiVersion", API_VERSION);
    WellFormedConcat([TextEntry("kind", KIND)], [metadata]);
    WellFormedConcat([TextEntry("apiVersion", API_VERSION)], [TextEntry("kind", KIND)] + [metadata]);
  }

  lemma HeaderKeysOneLine()
    ensures OneLine("kind") && OneLine(KIND) && OneLine("apiVersion") && OneLine(API_VERSION)
  {
  }

  lemma MetadataFormed(form: Form)
    requires OneLine(form.name) && OneLine(form.description)
    ensures WellFormed([Entry("metadata", Node.Block(MetadataEntries(form)))])
  {
    TextFormed("name", form.name);
    TextFormed("description", form.description);
    WellFormedConcat([TextEntry("name", form.name)], TextEntries("description", form.description));
    NodeFormed("metadata", Node.Block(MetadataEntries(form)));
  }

  lemma PriorityFormed(n: int)
    ensures WellFormed([TextEntry("priority", IntText(n))])
  {
    DigitsOneLine(n);
    TextFormed("priority", IntText(n));
  }

  lemma FormFormed(form: Form)
    requires OneLineForm(form)
    ensures WellFormed(FormEntries(form)) && FormEntries(form) != []
  {
    var rules := RulesEntries(form);
    var priority := TextEntry("priority", IntText(form.priority));
    HeaderFormed(form);
    TargetsFormed(form.targets);
    PriorityFormed(form.priority);
    RulesFormed(form);
    WellFormedConcat([priority], rules);
    WellFormedConcat(TargetsEntries(form.targets), [priority] + rules);
    WellFormedConcat(HeaderEntries(form), TargetsEntries(form.targets) + ([priority] + rules));
  }
}
