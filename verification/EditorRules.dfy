/** Reading back an emitted rule and the emitted targets. */
module EditorRules {
  import opened Prelude
  import opened PolicyModel
  import opened YamlText
  import opened YamlTree
  import opened FormState
  import opened FormTree
  import opened PolicyReader
  import opened EditorItems

  // ---------- the rule ----------

  function SectionNode(items: seq<FormItem>): Option<Node> {
    if items == [] then None else Some(Sequence(ItemNodes(items)))
  }

  function ConditionsNode(c: Option<FormConditions>): Option<Node> {
    if c.None? || ConditionsFields(c.value) == [] then None else Some(Node.Block(ConditionsFields(c.value)))
  }

  function HeadNode(r: FormRule, wanted: string): Option<Node> {
    Pick("id", Some(Leaf(Scalar(r.id))), wanted,
    Pick("name", TextNode(r.name), wanted,
    Pick("severity", Some(Leaf(Scalar(r.severity))), wanted,
    Pick("action", Some(Leaf(Scalar(r.action))), wanted,
    Pick("message", TextNode(r.message), wanted,
    Pick("notify_user", FlagNode(r.notifyUser), wanted,
    Pick("forward_to_siem", FlagNode(r.forwardToSiem), wanted, None)))))))
  }

  lemma FindInHead(r: FormRule, wanted: string)
    ensures Find(RuleHeadEntries(r), wanted) == HeadNode(r, wanted)
  {
    var e7 := FlagEntries("forward_to_siem", r.forwardToSiem);
    var e6 := FlagEntries("notify_user", r.notifyUser) + e7;
    var e5 := TextEntries("message", r.message) + e6;
    var e4 := [TextEntry("action", r.action)] + e5;
    var e3 := [TextEntry("severity", r.severity)] + e4;
    var e2 := TextEntries("name", r.name) + e3;
    FindFlag("forward_to_siem", r.forwardToSiem, [], wanted);
    assert e7 + [] == e7;
    FindFlag("notify_user", r.notifyUser, e7, wanted);
    FindText("message", r.message, e6, wanted);
    FindEntry(TextEntry("action", r.action), e5, wanted);
    FindEntry(TextEntry("severity", r.severity), e4, wanted);
    FindText("name", r.name, e3, wanted);
    FindEntry(TextEntry("id", r.id), e2, wanted);
  }

  lemma FindSection(key: string, items: seq<FormItem>, rest: seq<Entry>, wanted: string)
    ensures Find(SequenceEntries(key, items) + rest, wanted)
         == Pick(key, SectionNode(items), wanted, Find(rest, wanted))
  {
    FindConcat(SequenceEntries(key, items), rest, wanted);
    FindOne(Entry(key, Sequence(ItemNodes(items))), wanted);
  }

  lemma FindConditions(c: Option<FormConditions>, wanted: string)
    ensures Find(ConditionsEntries(c), wanted) == Pick("conditions", ConditionsNode(c), wanted, None)
  {
    if c.Some? {
      FindOne(Entry("conditions", Node.Block(ConditionsFields(c.value))), wanted);
    }
  }

  function TailNode(form: Form, wanted: string): Option<Node> {
    Pick("sources", SectionNode(form.sources), wanted,
    Pick("destinations", SectionNode(form.destinations), wanted,
    Pick("conditions", ConditionsNode(form.conditions), wanted, None)))
  }

  lemma FindInRule(form: Form, wanted: string)
    ensures Find(RuleEntries(form), wanted) ==
      if HeadNode(form.rule, wanted).Some? then HeadNode(form.rule, wanted) else TailNode(form, wanted)
  {
    var e3 := ConditionsEntries(form.conditions);
    var e2 := SequenceEntries("destinations", form.destinations) + e3;
    var e1 := SequenceEntries("sources", form.sources) + e2;
    FindConditions(form.conditions, wanted);
    FindSection("destinations", form.destinations, e3, wanted);
    FindSection("sources", form.sources, e2, wanted);
    FindInHead(form.rule, wanted);
    FindConcat(RuleHeadEntries(form.rule), e1, wanted);
  }

  /** What the reader finds under each key of a rule. */
  lemma RuleFields(form: Form)
    ensures var e, r := RuleEntries(form), form.rule;
            && Find(e, "id") == Some(Leaf(Scalar(r.id))) && Find(e, "name") == TextNode(r.name)
            && Find(e, "severity") == Some(Leaf(Scalar(r.severity)))
            && Find(e, "action") == Some(Leaf(Scalar(r.action)))
            && Find(e, "message") == TextNode(r.message) && Find(e, "enabled") == None
            && Find(e, "notify_user") == FlagNode(r.notifyUser)
            && Find(e, "forward_to_siem") == FlagNode(r.forwardToSiem)
  {
    FindInRule(form, "id");
    FindInRule(form, "name");
    FindInRule(form, "severity");
    FindInRule(form, "action");
    FindInRule(form, "message");
    FindInRule(form, "enabled");
    FindInRule(form, "notify_user");
    FindInRule(form, "forward_to_siem");
  }

  lemma RuleSections(form: Form)
    ensures var e := RuleEntries(form);
            && Find(e, "sources") == SectionNode(form.sources)
            && Find(e, "destinations") == SectionNode(form.destinations)
            && Find(e, "conditions") == ConditionsNode(form.conditions)
  {
    FindInRule(form, "sources");
    FindInRule(form, "destinations");
    FindInRule(form, "conditions");
  }

  // ---------- what a rule becomes ----------

  /** A rule needs a name, and its sources and destinations their required lists and textual items. */
  predicate CompleteRule(r: Rule, resolve: Resolver) {
    r.name != "" && AllCompleteSources(r.sources, resolve) && AllCompleteDestinations(r.destinations, resolve)
  }

  /** Nothing of these conditions is written. */
  predicate EmptyConditions(c: Conditions) {
    && c.fileSizeMin.None? && c.fileSizeMax.None? && c.fileExtensions == []
    && TextOr(c.filenameRegex, "") == "" && TextOr(c.pathRegex, "") == ""
  }

  function NormalOptionalConditions(c: Option<Conditions>, resolve: Resolver): Option<Conditions> {
    if c.None? || EmptyConditions(c.value) then None else Some(NormalConditions(c.value, resolve))
  }

  /** Enabled, no optional string that is empty or null, no conditions without content. */
  function NormalRule(r: Rule, resolve: Resolver): Rule {
    r.(enabled := true,
       conditions := NormalOptionalConditions(r.conditions, resolve),
       message := NormalText(r.message, resolve))
  }

  ghost predicate IsFormOfRule(form: Form, r: Rule) {
    && form.rule == RuleForm(r) && form.sources == SourceItems(r.sources)
    && form.destinations == DestinationItems(r.destinations)
    && form.conditions == OptionalConditionsForm(r.conditions)
  }

  lemma SizeEmptyExactly(size: Option<U64>)
    ensures SizeText(size) == "" <==> size.None?
  {
  }

  lemma ConditionsEmptyExactly(c: Conditions)
    ensures ConditionsFields(ConditionsForm(c)) == [] <==> EmptyConditions(c)
  {
    SizeEmptyExactly(c.fileSizeMin);
    SizeEmptyExactly(c.fileSizeMax);
    var f := ConditionsForm(c);
    assert |ConditionsFields(f)|
        == |TextEntries("file_size_min", f.fileSizeMin)| + |TextEntries("file_size_max", f.fileSizeMax)|
         + |ListEntries("file_extensions", f.fileExtensions)| + |TextEntries("filename_regex", f.filenameRegex)|
         + |TextEntries("path_regex", f.pathRegex)|;
  }

  lemma ConditionsNodeReads(c: Option<Conditions>, resolve: Resolver)
    requires (c.Some? ==> SafeSizes(c.value)) && SizesAreText(resolve)
    ensures ConditionsOf(ConditionsNode(OptionalConditionsForm(c)), resolve)
         == Some(NormalOptionalConditions(c, resolve))
  {
    if c.Some? {
      ConditionsEmptyExactly(c.value);
      ConditionsRead(c.value, resolve);
    }
  }

  lemma SourcesNodeReads(sources: seq<Source>, resolve: Resolver)
    ensures var items := ItemsOf(SectionNode(SourceItems(sources)));
            items.Some?
            && ReadSources(items.value, resolve) == if AllCompleteSources(sources, resolve) then Some(sources) else None
  {
    SourcesRead(sources, resolve);
  }

  lemma DestinationsNodeReads(destinations: seq<Destination>, resolve: Resolver)
    ensures var items := ItemsOf(SectionNode(DestinationItems(destinations)));
            items.Some? && ReadDestinations(items.value, resolve)
                           == if AllCompleteDestinations(destinations, resolve) then Some(destinations) else None
  {
    DestinationsRead(destinations, resolve);
  }

  lemma EnumsRead(r: Rule)
    ensures SeverityOf(Some(Leaf(Scalar(SeverityText(r.severity))))) == Some(r.severity)
    ensures ActionOf(Some(Leaf(Scalar(ActionText(r.action))))) == Some(r.action)
  {
  }

  lemma FlagReads(on: bool)
    ensures FlagOf(FlagNode(on), false) == Some(on)
  {
  }

  /** How the fields of a rule make the rule, or fail to. */
  lemma AssembleRule(e: seq<Entry>, rule: Rule, named: bool, sourced: bool, destined: bool, resolve: Resolver)
    requires TextOf(Find(e, "id")) == Some(rule.id)
    requires TextOf(Find(e, "name")) == if named then Some(rule.name) else None
    requires FlagOf(Find(e, "enabled"), true) == Some(rule.enabled)
    requires SeverityOf(Find(e, "severity")) == Some(rule.severity) && ActionOf(Find(e, "action")) == Some(rule.action)
    requires var items := ItemsOf(Find(e, "sources"));
             items.Some? && ReadSources(items.value, resolve) == if sourced then Some(rule.sources) else None
    requires var items := ItemsOf(Find(e, "destinations"));
             items.Some? && ReadDestinations(items.value, resolve) == if destined then Some(rule.destinations) else None
    requires ConditionsOf(Find(e, "conditions"), resolve) == Some(rule.conditions)
    requires FlagOf(Find(e, "forward_to_siem"), false) == Some(rule.forwardToSiem)
    requires FlagOf(Find(e, "notify_user"), false) == Some(rule.notifyUser)
    requires OptionalTextOf(Find(e, "message"), resolve) == Some(rule.message)
    ensures ReadRule(e, resolve) == if named && sourced && destined then Some(rule) else None
  {
  }

  lemma RuleParts(form: Form, r: Rule, resolve: Resolver)
    requires IsFormOfRule(form, r)
    ensures var e := RuleEntries(form);
            && TextOf(Find(e, "id")) == Some(r.id)
            && TextOf(Find(e, "name")) == (if r.name != "" then Some(r.name) else None)
            && FlagOf(Find(e, "enabled"), true) == Some(true)
            && SeverityOf(Find(e, "severity")) == Some(r.severity) && ActionOf(Find(e, "action")) == Some(r.action)
            && FlagOf(Find(e, "forward_to_siem"), false) == Some(r.forwardToSiem)
            && FlagOf(Find(e, "notify_user"), false) == Some(r.notifyUser)
            && OptionalTextOf(Find(e, "message"), resolve) == Some(NormalText(r.message, resolve))
  {
    RuleFields(form);
    EnumsRead(r);
    FlagReads(r.notifyUser);
    FlagReads(r.forwardToSiem);
    OptionalTextReads(r.message, resolve);
  }

  /** An emitted rule reads back, in normal form, exactly when it is complete. */
  lemma RuleReads(form: Form, r: Rule, resolve: Resolver)
    requires IsFormOfRule(form, r) && (r.conditions.Some? ==> SafeSizes(r.conditions.value)) && SizesAreText(resolve)
    ensures ReadRule(RuleEntries(form), resolve)
         == if CompleteRule(r, resolve) then Some(NormalRule(r, resolve)) else None
  {
    RuleParts(form, r, resolve);
    RuleSections(form);
    SourcesNodeReads(r.sources, resolve);
    DestinationsNodeReads(r.destinations, resolve);
    ConditionsNodeReads(r.conditions, resolve);
    AssembleRule(RuleEntries(form), NormalRule(r, resolve), r.name != "", AllCompleteSources(r.sources, resolve),
                 AllCompleteDestinations(r.destinations, resolve), resolve);
  }

  // ---------- the targets ----------

  function SelectorNode(t: FormTargets, wanted: string): Option<Node> {
    match t.mode
    case All => None
    case Tags => if t.tags == [] then None else Pick("tags", Some(Node.Block(TagEntries(t.tags))), wanted, None)
    case Groups => Pick("groups", ListNode(t.groups), wanted, None)
    case AgentIds => Pick("agent_ids", ListNode(t.agentIds), wanted, None)
  }

  lemma FindInMatch(t: FormTargets, wanted: string)
    ensures Find(MatchEntries(t), wanted) == Pick("os", ListNode(t.os), wanted, SelectorNode(t, wanted))
  {
    FindList("os", t.os, SelectorEntries(t), wanted);
    match t.mode {
      case All =>
      case Tags => FindOne(Entry("tags", Node.Block(TagEntries(t.tags))), wanted);
      case Groups =>
        FindList("groups", t.groups, [], wanted);
        assert ListEntries("groups", t.groups) + [] == ListEntries("groups", t.groups);
      case AgentIds =>
        FindList("agent_ids", t.agentIds, [], wanted);
        assert ListEntries("agent_ids", t.agentIds) + [] == ListEntries("agent_ids", t.agentIds);
    }
  }

  lemma {:induction false} ReadTagsOf(e: seq<Entry>, order: seq<string>, tags: map<string, string>)
    requires |e| == |order|
    requires forall i | 0 <= i < |order| :: order[i] in tags && e[i] == TextEntry(order[i], tags[order[i]])
    ensures ReadTags(e) == Some(map k | k in order :: tags[k])
  {
    if e != [] {
      var n := |e| - 1;
      ReadTagsOf(e[..n], order[..n], tags);
      TagsSnoc(order[..n], order[n], tags);
      assert order == order[..n] + [order[n]];
    }
  }

  lemma TagsSnoc(order: seq<string>, key: string, tags: map<string, string>)
    requires (forall k <- order :: k in tags) && key in tags
    ensures (map k | k in order :: tags[k])[key := tags[key]] == map k | k in order + [key] :: tags[k]
  {
  }

  lemma {:induction false} TagEntriesAt(list: seq<Tag>)
    ensures |TagEntries(list)| == |list|
    ensures forall i | 0 <= i < |list| :: TagEntries(list)[i] == TextEntry(list[i].key, list[i].value)
  {
    if list != [] {
      TagEntriesAt(list[1..]);
    }
  }

  /** Whatever order the tags are listed in, they read back as the same map. */
  lemma TagsRead(order: seq<string>, tags: map<string, string>)
    requires Enumerates(order, tags)
    ensures ReadTags(TagEntries(TagList(order, tags))) == Some(tags)
    ensures TagList(order, tags) == [] <==> tags == map[]
  {
    var list := TagList(order, tags);
    TagEntriesAt(list);
    ReadTagsOf(TagEntries(list), order, tags);
    assert (map k | k in order :: tags[k]) == tags;
    if order != [] {
      assert order[0] in tags;
    }
    if tags != map[] {
      var k :| k in tags;
      assert k in order;
    }
  }

  /** At most one way of selecting agents besides the operating system. */
  predicate OneSelector(s: Selector) {
    (s.tags == map[] || s.groups == []) && (s.tags == map[] || s.agentIds == []) && (s.groups == [] || s.agentIds == [])
  }

  lemma MatchFields(t: FormTargets)
    ensures var e := MatchEntries(t);
            && Find(e, "os") == ListNode(t.os)
            && Find(e, "tags") == (if t.mode.Tags? && t.tags != [] then Some(Node.Block(TagEntries(t.tags))) else None)
            && Find(e, "groups") == (if t.mode.Groups? then ListNode(t.groups) else None)
            && Find(e, "agent_ids") == if t.mode.AgentIds? then ListNode(t.agentIds) else None
  {
    FindInMatch(t, "os");
    FindInMatch(t, "tags");
    FindInMatch(t, "groups");
    FindInMatch(t, "agent_ids");
  }

  lemma AssembleSelector(e: seq<Entry>, s: Selector)
    requires TextsOf(Find(e, "os"), []) == Some(s.os)
    requires var tags := BlockOf(Find(e, "tags")); tags.Some? && ReadTags(tags.value) == Some(s.tags)
    requires TextsOf(Find(e, "groups"), []) == Some(s.groups) && TextsOf(Find(e, "agent_ids"), []) == Some(s.agentIds)
    ensures ReadSelector(e) == Some(s)
  {
  }

  lemma SelectorReads(t: Targets, order: seq<string>)
    requires Enumerates(order, t.select.tags) && OneSelector(t.select)
    ensures ReadSelector(MatchEntries(TargetsForm(t, order))) == Some(t.select)
  {
    var f := TargetsForm(t, order);
    MatchFields(f);
    TagsRead(order, t.select.tags);
    assert ReadTags([]) == Some(map[]);
    AssembleSelector(MatchEntries(f), t.select);
  }

  lemma NothingToMatch(t: Targets, order: seq<string>)
    requires Enumerates(order, t.select.tags) && MatchEntries(TargetsForm(t, order)) == []
    ensures t.select == NO_SELECTOR
  {
    TagsRead(order, t.select.tags);
  }

  function TargetsNode(t: FormTargets): Option<Node> {
    if MatchEntries(t) == [] then None else Some(Node.Block([Entry("match", Node.Block(MatchEntries(t)))]))
  }

  lemma AbsentTargets()
    ensures ReadTargets([]) == Some(ALL_TARGETS)
  {
  }

  /** The emitted targets read back as they were. */
  lemma TargetsRead(t: Targets, order: seq<string>)
    requires Enumerates(order, t.select.tags) && OneSelector(t.select) && t.exclude == NO_EXCLUSION
    ensures var e := BlockOf(TargetsNode(TargetsForm(t, order))); e.Some? && ReadTargets(e.value) == Some(t)
  {
    var f := TargetsForm(t, order);
    if MatchEntries(f) == [] {
      NothingToMatch(t, order);
      AbsentTargets();
    } else {
      var inner := Entry("match", Node.Block(MatchEntries(f)));
      FindOne(inner, "match");
      FindOne(inner, "exclude");
      SelectorReads(t, order);
    }
  }
}
