/** The policy editor's round trip: policy to form to YAML text, and back through the parser. */
module EditorRoundTrip {
  import opened Prelude
  import opened PolicyModel
  import opened YamlText
  import opened YamlTree
  import opened FormState
  import opened FormTree
  import opened FormEmit
  import opened FormLayout
  import opened PolicyReader
  import opened EditorItems
  import opened EditorRules
  import opened EditorText
  import opened FormLegibility
  import FileSize

  // ---------- the document's keys ----------

  function RulesNode(form: Form): Option<Node> {
    if form.rule.id == "" then None
    else Some(Node.Block([Entry("outbound", Sequence([Item(RuleEntries(form))]))]))
  }

  lemma FindInForm(form: Form, wanted: string)
    ensures Find(FormEntries(form), wanted) ==
      Pick("apiVersion", Some(Leaf(Scalar(API_VERSION))), wanted,
      Pick("kind", Some(Leaf(Scalar(KIND))), wanted,
      Pick("metadata", Some(Node.Block(MetadataEntries(form))), wanted,
      Pick("targets", TargetsNode(form.targets), wanted,
      Pick("priority", Some(Leaf(Scalar(IntText(form.priority)))), wanted,
      Pick("rules", RulesNode(form), wanted, None))))))
  {
    var rules := RulesEntries(form);
    var priority := TextEntry("priority", IntText(form.priority));
    var e4 := [priority] + rules;
    var e3 := TargetsEntries(form.targets) + e4;
    var metadata := Entry("metadata", Node.Block(MetadataEntries(form)));
    var kind := TextEntry("kind", KIND);
    if form.rule.id != "" {
      FindOne(Entry("rules", RulesNode(form).value), wanted);
    }
    FindEntry(priority, rules, wanted);
    if MatchEntries(form.targets) != [] {
      FindOne(Entry("targets", TargetsNode(form.targets).value), wanted);
    }
    FindConcat(TargetsEntries(form.targets), e4, wanted);
    FindOne(metadata, wanted);
    FindEntry(kind, [metadata], wanted);
    FindEntry(TextEntry("apiVersion", API_VERSION), [kind] + [metadata], wanted);
    FindConcat(HeaderEntries(form), e3, wanted);
  }

  lemma FormFields(form: Form)
    ensures var e := FormEntries(form);
            && Find(e, "apiVersion") == Some(Leaf(Scalar(API_VERSION))) && Find(e, "kind") == Some(Leaf(Scalar(KIND)))
            && Find(e, "metadata") == Some(Node.Block(MetadataEntries(form)))
            && Find(e, "targets") == TargetsNode(form.targets)
            && Find(e, "priority") == Some(Leaf(Scalar(IntText(form.priority))))
            && Find(e, "rules") == RulesNode(form)
            && Find(e, "monitored_paths") == None && Find(e, "classifiers") == None
  {
    FindInForm(form, "apiVersion");
    FindInForm(form, "kind");
    FindInForm(form, "metadata");
    FindInForm(form, "targets");
    FindInForm(form, "priority");
    FindInForm(form, "rules");
    FindInForm(form, "monitored_paths");
    FindInForm(form, "classifiers");
  }

  // ---------- what a policy becomes ----------

  function NormalMetadata(m: Metadata, resolve: Resolver): Metadata {
    m.(description := NormalText(m.description, resolve), version := 1)
  }

  /** Version 1, no description that is empty or null, and the single rule in normal form. */
  function Normal(p: Policy, resolve: Resolver): Policy
    requires |p.outbound| == 1
  {
    p.(metadata := NormalMetadata(p.metadata, resolve), outbound := [NormalRule(p.outbound[0], resolve)])
  }

  predicate SafeRule(r: Rule) {
    r.conditions.Some? ==> SafeSizes(r.conditions.value)
  }

  lemma PriorityReads(n: I32)
    ensures PriorityOf(Some(Leaf(Scalar(IntText(n))))) == Some(n)
  {
    var v: int := n;
    NaturalReads(if v < 0 then 0 - v else v);
  }

  lemma MetadataReads(form: Form, m: Metadata, resolve: Resolver)
    requires form.name == m.name && form.description == TextOr(m.description, "")
    ensures ReadMetadata(MetadataEntries(form), resolve) == Some(NormalMetadata(m, resolve))
  {
    var name := TextEntry("name", form.name);
    var description := TextEntries("description", form.description);
    FindEntry(name, description, "name");
    FindEntry(name, description, "description");
    FindEntry(name, description, "version");
    FindText("description", form.description, [], "description");
    FindText("description", form.description, [], "version");
    assert description + [] == description;
    OptionalTextReads(m.description, resolve);
  }

  lemma OneRuleReads(e: seq<Entry>, resolve: Resolver)
    ensures ReadRules([Item(e)], resolve)
         == if ReadRule(e, resolve).Some? then Some([ReadRule(e, resolve).value]) else None
  {
    var rule := ReadRule(e, resolve);
    assert [Item(e)][1..] == [];
    assert ReadRules([], resolve) == Some([]);
    assert rule.Some? ==> [rule.value] + [] == [rule.value];
  }

  lemma RulesRead(form: Form, r: Rule, resolve: Resolver)
    requires IsFormOfRule(form, r) && SafeRule(r) && r.id != "" && SizesAreText(resolve)
    ensures var e := BlockOf(RulesNode(form));
            && e.Some? && RulesOf(Find(e.value, "inbound"), resolve) == Some([])
            && RulesOf(Find(e.value, "outbound"), resolve)
               == if CompleteRule(r, resolve) then Some([NormalRule(r, resolve)]) else None
  {
    var e := RuleEntries(form);
    var outbound := Entry("outbound", Sequence([Item(e)]));
    FindOne(outbound, "inbound");
    FindOne(outbound, "outbound");
    OneRuleReads(e, resolve);
    assert ReadRule(e, resolve) == if CompleteRule(r, resolve) then Some(NormalRule(r, resolve)) else None by {
      RuleReads(form, r, resolve);
    }
  }

  /** How the parts of a document make the policy. */
  lemma Assemble(e: seq<Entry>, metadata: Metadata, targets: Targets, priority: I32, outbound: Option<seq<Rule>>,
                 resolve: Resolver)
    requires TextOf(Find(e, "apiVersion")) == Some(API_VERSION) && TextOf(Find(e, "kind")) == Some(KIND)
    requires var m := RequiredBlockOf(Find(e, "metadata")); m.Some? && ReadMetadata(m.value, resolve) == Some(metadata)
    requires var t := BlockOf(Find(e, "targets")); t.Some? && ReadTargets(t.value) == Some(targets)
    requires PriorityOf(Find(e, "priority")) == Some(priority)
    requires var r := BlockOf(Find(e, "rules"));
             r.Some? && RulesOf(Find(r.value, "inbound"), resolve) == Some([])
             && RulesOf(Find(r.value, "outbound"), resolve) == outbound
    requires Find(e, "monitored_paths") == None && Find(e, "classifiers") == None
    ensures ReadPolicy(e, resolve)
         == if outbound.None? then None
            else Some(Policy(API_VERSION, KIND, metadata, targets, priority, [], outbound.value, [], []))
  {
  }

  lemma HeaderReads(form: Form)
    ensures var e := FormEntries(form);
            && TextOf(Find(e, "apiVersion")) == Some(API_VERSION) && TextOf(Find(e, "kind")) == Some(KIND)
            && PriorityOf(Find(e, "priority")) == Some(form.priority)
            && Find(e, "monitored_paths") == None && Find(e, "classifiers") == None
  {
    FormFields(form);
    PriorityReads(form.priority);
  }

  lemma PartsRead(form: Form, p: Policy, order: seq<string>, resolve: Resolver)
    requires Supported(p) && Enumerates(order, p.targets.select.tags)
    requires form.name == p.metadata.name && form.description == TextOr(p.metadata.description, "")
    requires form.targets == TargetsForm(p.targets, order)
    ensures var m := RequiredBlockOf(Find(FormEntries(form), "metadata"));
            m.Some? && ReadMetadata(m.value, resolve) == Some(NormalMetadata(p.metadata, resolve))
    ensures var t := BlockOf(Find(FormEntries(form), "targets")); t.Some? && ReadTargets(t.value) == Some(p.targets)
  {
    FormFields(form);
    MetadataReads(form, p.metadata, resolve);
    TargetsRead(p.targets, order);
  }

  lemma RulesPart(form: Form, r: Rule, resolve: Resolver)
    requires IsFormOfRule(form, r) && SafeRule(r) && r.id != "" && SizesAreText(resolve)
    ensures var e := BlockOf(Find(FormEntries(form), "rules"));
            && e.Some? && RulesOf(Find(e.value, "inbound"), resolve) == Some([])
            && RulesOf(Find(e.value, "outbound"), resolve)
               == if CompleteRule(r, resolve) then Some([NormalRule(r, resolve)]) else None
  {
    FormFields(form);
    RulesRead(form, r, resolve);
  }

  /** The tree of a supported policy's form reads back exactly when its rule is complete. */
  lemma TreeReads(form: Form, p: Policy, order: seq<string>, resolve: Resolver)
    requires Supported(p) && |p.outbound| == 1 && Enumerates(order, p.targets.select.tags) && SizesAreText(resolve)
    requires p.apiVersion == API_VERSION && p.kind == KIND && p.outbound[0].id != "" && SafeRule(p.outbound[0])
    requires form.name == p.metadata.name && form.description == TextOr(p.metadata.description, "")
    requires form.priority == p.priority && form.targets == TargetsForm(p.targets, order)
    requires IsFormOfRule(form, p.outbound[0])
    ensures ReadPolicy(FormEntries(form), resolve)
         == if CompleteRule(p.outbound[0], resolve) then Some(Normal(p, resolve)) else None
  {
    var r := p.outbound[0];
    var outbound := if CompleteRule(r, resolve) then Some([NormalRule(r, resolve)]) else None;
    HeaderReads(form);
    PartsRead(form, p, order, resolve);
    RulesPart(form, r, resolve);
    Assemble(FormEntries(form), NormalMetadata(p.metadata, resolve), p.targets, p.priority, outbound, resolve);
  }

  // ---------- what the form keeps ----------

  /** The part of a policy that the form shows: one rule, one selector, none of the unsupported sections. */
  function Kept(p: Policy): Policy
    requires p.outbound != []
  {
    var s := p.targets.select;
    var groups := if s.tags == map[] then s.groups else [];
    var agentIds := if s.tags == map[] && s.groups == [] then s.agentIds else [];
    p.(targets := Targets(Selector(s.os, s.tags, groups, agentIds), NO_EXCLUSION),
       inbound := [], outbound := [p.outbound[0]], monitoredPaths := [], classifiers := [])
  }

  /** The form keeps everything of exactly the form-friendly policies. */
  lemma KeepsAllExactly(p: Policy)
    requires p.outbound != []
    ensures Kept(p) == p <==> Supported(p) && |p.outbound| == 1
    ensures Supported(Kept(p)) && |Kept(p).outbound| == 1
  {
    if Supported(p) && |p.outbound| == 1 {
      assert [p.outbound[0]] == p.outbound;
    }
  }

  lemma KeptLines(p: Policy, order: seq<string>)
    requires p.outbound != [] && Enumerates(order, p.targets.select.tags)
    ensures FormLines(FormOf(Kept(p), order)) == FormLines(FormOf(p, order))
  {
    var a, b := FormOf(Kept(p), order), FormOf(p, order);
    KeptTargetsLines(p, order);
    KeptForm(p, order);
    SameButTargets(a, b);
  }

  lemma KeptForm(p: Policy, order: seq<string>)
    requires p.outbound != [] && Enumerates(order, p.targets.select.tags)
    ensures FormOf(Kept(p), order).(targets := FormOf(p, order).targets) == FormOf(p, order)
  {
    assert Kept(p).targets.select.tags == p.targets.select.tags;
  }

  /** The form shows one selector, so dropping the others changes no line. */
  lemma KeptTargetsLines(p: Policy, order: seq<string>)
    requires p.outbound != [] && Enumerates(order, p.targets.select.tags)
    ensures TargetsLines(FormOf(Kept(p), order).targets) == TargetsLines(FormOf(p, order).targets)
  {
    TagsRead(order, p.targets.select.tags);
    var a, b := FormOf(Kept(p), order).targets, FormOf(p, order).targets;
    assert a.mode == b.mode && a.os == b.os && a.tags == b.tags;
  }

  lemma SameButTargets(a: Form, b: Form)
    requires a.(targets := b.targets) == b && TargetsLines(a.targets) == TargetsLines(b.targets)
    ensures FormLines(a) == FormLines(b)
  {
    assert HeaderLines(a) == HeaderLines(b) && RulesLines(a) == RulesLines(b);
  }

  lemma FirstRuleIsValid(p: Policy, compiles: string -> bool)
    requires p.outbound != [] && IsValid(p, compiles)
    ensures RuleFault(p.outbound[0], compiles).None? && p.outbound[0].id != ""
  {
    var rules := p.inbound + p.outbound;
    assert rules[|p.inbound|] == p.outbound[0];
  }

  lemma NormalIsValid(p: Policy, compiles: string -> bool, resolve: Resolver)
    requires p.outbound != [] && IsValid(p, compiles)
    ensures IsValid(Normal(Kept(p), resolve), compiles)
  {
    var r := p.outbound[0];
    FirstRuleIsValid(p, compiles);
    assert RuleFault(NormalRule(r, resolve), compiles).None?;
    var q := Normal(Kept(p), resolve);
    assert q.inbound + q.outbound == [NormalRule(r, resolve)];
  }

  // ---------- the text ----------

  lemma BarePrintable(kind: string)
    requires OneLine(kind)
    ensures OneLineItem(FormItem(kind, []))
  {
  }

  lemma OneFieldPrintable(kind: string, key: string, v: FieldValue)
    requires OneLine(kind) && OneLineField(Field(key, v))
    ensures OneLineItem(FormItem(kind, [Field(key, v)]))
  {
  }

  lemma UsbPrintable(serials: seq<string>)
    requires OneLineTexts(serials)
    ensures OneLineItem(FormItem("usb", [Field("except_serials", Texts(serials))]))
  {
    OneFieldPrintable("usb", "except_serials", Texts(serials));
  }

  lemma DirectoryPrintable(paths: seq<string>, recursive: bool)
    requires OneLineTexts(paths)
    ensures OneLineItem(DirectoryItem(paths, recursive))
  {
    assert OneLine("directory") && OneLine("paths") && OneLine("recursive");
  }

  lemma DownloadPrintable(domains: seq<string>, except: seq<string>)
    requires OneLineTexts(domains) && OneLineTexts(except)
    ensures OneLineItem(DownloadItem(domains, except))
  {
    assert OneLine("network_download") && OneLine("domains") && OneLine("domains_except");
  }

  lemma FileMatchPrintable(classifiers: seq<string>)
    requires OneLineTexts(classifiers)
    ensures OneLineItem(FormItem("file_match", [Field("classifiers", Texts(classifiers))]))
  {
    OneFieldPrintable("file_match", "classifiers", Texts(classifiers));
  }

  lemma UploadPrintable(domains: seq<string>)
    requires OneLineTexts(domains)
    ensures OneLineItem(FormItem("network_upload", [Field("domains", Texts(domains))]))
  {
    OneFieldPrintable("network_upload", "domains", Texts(domains));
  }

  lemma SourcePrintable(s: Source)
    requires OneLineSource(s)
    ensures OneLineItem(SourceItem(s))
  {
    SourceItemShape(s);
    match s {
      case Usb(serials) => UsbPrintable(serials);
      case NetworkDownload(domains, except) => DownloadPrintable(domains, except);
      case EmailAttachment => BarePrintable("email_attachment");
      case Directory(paths, recursive) => DirectoryPrintable(paths, recursive);
      case FileMatch(classifiers) => FileMatchPrintable(classifiers);
      case Any => BarePrintable("any");
    }
  }

  lemma DestinationPrintable(d: Destination)
    requires OneLineDestination(d)
    ensures OneLineItem(DestinationItem(d))
  {
    DestinationItemShape(d);
    match d {
      case Directory(paths, recursive) => DirectoryPrintable(paths, recursive);
      case Usb(serials) => UsbPrintable(serials);
      case NetworkUpload(domains) => UploadPrintable(domains);
      case Clipboard => BarePrintable("clipboard");
      case Print => BarePrintable("print");
      case AnyExternal => BarePrintable("any_external");
      case Any => BarePrintable("any");
    }
  }

  lemma ItemsPrintableCons(item: FormItem, items: seq<FormItem>)
    requires OneLineItem(item) && OneLineItems(items)
    ensures OneLineItems([item] + items)
  {
  }

  lemma {:induction false} SourcesPrintable(sources: seq<Source>)
    requires forall i | 0 <= i < |sources| :: OneLineSource(sources[i])
    ensures OneLineItems(SourceItems(sources))
  {
    if sources != [] {
      SourcePrintable(sources[0]);
      SourcesPrintable(sources[1..]);
      ItemsPrintableCons(SourceItem(sources[0]), SourceItems(sources[1..]));
    }
  }

  lemma {:induction false} DestinationsPrintable(destinations: seq<Destination>)
    requires forall i | 0 <= i < |destinations| :: OneLineDestination(destinations[i])
    ensures OneLineItems(DestinationItems(destinations))
  {
    if destinations != [] {
      DestinationPrintable(destinations[0]);
      DestinationsPrintable(destinations[1..]);
      ItemsPrintableCons(DestinationItem(destinations[0]), DestinationItems(destinations[1..]));
    }
  }

  lemma SizePrintable(size: Option<U64>)
    ensures OneLine(SizeText(size))
  {
    if size.Some? {
      var k, unit := FileSize.PrettyUnit(size.value);
      var digits := FileSize.DecimalText(k);
      assert forall i | 0 <= i < |digits| :: FileSize.DigitChar(digits[i]);
    }
  }

  lemma ConditionsPrintable(c: Conditions)
    requires OneLineConditions(c)
    ensures OneLineFormConditions(ConditionsForm(c))
  {
    SizePrintable(c.fileSizeMin);
    SizePrintable(c.fileSizeMax);
  }

  lemma SeverityPrintable(s: Severity)
    ensures OneLine(SeverityText(s))
  {
    match s {
      case Low => assert OneLine("low");
      case Medium => assert OneLine("medium");
      case High => assert OneLine("high");
      case Critical => assert OneLine("critical");
    }
  }

  lemma ActionPrintable(a: RuleAction)
    ensures OneLine(ActionText(a))
  {
    match a {
      case LogOnly => assert OneLine("log_only");
      case LogAndAlert => assert OneLine("log_and_alert");
      case WarnUser => assert OneLine("warn_user");
      case Block => assert OneLine("block");
      case Quarantine => assert OneLine("quarantine");
      case LockWorkstation => assert OneLine("lock_workstation");
      case KillProcess => assert OneLine("kill_process");
    }
  }

  lemma TargetsPrintable(t: Targets, order: seq<string>)
    requires Enumerates(order, t.select.tags)
    requires forall k | k in t.select.tags :: OneLine(k) && OneLine(t.select.tags[k])
    requires OneLineTexts(t.select.os) && OneLineTexts(t.select.groups) && OneLineTexts(t.select.agentIds)
    ensures OneLineFormTargets(TargetsForm(t, order))
  {
  }

  lemma FormPrintable(form: Form, p: Policy, order: seq<string>)
    requires p.outbound != [] && OneLinePolicy(p) && Enumerates(order, p.targets.select.tags)
    requires form.name == p.metadata.name && form.description == TextOr(p.metadata.description, "")
    requires form.targets == TargetsForm(p.targets, order) && IsFormOfRule(form, p.outbound[0])
    ensures OneLineForm(form)
  {
    var r := p.outbound[0];
    SeverityPrintable(r.severity);
    ActionPrintable(r.action);
    TargetsPrintable(p.targets, order);
    SourcesPrintable(r.sources);
    DestinationsPrintable(r.destinations);
    if r.conditions.Some? {
      ConditionsPrintable(r.conditions.value);
    }
  }

  lemma TextReads(form: Form, compiles: string -> bool, resolve: Resolver)
    requires OneLineForm(form)
    ensures FromYaml(DocumentText(FormLines(form)), compiles, resolve) ==
      var p := ReadPolicy(FormEntries(form), resolve);
      if AllLegible(FormLines(form)) && p.Some? && IsValid(p.value, compiles) then p else None
  {
    FormTextIsTree(form);
    FromTree(DocumentText(FormLines(form)), if AllLegible(FormLines(form)) then Some(FormEntries(form)) else None,
             compiles, resolve);
  }

  lemma FormTextIsTree(form: Form)
    requires OneLineForm(form)
    ensures ReadYaml(DocumentText(FormLines(form)))
         == if AllLegible(FormLines(form)) then Some(FormEntries(form)) else None
  {
    FormFormed(form);
    FormLayoutIsTree(form);
    ReadYamlText(FormEntries(form));
  }

  lemma FromTree(text: string, tree: Option<seq<Entry>>, compiles: string -> bool, resolve: Resolver)
    requires ReadYaml(text) == tree
    ensures FromYaml(text, compiles, resolve) ==
            if tree.None? then None
            else var p := ReadPolicy(tree.value, resolve); if p.Some? && IsValid(p.value, compiles) then p else None
  {
  }

  lemma KeptLegible(p: Policy)
    requires p.outbound != []
    ensures LegiblePolicy(Kept(p)) <==> LegiblePolicy(p)
  {
  }

  lemma KeptPrintable(p: Policy)
    requires p.outbound != [] && OneLinePolicy(p)
    ensures OneLinePolicy(Kept(p))
  {
    assert OneLineRule(p.outbound[0]);
  }

  lemma RoundTripOfForm(form: Form, q: Policy, order: seq<string>, compiles: string -> bool, resolve: Resolver)
    requires Supported(q) && |q.outbound| == 1 && Enumerates(order, q.targets.select.tags) && SizesAreText(resolve)
    requires HeaderFault(q).None? && q.outbound[0].id != "" && SafeRule(q.outbound[0]) && OneLinePolicy(q)
    requires form == FormOf(q, order) && IsValid(Normal(q, resolve), compiles)
    ensures FromYaml(DocumentText(FormLines(form)), compiles, resolve)
         == if LegiblePolicy(q) && CompleteRule(q.outbound[0], resolve) then Some(Normal(q, resolve)) else None
  {
    FormPrintable(form, q, order);
    TreeReads(form, q, order, resolve);
    PolicyLegibleExactly(q, order);
    TextReads(form, compiles, resolve);
  }

  /**
   For every valid policy with a rule: the emitted document parses exactly when no value is a lone dash
   and no tag key is overlong, the rule has a name, its directories and file matches have their required
   lists, and every list item of its sources and destinations is text. It is then the part that the form
   keeps, in normal form. By KeepsAllExactly that part is everything just when the policy is form-friendly.
   */
  lemma RoundTrip(p: Policy, order: seq<string>, compiles: string -> bool, resolve: Resolver)
    requires p.outbound != [] && IsValid(p, compiles) && Enumerates(order, p.targets.select.tags)
    requires SafeRule(p.outbound[0]) && OneLinePolicy(p) && SizesAreText(resolve)
    ensures FromYaml(DocumentText(FormLines(FormOf(p, order))), compiles, resolve)
         == if LegiblePolicy(p) && CompleteRule(p.outbound[0], resolve) then Some(Normal(Kept(p), resolve)) else None
  {
    KeptLines(p, order);
    KeptLegible(p);
    KeptRoundTrip(p, Kept(p), order, compiles, resolve);
  }

  /** The round trip of the part that the form keeps. */
  lemma KeptRoundTrip(p: Policy, q: Policy, order: seq<string>, compiles: string -> bool, resolve: Resolver)
    requires p.outbound != [] && IsValid(p, compiles) && Enumerates(order, p.targets.select.tags) && q == Kept(p)
    requires SafeRule(p.outbound[0]) && OneLinePolicy(p) && SizesAreText(resolve)
    ensures FromYaml(DocumentText(FormLines(FormOf(q, order))), compiles, resolve)
         == if LegiblePolicy(q) && CompleteRule(p.outbound[0], resolve) then Some(Normal(q, resolve)) else None
  {
    KeepsAllExactly(p);
    FirstRuleIsValid(p, compiles);
    NormalIsValid(p, compiles, resolve);
    KeptPrintable(p);
    RoundTripOfForm(FormOf(q, order), q, order, compiles, resolve);
  }

  // ---------- no rule ----------

  lemma AssembleFails(e: seq<Entry>, resolve: Resolver)
    requires var r := BlockOf(Find(e, "rules")); r.Some? && RulesOf(Find(r.value, "outbound"), resolve) == None
    ensures ReadPolicy(e, resolve) == None
  {
  }

  lemma UnnamedRuleIsRefused(form: Form, resolve: Resolver)
    requires form.rule.id != "" && form.rule.name == ""
    ensures ReadPolicy(FormEntries(form), resolve) == None
  {
    var e := RuleEntries(form);
    assert ReadRule(e, resolve) == None by {
      RuleFields(form);
    }
    OneRuleReads(e, resolve);
    FindOne(Entry("outbound", Sequence([Item(e)])), "outbound");
    assert Find(FormEntries(form), "rules") == RulesNode(form) by {
      FormFields(form);
    }
    AssembleFails(FormEntries(form), resolve);
  }

  lemma DefaultFormPrintable(form: Form, p: Policy, order: seq<string>)
    requires OneLinePolicy(p) && Enumerates(order, p.targets.select.tags)
    requires form.name == p.metadata.name && form.description == TextOr(p.metadata.description, "")
    requires form.targets == TargetsForm(p.targets, order) && form.rule == DEFAULT_RULE
    requires form.sources == [] && form.destinations == [] && form.conditions == None
    ensures OneLineForm(form)
  {
    TargetsPrintable(p.targets, order);
    DefaultRulePrintable();
  }

  lemma DefaultRulePrintable()
    ensures OneLineFormRule(DEFAULT_RULE)
  {
    assert OneLine("my-rule");
    assert OneLine("medium");
    assert OneLine("log_only");
    assert OneLine("");
  }

  /** Without an outbound rule the form shows an unnamed default rule, and its document is refused. */
  lemma NoRuleIsRefused(p: Policy, order: seq<string>, compiles: string -> bool, resolve: Resolver)
    requires p.outbound == [] && Enumerates(order, p.targets.select.tags) && OneLinePolicy(p)
    ensures FormOf(p, order).rule == FormRule("my-rule", "", "medium", "log_only", "", false, false)
    ensures FromYaml(DocumentText(FormLines(FormOf(p, order))), compiles, resolve) == None
  {
    var form := FormOf(p, order);
    DefaultFormPrintable(form, p, order);
    UnnamedRuleIsRefused(form, resolve);
    TextReads(form, compiles, resolve);
  }
}
