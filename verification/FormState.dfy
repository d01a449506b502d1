/** The policy editor's form: what it takes over from a parsed policy, and what it does not support. */
module FormState {
  import opened Prelude
  import opened PolicyModel
  import FileSize

  // ---------- the parsed policy as JSON ----------

  function SeverityText(s: Severity): string {
    match s
    case Low => "low"
    case Medium => "medium"
    case High => "high"
    case Critical => "critical"
  }

  function ActionText(a: RuleAction): string {
    match a
    case LogOnly => "log_only"
    case LogAndAlert => "log_and_alert"
    case WarnUser => "warn_user"
    case Block => "block"
    case Quarantine => "quarantine"
    case LockWorkstation => "lock_workstation"
    case KillProcess => "kill_process"
  }

  datatype FieldValue = Text(text: string) | Texts(texts: seq<string>) | Flag(on: bool)

  datatype Field = Field(key: string, value: FieldValue)

  /** A source or destination as a JSON object; serde_json keeps object keys sorted. */
  function SourceJson(s: Source): seq<Field> {
    match s
    case Usb(serials) => [Field("except_serials", Texts(serials)), Field("type", Text("usb"))]
    case NetworkDownload(domains, except) =>
      [Field("domains", Texts(domains)), Field("domains_except", Texts(except)),
       Field("type", Text("network_download"))]
    case EmailAttachment => [Field("type", Text("email_attachment"))]
    case Directory(paths, recursive) =>
      [Field("paths", Texts(paths)), Field("recursive", Flag(recursive)), Field("type", Text("directory"))]
    case FileMatch(classifiers) => [Field("classifiers", Texts(classifiers)), Field("type", Text("file_match"))]
    case Any => [Field("type", Text("any"))]
  }

  function DestinationJson(d: Destination): seq<Field> {
    match d
    case Directory(paths, recursive) =>
      [Field("paths", Texts(paths)), Field("recursive", Flag(recursive)), Field("type", Text("directory"))]
    case Usb(serials) => [Field("except_serials", Texts(serials)), Field("type", Text("usb"))]
    case NetworkUpload(domains) => [Field("domains", Texts(domains)), Field("type", Text("network_upload"))]
    case Clipboard => [Field("type", Text("clipboard"))]
    case Print => [Field("type", Text("print"))]
    case AnyExternal => [Field("type", Text("any_external"))]
    case Any => [Field("type", Text("any"))]
  }

  // ---------- the form ----------

  datatype Mode = All | Tags | Groups | AgentIds

  datatype Tag = Tag(key: string, value: string)

  datatype FormTargets =
    FormTargets(mode: Mode, os: seq<string>, tags: seq<Tag>, groups: seq<string>, agentIds: seq<string>)

  datatype FormRule = FormRule(
    id: string, name: string, severity: string, action: string, message: string, notifyUser: bool, forwardToSiem: bool)

  datatype FormItem = FormItem(kind: string, fields: seq<Field>)

  datatype FormConditions = FormConditions(
    fileSizeMin: string, fileSizeMax: string, fileExtensions: seq<string>, filenameRegex: string, pathRegex: string)

  datatype Form = Form(
    name: string,
    description: string,
    priority: I32,
    targets: FormTargets,
    rule: FormRule,
    sources: seq<FormItem>,
    destinations: seq<FormItem>,
    conditions: Option<FormConditions>)

  const DEFAULT_RULE := FormRule("my-rule", "", "medium", "log_only", "", false, false)

  function TextOr(o: Option<string>, default: string): string {
    if o.Some? then o.value else default
  }

  /** `tagOrder` is the order in which the tag object lists its keys. */
  ghost predicate Enumerates(order: seq<string>, tags: map<string, string>) {
    && (forall i, j | 0 <= i < j < |order| :: order[i] != order[j])
    && (forall k :: k in order <==> k in tags)
  }

  function TagList(order: seq<string>, tags: map<string, string>): (list: seq<Tag>)
    requires forall i | 0 <= i < |order| :: order[i] in tags
    ensures |list| == |order| && forall i | 0 <= i < |list| :: list[i] == Tag(order[i], tags[order[i]])
  {
    if order == [] then [] else [Tag(order[0], tags[order[0]])] + TagList(order[1..], tags)
  }

  /** The first non-empty selector decides the mode. */
  function TargetsForm(t: Targets, tagOrder: seq<string>): FormTargets
    requires forall i | 0 <= i < |tagOrder| :: tagOrder[i] in t.select.tags
  {
    var mode :=
      if t.select.tags != map[] then Tags else if t.select.groups != [] then Groups
      else if t.select.agentIds != [] then AgentIds else All;
    FormTargets(mode, t.select.os, TagList(tagOrder, t.select.tags), t.select.groups, t.select.agentIds)
  }

  /** The value under `type`, which the tagged enums always have. */
  function KindOf(json: seq<Field>): string {
    if json == [] then ""
    else if json[0].key == "type" && json[0].value.Text? then json[0].value.text
    else KindOf(json[1..])
  }

  function WithoutType(json: seq<Field>): seq<Field> {
    if json == [] then []
    else if json[0].key == "type" then WithoutType(json[1..])
    else [json[0]] + WithoutType(json[1..])
  }

  lemma {:induction false} WithoutTypeSnoc(json: seq<Field>, f: Field)
    ensures WithoutType(json + [f]) == WithoutType(json) + if f.key == "type" then [] else [f]
  {
    if json == [] {
      assert [] + [f] == [f];
    } else {
      assert (json + [f])[1..] == json[1..] + [f];
      WithoutTypeSnoc(json[1..], f);
    }
  }

  /** The type first, then every other field in its order. */
  method NormalizeItem(json: seq<Field>) returns (out: FormItem)
    ensures out == FormItem(KindOf(json), WithoutType(json))
  {
    out := FormItem(KindOf(json), []);
    for i := 0 to |json|
      invariant out == FormItem(KindOf(json), WithoutType(json[..i]))
    {
      WithoutTypeSnoc(json[..i], json[i]);
      assert json[..i + 1] == json[..i] + [json[i]];
      if json[i].key == "type" {
        continue;
      }
      out := out.(fields := out.fields + [json[i]]);
    }
    assert json[..|json|] == json;
  }

  function SourceItem(s: Source): FormItem {
    FormItem(KindOf(SourceJson(s)), WithoutType(SourceJson(s)))
  }

  function DestinationItem(d: Destination): FormItem {
    FormItem(KindOf(DestinationJson(d)), WithoutType(DestinationJson(d)))
  }

  function SourceItems(sources: seq<Source>): seq<FormItem> {
    if sources == [] then [] else [SourceItem(sources[0])] + SourceItems(sources[1..])
  }

  function DestinationItems(destinations: seq<Destination>): seq<FormItem> {
    if destinations == [] then [] else [DestinationItem(destinations[0])] + DestinationItems(destinations[1..])
  }

  function SizeText(size: Option<U64>): string {
    if size.Some? then FileSize.PrettySize(size.value) else ""
  }

  function ConditionsForm(c: Conditions): FormConditions {
    FormConditions(SizeText(c.fileSizeMin), SizeText(c.fileSizeMax), c.fileExtensions,
                   TextOr(c.filenameRegex, ""), TextOr(c.pathRegex, ""))
  }

  function OptionalConditionsForm(c: Option<Conditions>): Option<FormConditions> {
    if c.Some? then Some(ConditionsForm(c.value)) else None
  }

  function RuleForm(r: Rule): FormRule {
    FormRule(r.id, r.name, SeverityText(r.severity), ActionText(r.action), TextOr(r.message, ""),
             r.notifyUser, r.forwardToSiem)
  }

  /** Only the first outbound rule reaches the form; without one the form shows the default rule. */
  function FormOf(p: Policy, tagOrder: seq<string>): Form
    requires forall i | 0 <= i < |tagOrder| :: tagOrder[i] in p.targets.select.tags
  {
    var targets := TargetsForm(p.targets, tagOrder);
    var description := TextOr(p.metadata.description, "");
    if p.outbound == [] then
      Form(p.metadata.name, description, p.priority, targets, DEFAULT_RULE, [], [], None)
    else
      var r := p.outbound[0];
      Form(p.metadata.name, description, p.priority, targets, RuleForm(r), SourceItems(r.sources),
           DestinationItems(r.destinations),
           OptionalConditionsForm(r.conditions))
  }

  // ---------- supportability ----------

  datatype Feature =
    | ManyOutbound(count: nat)
    | Inbound(count: nat)
    | MixedTargets(modes: seq<Mode>)
    | Excluded
    | Monitored(count: nat)
    | Classified(count: nat)

  /** At most one outbound rule, one way of selecting agents, and nothing the form has no field for. */
  predicate Supported(p: Policy) {
    var s := p.targets.select;
    && |p.outbound| <= 1 && p.inbound == []
    && (s.tags == map[] || s.groups == [])
    && (s.tags == map[] || s.agentIds == [])
    && (s.groups == [] || s.agentIds == [])
    && p.targets.exclude == NO_EXCLUSION && p.monitoredPaths == [] && p.classifiers == []
  }

  function When(c: bool, f: Feature): seq<Feature> {
    if c then [f] else []
  }

  function SelectorModes(s: Selector): seq<Mode> {
    (if s.tags != map[] then [Tags] else []) + (if s.groups != [] then [Groups] else [])
    + (if s.agentIds != [] then [AgentIds] else [])
  }

  function Unsupported(p: Policy): seq<Feature> {
    When(|p.outbound| > 1, ManyOutbound(|p.outbound|))
    + When(|p.inbound| > 0, Inbound(|p.inbound|))
    + When(|SelectorModes(p.targets.select)| > 1, MixedTargets(SelectorModes(p.targets.select)))
    + When(|p.targets.exclude.hostnames| > 0 || |p.targets.exclude.agentIds| > 0, Excluded)
    + When(|p.monitoredPaths| > 0, Monitored(|p.monitoredPaths|))
    + When(|p.classifiers| > 0, Classified(|p.classifiers|))
  }

  method ListUnsupported(p: Policy) returns (out: seq<Feature>)
    ensures out == Unsupported(p)
  {
    out := When(|p.outbound| > 1, ManyOutbound(|p.outbound|));
    out := out + When(|p.inbound| > 0, Inbound(|p.inbound|));
    var modes := SelectorModes(p.targets.select);
    out := out + When(|modes| > 1, MixedTargets(modes));
    out := out + When(|p.targets.exclude.hostnames| > 0 || |p.targets.exclude.agentIds| > 0, Excluded);
    out := out + When(|p.monitoredPaths| > 0, Monitored(|p.monitoredPaths|));
    out := out + When(|p.classifiers| > 0, Classified(|p.classifiers|));
  }

  lemma SupportedExactly(p: Policy)
    ensures Unsupported(p) == [] <==> Supported(p)
  {
    var s := p.targets.select;
    assert |SelectorModes(s)| ==
      (if s.tags != map[] then 1 else 0) + (if s.groups != [] then 1 else 0) + (if s.agentIds != [] then 1 else 0);
  }

  lemma InParts(x: Feature, a: seq<Feature>, b: seq<Feature>, c: seq<Feature>, d: seq<Feature>, e: seq<Feature>,
          f: seq<Feature>)
    ensures x in a + b + c + d + e + f <==> x in a || x in b || x in c || x in d || x in e || x in f
  {
  }

  lemma WhenHas(x: Feature, c: bool, f: Feature)
    ensures x in When(c, f) <==> c && x == f
  {
  }

  lemma UnsupportedMembers(p: Policy, f: Feature, modes: seq<Mode>, excludes: bool)
    requires modes == SelectorModes(p.targets.select)
    requires excludes <==> |p.targets.exclude.hostnames| > 0 || |p.targets.exclude.agentIds| > 0
    ensures f in Unsupported(p) <==>
              || (|p.outbound| > 1 && f == ManyOutbound(|p.outbound|))
              || (|p.inbound| > 0 && f == Inbound(|p.inbound|))
              || (|modes| > 1 && f == MixedTargets(modes))
              || (excludes && f == Excluded)
              || (|p.monitoredPaths| > 0 && f == Monitored(|p.monitoredPaths|))
              || (|p.classifiers| > 0 && f == Classified(|p.classifiers|))
  {
    InParts(f, When(|p.outbound| > 1, ManyOutbound(|p.outbound|)), When(|p.inbound| > 0, Inbound(|p.inbound|)),
            When(|modes| > 1, MixedTargets(modes)), When(excludes, Excluded),
            When(|p.monitoredPaths| > 0, Monitored(|p.monitoredPaths|)),
            When(|p.classifiers| > 0, Classified(|p.classifiers|)));
    WhenHas(f, |p.outbound| > 1, ManyOutbound(|p.outbound|));
    WhenHas(f, |p.inbound| > 0, Inbound(|p.inbound|));
    WhenHas(f, |modes| > 1, MixedTargets(modes));
    WhenHas(f, excludes, Excluded);
    WhenHas(f, |p.monitoredPaths| > 0, Monitored(|p.monitoredPaths|));
    WhenHas(f, |p.classifiers| > 0, Classified(|p.classifiers|));
  }

  lemma SelectorModesAre(s: Selector)
    ensures var modes := SelectorModes(s);
            && (Tags in modes <==> s.tags != map[]) && (Groups in modes <==> s.groups != [])
            && (AgentIds in modes <==> s.agentIds != []) && All !in modes
            && (|modes| > 1 <==> (s.tags != map[] && s.groups != []) || (s.tags != map[] && s.agentIds != [])
                                 || (s.groups != [] && s.agentIds != []))
  {
  }

  /** Each feature is listed exactly when the policy has it, with its count or its selectors. */
  lemma UnsupportedExactly(p: Policy, f: Feature)
    ensures f in Unsupported(p) <==>
              match f
              case ManyOutbound(n) => n == |p.outbound| && n > 1
              case Inbound(n) => n == |p.inbound| && n > 0
              case MixedTargets(modes) =>
                modes == SelectorModes(p.targets.select)
                && ((p.targets.select.tags != map[] && p.targets.select.groups != [])
                    || (p.targets.select.tags != map[] && p.targets.select.agentIds != [])
                    || (p.targets.select.groups != [] && p.targets.select.agentIds != []))
              case Excluded => p.targets.exclude.hostnames != [] || p.targets.exclude.agentIds != []
              case Monitored(n) => n == |p.monitoredPaths| && n > 0
              case Classified(n) => n == |p.classifiers| && n > 0
  {
    SelectorModesAre(p.targets.select);
    UnsupportedMembers(p, f, SelectorModes(p.targets.select),
                       |p.targets.exclude.hostnames| > 0 || |p.targets.exclude.agentIds| > 0);
  }

  method IsFormFriendly(p: Policy) returns (ok: bool)
    ensures ok <==> Supported(p) && |p.outbound| == 1
  {
    var unsupported := ListUnsupported(p);
    SupportedExactly(p);
    ok := unsupported == [] && |p.outbound| == 1;
  }
}
