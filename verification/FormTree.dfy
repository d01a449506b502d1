/** The YAML document of a form, as a tree: which parts are written, and in which order. */
module FormTree {
  import opened Prelude
  import opened YamlText
  import opened YamlTree
  import opened FormState
  import FileSize

  function TextEntry(key: string, text: string): Entry {
    Entry(key, Leaf(Scalar(text)))
  }

  /** Empty strings are not written. */
  function TextEntries(key: string, text: string): seq<Entry> {
    if text == "" then [] else [TextEntry(key, text)]
  }

  /** Empty lists are not written. */
  function ListEntries(key: string, texts: seq<string>): seq<Entry> {
    if texts == [] then [] else [Entry(key, Leaf(Items(texts)))]
  }

  function FlagText(on: bool): string {
    if on then "true" else "false"
  }

  function FlagEntries(key: string, on: bool): seq<Entry> {
    if on then [TextEntry(key, "true")] else []
  }

  function IntText(n: int): (text: string)
    ensures text != "" && (text[0] == '-' <==> n < 0)
  {
    if n < 0 then "-" + FileSize.DecimalText(-n) else FileSize.DecimalText(n)
  }

  function TagEntries(tags: seq<Tag>): seq<Entry> {
    if tags == [] then [] else [TextEntry(tags[0].key, tags[0].value)] + TagEntries(tags[1..])
  }

  /** Only the selector of the active mode is written. */
  function SelectorEntries(t: FormTargets): seq<Entry> {
    match t.mode
    case All => []
    case Tags => if t.tags == [] then [] else [Entry("tags", Block(TagEntries(t.tags)))]
    case Groups => ListEntries("groups", t.groups)
    case AgentIds => ListEntries("agent_ids", t.agentIds)
  }

  function MatchEntries(t: FormTargets): seq<Entry> {
    ListEntries("os", t.os) + SelectorEntries(t)
  }

  function TargetsEntries(t: FormTargets): seq<Entry> {
    if MatchEntries(t) == [] then [] else [Entry("targets", Block([Entry("match", Block(MatchEntries(t)))]))]
  }

  function FieldEntries(f: Field): seq<Entry> {
    match f.value
    case Text(t) => TextEntries(f.key, t)
    case Texts(ts) => ListEntries(f.key, ts)
    case Flag(on) => [TextEntry(f.key, FlagText(on))]
  }

  function FieldsEntries(fields: seq<Field>): seq<Entry> {
    if fields == [] then [] else FieldEntries(fields[0]) + FieldsEntries(fields[1..])
  }

  function ItemEntries(item: FormItem): seq<Entry> {
    [TextEntry("type", item.kind)] + FieldsEntries(item.fields)
  }

  function ItemNodes(items: seq<FormItem>): seq<Item> {
    if items == [] then [] else [Item(ItemEntries(items[0]))] + ItemNodes(items[1..])
  }

  function SequenceEntries(key: string, items: seq<FormItem>): seq<Entry> {
    if items == [] then [] else [Entry(key, Sequence(ItemNodes(items)))]
  }

  function ConditionsFields(c: FormConditions): seq<Entry> {
    TextEntries("file_size_min", c.fileSizeMin) + (TextEntries("file_size_max", c.fileSizeMax)
    + (ListEntries("file_extensions", c.fileExtensions)
    + (TextEntries("filename_regex", c.filenameRegex) + TextEntries("path_regex", c.pathRegex))))
  }

  function ConditionsEntries(c: Option<FormConditions>): seq<Entry> {
    if c.None? || ConditionsFields(c.value) == [] then [] else [Entry("conditions", Block(ConditionsFields(c.value)))]
  }

  function RuleHeadEntries(r: FormRule): seq<Entry> {
    [TextEntry("id", r.id)] + (TextEntries("name", r.name) + ([TextEntry("severity", r.severity)]
    + ([TextEntry("action", r.action)] + (TextEntries("message", r.message)
    + (FlagEntries("notify_user", r.notifyUser) + FlagEntries("forward_to_siem", r.forwardToSiem))))))
  }

  function RuleEntries(form: Form): seq<Entry> {
    RuleHeadEntries(form.rule) + (SequenceEntries("sources", form.sources)
    + (SequenceEntries("destinations", form.destinations) + ConditionsEntries(form.conditions)))
  }

  function RulesEntries(form: Form): seq<Entry> {
    if form.rule.id == "" then []
    else [Entry("rules", Block([Entry("outbound", Sequence([Item(RuleEntries(form))]))]))]
  }

  function MetadataEntries(form: Form): seq<Entry> {
    [TextEntry("name", form.name)] + TextEntries("description", form.description)
  }

  function HeaderEntries(form: Form): seq<Entry> {
    [TextEntry("apiVersion", "scroogedlp.io/v1")] + ([TextEntry("kind", "Policy")]
    + [Entry("metadata", Block(MetadataEntries(form)))])
  }

  function FormEntries(form: Form): seq<Entry> {
    HeaderEntries(form) + (TargetsEntries(form.targets)
    + ([TextEntry("priority", IntText(form.priority))] + RulesEntries(form)))
  }
}
