/**
 From a YAML tree to a policy, with the defaults of the serde derives: which keys may be absent and
 what they then mean. Unknown keys are ignored. A field declared as a string takes any scalar as text;
 where the type is not declared, a bare scalar is first resolved by the YAML library.
 */
module PolicyReader {
  import opened Prelude
  import opened PolicyModel
  import opened YamlScalar
  import opened YamlText
  import opened YamlTree
  import FileSize

  /** What the library makes of a bare scalar of no declared type: null, text, or a number or boolean. */
  datatype Resolved = AsNull | AsText | AsOther

  type Resolver = string -> Resolved

  /** The editor writes a scalar bare exactly when it is plain. */
  predicate IsNull(text: string, resolve: Resolver) {
    IsPlain(text) && resolve(text).AsNull?
  }

  predicate IsText(text: string, resolve: Resolver) {
    IsPlain(text) ==> resolve(text).AsText?
  }

  /** A number followed by a unit is text. */
  ghost predicate SizesAreText(resolve: Resolver) {
    forall n: nat :: resolve(FileSize.PrettySize(n)).AsText?
  }

  function Find(entries: seq<Entry>, key: string): Option<Node> {
    if entries == [] then None
    else if entries[0].key == key then Some(entries[0].node)
    else Find(entries[1..], key)
  }

  // ---------- fields ----------

  function TextOf(n: Option<Node>): Option<string> {
    if n.Some? && n.value.Leaf? && n.value.value.Scalar? then Some(n.value.value.text) else None
  }

  /** An `Option<String>` field: absent or null is None. */
  function OptionalTextOf(n: Option<Node>, resolve: Resolver): Option<Option<string>> {
    if n.None? || n.value == Leaf(Nothing) then Some(None)
    else
      var text :- TextOf(n);
      Some(if IsNull(text, resolve) then None else Some(text))
  }

  function RequiredTextsOf(n: Option<Node>): Option<seq<string>> {
    if n.Some? && n.value.Leaf? && n.value.value.Items? then Some(n.value.value.texts) else None
  }

  predicate AllText(texts: seq<string>, resolve: Resolver) {
    forall i | 0 <= i < |texts| :: IsText(texts[i], resolve)
  }

  /**
   A list inside a tagged enum: the enum's fields are buffered before their types are known, so a
   number, boolean or null among the items is refused.
   */
  function BufferedTextsOf(n: Option<Node>, resolve: Resolver): Option<seq<string>> {
    var texts :- RequiredTextsOf(n);
    if AllText(texts, resolve) then Some(texts) else None
  }

  function OptionalBufferedTextsOf(n: Option<Node>, resolve: Resolver): Option<seq<string>> {
    if n.None? then Some([]) else BufferedTextsOf(n, resolve)
  }

  /** A `Vec<String>` field with a default. */
  function TextsOf(n: Option<Node>, default: seq<string>): Option<seq<string>> {
    if n.None? then Some(default) else RequiredTextsOf(n)
  }

  function FlagOf(n: Option<Node>, default: bool): Option<bool> {
    if n.None? then Some(default)
    else
      var text :- TextOf(n);
      if text == "true" then Some(true) else if text == "false" then Some(false) else None
  }

  predicate AllDigits(s: string) {
    forall i | 0 <= i < |s| :: FileSize.DigitChar(s[i])
  }

  function ReadInt(s: string): Option<int> {
    if s != "" && s[0] == '-' then
      if |s| > 1 && AllDigits(s[1..]) then Some(0 - FileSize.DecimalValue(s[1..])) else None
    else if s != "" && AllDigits(s) then Some(FileSize.DecimalValue(s))
    else None
  }

  function PriorityOf(n: Option<Node>): Option<I32> {
    if n.None? then Some(0)
    else
      var text :- TextOf(n);
      var value :- ReadInt(text);
      if I32_MIN <= value <= I32_MAX then Some(value) else None
  }

  function VersionOf(n: Option<Node>): Option<U32> {
    if n.None? then Some(1)
    else
      var text :- TextOf(n);
      var value :- ReadInt(text);
      if 0 <= value <= U32_MAX then Some(value) else None
  }

  /** A size is untyped: text goes to the size parser, and only an unsigned integer is taken as a number. */
  function SizeOf(n: Option<Node>, resolve: Resolver): Option<Option<U64>> {
    if n.None? || n.value == Leaf(Nothing) then Some(None)
    else
      var text :- TextOf(n);
      if IsNull(text, resolve) then Some(None)
      else if IsText(text, resolve) then
        var size := FileSize.ParseSize(text);
        if size.Ok? then Some(Some(size.value)) else None
      else
        var value :- ReadInt(text);
        if 0 <= value < U64_SIZE then Some(Some(value)) else None
  }

  function SeverityOf(n: Option<Node>): Option<Severity> {
    var text :- TextOf(n);
    if text == "low" then Some(Low) else if text == "medium" then Some(Medium)
    else if text == "high" then Some(High) else if text == "critical" then Some(Critical)
    else None
  }

  function ActionOf(n: Option<Node>): Option<RuleAction> {
    var text :- TextOf(n);
    if text == "log_only" then Some(LogOnly) else if text == "log_and_alert" then Some(LogAndAlert)
    else if text == "warn_user" then Some(WarnUser) else if text == "block" then Some(RuleAction.Block)
    else if text == "quarantine" then Some(Quarantine) else if text == "lock_workstation" then Some(LockWorkstation)
    else if text == "kill_process" then Some(KillProcess)
    else None
  }

  /** A struct field: absent reads like an empty mapping where the struct has a default. */
  function BlockOf(n: Option<Node>): Option<seq<Entry>> {
    if n.None? then Some([]) else if n.value.Block? then Some(n.value.entries) else None
  }

  function ItemsOf(n: Option<Node>): Option<seq<Item>> {
    if n.None? then Some([]) else if n.value.Sequence? then Some(n.value.items) else None
  }

  // ---------- structures ----------

  /** Only `paths` of a directory and `classifiers` of a file match have no default. */
  function ReadSource(e: seq<Entry>, resolve: Resolver): Option<Source> {
    var kind :- TextOf(Find(e, "type"));
    if kind == "usb" then
      var serials :- OptionalBufferedTextsOf(Find(e, "except_serials"), resolve);
      Some(Source.Usb(serials))
    else if kind == "network_download" then
      var domains :- OptionalBufferedTextsOf(Find(e, "domains"), resolve);
      var except :- OptionalBufferedTextsOf(Find(e, "domains_except"), resolve);
      Some(NetworkDownload(domains, except))
    else if kind == "email_attachment" then Some(EmailAttachment)
    else if kind == "directory" then
      var paths :- BufferedTextsOf(Find(e, "paths"), resolve);
      var recursive :- FlagOf(Find(e, "recursive"), true);
      Some(Source.Directory(paths, recursive))
    else if kind == "file_match" then
      var classifiers :- BufferedTextsOf(Find(e, "classifiers"), resolve);
      Some(FileMatch(classifiers))
    else if kind == "any" then Some(Source.Any)
    else None
  }

  function ReadDestination(e: seq<Entry>, resolve: Resolver): Option<Destination> {
    var kind :- TextOf(Find(e, "type"));
    if kind == "directory" then
      var paths :- BufferedTextsOf(Find(e, "paths"), resolve);
      var recursive :- FlagOf(Find(e, "recursive"), true);
      Some(Destination.Directory(paths, recursive))
    else if kind == "usb" then
      var serials :- OptionalBufferedTextsOf(Find(e, "except_serials"), resolve);
      Some(Destination.Usb(serials))
    else if kind == "network_upload" then
      var domains :- OptionalBufferedTextsOf(Find(e, "domains"), resolve);
      Some(NetworkUpload(domains))
    else if kind == "clipboard" then Some(Clipboard)
    else if kind == "print" then Some(Print)
    else if kind == "any_external" then Some(AnyExternal)
    else if kind == "any" then Some(Destination.Any)
    else None
  }

  function ReadSources(items: seq<Item>, resolve: Resolver): Option<seq<Source>> {
    if items == [] then Some([])
    else
      var first :- ReadSource(items[0].entries, resolve);
      var rest :- ReadSources(items[1..], resolve);
      Some([first] + rest)
  }

  function ReadDestinations(items: seq<Item>, resolve: Resolver): Option<seq<Destination>> {
    if items == [] then Some([])
    else
      var first :- ReadDestination(items[0].entries, resolve);
      var rest :- ReadDestinations(items[1..], resolve);
      Some([first] + rest)
  }

  function ReadConditions(e: seq<Entry>, resolve: Resolver): Option<Conditions> {
    var min :- SizeOf(Find(e, "file_size_min"), resolve);
    var max :- SizeOf(Find(e, "file_size_max"), resolve);
    var extensions :- TextsOf(Find(e, "file_extensions"), []);
    var filename :- OptionalTextOf(Find(e, "filename_regex"), resolve);
    var path :- OptionalTextOf(Find(e, "path_regex"), resolve);
    Some(Conditions(min, max, extensions, filename, path))
  }

  function ConditionsOf(n: Option<Node>, resolve: Resolver): Option<Option<Conditions>> {
    if n.None? || n.value == Leaf(Nothing) then Some(None)
    else
      var e :- BlockOf(n);
      var c :- ReadConditions(e, resolve);
      Some(Some(c))
  }

  function ReadRule(e: seq<Entry>, resolve: Resolver): Option<Rule> {
    var id :- TextOf(Find(e, "id"));
    var name :- TextOf(Find(e, "name"));
    var enabled :- FlagOf(Find(e, "enabled"), true);
    var severity :- SeverityOf(Find(e, "severity"));
    var sourceItems :- ItemsOf(Find(e, "sources"));
    var sources :- ReadSources(sourceItems, resolve);
    var destinationItems :- ItemsOf(Find(e, "destinations"));
    var destinations :- ReadDestinations(destinationItems, resolve);
    var conditions :- ConditionsOf(Find(e, "conditions"), resolve);
    var action :- ActionOf(Find(e, "action"));
    var siem :- FlagOf(Find(e, "forward_to_siem"), false);
    var notify :- FlagOf(Find(e, "notify_user"), false);
    var message :- OptionalTextOf(Find(e, "message"), resolve);
    Some(Rule(id, name, enabled, severity, sources, destinations, conditions, action, siem, notify, message))
  }

  function ReadRules(items: seq<Item>, resolve: Resolver): Option<seq<Rule>> {
    if items == [] then Some([])
    else
      var first :- ReadRule(items[0].entries, resolve);
      var rest :- ReadRules(items[1..], resolve);
      Some([first] + rest)
  }

  function RulesOf(n: Option<Node>, resolve: Resolver): Option<seq<Rule>> {
    var items :- ItemsOf(n);
    ReadRules(items, resolve)
  }

  /** A string map; the last of equal keys wins. */
  function ReadTags(e: seq<Entry>): Option<map<string, string>> {
    if e == [] then Some(map[])
    else
      var init :- ReadTags(e[..|e| - 1]);
      var text :- TextOf(Some(e[|e| - 1].node));
      Some(init[e[|e| - 1].key := text])
  }

  function ReadSelector(e: seq<Entry>): Option<Selector> {
    var os :- TextsOf(Find(e, "os"), []);
    var tagEntries :- BlockOf(Find(e, "tags"));
    var tags :- ReadTags(tagEntries);
    var groups :- TextsOf(Find(e, "groups"), []);
    var agentIds :- TextsOf(Find(e, "agent_ids"), []);
    Some(Selector(os, tags, groups, agentIds))
  }

  function ReadExclusion(e: seq<Entry>): Option<Exclusion> {
    var hostnames :- TextsOf(Find(e, "hostnames"), []);
    var agentIds :- TextsOf(Find(e, "agent_ids"), []);
    Some(Exclusion(hostnames, agentIds))
  }

  function ReadTargets(e: seq<Entry>): Option<Targets> {
    var selectorEntries :- BlockOf(Find(e, "match"));
    var selector :- ReadSelector(selectorEntries);
    var exclusionEntries :- BlockOf(Find(e, "exclude"));
    var exclusion :- ReadExclusion(exclusionEntries);
    Some(Targets(selector, exclusion))
  }

  function ReadMetadata(e: seq<Entry>, resolve: Resolver): Option<Metadata> {
    var name :- TextOf(Find(e, "name"));
    var description :- OptionalTextOf(Find(e, "description"), resolve);
    var version :- VersionOf(Find(e, "version"));
    Some(Metadata(name, description, version))
  }

  const FILE_EVENTS := ["create", "modify", "delete", "rename"]

  function ReadMonitored(items: seq<Item>): Option<seq<MonitoredPath>> {
    if items == [] then Some([])
    else
      var e := items[0].entries;
      var path :- TextOf(Find(e, "path"));
      var recursive :- FlagOf(Find(e, "recursive"), true);
      var events :- TextsOf(Find(e, "events"), FILE_EVENTS);
      var patterns :- BlockOf(Find(e, "file_patterns"));
      var including :- TextsOf(Find(patterns, "include"), []);
      var excluding :- TextsOf(Find(patterns, "exclude"), []);
      var rest :- ReadMonitored(items[1..]);
      Some([MonitoredPath(path, recursive, events, including, excluding)] + rest)
  }

  /** The mapping of a struct without a default. */
  function RequiredBlockOf(n: Option<Node>): Option<seq<Entry>> {
    if n.None? then None else BlockOf(n)
  }

  function ReadPolicy(e: seq<Entry>, resolve: Resolver): Option<Policy> {
    var apiVersion :- TextOf(Find(e, "apiVersion"));
    var kind :- TextOf(Find(e, "kind"));
    var metadataEntries :- RequiredBlockOf(Find(e, "metadata"));
    var metadata :- ReadMetadata(metadataEntries, resolve);
    var targetsEntries :- BlockOf(Find(e, "targets"));
    var targets :- ReadTargets(targetsEntries);
    var priority :- PriorityOf(Find(e, "priority"));
    var rulesEntries :- BlockOf(Find(e, "rules"));
    var inbound :- RulesOf(Find(rulesEntries, "inbound"), resolve);
    var outbound :- RulesOf(Find(rulesEntries, "outbound"), resolve);
    var monitoredItems :- ItemsOf(Find(e, "monitored_paths"));
    var monitored :- ReadMonitored(monitoredItems);
    var classifiers :- TextsOf(Find(e, "classifiers"), []);
    Some(Policy(apiVersion, kind, metadata, targets, priority, inbound, outbound, monitored, classifiers))
  }

  /** Parse, then validate. */
  function FromYaml(text: string, compiles: string -> bool, resolve: Resolver): Option<Policy> {
    var e :- ReadYaml(text);
    var p :- ReadPolicy(e, resolve);
    if IsValid(p, compiles) then Some(p) else None
  }

  // ---------- what absent fields and list items mean ----------

  lemma AbsentFields(paths: seq<string>, resolve: Resolver)
    ensures VersionOf(None) == Some(1) && PriorityOf(None) == Some(0)
    ensures var e := [Entry("type", Leaf(Scalar("directory"))), Entry("paths", Leaf(Items(paths)))];
            && ReadSource(e, resolve) == (if AllText(paths, resolve) then Some(Source.Directory(paths, true)) else None)
            && ReadDestination(e, resolve)
               == if AllText(paths, resolve) then Some(Destination.Directory(paths, true)) else None
  {
    var e := [Entry("type", Leaf(Scalar("directory"))), Entry("paths", Leaf(Items(paths)))];
    assert e[1..] == [e[1]] && e[1..][1..] == [];
    assert Find(e, "type") == Some(e[0].node);
    assert Find(e, "paths") == Find(e[1..], "paths") == Some(e[1].node);
    assert Find(e, "recursive") == Find(e[1..], "recursive") == Find(e[1..][1..], "recursive") == None;
  }

  /** A list is refused as soon as one bare item is not text. */
  lemma AllTextExactly(texts: seq<string>, resolve: Resolver)
    ensures AllText(texts, resolve) <==> forall t <- texts :: IsPlain(t) ==> resolve(t) == AsText
  {
    if AllText(texts, resolve) {
      forall t | t in texts && IsPlain(t) ensures resolve(t) == AsText {
        var i :| 0 <= i < |texts| && texts[i] == t;
        assert IsText(texts[i], resolve);
      }
    }
    if forall t <- texts :: IsPlain(t) ==> resolve(t) == AsText {
      forall i | 0 <= i < |texts| ensures IsText(texts[i], resolve) {
        assert texts[i] in texts;
      }
    }
  }

  lemma NaturalReads(n: nat)
    ensures ReadInt(FileSize.DecimalText(n)) == Some(n)
    ensures ReadInt("-" + FileSize.DecimalText(n)) == Some(0 - n)
  {
    var digits := FileSize.DecimalText(n);
    FileSize.DecimalRoundTrip(n);
    assert FileSize.DigitChar(digits[0]);
    assert ("-" + digits)[1..] == digits;
  }

  /** Integers are read in the ranges of their fields; a size is one only when its text resolves to a number. */
  lemma IntegerFields(n: nat, resolve: Resolver)
    ensures var digits := FileSize.DecimalText(n);
            && VersionOf(Some(Leaf(Scalar(digits)))) == (if n <= 0xffff_ffff then Some(n) else None)
            && PriorityOf(Some(Leaf(Scalar(digits)))) == (if n <= 0x7fff_ffff then Some(n) else None)
            && PriorityOf(Some(Leaf(Scalar("-" + digits)))) == (if n <= 0x8000_0000 then Some(0 - n) else None)
            && (resolve(digits) == AsOther ==> SizeOf(Some(Leaf(Scalar(digits))), resolve)
                                               == if n < 0x1_0000_0000_0000_0000 then Some(Some(n)) else None)
  {
    var digits := FileSize.DecimalText(n);
    NaturalReads(n);
    assert forall i | 0 <= i < |digits| :: FileSize.DigitChar(digits[i]) && PlainChar(digits[i]);
    assert IsPlain(digits);
  }
}
