/** Reading back the parts of an emitted rule: sources, destinations and conditions. */
module EditorItems {
  import opened Prelude
  import opened PolicyModel
  import opened YamlText
  import opened YamlTree
  import opened FormState
  import opened FormTree
  import opened PolicyReader
  import FileSize

  // ---------- finding a key ----------

  lemma {:induction false} FindConcat(a: seq<Entry>, b: seq<Entry>, key: string)
    ensures Find(a + b, key) == if Find(a, key).Some? then Find(a, key) else Find(b, key)
  {
    if a == [] {
      assert a + b == b;
    } else {
      assert (a + b)[1..] == a[1..] + b;
      FindConcat(a[1..], b, key);
    }
  }

  lemma FindOne(e: Entry, key: string)
    ensures Find([e], key) == if e.key == key then Some(e.node) else None
  {
    assert [e][1..] == [];
  }

  /** The node of a string that is written only when it is not empty. */
  function TextNode(text: string): Option<Node> {
    if text == "" then None else Some(Leaf(Scalar(text)))
  }

  function ListNode(texts: seq<string>): Option<Node> {
    if texts == [] then None else Some(Leaf(Items(texts)))
  }

  function FlagNode(on: bool): Option<Node> {
    if on then Some(Leaf(Scalar("true"))) else None
  }

  /** One optional key in front of others: later keys are reached only past it. */
  function Pick(key: string, node: Option<Node>, wanted: string, otherwise: Option<Node>): Option<Node> {
    if key == wanted && node.Some? then node else otherwise
  }

  lemma FindText(key: string, text: string, rest: seq<Entry>, wanted: string)
    ensures Find(TextEntries(key, text) + rest, wanted) == Pick(key, TextNode(text), wanted, Find(rest, wanted))
  {
    FindConcat(TextEntries(key, text), rest, wanted);
    FindOne(TextEntry(key, text), wanted);
  }

  lemma FindList(key: string, texts: seq<string>, rest: seq<Entry>, wanted: string)
    ensures Find(ListEntries(key, texts) + rest, wanted) == Pick(key, ListNode(texts), wanted, Find(rest, wanted))
  {
    FindConcat(ListEntries(key, texts), rest, wanted);
    FindOne(Entry(key, Leaf(Items(texts))), wanted);
  }

  lemma FindFlag(key: string, on: bool, rest: seq<Entry>, wanted: string)
    ensures Find(FlagEntries(key, on) + rest, wanted) == Pick(key, FlagNode(on), wanted, Find(rest, wanted))
  {
    FindConcat(FlagEntries(key, on), rest, wanted);
    FindOne(TextEntry(key, "true"), wanted);
  }

  lemma FindEntry(e: Entry, rest: seq<Entry>, wanted: string)
    ensures Find([e] + rest, wanted) == Pick(e.key, Some(e.node), wanted, Find(rest, wanted))
  {
    FindConcat([e], rest, wanted);
    FindOne(e, wanted);
  }

  // ---------- sources and destinations ----------

  /**
   A directory without paths and a file match without classifiers lose their required key, and a bare
   item that resolves to anything but text is refused.
   */
  predicate CompleteSource(s: Source, resolve: Resolver) {
    match s
    case Usb(serials) => AllText(serials, resolve)
    case NetworkDownload(domains, except) => AllText(domains, resolve) && AllText(except, resolve)
    case EmailAttachment => true
    case Directory(paths, _) => paths != [] && AllText(paths, resolve)
    case FileMatch(classifiers) => classifiers != [] && AllText(classifiers, resolve)
    case Any => true
  }

  predicate CompleteDestination(d: Destination, resolve: Resolver) {
    match d
    case Directory(paths, _) => paths != [] && AllText(paths, resolve)
    case Usb(serials) => AllText(serials, resolve)
    case NetworkUpload(domains) => AllText(domains, resolve)
    case _ => true
  }

  function FieldNode(v: FieldValue): Option<Node> {
    match v
    case Text(t) => TextNode(t)
    case Texts(ts) => ListNode(ts)
    case Flag(on) => Some(Leaf(Scalar(FlagText(on))))
  }

  lemma FindField(f: Field, rest: seq<Entry>, wanted: string)
    ensures Find(FieldEntries(f) + rest, wanted) == Pick(f.key, FieldNode(f.value), wanted, Find(rest, wanted))
  {
    match f.value {
      case Text(t) => FindText(f.key, t, rest, wanted);
      case Texts(ts) => FindList(f.key, ts, rest, wanted);
      case Flag(on) => FindEntry(TextEntry(f.key, FlagText(on)), rest, wanted);
    }
  }

  /** What an item with up to two fields holds under a key. */
  lemma FindInItem(item: FormItem, wanted: string)
    requires |item.fields| <= 2
    ensures Find(ItemEntries(item), wanted) ==
      var second :=
        if |item.fields| < 2 then None
        else Pick(item.fields[1].key, FieldNode(item.fields[1].value), wanted, None);
      var first :=
        if |item.fields| < 1 then None
        else Pick(item.fields[0].key, FieldNode(item.fields[0].value), wanted, second);
      Pick("type", Some(Leaf(Scalar(item.kind))), wanted, first)
  {
    var fields := item.fields;
    FindEntry(TextEntry("type", item.kind), FieldsEntries(fields), wanted);
    if |fields| > 0 {
      FindField(fields[0], FieldsEntries(fields[1..]), wanted);
      if |fields| > 1 {
        FindField(fields[1], FieldsEntries(fields[1..][1..]), wanted);
      }
    }
  }

  lemma {:induction false} JsonShape(fields: seq<Field>, kind: string)
    requires forall i | 0 <= i < |fields| :: fields[i].key != "type"
    ensures KindOf(fields + [Field("type", Text(kind))]) == kind
    ensures WithoutType(fields + [Field("type", Text(kind))]) == fields
  {
    var json := fields + [Field("type", Text(kind))];
    if fields == [] {
      assert json[1..] == [];
    } else {
      assert json[1..] == fields[1..] + [Field("type", Text(kind))];
      JsonShape(fields[1..], kind);
      assert [fields[0]] + fields[1..] == fields;
    }
  }

  function DirectoryItem(paths: seq<string>, recursive: bool): FormItem {
    FormItem("directory", [Field("paths", Texts(paths)), Field("recursive", Flag(recursive))])
  }

  function DownloadItem(domains: seq<string>, except: seq<string>): FormItem {
    FormItem("network_download", [Field("domains", Texts(domains)), Field("domains_except", Texts(except))])
  }

  lemma SourceItemShape(s: Source)
    ensures SourceItem(s) == match s
      case Usb(serials) => FormItem("usb", [Field("except_serials", Texts(serials))])
      case NetworkDownload(domains, except) => DownloadItem(domains, except)
      case EmailAttachment => FormItem("email_attachment", [])
      case Directory(paths, recursive) => DirectoryItem(paths, recursive)
      case FileMatch(classifiers) => FormItem("file_match", [Field("classifiers", Texts(classifiers))])
      case Any => FormItem("any", [])
  {
    var json := SourceJson(s);
    var fields := json[..|json| - 1];
    JsonShape(fields, json[|json| - 1].value.text);
    assert json == fields + [json[|json| - 1]];
  }

  lemma DestinationItemShape(d: Destination)
    ensures DestinationItem(d) == match d
      case Directory(paths, recursive) => DirectoryItem(paths, recursive)
      case Usb(serials) => FormItem("usb", [Field("except_serials", Texts(serials))])
      case NetworkUpload(domains) => FormItem("network_upload", [Field("domains", Texts(domains))])
      case Clipboard => FormItem("clipboard", [])
      case Print => FormItem("print", [])
      case AnyExternal => FormItem("any_external", [])
      case Any => FormItem("any", [])
  {
    var json := DestinationJson(d);
    var fields := json[..|json| - 1];
    JsonShape(fields, json[|json| - 1].value.text);
    assert json == fields + [json[|json| - 1]];
  }

  lemma UsbSourceReads(serials: seq<string>, resolve: Resolver)
    ensures ReadSource(ItemEntries(FormItem("usb", [Field("except_serials", Texts(serials))])), resolve)
         == if AllText(serials, resolve) then Some(Source.Usb(serials)) else None
  {
    var item := FormItem("usb", [Field("except_serials", Texts(serials))]);
    FindInItem(item, "type");
    FindInItem(item, "except_serials");
  }

  lemma DownloadReads(domains: seq<string>, except: seq<string>, resolve: Resolver)
    ensures ReadSource(ItemEntries(DownloadItem(domains, except)), resolve)
         == if AllText(domains, resolve) && AllText(except, resolve) then Some(NetworkDownload(domains, except))
            else None
  {
    var item := DownloadItem(domains, except);
    FindInItem(item, "type");
    FindInItem(item, "domains");
    FindInItem(item, "domains_except");
  }

  lemma DirectorySourceReads(paths: seq<string>, recursive: bool, resolve: Resolver)
    ensures ReadSource(ItemEntries(DirectoryItem(paths, recursive)), resolve)
         == if paths != [] && AllText(paths, resolve) then Some(Source.Directory(paths, recursive)) else None
  {
    var item := DirectoryItem(paths, recursive);
    FindInItem(item, "type");
    FindInItem(item, "paths");
    FindInItem(item, "recursive");
  }

  lemma FileMatchReads(classifiers: seq<string>, resolve: Resolver)
    ensures ReadSource(ItemEntries(FormItem("file_match", [Field("classifiers", Texts(classifiers))])), resolve)
         == if classifiers != [] && AllText(classifiers, resolve) then Some(FileMatch(classifiers)) else None
  {
    var item := FormItem("file_match", [Field("classifiers", Texts(classifiers))]);
    FindInItem(item, "type");
    FindInItem(item, "classifiers");
  }

  lemma BareKind(kind: string)
    ensures Find(ItemEntries(FormItem(kind, [])), "type") == Some(Leaf(Scalar(kind)))
  {
    FindInItem(FormItem(kind, []), "type");
  }

  /** An emitted source reads back exactly when it kept its required list and its items are text. */
  lemma SourceReads(s: Source, resolve: Resolver)
    ensures ReadSource(ItemEntries(SourceItem(s)), resolve) == if CompleteSource(s, resolve) then Some(s) else None
  {
    SourceItemShape(s);
    match s {
      case Usb(serials) => UsbSourceReads(serials, resolve);
      case NetworkDownload(domains, except) => DownloadReads(domains, except, resolve);
      case EmailAttachment => BareKind("email_attachment");
      case Directory(paths, recursive) => DirectorySourceReads(paths, recursive, resolve);
      case FileMatch(classifiers) => FileMatchReads(classifiers, resolve);
      case Any => BareKind("any");
    }
  }

  lemma DirectoryDestinationReads(paths: seq<string>, recursive: bool, resolve: Resolver)
    ensures ReadDestination(ItemEntries(DirectoryItem(paths, recursive)), resolve)
         == if paths != [] && AllText(paths, resolve) then Some(Destination.Directory(paths, recursive)) else None
  {
    var item := DirectoryItem(paths, recursive);
    FindInItem(item, "type");
    FindInItem(item, "paths");
    FindInItem(item, "recursive");
  }

  lemma UsbDestinationReads(serials: seq<string>, resolve: Resolver)
    ensures ReadDestination(ItemEntries(FormItem("usb", [Field("except_serials", Texts(serials))])), resolve)
         == if AllText(serials, resolve) then Some(Destination.Usb(serials)) else None
  {
    var item := FormItem("usb", [Field("except_serials", Texts(serials))]);
    FindInItem(item, "type");
    FindInItem(item, "except_serials");
  }

  lemma UploadReads(domains: seq<string>, resolve: Resolver)
    ensures ReadDestination(ItemEntries(FormItem("network_upload", [Field("domains", Texts(domains))])), resolve)
         == if AllText(domains, resolve) then Some(NetworkUpload(domains)) else None
  {
    var item := FormItem("network_upload", [Field("domains", Texts(domains))]);
    FindInItem(item, "type");
    FindInItem(item, "domains");
  }

  lemma DestinationReads(d: Destination, resolve: Resolver)
    ensures ReadDestination(ItemEntries(DestinationItem(d)), resolve)
         == if CompleteDestination(d, resolve) then Some(d) else None
  {
    DestinationItemShape(d);
    match d {
      case Directory(paths, recursive) => DirectoryDestinationReads(paths, recursive, resolve);
      case Usb(serials) => UsbDestinationReads(serials, resolve);
      case NetworkUpload(domains) => UploadReads(domains, resolve);
      case Clipboard => BareKind("clipboard");
      case Print => BareKind("print");
      case AnyExternal => BareKind("any_external");
      case Any => BareKind("any");
    }
  }

  predicate AllCompleteSources(sources: seq<Source>, resolve: Resolver) {
    forall i | 0 <= i < |sources| :: CompleteSource(sources[i], resolve)
  }

  predicate AllCompleteDestinations(destinations: seq<Destination>, resolve: Resolver) {
    forall i | 0 <= i < |destinations| :: CompleteDestination(destinations[i], resolve)
  }

  lemma CompleteSourcesCons(sources: seq<Source>, resolve: Resolver)
    requires sources != []
    ensures AllCompleteSources(sources, resolve) <==>
              CompleteSource(sources[0], resolve) && AllCompleteSources(sources[1..], resolve)
  {
    if CompleteSource(sources[0], resolve) && AllCompleteSources(sources[1..], resolve) {
      forall i | 0 <= i < |sources| ensures CompleteSource(sources[i], resolve) {
        assert i > 0 ==> sources[i] == sources[1..][i - 1];
      }
    }
  }

  lemma CompleteDestinationsCons(destinations: seq<Destination>, resolve: Resolver)
    requires destinations != []
    ensures AllCompleteDestinations(destinations, resolve) <==>
              CompleteDestination(destinations[0], resolve) && AllCompleteDestinations(destinations[1..], resolve)
  {
    if CompleteDestination(destinations[0], resolve) && AllCompleteDestinations(destinations[1..], resolve) {
      forall i | 0 <= i < |destinations| ensures CompleteDestination(destinations[i], resolve) {
        assert i > 0 ==> destinations[i] == destinations[1..][i - 1];
      }
    }
  }

  lemma {:induction false} SourcesRead(sources: seq<Source>, resolve: Resolver)
    ensures ReadSources(ItemNodes(SourceItems(sources)), resolve)
         == if AllCompleteSources(sources, resolve) then Some(sources) else None
  {
    if sources != [] {
      SourceReads(sources[0], resolve);
      SourcesRead(sources[1..], resolve);
      assert [sources[0]] + sources[1..] == sources;
      CompleteSourcesCons(sources, resolve);
    }
  }

  lemma {:induction false} DestinationsRead(destinations: seq<Destination>, resolve: Resolver)
    ensures ReadDestinations(ItemNodes(DestinationItems(destinations)), resolve)
         == if AllCompleteDestinations(destinations, resolve) then Some(destinations) else None
  {
    if destinations != [] {
      DestinationReads(destinations[0], resolve);
      DestinationsRead(destinations[1..], resolve);
      assert [destinations[0]] + destinations[1..] == destinations;
      CompleteDestinationsCons(destinations, resolve);
    }
  }

  // ---------- conditions ----------

  /** An optional string after a round trip: an empty one is not written, and a bare null reads as absent. */
  function NormalText(o: Option<string>, resolve: Resolver): Option<string> {
    if o.Some? && (o.value == "" || IsNull(o.value, resolve)) then None else o
  }

  function NormalConditions(c: Conditions, resolve: Resolver): Conditions {
    c.(filenameRegex := NormalText(c.filenameRegex, resolve), pathRegex := NormalText(c.pathRegex, resolve))
  }

  /** Sizes that a JavaScript number holds exactly. */
  predicate SafeSizes(c: Conditions) {
    && (c.fileSizeMin.Some? ==> c.fileSizeMin.value < FileSize.SAFE)
    && (c.fileSizeMax.Some? ==> c.fileSizeMax.value < FileSize.SAFE)
  }

  lemma FindCondition(c: FormConditions, wanted: string)
    ensures Find(ConditionsFields(c), wanted) ==
      Pick("file_size_min", TextNode(c.fileSizeMin), wanted,
      Pick("file_size_max", TextNode(c.fileSizeMax), wanted,
      Pick("file_extensions", ListNode(c.fileExtensions), wanted,
      Pick("filename_regex", TextNode(c.filenameRegex), wanted,
      Pick("path_regex", TextNode(c.pathRegex), wanted, None)))))
  {
    var e5 := TextEntries("path_regex", c.pathRegex);
    var e4 := TextEntries("filename_regex", c.filenameRegex) + e5;
    var e3 := ListEntries("file_extensions", c.fileExtensions) + e4;
    var e2 := TextEntries("file_size_max", c.fileSizeMax) + e3;
    FindText("path_regex", c.pathRegex, [], wanted);
    assert e5 + [] == e5;
    FindText("filename_regex", c.filenameRegex, e5, wanted);
    FindList("file_extensions", c.fileExtensions, e4, wanted);
    FindText("file_size_max", c.fileSizeMax, e3, wanted);
    FindText("file_size_min", c.fileSizeMin, e2, wanted);
  }

  lemma SizeReads(size: Option<U64>, resolve: Resolver)
    requires (size.Some? ==> size.value < FileSize.SAFE) && SizesAreText(resolve)
    ensures SizeOf(TextNode(SizeText(size)), resolve) == Some(size)
    ensures SizeText(size) == "" <==> size.None?
  {
    if size.Some? {
      var text := FileSize.PrettySize(size.value);
      FileSize.ParsePretty(size.value);
      PrettyNotEmpty(size.value);
      assert IsText(text, resolve) && !IsNull(text, resolve);
    }
  }

  lemma PrettyNotEmpty(n: nat)
    ensures FileSize.PrettySize(n) != ""
  {
    var k, unit := FileSize.PrettyUnit(n);
    assert unit != "";
  }

  lemma OptionalTextReads(o: Option<string>, resolve: Resolver)
    ensures OptionalTextOf(TextNode(TextOr(o, "")), resolve) == Some(NormalText(o, resolve))
  {
  }

  lemma ConditionsRead(c: Conditions, resolve: Resolver)
    requires SafeSizes(c) && SizesAreText(resolve)
    ensures ReadConditions(ConditionsFields(ConditionsForm(c)), resolve) == Some(NormalConditions(c, resolve))
  {
    var f := ConditionsForm(c);
    FindCondition(f, "file_size_min");
    FindCondition(f, "file_size_max");
    FindCondition(f, "file_extensions");
    FindCondition(f, "filename_regex");
    FindCondition(f, "path_regex");
    SizeReads(c.fileSizeMin, resolve);
    SizeReads(c.fileSizeMax, resolve);
    OptionalTextReads(c.filenameRegex, resolve);
    OptionalTextReads(c.pathRegex, resolve);
  }
}
