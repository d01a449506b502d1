/** The lines that the generator pushes are the lines of the form's tree, and each can be read back. */
module FormLayout {
  import opened Prelude
  import opened YamlText
  import opened YamlTree
  import opened FormState
  import opened FormTree
  import opened FormEmit

  // ---------- single entries ----------

  lemma TextLayout(indent: nat, key: string, text: string)
    ensures EntriesLines(TextEntries(key, text), indent) == TextLines(indent, key, text)
  {
    OneEntryLines(TextEntry(key, text), indent);
  }

  lemma ListLayout(indent: nat, key: string, texts: seq<string>)
    ensures EntriesLines(ListEntries(key, texts), indent) == ListLines(indent, key, texts)
  {
    OneEntryLines(Entry(key, Leaf(Items(texts))), indent);
  }

  lemma FlagLayout(indent: nat, key: string, on: bool)
    ensures EntriesLines(FlagEntries(key, on), indent) == FlagLines(indent, key, on)
  {
    OneEntryLines(TextEntry(key, "true"), indent);
  }

  lemma FieldLayout(f: Field, indent: nat)
    ensures EntriesLines(FieldEntries(f), indent) == FieldLines(f, indent)
  {
    match f.value {
      case Text(t) => TextLayout(indent, f.key, t);
      case Texts(ts) => ListLayout(indent, f.key, ts);
      case Flag(on) => OneEntryLines(TextEntry(f.key, FlagText(on)), indent);
    }
  }

  // ---------- lists ----------

  lemma {:induction false} FieldsEntriesSnoc(fields: seq<Field>, f: Field)
    ensures FieldsEntries(fields + [f]) == FieldsEntries(fields) + FieldEntries(f)
  {
    if fields == [] {
      assert [] + [f] == [f] && FieldEntries(f) + [] == FieldEntries(f);
    } else {
      assert (fields + [f])[1..] == fields[1..] + [f];
      FieldsEntriesSnoc(fields[1..], f);
    }
  }

  lemma {:induction false} FieldsLayout(fields: seq<Field>, indent: nat)
    ensures EntriesLines(FieldsEntries(fields), indent) == FieldsLines(fields, indent)
  {
    if fields != [] {
      var init, last := fields[..|fields| - 1], fields[|fields| - 1];
      FieldsLayout(init, indent);
      FieldLayout(last, indent);
      assert init + [last] == fields;
      FieldsEntriesSnoc(init, last);
      EntriesLinesConcat(FieldsEntries(init), FieldEntries(last), indent);
    }
  }

  lemma ItemLayout(item: FormItem, indent: nat)
    ensures Dashed(EntriesLines(ItemEntries(item), indent + 2), indent) == ItemLines(item, indent)
  {
    FieldsLayout(item.fields, indent + 2);
    OneEntryLines(TextEntry("type", item.kind), indent + 2);
    EntriesLinesConcat([TextEntry("type", item.kind)], FieldsEntries(item.fields), indent + 2);
  }

  lemma {:induction false} ItemNodesSnoc(items: seq<FormItem>, item: FormItem)
    ensures ItemNodes(items + [item]) == ItemNodes(items) + [Item(ItemEntries(item))]
  {
    if items == [] {
      assert [] + [item] == [item];
    } else {
      assert (items + [item])[1..] == items[1..] + [item];
      ItemNodesSnoc(items[1..], item);
    }
  }

  lemma OneItemLines(entries: seq<Entry>, indent: nat)
    ensures SequenceLines([Item(entries)], indent) == Dashed(EntriesLines(entries, indent + 2), indent)
  {
    assert SequenceLines([Item(entries)][1..], indent) == [];
  }

  lemma ItemsLayoutSnoc(nodes: seq<Item>, last: FormItem, lines: seq<Line>)
    requires SequenceLines(nodes, 8) == lines
    ensures SequenceLines(nodes + [Item(ItemEntries(last))], 8) == lines + ItemLines(last, 8)
  {
    var entries := ItemEntries(last);
    SequenceLinesConcat(nodes, [Item(entries)], 8);
    OneItemLines(entries, 8);
    ItemLayout(last, 8);
  }

  lemma {:induction false} ItemsLayout(items: seq<FormItem>)
    ensures SequenceLines(ItemNodes(items), 8) == ItemsLines(items)
  {
    if items != [] {
      var init, last := items[..|items| - 1], items[|items| - 1];
      assert ItemNodes(items) == ItemNodes(init) + [Item(ItemEntries(last))] by {
        ItemNodesSnoc(init, last);
        assert init + [last] == items;
      }
      var lines := ItemsLines(init);
      assert SequenceLines(ItemNodes(init), 8) == lines by {
        ItemsLayout(init);
      }
      ItemsLayoutSnoc(ItemNodes(init), last, lines);
    }
  }

  lemma SectionLayout(key: string, items: seq<FormItem>)
    ensures EntriesLines(SequenceEntries(key, items), 6) == SectionLines(key, items)
  {
    ItemsLayout(items);
    OneEntryLines(Entry(key, Sequence(ItemNodes(items))), 6);
  }

  lemma {:induction false} TagEntriesSnoc(tags: seq<Tag>, tag: Tag)
    ensures TagEntries(tags + [tag]) == TagEntries(tags) + [TextEntry(tag.key, tag.value)]
  {
    if tags == [] {
      assert [] + [tag] == [tag];
    } else {
      assert (tags + [tag])[1..] == tags[1..] + [tag];
      TagEntriesSnoc(tags[1..], tag);
    }
  }

  lemma {:induction false} TagsLayout(tags: seq<Tag>)
    ensures EntriesLines(TagEntries(tags), 6) == TagsLines(tags)
  {
    if tags != [] {
      var init, last := tags[..|tags| - 1], tags[|tags| - 1];
      TagsLayout(init);
      assert init + [last] == tags;
      TagEntriesSnoc(init, last);
      OneEntryLines(TextEntry(last.key, last.value), 6);
      EntriesLinesConcat(TagEntries(init), [TextEntry(last.key, last.value)], 6);
    }
  }

  // ---------- composite parts ----------

  lemma Concat4(a: seq<Entry>, b: seq<Entry>, c: seq<Entry>, d: seq<Entry>, indent: nat)
    ensures EntriesLines(a + (b + (c + d)), indent)
         == EntriesLines(a, indent) + EntriesLines(b, indent) + EntriesLines(c, indent) + EntriesLines(d, indent)
  {
    EntriesLinesConcat(a, b + (c + d), indent);
    EntriesLinesConcat(b, c + d, indent);
    EntriesLinesConcat(c, d, indent);
  }

  lemma Concat5(a: seq<Entry>, b: seq<Entry>, c: seq<Entry>, d: seq<Entry>, e: seq<Entry>, indent: nat)
    ensures EntriesLines(a + (b + (c + (d + e))), indent)
         == EntriesLines(a, indent) + EntriesLines(b, indent) + EntriesLines(c, indent) + EntriesLines(d, indent)
            + EntriesLines(e, indent)
  {
    EntriesLinesConcat(a, b + (c + (d + e)), indent);
    Concat4(b, c, d, e, indent);
    Regroup5(EntriesLines(a, indent), EntriesLines(b, indent), EntriesLines(c, indent), EntriesLines(d, indent),
             EntriesLines(e, indent));
  }

  lemma Regroup5<T>(a: seq<T>, b: seq<T>, c: seq<T>, d: seq<T>, e: seq<T>)
    ensures a + (b + c + d + e) == a + b + c + d + e
  {
  }

  lemma ConditionFieldsLayout(c: FormConditions)
    ensures EntriesLines(ConditionsFields(c), 8) == ConditionFieldLines(c)
    ensures ConditionsFields(c) != [] <==> AnyCondition(c)
  {
    TextLayout(8, "file_size_min", c.fileSizeMin);
    TextLayout(8, "file_size_max", c.fileSizeMax);
    ListLayout(8, "file_extensions", c.fileExtensions);
    TextLayout(8, "filename_regex", c.filenameRegex);
    TextLayout(8, "path_regex", c.pathRegex);
    Concat5(TextEntries("file_size_min", c.fileSizeMin), TextEntries("file_size_max", c.fileSizeMax),
            ListEntries("file_extensions", c.fileExtensions), TextEntries("filename_regex", c.filenameRegex),
            TextEntries("path_regex", c.pathRegex), 8);
  }

  lemma ConditionsLayout(cond: Option<FormConditions>)
    ensures EntriesLines(ConditionsEntries(cond), 6) == ConditionsLines(cond)
  {
    if cond.Some? {
      ConditionFieldsLayout(cond.value);
      OneEntryLines(Entry("conditions", Block(ConditionsFields(cond.value))), 6);
    }
  }

  lemma SelectorLayout(t: FormTargets)
    ensures EntriesLines(SelectorEntries(t), 4) == SelectorLines(t)
    ensures SelectorEntries(t) != [] <==> HasMode(t)
  {
    match t.mode {
      case All =>
      case Tags =>
        TagsLayout(t.tags);
        OneEntryLines(Entry("tags", Block(TagEntries(t.tags))), 4);
      case Groups => ListLayout(4, "groups", t.groups);
      case AgentIds => ListLayout(4, "agent_ids", t.agentIds);
    }
  }

  lemma MatchLayout(t: FormTargets)
    ensures EntriesLines(MatchEntries(t), 4) == ListLines(4, "os", t.os) + SelectorLines(t)
    ensures MatchEntries(t) != [] <==> HasMode(t) || t.os != []
  {
    SelectorLayout(t);
    ListLayout(4, "os", t.os);
    EntriesLinesConcat(ListEntries("os", t.os), SelectorEntries(t), 4);
  }

  lemma TargetsLayout(t: FormTargets)
    ensures EntriesLines(TargetsEntries(t), 0) == TargetsLines(t)
  {
    MatchLayout(t);
    if MatchEntries(t) != [] {
      var inner := Entry("match", Block(MatchEntries(t)));
      var lines := EntriesLines(MatchEntries(t), 4);
      OneEntryLines(inner, 2);
      OneEntryLines(Entry("targets", Block([inner])), 0);
      assert EntriesLines([inner], 2) == [Line(2, false, "match", Nothing)] + lines;
      var head, next := Line(0, false, "targets", Nothing), Line(2, false, "match", Nothing);
      assert [head] + ([next] + lines) == [head, next] + lines;
      Assoc([head, next], ListLines(4, "os", t.os), SelectorLines(t));
    }
  }

  lemma Concat7(a: seq<Entry>, b: seq<Entry>, c: seq<Entry>, d: seq<Entry>, e: seq<Entry>, f: seq<Entry>, g: seq<Entry>,
                indent: nat)
    ensures EntriesLines(a + (b + (c + (d + (e + (f + g))))), indent)
         == EntriesLines(a, indent) + EntriesLines(b, indent) + EntriesLines(c, indent) + EntriesLines(d, indent)
            + EntriesLines(e, indent) + EntriesLines(f, indent) + EntriesLines(g, indent)
  {
    EntriesLinesConcat(a, b + (c + (d + (e + (f + g)))), indent);
    EntriesLinesConcat(b, c + (d + (e + (f + g))), indent);
    Concat5(c, d, e, f, g, indent);
    Regroup7(EntriesLines(a, indent), EntriesLines(b, indent), EntriesLines(c, indent), EntriesLines(d, indent),
             EntriesLines(e, indent), EntriesLines(f, indent), EntriesLines(g, indent));
  }

  lemma Regroup7<T>(a: seq<T>, b: seq<T>, c: seq<T>, d: seq<T>, e: seq<T>, f: seq<T>, g: seq<T>)
    ensures a + (b + (c + d + e + f + g)) == a + b + c + d + e + f + g
  {
  }

  lemma DashedConcat(a: seq<Line>, b: seq<Line>, indent: nat)
    requires a != []
    ensures Dashed(a + b, indent) == Dashed(a, indent) + b
  {
  }

  lemma DashedConcat4(a: seq<Line>, b: seq<Line>, c: seq<Line>, d: seq<Line>, indent: nat)
    requires a != []
    ensures Dashed(a + b + c + d, indent) == Dashed(a, indent) + b + c + d
  {
    DashedConcat(a, b, indent);
    DashedConcat(a + b, c, indent);
    DashedConcat(a + b + c, d, indent);
  }

  lemma DashedConcat7(l: Line, b: seq<Line>, c: seq<Line>, d: seq<Line>, e: seq<Line>, f: seq<Line>,
          g: seq<Line>, indent: nat)
    ensures Dashed([l] + b + c + d + e + f + g, indent) == [l.(dash := true, indent := indent)] + b + c + d + e + f + g
  {
    DashedConcat4([l], b, c, d, indent);
    DashedConcat4([l] + b + c + d, e, f, g, indent);
    assert Dashed([l], indent) == [l.(dash := true, indent := indent)];
  }

  lemma RuleHeadTree(r: FormRule)
    ensures EntriesLines(RuleHeadEntries(r), 6) ==
      [Line(6, false, "id", Scalar(r.id))] + TextLines(6, "name", r.name)
      + [Line(6, false, "severity", Scalar(r.severity))] + [Line(6, false, "action", Scalar(r.action))]
      + TextLines(6, "message", r.message)
      + FlagLines(6, "notify_user", r.notifyUser) + FlagLines(6, "forward_to_siem", r.forwardToSiem)
  {
    var id, severity, action := TextEntry("id", r.id), TextEntry("severity", r.severity), TextEntry("action", r.action);
    OneEntryLines(id, 6);
    OneEntryLines(severity, 6);
    OneEntryLines(action, 6);
    TextLayout(6, "name", r.name);
    TextLayout(6, "message", r.message);
    FlagLayout(6, "notify_user", r.notifyUser);
    FlagLayout(6, "forward_to_siem", r.forwardToSiem);
    Concat7([id], TextEntries("name", r.name), [severity], [action], TextEntries("message", r.message),
            FlagEntries("notify_user", r.notifyUser), FlagEntries("forward_to_siem", r.forwardToSiem), 6);
  }

  lemma RuleHeadLayout(r: FormRule)
    ensures Dashed(EntriesLines(RuleHeadEntries(r), 6), 4) == RuleHeadLines(r)
    ensures EntriesLines(RuleHeadEntries(r), 6) != []
  {
    RuleHeadTree(r);
    DashedConcat7(Line(6, false, "id", Scalar(r.id)), TextLines(6, "name", r.name),
      [Line(6, false, "severity", Scalar(r.severity))], [Line(6, false, "action", Scalar(r.action))],
      TextLines(6, "message", r.message), FlagLines(6, "notify_user", r.notifyUser),
      FlagLines(6, "forward_to_siem", r.forwardToSiem), 4);
  }

  lemma RuleLayout(form: Form)
    ensures Dashed(EntriesLines(RuleEntries(form), 6), 4) == RuleLines(form)
  {
    var head := RuleHeadEntries(form.rule);
    var sources := SequenceEntries("sources", form.sources);
    var destinations := SequenceEntries("destinations", form.destinations);
    var conditions := ConditionsEntries(form.conditions);
    RuleHeadLayout(form.rule);
    SectionLayout("sources", form.sources);
    SectionLayout("destinations", form.destinations);
    ConditionsLayout(form.conditions);
    Concat4(head, sources, destinations, conditions, 6);
    DashedConcat4(EntriesLines(head, 6), EntriesLines(sources, 6), EntriesLines(destinations, 6),
                  EntriesLines(conditions, 6), 4);
  }

  lemma RulesLayout(form: Form)
    ensures EntriesLines(RulesEntries(form), 0) == RulesLines(form)
  {
    if form.rule.id != "" {
      RuleLayout(form);
      OneItemLines(RuleEntries(form), 4);
      var outbound := Entry("outbound", Sequence([Item(RuleEntries(form))]));
      OneEntryLines(outbound, 2);
      OneEntryLines(Entry("rules", Block([outbound])), 0);
    }
  }

  lemma MetadataLayout(form: Form)
    ensures EntriesLines([Entry("metadata", Block(MetadataEntries(form)))], 0)
         == [Line(0, false, "metadata", Nothing)] + [Line(2, false, "name", Scalar(form.name))]
            + TextLines(2, "description", form.description)
  {
    OneEntryLines(TextEntry("name", form.name), 2);
    TextLayout(2, "description", form.description);
    EntriesLinesConcat([TextEntry("name", form.name)], TextEntries("description", form.description), 2);
    OneEntryLines(Entry("metadata", Block(MetadataEntries(form))), 0);
  }

  lemma HeaderLayout(form: Form)
    ensures EntriesLines(HeaderEntries(form), 0) == HeaderLines(form)
  {
    var version, kind := TextEntry("apiVersion", "scroogedlp.io/v1"), TextEntry("kind", "Policy");
    var metadata := [Entry("metadata", Block(MetadataEntries(form)))];
    OneEntryLines(version, 0);
    OneEntryLines(kind, 0);
    MetadataLayout(form);
    EntriesLinesConcat([kind], metadata, 0);
    EntriesLinesConcat([version], [kind] + metadata, 0);
  }

  /** Pushing line by line produces exactly the lines of the tree. */
  lemma FormLayoutIsTree(form: Form)
    ensures FormLines(form) == EntriesLines(FormEntries(form), 0)
  {
    var priority := TextEntry("priority", IntText(form.priority));
    HeaderLayout(form);
    TargetsLayout(form.targets);
    OneEntryLines(priority, 0);
    RulesLayout(form);
    Concat4(HeaderEntries(form), TargetsEntries(form.targets), [priority], RulesEntries(form), 0);
  }
}
