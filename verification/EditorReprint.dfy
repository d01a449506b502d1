/** Emitting, reading back and emitting again. */
module EditorReprint {
  import opened Prelude
  import opened PolicyModel
  import opened YamlText
  import opened YamlTree
  import opened FormState
  import opened FormTree
  import opened FormEmit
  import opened FormLayout
  import opened FormLegibility
  import opened PolicyReader
  import opened EditorItems
  import opened EditorRules
  import opened EditorText
  import opened EditorRoundTrip

  predicate NotNull(o: Option<string>, resolve: Resolver) {
    o.Some? ==> !IsNull(o.value, resolve)
  }

  /** No optional string that is written reads back as null. */
  predicate NoNulls(p: Policy, resolve: Resolver)
    requires p.outbound != []
  {
    var r := p.outbound[0];
    && NotNull(p.metadata.description, resolve) && NotNull(r.message, resolve)
    && (r.conditions.Some? ==>
          NotNull(r.conditions.value.filenameRegex, resolve) && NotNull(r.conditions.value.pathRegex, resolve))
  }

  lemma NormalConditionsLines(c: Option<Conditions>, resolve: Resolver)
    requires c.Some? ==> NotNull(c.value.filenameRegex, resolve) && NotNull(c.value.pathRegex, resolve)
    ensures ConditionsLines(OptionalConditionsForm(NormalOptionalConditions(c, resolve)))
         == ConditionsLines(OptionalConditionsForm(c))
  {
    if c.Some? {
      assert AnyCondition(ConditionsForm(c.value)) <==> !EmptyConditions(c.value) by {
        SizeEmptyExactly(c.value.fileSizeMin);
        SizeEmptyExactly(c.value.fileSizeMax);
      }
      assert ConditionsForm(NormalConditions(c.value, resolve)) == ConditionsForm(c.value);
    }
  }

  lemma SameButConditions(a: Form, b: Form)
    requires a.(conditions := b.conditions) == b && ConditionsLines(a.conditions) == ConditionsLines(b.conditions)
    ensures FormLines(a) == FormLines(b)
  {
    assert RuleLines(a) == RuleLines(b);
  }

  lemma NoNullsSameLines(p: Policy, order: seq<string>, resolve: Resolver)
    requires p.outbound != [] && Enumerates(order, p.targets.select.tags) && NoNulls(p, resolve)
    ensures FormLines(FormOf(Normal(Kept(p), resolve), order)) == FormLines(FormOf(p, order))
  {
    var q := Kept(p);
    KeptLines(p, order);
    var a, b := FormOf(Normal(q, resolve), order), FormOf(q, order);
    assert ConditionsLines(a.conditions) == ConditionsLines(b.conditions) by {
      NormalConditionsLines(p.outbound[0].conditions, resolve);
    }
    SameButConditions(a, b);
  }

  lemma TextNodeInjective(a: string, b: string)
    requires TextNode(a) == TextNode(b)
    ensures a == b
  {
  }

  lemma SameMetadata(a: Form, b: Form)
    requires MetadataEntries(a) == MetadataEntries(b)
    ensures a.description == b.description
  {
    var name, name' := TextEntry("name", a.name), TextEntry("name", b.name);
    FindEntry(name, TextEntries("description", a.description), "description");
    FindEntry(name', TextEntries("description", b.description), "description");
    FindText("description", a.description, [], "description");
    FindText("description", b.description, [], "description");
    assert TextEntries("description", a.description) + [] == TextEntries("description", a.description);
    assert TextEntries("description", b.description) + [] == TextEntries("description", b.description);
    TextNodeInjective(a.description, b.description);
  }

  lemma SameConditions(a: FormConditions, b: FormConditions)
    requires ConditionsFields(a) == ConditionsFields(b)
    ensures a.filenameRegex == b.filenameRegex && a.pathRegex == b.pathRegex
  {
    FindCondition(a, "filename_regex");
    FindCondition(b, "filename_regex");
    FindCondition(a, "path_regex");
    FindCondition(b, "path_regex");
    TextNodeInjective(a.filenameRegex, b.filenameRegex);
    TextNodeInjective(a.pathRegex, b.pathRegex);
  }

  lemma SameRule(a: Form, b: Form)
    requires RuleEntries(a) == RuleEntries(b)
    ensures a.rule.message == b.rule.message && ConditionsNode(a.conditions) == ConditionsNode(b.conditions)
  {
    RuleFields(a);
    RuleFields(b);
    RuleSections(a);
    RuleSections(b);
    TextNodeInjective(a.rule.message, b.rule.message);
  }

  /** The optional parts of a form that a null could drop. */
  ghost predicate SameParts(a: Form, b: Form) {
    && a.description == b.description && a.rule.message == b.rule.message
    && ConditionsNode(a.conditions) == ConditionsNode(b.conditions)
  }

  lemma SameTree(a: Form, b: Form)
    requires FormEntries(a) == FormEntries(b) && a.rule.id != "" && b.rule.id != ""
    ensures SameParts(a, b)
  {
    FormFields(a);
    FormFields(b);
    SameMetadata(a, b);
    assert RulesNode(a) == RulesNode(b);
    SameRule(a, b);
  }

  /** Equal texts of which one is legible come from equal trees. */
  lemma SameTextSameTree(a: Form, b: Form)
    requires OneLineForm(a) && OneLineForm(b) && AllLegible(FormLines(a))
    requires DocumentText(FormLines(a)) == DocumentText(FormLines(b))
    ensures FormEntries(a) == FormEntries(b)
  {
    FormFormed(a);
    FormFormed(b);
    FormLayoutIsTree(a);
    FormLayoutIsTree(b);
    ReadYamlText(FormEntries(a));
    ReadYamlText(FormEntries(b));
  }

  lemma NormalTextKept(o: Option<string>, resolve: Resolver)
    requires TextOr(NormalText(o, resolve), "") == TextOr(o, "")
    ensures NotNull(o, resolve)
  {
  }

  lemma NormalConditionsKept(c: Option<Conditions>, resolve: Resolver)
    requires ConditionsNode(OptionalConditionsForm(NormalOptionalConditions(c, resolve)))
          == ConditionsNode(OptionalConditionsForm(c))
    ensures c.Some? ==> NotNull(c.value.filenameRegex, resolve) && NotNull(c.value.pathRegex, resolve)
  {
    if c.Some? && !EmptyConditions(c.value) {
      var n := NormalConditions(c.value, resolve);
      ConditionsEmptyExactly(c.value);
      ConditionsEmptyExactly(n);
      SameConditions(ConditionsForm(n), ConditionsForm(c.value));
      NormalTextKept(c.value.filenameRegex, resolve);
      NormalTextKept(c.value.pathRegex, resolve);
    }
  }

  lemma NormalPrintable(p: Policy, resolve: Resolver)
    requires p.outbound != [] && OneLinePolicy(p)
    ensures OneLinePolicy(Kept(p)) && OneLinePolicy(Normal(Kept(p), resolve))
  {
    var r := p.outbound[0];
    assert OneLineRule(r);
    assert OneLineRule(NormalRule(r, resolve));
  }

  lemma SameTextSameParts(a: Form, q: Policy, b: Form, n: Policy, order: seq<string>)
    requires |q.outbound| == 1 && |n.outbound| == 1
    requires q.targets == n.targets && Enumerates(order, q.targets.select.tags)
    requires q.outbound[0].id != "" && n.outbound[0].id != ""
    requires OneLinePolicy(q) && OneLinePolicy(n) && LegiblePolicy(q)
    requires a == FormOf(q, order) && b == FormOf(n, order)
    requires DocumentText(FormLines(a)) == DocumentText(FormLines(b))
    ensures SameParts(a, b)
  {
    FormPrintable(a, q, order);
    FormPrintable(b, n, order);
    PolicyLegibleExactly(q, order);
    SameTextSameTree(a, b);
    SameTree(a, b);
  }

  lemma SamePartsNoNulls(a: Form, q: Policy, b: Form, n: Policy, order: seq<string>, resolve: Resolver)
    requires |q.outbound| == 1 && Enumerates(order, q.targets.select.tags) && n == Normal(q, resolve)
    requires a == FormOf(q, order) && b == FormOf(n, order) && SameParts(a, b)
    ensures NoNulls(q, resolve)
  {
    FormTexts(q, order);
    FormTexts(n, order);
    NormalTextKept(q.metadata.description, resolve);
    NormalTextKept(q.outbound[0].message, resolve);
    NormalConditionsKept(q.outbound[0].conditions, resolve);
  }

  lemma FormTexts(q: Policy, order: seq<string>)
    requires |q.outbound| == 1 && Enumerates(order, q.targets.select.tags)
    ensures var form, r := FormOf(q, order), q.outbound[0];
            && form.description == TextOr(q.metadata.description, "") && form.rule.message == TextOr(r.message, "")
            && form.conditions == OptionalConditionsForm(r.conditions)
  {
  }

  /** Of a policy with one rule: emitting its normal form alike means that nothing in it was a null. */
  lemma SameTextNormal(a: Form, q: Policy, b: Form, n: Policy, order: seq<string>, resolve: Resolver)
    requires |q.outbound| == 1 && q.outbound[0].id != "" && Enumerates(order, q.targets.select.tags)
    requires n == Normal(q, resolve) && OneLinePolicy(q) && OneLinePolicy(n) && LegiblePolicy(q)
    requires a == FormOf(q, order) && b == FormOf(n, order)
    requires DocumentText(FormLines(a)) == DocumentText(FormLines(b))
    ensures NoNulls(q, resolve)
  {
    SameTextSameParts(a, q, b, n, order);
    SamePartsNoNulls(a, q, b, n, order, resolve);
  }

  lemma SameTextNoNulls(p: Policy, order: seq<string>, resolve: Resolver)
    requires p.outbound != [] && p.outbound[0].id != "" && Enumerates(order, p.targets.select.tags)
    requires OneLinePolicy(p) && LegiblePolicy(p)
    requires DocumentText(FormLines(FormOf(Normal(Kept(p), resolve), order)))
          == DocumentText(FormLines(FormOf(p, order)))
    ensures NoNulls(p, resolve)
  {
    var q := Kept(p);
    var n := Normal(q, resolve);
    KeptLines(p, order);
    NormalPrintable(p, resolve);
    KeptLegible(p);
    SameTextNormal(FormOf(q, order), q, FormOf(n, order), n, order, resolve);
  }

  /**
   Emitting the policy that was read back yields the same document if and only if no optional string
   of it is a bare null, which reads as absent.
   */
  lemma SecondEmissionIsTheSameExactly(p: Policy, order: seq<string>, compiles: string -> bool, resolve: Resolver)
    requires p.outbound != [] && IsValid(p, compiles) && Enumerates(order, p.targets.select.tags)
    requires OneLinePolicy(p) && LegiblePolicy(p)
    ensures NoNulls(p, resolve) <==>
              DocumentText(FormLines(FormOf(Normal(Kept(p), resolve), order)))
              == DocumentText(FormLines(FormOf(p, order)))
  {
    FirstRuleIsValid(p, compiles);
    if NoNulls(p, resolve) {
      NoNullsSameLines(p, order, resolve);
    } else if DocumentText(FormLines(FormOf(Normal(Kept(p), resolve), order)))
           == DocumentText(FormLines(FormOf(p, order))) {
      SameTextNoNulls(p, order, resolve);
    }
  }
}
