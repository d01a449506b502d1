/** A parsed policy document and its validation. */
module PolicyModel {
  import opened Prelude

  datatype Severity = Low | Medium | High | Critical

  datatype RuleAction = LogOnly | LogAndAlert | WarnUser | Block | Quarantine | LockWorkstation | KillProcess

  datatype Source =
    | Usb(exceptSerials: seq<string>)
    | NetworkDownload(domains: seq<string>, domainsExcept: seq<string>)
    | EmailAttachment
    | Directory(paths: seq<string>, recursive: bool)
    | FileMatch(classifiers: seq<string>)
    | Any

  datatype Destination =
    | Directory(paths: seq<string>, recursive: bool)
    | Usb(exceptSerials: seq<string>)
    | NetworkUpload(domains: seq<string>)
    | Clipboard
    | Print
    | AnyExternal
    | Any

  datatype Conditions = Conditions(
    fileSizeMin: Option<U64>,
    fileSizeMax: Option<U64>,
    fileExtensions: seq<string>,
    filenameRegex: Option<string>,
    pathRegex: Option<string>)

  datatype Rule = Rule(
    id: string,
    name: string,
    enabled: bool,
    severity: Severity,
    sources: seq<Source>,
    destinations: seq<Destination>,
    conditions: Option<Conditions>,
    action: RuleAction,
    forwardToSiem: bool,
    notifyUser: bool,
    message: Option<string>)

  datatype Metadata = Metadata(name: string, description: Option<string>, version: U32)

  datatype Selector = Selector(os: seq<string>, tags: map<string, string>, groups: seq<string>, agentIds: seq<string>)

  datatype Exclusion = Exclusion(hostnames: seq<string>, agentIds: seq<string>)

  datatype Targets = Targets(select: Selector, exclude: Exclusion)

  datatype MonitoredPath = MonitoredPath(
    path: string, recursive: bool, events: seq<string>, including: seq<string>, excluding: seq<string>)

  datatype Policy = Policy(
    apiVersion: string,
    kind: string,
    metadata: Metadata,
    targets: Targets,
    priority: I32,
    inbound: seq<Rule>,
    outbound: seq<Rule>,
    monitoredPaths: seq<MonitoredPath>,
    classifiers: seq<string>)

  const API_VERSION := "scroogedlp.io/v1"
  const KIND := "Policy"

  const NO_SELECTOR := Selector([], map[], [], [])
  const NO_EXCLUSION := Exclusion([], [])
  const ALL_TARGETS := Targets(NO_SELECTOR, NO_EXCLUSION)

  // ---------- validation ----------

  datatype PolicyError =
    | UnsupportedApiVersion(text: string)
    | UnsupportedKind(text: string)
    | EmptyName
    | BadName(text: string)
    | DuplicateRule(text: string)
    | EmptyRuleId
    | BadRuleId(text: string)
    | RegexCompile(text: string, field: string)

  predicate SlugChar(c: char) {
    'a' <= c <= 'z' || '0' <= c <= '9' || c == '-'
  }

  predicate SlugText(s: string) {
    forall i | 0 <= i < |s| :: SlugChar(s[i])
  }

  /** What is wrong with a rule on its own, in the order of the checks. `compiles` is the regex engine. */
  function RuleFault(rule: Rule, compiles: string -> bool): Option<PolicyError> {
    if rule.id == "" then Some(EmptyRuleId)
    else if !SlugText(rule.id) then Some(BadRuleId(rule.id))
    else if rule.conditions.None? then None
    else
      var c := rule.conditions.value;
      if c.filenameRegex.Some? && !compiles(c.filenameRegex.value) then Some(RegexCompile(rule.id, "filename_regex"))
      else if c.pathRegex.Some? && !compiles(c.pathRegex.value) then Some(RegexCompile(rule.id, "path_regex"))
      else None
  }

  predicate SeenBefore(rules: seq<Rule>, i: nat)
    requires i < |rules|
  {
    exists j :: 0 <= j < i && rules[j].id == rules[i].id
  }

  function HeaderFault(p: Policy): Option<PolicyError> {
    if p.apiVersion != API_VERSION then Some(UnsupportedApiVersion(p.apiVersion))
    else if p.kind != KIND then Some(UnsupportedKind(p.kind))
    else if p.metadata.name == "" then Some(EmptyName)
    else if !SlugText(p.metadata.name) then Some(BadName(p.metadata.name))
    else None
  }

  /** Slug names, and rule ids that are slugs and occur once over inbound then outbound. */
  predicate IsValid(p: Policy, compiles: string -> bool) {
    var rules := p.inbound + p.outbound;
    && HeaderFault(p).None?
    && (forall i | 0 <= i < |rules| :: RuleFault(rules[i], compiles).None?)
    && (forall i, j | 0 <= i < j < |rules| :: rules[i].id != rules[j].id)
  }

  /** The fault that validation reports at rule `i`, a repeated id before anything else. */
  function FaultAt(rules: seq<Rule>, i: nat, compiles: string -> bool): Option<PolicyError>
    requires i < |rules|
  {
    if SeenBefore(rules, i) then Some(DuplicateRule(rules[i].id)) else RuleFault(rules[i], compiles)
  }

  /** Accepts exactly the valid policies, and otherwise reports the fault of the first faulty rule. */
  method Validate(p: Policy, compiles: string -> bool) returns (r: Option<PolicyError>)
    ensures r.None? <==> IsValid(p, compiles)
    ensures HeaderFault(p).Some? ==> r == HeaderFault(p)
    ensures r.Some? && HeaderFault(p).None? ==>
      var rules := p.inbound + p.outbound;
      exists i :: 0 <= i < |rules| && FaultAt(rules, i, compiles) == r
                  && forall k :: 0 <= k < i ==> FaultAt(rules, k, compiles).None?
  {
    if HeaderFault(p).Some? {
      return HeaderFault(p);
    }
    var rules := p.inbound + p.outbound;
    var seen: set<string> := {};
    for i := 0 to |rules|
      invariant seen == set k | 0 <= k < i :: rules[k].id
      invariant forall k :: 0 <= k < i ==> FaultAt(rules, k, compiles).None?
    {
      if rules[i].id in seen {
        assert FaultAt(rules, i, compiles).Some?;
        return Some(DuplicateRule(rules[i].id));
      }
      seen := seen + {rules[i].id};
      var fault := RuleFault(rules[i], compiles);
      if fault.Some? {
        assert FaultAt(rules, i, compiles) == fault;
        return fault;
      }
    }
    r := None;
    forall i | 0 <= i < |rules| ensures RuleFault(rules[i], compiles).None? {
      assert FaultAt(rules, i, compiles).None?;
    }
    forall i, j | 0 <= i < j < |rules| ensures rules[i].id != rules[j].id {
      assert FaultAt(rules, j, compiles).None?;
    }
  }

  // ---------- what validation means, spelled out ----------

  predicate Slug(s: string) {
    s != "" && forall c <- s :: 'a' <= c <= 'z' || '0' <= c <= '9' || c == '-'
  }

  predicate SoundRule(rule: Rule, compiles: string -> bool) {
    && Slug(rule.id)
    && (rule.conditions.Some? ==>
          && (rule.conditions.value.filenameRegex.Some? ==> compiles(rule.conditions.value.filenameRegex.value))
          && (rule.conditions.value.pathRegex.Some? ==> compiles(rule.conditions.value.pathRegex.value)))
  }

  lemma SlugExactly(s: string)
    ensures Slug(s) <==> s != "" && SlugText(s)
  {
    if SlugText(s) {
      forall c | c in s ensures 'a' <= c <= 'z' || '0' <= c <= '9' || c == '-' {
        var i :| 0 <= i < |s| && s[i] == c;
      }
    }
    if Slug(s) {
      forall i | 0 <= i < |s| ensures SlugChar(s[i]) {
        assert s[i] in s;
      }
    }
  }

  /** The fault of a header, check by check. */
  lemma HeaderFaultExactly(p: Policy)
    ensures HeaderFault(p) == Some(UnsupportedApiVersion(p.apiVersion)) <==> p.apiVersion != "scroogedlp.io/v1"
    ensures p.apiVersion == "scroogedlp.io/v1" ==>
              (HeaderFault(p) == Some(UnsupportedKind(p.kind)) <==> p.kind != "Policy")
    ensures p.apiVersion == "scroogedlp.io/v1" && p.kind == "Policy" ==>
              HeaderFault(p) == if Slug(p.metadata.name) then None
                                else if p.metadata.name == "" then Some(EmptyName) else Some(BadName(p.metadata.name))
  {
    SlugExactly(p.metadata.name);
  }

  /** The fault at a rule, check by check: a repeated id before anything else, and the file name's regex first. */
  lemma FaultAtExactly(rules: seq<Rule>, i: nat, compiles: string -> bool)
    requires i < |rules|
    ensures var r, fault := rules[i], FaultAt(rules, i, compiles);
            if exists j :: 0 <= j < i && rules[j].id == r.id then fault == Some(DuplicateRule(r.id))
            else if SoundRule(r, compiles) then fault == None
            else if r.id == "" then fault == Some(EmptyRuleId)
            else if !Slug(r.id) then fault == Some(BadRuleId(r.id))
            else fault == Some(RegexCompile(r.id,
                   if r.conditions.value.filenameRegex.Some? && !compiles(r.conditions.value.filenameRegex.value)
                   then "filename_regex" else "path_regex"))
  {
    SlugExactly(rules[i].id);
  }

  lemma RuleFaultExactly(rule: Rule, compiles: string -> bool)
    ensures RuleFault(rule, compiles).None? <==> SoundRule(rule, compiles)
  {
    SlugExactly(rule.id);
  }

  /** Valid policies: version, kind and name of the header, and sound rules whose ids occur once. */
  lemma ValidExactly(p: Policy, compiles: string -> bool)
    ensures IsValid(p, compiles) <==>
              && p.apiVersion == "scroogedlp.io/v1" && p.kind == "Policy" && Slug(p.metadata.name)
              && (forall r <- p.inbound + p.outbound :: SoundRule(r, compiles))
              && (var rules := p.inbound + p.outbound;
                  forall i, j | 0 <= i < j < |rules| :: rules[i].id != rules[j].id)
  {
    var rules := p.inbound + p.outbound;
    HeaderFaultExactly(p);
    if forall i | 0 <= i < |rules| :: RuleFault(rules[i], compiles).None? {
      forall r | r in rules ensures SoundRule(r, compiles) {
        var i :| 0 <= i < |rules| && rules[i] == r;
        RuleFaultExactly(r, compiles);
      }
    }
    if forall r <- rules :: SoundRule(r, compiles) {
      forall i | 0 <= i < |rules| ensures RuleFault(rules[i], compiles).None? {
        assert rules[i] in rules;
        RuleFaultExactly(rules[i], compiles);
      }
    }
  }
}
