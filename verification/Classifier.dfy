/** The rule classifier: compilation to sorted rules with field masks and candidate bitsets, and
    classification that returns the same rule as a plain scan of the rules as written. */
module Classification {
  import opened Model
  import opened Bits
  import opened FusionTypes
  import opened Sorting

  // ---------- rules as written ----------

  /** Fields by number; a field from SYSTEM_NAME to SERVICE_TXT is text. */
  const PROTOCOL_FIELD := 1
  const MAC_FIELD := 2
  const ADDRESS_FIELD := 3
  const CAPABILITY_FIELD := 4
  const SYSTEM_NAME := 5
  const HOST_NAME := 6
  const DEVICE_ID := 7
  const MODEL_NAME := 8
  const PLATFORM := 9
  const SOFTWARE := 10
  const SERVICE_INSTANCE := 11
  const SERVICE_TYPE := 12
  const SERVICE_TXT := 13

  const MAX_RULES := 256
  const MAX_REGEX := 128
  const MAX_PATTERN := 1024

  datatype MatchOp = MatchExact | MatchRegex | MatchProtocol | MatchMACPrefix | MatchIPPrefix | MatchCapabilityAll | MatchUnknown

  datatype MACPrefix = MACPrefix(address: MAC, bits: nat)

  /** ipPrefix is the set of addresses a valid prefix contains. */
  datatype Predicate = Predicate(field: nat, op: MatchOp, value: seq<Byte>, pattern: seq<Byte>, protocol: Byte,
    macPrefix: MACPrefix, ipPrefix: Option<Addr -> bool>, capability: nat, foldASCII: bool)

  datatype Rule = Rule(name: seq<Byte>, class_: seq<Byte>, priority: int, all: seq<Predicate>, any: seq<Predicate>, none: seq<Predicate>)

  type Matcher = seq<Byte> -> bool

  /** regexp.Compile: what a pattern matches, None for a pattern that does not compile. */
  type Regexps = seq<Byte> -> Option<Matcher>

  datatype Service = Service(instance: seq<Byte>, typ: seq<Byte>, txt: seq<Byte>)

  /** What the classifier looks at. */
  datatype Device = Device(protocols: Byte, observedMACs: seq<MAC>, addresses: seq<Addr>, capabilities: nat,
    systemName: seq<seq<Byte>>, hostName: seq<seq<Byte>>, deviceID: seq<seq<Byte>>, model: seq<seq<Byte>>,
    platform: seq<seq<Byte>>, software: seq<seq<Byte>>, services: seq<Service>)

  predicate IsText(field: nat) { SYSTEM_NAME <= field <= SERVICE_TXT }

  predicate IsService(field: nat) { SERVICE_INSTANCE <= field <= SERVICE_TXT }

  function ServiceValue(s: Service, field: nat): seq<Byte> {
    if field == SERVICE_INSTANCE then s.instance else if field == SERVICE_TYPE then s.typ else s.txt
  }

  /** The texts of a field, in the order a predicate is tried on them. */
  function Values(d: Device, field: nat): seq<seq<Byte>> {
    if field == SYSTEM_NAME then d.systemName
    else if field == HOST_NAME then d.hostName
    else if field == DEVICE_ID then d.deviceID
    else if field == MODEL_NAME then d.model
    else if field == PLATFORM then d.platform
    else if field == SOFTWARE then d.software
    else if IsService(field) then seq(|d.services|, i requires 0 <= i < |d.services| => ServiceValue(d.services[i], field))
    else []
  }


  predicate SameFolded(a: seq<Byte>, b: seq<Byte>) {
    |a| == |b| && forall i | 0 <= i < |a| :: Lower(a[i]) == Lower(b[i])
  }

  /** Bit i of a MAC, counted from the most significant. */
  predicate MACBit(m: MAC, i: nat)
    requires i < 48
  {
    Bit(m[i / 8], 7 - i % 8)
  }

  ghost predicate InPrefix(m: MAC, p: MACPrefix)
    requires p.bits <= 48
  {
    SamePrefix(m, p.address, p.bits)
  }

  ghost predicate SamePrefix(a: MAC, b: MAC, n: nat)
    requires n <= 48
  {
    forall i: nat | i < n :: MACBit(a, i) <==> MACBit(b, i)
  }

  /** The text a predicate accepts. */
  ghost predicate AcceptsText(p: Predicate, regexps: Regexps, v: seq<Byte>) {
    match p.op
    case MatchExact => if p.foldASCII then SameFolded(v, p.value) else v == p.value
    case MatchRegex => regexps(p.pattern).Some? && regexps(p.pattern).value(v)
    case _ => false
  }

  /** What a predicate says about a device. */
  ghost predicate Holds(p: Predicate, regexps: Regexps, d: Device) {
    match p.op
    case MatchProtocol => And(d.protocols, p.protocol) != 0
    case MatchMACPrefix => p.macPrefix.bits <= 48 && exists m :: m in d.observedMACs && InPrefix(m, p.macPrefix)
    case MatchIPPrefix => p.ipPrefix.Some? && exists a :: a in d.addresses && p.ipPrefix.value(a)
    case MatchCapabilityAll => And(d.capabilities, p.capability) == p.capability
    case MatchExact => exists v :: v in Values(d, p.field) && AcceptsText(p, regexps, v)
    case MatchRegex => exists v :: v in Values(d, p.field) && AcceptsText(p, regexps, v)
    case MatchUnknown => false
  }

  ghost predicate Satisfies(r: Rule, regexps: Regexps, d: Device) {
    && (forall p | p in r.all :: Holds(p, regexps, d))
    && (forall p | p in r.none :: !Holds(p, regexps, d))
    && (r.any == [] || exists p :: p in r.any && Holds(p, regexps, d))
  }

  /** The device has text in a field: for a service field, text that is not empty. */
  ghost predicate Populated(d: Device, field: nat) {
    if IsService(field) then exists s :: s in d.services && ServiceValue(s, field) != []
    else IsText(field) && Values(d, field) != []
  }

  ghost predicate AllPopulated(r: Rule, d: Device) {
    forall p | p in r.all && IsText(p.field) :: Populated(d, p.field)
  }

  ghost predicate Eligible(r: Rule, regexps: Regexps, d: Device) { Satisfies(r, regexps, d) && AllPopulated(r, d) }

  function Specificity(r: Rule): nat { |r.all| + |r.any| + |r.none| }

  /** Rule i comes before rule j: by priority, then specificity, then declaration. */
  predicate Before(rules: seq<Rule>, i: nat, j: nat)
    requires i < |rules| && j < |rules|
  {
    if rules[i].priority != rules[j].priority then rules[i].priority > rules[j].priority
    else if Specificity(rules[i]) != Specificity(rules[j]) then Specificity(rules[i]) > Specificity(rules[j])
    else i < j
  }

  ghost predicate Best(rules: seq<Rule>, regexps: Regexps, d: Device, i: nat) {
    && i < |rules| && Eligible(rules[i], regexps, d)
    && forall j: nat | j < |rules| && j != i && Eligible(rules[j], regexps, d) :: Before(rules, i, j)
  }

  lemma BestIsOne(rules: seq<Rule>, regexps: Regexps, d: Device, i: nat, j: nat)
    requires Best(rules, regexps, d, i) && Best(rules, regexps, d, j)
    ensures i == j
  {
    hide Eligible;
  }

  // ---------- which rules compile ----------

  datatype Fault = ExactNeedsText | RegexNeedsText | PatternLength | TooManyRegexps | BadPattern | ProtocolNeedsProtocol
    | BadProtocols | MACNeedsMAC | MACTooLong | IPNeedsAddress | BadIPPrefix | CapabilityNeedsCapabilities | NoCapability | UnknownOp

  datatype Outcome<T> = Compiled(value: T) | TooManyRules | Unnamed(rule: nat) | BadPredicate(rule: nat, fault: Fault)

  /** The protocol bits outside the four protocols. */
  function StrayProtocols(p: Byte): nat { And(p, 0xF0) }

  predicate ValidPredicate(p: Predicate, regexps: Regexps) {
    match p.op
    case MatchExact => IsText(p.field)
    case MatchRegex => IsText(p.field) && 1 <= |p.pattern| <= MAX_PATTERN && regexps(p.pattern).Some?
    case MatchProtocol => p.field == PROTOCOL_FIELD && p.protocol != 0 && StrayProtocols(p.protocol) == 0
    case MatchMACPrefix => p.field == MAC_FIELD && p.macPrefix.bits <= 48
    case MatchIPPrefix => p.field == ADDRESS_FIELD && p.ipPrefix.Some?
    case MatchCapabilityAll => p.field == CAPABILITY_FIELD && p.capability != 0
    case MatchUnknown => false
  }

  function RegexCount(ps: seq<Predicate>): nat {
    if ps == [] then 0 else RegexCount(ps[..|ps| - 1]) + if ps[|ps| - 1].op.MatchRegex? then 1 else 0
  }

  ghost predicate ValidAll(ps: seq<Predicate>, regexps: Regexps) {
    forall i | 0 <= i < |ps| :: ValidPredicate(ps[i], regexps)
  }

  /** The predicates of a rule, in the order they are compiled. */
  function Parts(r: Rule): seq<Predicate> { r.all + r.any + r.none }

  ghost predicate ValidRule(r: Rule, regexps: Regexps) {
    r.name != [] && r.class_ != [] && ValidAll(Parts(r), regexps)
  }

  function RegexTotal(rules: seq<Rule>): nat {
    if rules == [] then 0 else RegexTotal(rules[..|rules| - 1]) + RegexCount(Parts(rules[|rules| - 1]))
  }

  /** A rule set the classifier takes: every rule named and valid, and at most 128 regexps. */
  ghost predicate Acceptable(rules: seq<Rule>, regexps: Regexps) {
    (forall i | 0 <= i < |rules| :: ValidRule(rules[i], regexps)) && RegexTotal(rules) <= MAX_REGEX
  }

  // ---------- compiled rules ----------

  /** A predicate with its compiled regexp; anything for the other operations. */
  datatype CompiledPredicate = CompiledPredicate(p: Predicate, re: Matcher)

  datatype CompiledRule = CompiledRule(name: seq<Byte>, class_: seq<Byte>, priority: int, specificity: nat, order: nat,
    all: seq<CompiledPredicate>, any: seq<CompiledPredicate>, none: seq<CompiledPredicate>, required: nat)

  /** For each of the 16 protocol sets, four words with a bit for each rule. */
  datatype Classifier = Classifier(rules: seq<CompiledRule>, protocolCandidates: seq<seq<nat>>)

  function Cost(op: MatchOp): nat {
    match op
    case MatchProtocol => 0
    case MatchCapabilityAll => 0
    case MatchExact => 1
    case MatchMACPrefix => 2
    case MatchIPPrefix => 2
    case MatchRegex => 3
    case MatchUnknown => 4
  }

  predicate Cheaper(x: CompiledPredicate, y: CompiledPredicate) { Cost(x.p.op) < Cost(y.p.op) }

  predicate Precedes(x: CompiledRule, y: CompiledRule) {
    if x.priority != y.priority then x.priority > y.priority
    else if x.specificity != y.specificity then x.specificity > y.specificity
    else x.order < y.order
  }

  ghost predicate RegexReady(c: CompiledPredicate, regexps: Regexps) {
    ValidPredicate(c.p, regexps) && (c.p.op.MatchRegex? ==> c.re == regexps(c.p.pattern).value)
  }

  ghost predicate InOrder(cs: seq<CompiledPredicate>, ps: seq<Predicate>) {
    |cs| == |ps| && forall i | 0 <= i < |ps| :: cs[i].p == ps[i]
  }

  /** cs are the predicates ps, each as often as it was there, compiled, cheapest first. */
  ghost predicate CompiledFrom(cs: seq<CompiledPredicate>, ps: seq<Predicate>, regexps: Regexps) {
    && |cs| == |ps| && Sorted(cs, Cheaper)
    && (forall c | c in cs :: c.p in ps && RegexReady(c, regexps))
    && (forall p | p in ps :: exists c :: c in cs && c.p == p)
    && (exists out :: InOrder(out, ps) && multiset(cs) == multiset(out))
  }

  ghost predicate RequiredOf(required: nat, ps: seq<Predicate>) {
    forall f: nat :: Bit(required, f) <==> IsText(f) && Mentions(ps, f)
  }

  ghost predicate Mentions(ps: seq<Predicate>, f: nat) { exists p :: p in ps && p.field == f }

  ghost predicate RuleCompiled(c: CompiledRule, rules: seq<Rule>, regexps: Regexps) {
    && c.order < |rules|
    && var r := rules[c.order];
       && c.name == r.name && c.class_ == r.class_ && c.priority == r.priority && c.specificity == Specificity(r)
       && CompiledFrom(c.all, r.all, regexps) && CompiledFrom(c.any, r.any, regexps) && CompiledFrom(c.none, r.none, regexps)
       && RequiredOf(c.required, r.all)
  }

  ghost predicate HasOrder(cs: seq<CompiledRule>, i: nat) { exists c :: c in cs && c.order == i }

  ghost predicate AsWritten(cs: seq<CompiledRule>) { forall i | 0 <= i < |cs| :: cs[i].order == i }

  /** Every rule is there once, compiled. */
  ghost predicate RulesCompiled(cs: seq<CompiledRule>, rules: seq<Rule>, regexps: Regexps) {
    && (forall c | c in cs :: RuleCompiled(c, rules, regexps))
    && (forall i: nat | i < |rules| :: HasOrder(cs, i))
    && (exists out :: |out| == |rules| && AsWritten(out) && multiset(cs) == multiset(out))
  }

  /** Rule c is not ruled out by its protocol predicates for a set of observed protocols. */
  ghost predicate Possible(c: CompiledRule, protocols: nat) {
    forall p | p in c.all :: !(p.p.op.MatchProtocol? && And(protocols, p.p.protocol) == 0)
  }

  ghost predicate WordsFor(words: seq<nat>, cs: seq<CompiledRule>, protocols: nat) {
    && |words| == 4 && (forall w | 0 <= w < 4 :: words[w] < Pow2(64))
    && forall i: nat | i < 256 :: Bit(words[i / 64], i % 64) <==> i < |cs| && Possible(cs[i], protocols)
  }

  ghost predicate Ready(c: Classifier, rules: seq<Rule>, regexps: Regexps) {
    && |rules| <= MAX_RULES && |c.rules| == |rules|
    && RulesCompiled(c.rules, rules, regexps) && Sorted(c.rules, Precedes)
    && |c.protocolCandidates| == 16
    && forall s: nat | s < 16 :: WordsFor(c.protocolCandidates[s], c.rules, s)
  }

  // ---------- compilation ----------

  /** The first thing wrong with a predicate, when count regexps precede it. */
  function FaultOf(p: Predicate, count: nat, regexps: Regexps): (f: Option<Fault>)
    ensures f.None? <==> ValidPredicate(p, regexps) && (p.op.MatchRegex? ==> count < MAX_REGEX)
  {
    match p.op
    case MatchExact => if !IsText(p.field) then Some(ExactNeedsText) else None
    case MatchRegex =>
      if !IsText(p.field) then Some(RegexNeedsText)
      else if |p.pattern| == 0 || |p.pattern| > MAX_PATTERN then Some(PatternLength)
      else if count + 1 > MAX_REGEX then Some(TooManyRegexps)
      else if regexps(p.pattern).None? then Some(BadPattern) else None
    case MatchProtocol =>
      if p.field != PROTOCOL_FIELD then Some(ProtocolNeedsProtocol)
      else if p.protocol == 0 || StrayProtocols(p.protocol) != 0 then Some(BadProtocols) else None
    case MatchMACPrefix => if p.field != MAC_FIELD then Some(MACNeedsMAC) else if p.macPrefix.bits > 48 then Some(MACTooLong) else None
    case MatchIPPrefix => if p.field != ADDRESS_FIELD then Some(IPNeedsAddress) else if p.ipPrefix.None? then Some(BadIPPrefix) else None
    case MatchCapabilityAll =>
      if p.field != CAPABILITY_FIELD then Some(CapabilityNeedsCapabilities) else if p.capability == 0 then Some(NoCapability) else None
    case MatchUnknown => Some(UnknownOp)
  }

  lemma CheaperOrders()
    ensures WeakOrder(Cheaper)
  {
  }

  lemma PrecedesOrders()
    ensures WeakOrder(Precedes)
  {
  }

  /** compilePredicates: checked in order, counted, and sorted by cost. */
  method CompilePredicates(ps: seq<Predicate>, before: nat, regexps: Regexps)
    returns (cs: seq<CompiledPredicate>, count: nat, fault: Option<Fault>)
    requires before <= MAX_REGEX
    ensures fault.None? <==> ValidAll(ps, regexps) && before + RegexCount(ps) <= MAX_REGEX
    ensures fault.None? ==> CompiledFrom(cs, ps, regexps) && count == before + RegexCount(ps)
  {
    var out: seq<CompiledPredicate> := [];
    count, fault := before, None;
    for i := 0 to |ps|
      invariant |out| == i && count == before + RegexCount(ps[..i]) && count <= MAX_REGEX && fault.None?
      invariant forall j | 0 <= j < i :: out[j].p == ps[j] && RegexReady(out[j], regexps)
    {
      assert ps[..i + 1][..i] == ps[..i];
      RegexCountGrows(ps, i + 1);
      fault := FaultOf(ps[i], count, regexps);
      if fault.Some? { return [], count, fault; }
      if ps[i].op.MatchRegex? { count := count + 1; }
      out := out + [CompiledPredicate(ps[i], if ps[i].op.MatchRegex? then regexps(ps[i].pattern).value else (_ => false))];
    }
    assert ps[..|ps|] == ps;
    CheaperOrders();
    SortSorts(out, Cheaper);
    SortPermutes(out, Cheaper);
    cs := SortStable(out, Cheaper);
    assert InOrder(out, ps);
    forall p | p in ps ensures exists c :: c in cs && c.p == p {
      var j :| 0 <= j < |ps| && ps[j] == p;
      assert out[j] in out && out[j].p == p;
    }
  }

  lemma {:induction false} RegexCountGrows(ps: seq<Predicate>, n: nat)
    requires n <= |ps|
    ensures RegexCount(ps[..n]) <= RegexCount(ps)
    decreases |ps|
  {
    if n < |ps| {
      assert ps[..|ps| - 1][..n] == ps[..n];
      RegexCountGrows(ps[..|ps| - 1], n);
    } else {
      assert ps[..n] == ps;
    }
  }

  /** The text fields a rule cannot do without. */
  method Required(all: seq<CompiledPredicate>, ghost ps: seq<Predicate>, ghost regexps: Regexps) returns (required: nat)
    requires CompiledFrom(all, ps, regexps)
    ensures RequiredOf(required, ps)
  {
    hide CompiledFrom, Mentions, Bit, Or, Pow2;
    required := 0;
    forall f: nat ensures !Bit(0, f) { BitOfZero(f); }
    for i := 0 to |all|
      invariant forall f: nat :: Bit(required, f) <==> IsText(f) && exists j :: 0 <= j < i && all[j].p.field == f
    {
      if IsText(all[i].p.field) {
        forall f: nat ensures Bit(Or(required, Pow2(all[i].p.field)), f) <==> Bit(required, f) || f == all[i].p.field {
          BitOr(required, Pow2(all[i].p.field), f);
          BitPow2(all[i].p.field, f);
        }
        required := Or(required, Pow2(all[i].p.field));
      }
    }
    forall f: nat ensures Mentions(ps, f) <==> exists j :: 0 <= j < |all| && all[j].p.field == f { MentionedCompiled(all, ps, regexps, f); }
  }

  lemma MentionedCompiled(all: seq<CompiledPredicate>, ps: seq<Predicate>, regexps: Regexps, f: nat)
    requires CompiledFrom(all, ps, regexps)
    ensures Mentions(ps, f) <==> exists j :: 0 <= j < |all| && all[j].p.field == f
  {
    hide RegexReady, Sorted;
    if Mentions(ps, f) {
      var p :| p in ps && p.field == f;
      var c :| c in all && c.p == p;
      var j :| 0 <= j < |all| && all[j] == c;
      assert all[j].p.field == f;
    }
    if j :| 0 <= j < |all| && all[j].p.field == f { assert all[j] in all; }
  }

  method CompileRule(rules: seq<Rule>, i: nat, before: nat, regexps: Regexps) returns (c: Outcome<CompiledRule>, count: nat)
    requires i < |rules| && before <= MAX_REGEX
    ensures c.Compiled? <==> ValidRule(rules[i], regexps) && before + RegexCount(Parts(rules[i])) <= MAX_REGEX
    ensures c.Compiled? ==> c.value.order == i && RuleCompiled(c.value, rules, regexps) && count == before + RegexCount(Parts(rules[i]))
    ensures c.TooManyRules? ==> false
    ensures c.Unnamed? ==> c.rule == i && (rules[i].name == [] || rules[i].class_ == [])
    ensures c.BadPredicate? ==> c.rule == i
  {
    hide ValidPredicate, CompiledFrom, RequiredOf;
    var r := rules[i];
    count := before;
    PartsSplit(r, regexps);
    if r.name == [] || r.class_ == [] { return Unnamed(i), count; }
    var all, any, none, fault;
    all, count, fault := CompilePredicates(r.all, count, regexps);
    if fault.Some? { return BadPredicate(i, fault.value), count; }
    any, count, fault := CompilePredicates(r.any, count, regexps);
    if fault.Some? { return BadPredicate(i, fault.value), count; }
    none, count, fault := CompilePredicates(r.none, count, regexps);
    if fault.Some? { return BadPredicate(i, fault.value), count; }
    var required := Required(all, r.all, regexps);
    c := Compiled(CompiledRule(r.name, r.class_, r.priority, |r.all| + |r.any| + |r.none|, i, all, any, none, required));
  }

  lemma PartsSplit(r: Rule, regexps: Regexps)
    ensures ValidAll(Parts(r), regexps) <==> ValidAll(r.all, regexps) && ValidAll(r.any, regexps) && ValidAll(r.none, regexps)
    ensures RegexCount(Parts(r)) == RegexCount(r.all) + RegexCount(r.any) + RegexCount(r.none)
  {
    hide ValidAll, RegexCount;
    RegexCountSum(r.all, r.any);
    RegexCountSum(r.all + r.any, r.none);
    ValidBoth(r.all, r.any, regexps);
    ValidBoth(r.all + r.any, r.none, regexps);
  }

  lemma ValidBoth(a: seq<Predicate>, b: seq<Predicate>, regexps: Regexps)
    ensures ValidAll(a + b, regexps) <==> ValidAll(a, regexps) && ValidAll(b, regexps)
  {
    hide ValidPredicate;
    if ValidAll(a + b, regexps) {
      forall i | 0 <= i < |a| ensures ValidPredicate(a[i], regexps) { assert ValidPredicate((a + b)[i], regexps); }
      forall i | 0 <= i < |b| ensures ValidPredicate(b[i], regexps) { assert ValidPredicate((a + b)[|a| + i], regexps); }
    }
  }

  lemma {:induction false} RegexCountSum(a: seq<Predicate>, b: seq<Predicate>)
    ensures RegexCount(a + b) == RegexCount(a) + RegexCount(b)
    decreases |b|
  {
    if b == [] {
      assert a + b == a;
    } else {
      assert (a + b)[..|a + b| - 1] == a + b[..|b| - 1];
      RegexCountSum(a, b[..|b| - 1]);
    }
  }

  /** The check a candidate bit stands for. */
  method IsPossible(c: CompiledRule, protocols: nat) returns (possible: bool)
    ensures possible <==> Possible(c, protocols)
  {
    for i := 0 to |c.all|
      invariant forall j | 0 <= j < i :: !(c.all[j].p.op.MatchProtocol? && And(protocols, c.all[j].p.protocol) == 0)
    {
      if c.all[i].p.op.MatchProtocol? && And(protocols, c.all[i].p.protocol) == 0 {
        assert c.all[i] in c.all;
        return false;
      }
    }
    return true;
  }

  /** The words of one protocol set, a bit set for each possible rule. */
  method Candidates(cs: seq<CompiledRule>, protocols: nat) returns (words: seq<nat>)
    requires |cs| <= MAX_RULES
    ensures WordsFor(words, cs, protocols)
  {
    hide Possible, And, Or, Bit, Pow2;
    words := [0, 0, 0, 0];
    forall b: nat ensures !Bit(0, b) { BitOfZero(b); }
    for i := 0 to |cs|
      invariant |words| == 4 && forall w | 0 <= w < 4 :: words[w] < Pow2(64)
      invariant forall k: nat | k < 256 :: Bit(words[k / 64], k % 64) <==> k < i && Possible(cs[k], protocols)
    {
      var possible := IsPossible(cs[i], protocols);
      if possible {
        var w := i / 64;
        var word := Or(words[w], Pow2(i % 64));
        Pow2Grows(i % 64, 64);
        OrBound(words[w], Pow2(i % 64), 64);
        forall b: nat ensures Bit(word, b) <==> Bit(words[w], b) || b == i % 64 {
          BitOr(words[w], Pow2(i % 64), b);
          BitPow2(i % 64, b);
        }
        words := words[w := word];
      }
    }
  }

  /** CompileClassifier: an acceptable rule set compiles, and no other does. */
  method CompileClassifier(rules: seq<Rule>, regexps: Regexps) returns (r: Outcome<Classifier>)
    ensures r.Compiled? <==> |rules| <= MAX_RULES && Acceptable(rules, regexps)
    ensures r.Compiled? ==> Ready(r.value, rules, regexps)
    ensures r.TooManyRules? <==> |rules| > MAX_RULES
    ensures r.Unnamed? ==> r.rule < |rules| && (rules[r.rule].name == [] || rules[r.rule].class_ == [])
    ensures r.Unnamed? || r.BadPredicate? ==> r.rule < |rules| && Acceptable(rules[..r.rule], regexps) && !Acceptable(rules[..r.rule + 1], regexps)
  {
    hide ValidRule, RuleCompiled, Possible, WordsFor, RulesCompiled, Sorted, SortStable, Precedes;
    if |rules| > MAX_RULES { return TooManyRules; }
    var cs: seq<CompiledRule>, count := [], 0;
    for i := 0 to |rules|
      invariant |cs| == i && Acceptable(rules[..i], regexps) && count == RegexTotal(rules[..i])
      invariant forall j | 0 <= j < i :: cs[j].order == j && RuleCompiled(cs[j], rules, regexps)
    {
      assert rules[..i + 1][..i] == rules[..i];
      AcceptableStep(rules, i, regexps);
      var c;
      c, count := CompileRule(rules, i, count, regexps);
      match c {
        case Compiled(value) => cs := cs + [value];
        case TooManyRules => return TooManyRules;
        case Unnamed(rule) => return Unnamed(rule);
        case BadPredicate(rule, fault) => return BadPredicate(rule, fault);
      }
    }
    assert rules[..|rules|] == rules;
    SortedCompiled(cs, rules, regexps);
    var sorted := SortStable(cs, Precedes);
    var table: seq<seq<nat>> := [];
    for s := 0 to 16
      invariant |table| == s && forall t: nat | t < s :: WordsFor(table[t], sorted, t)
    {
      var words := Candidates(sorted, s);
      table := table + [words];
    }
    r := Compiled(Classifier(sorted, table));
  }

  lemma SortedCompiled(cs: seq<CompiledRule>, rules: seq<Rule>, regexps: Regexps)
    requires |cs| == |rules| && forall j | 0 <= j < |cs| :: cs[j].order == j && RuleCompiled(cs[j], rules, regexps)
    ensures var sorted := SortStable(cs, Precedes); |sorted| == |rules| && RulesCompiled(sorted, rules, regexps) && Sorted(sorted, Precedes)
  {
    hide RuleCompiled, Precedes;
    PrecedesOrders();
    SortSorts(cs, Precedes);
    SortPermutes(cs, Precedes);
    assert AsWritten(cs);
    forall i: nat | i < |rules| ensures HasOrder(SortStable(cs, Precedes), i) { assert cs[i] in SortStable(cs, Precedes); }
  }

  /** One rule more: acceptable while its own part is and the regexps stay within the limit. */
  lemma AcceptableStep(rules: seq<Rule>, i: nat, regexps: Regexps)
    requires i < |rules| && Acceptable(rules[..i], regexps)
    ensures var ok := ValidRule(rules[i], regexps) && RegexTotal(rules[..i]) + RegexCount(Parts(rules[i])) <= MAX_REGEX;
            && (Acceptable(rules[..i + 1], regexps) <==> ok)
            && (!ok ==> !Acceptable(rules, regexps))
            && RegexTotal(rules[..i + 1]) == RegexTotal(rules[..i]) + RegexCount(Parts(rules[i]))
  {
    hide ValidRule;
    assert rules[..i + 1][..i] == rules[..i];
    assert rules[..i + 1][i] == rules[i];
    RegexTotalGrows(rules, i + 1);
    if !ValidRule(rules[i], regexps) { assert !ValidRule(rules[..i + 1][i], regexps); }
  }

  lemma {:induction false} RegexTotalGrows(rules: seq<Rule>, n: nat)
    requires n <= |rules|
    ensures RegexTotal(rules[..n]) <= RegexTotal(rules)
    decreases |rules|
  {
    if n < |rules| {
      assert rules[..|rules| - 1][..n] == rules[..n];
      RegexTotalGrows(rules[..|rules| - 1], n);
    } else {
      assert rules[..n] == rules;
    }
  }

  // ---------- matching one predicate ----------

  /** The byte 0xff shifted left. */
  function HighMask(shift: nat): nat
    requires shift <= 8
  {
    Pow2Fits(shift);
    Pow2(8) - Pow2(shift)
  }

  lemma Pow2Fits(n: nat)
    requires n <= 8
    ensures Pow2(n) <= Pow2(8)
  {
    if n < 8 { Pow2Grows(n, 8); }
  }

  /** macPrefixMatch: whole bytes compared, then the leading bits of the next one. */
  method MACPrefixMatch(m: MAC, p: MACPrefix) returns (ok: bool)
    requires p.bits <= 48
    ensures ok <==> InPrefix(m, p)
  {
    var whole := p.bits / 8;
    var rem := p.bits % 8;
    WholeBytes(m, p.address, whole);
    if m[..whole] != p.address[..whole] {
      var i: nat :| i < 8 * whole && !(MACBit(m, i) <==> MACBit(p.address, i));
      return false;
    }
    if rem == 0 { return true; }
    var mask := HighMask(8 - rem);
    LeadingBits(m[whole], p.address[whole], rem);
    OneMoreByte(m, p.address, whole, rem);
    ok := And(m[whole], mask) == And(p.address[whole], mask);
  }

  ghost predicate SameHigh(a: Byte, b: Byte, rem: nat)
    requires rem <= 8
  {
    forall j: nat | 8 - rem <= j < 8 :: Bit(a, j) <==> Bit(b, j)
  }

  lemma OneMoreByte(a: MAC, b: MAC, whole: nat, rem: nat)
    requires 8 * whole + rem <= 48 && 0 < rem < 8 && SamePrefix(a, b, 8 * whole)
    ensures SamePrefix(a, b, 8 * whole + rem) <==> SameHigh(a[whole], b[whole], rem)
  {
    hide Bit;
    if SameHigh(a[whole], b[whole], rem) {
      forall i: nat | i < 8 * whole + rem ensures MACBit(a, i) <==> MACBit(b, i) {
        if i >= 8 * whole {
          assert i / 8 == whole && 8 - rem <= 7 - i % 8 < 8;
        }
      }
    }
    if SamePrefix(a, b, 8 * whole + rem) {
      forall j: nat | 8 - rem <= j < 8 ensures Bit(a[whole], j) <==> Bit(b[whole], j) {
        var i := 8 * whole + 7 - j;
        assert i / 8 == whole && i % 8 == 7 - j;
        assert MACBit(a, i) <==> MACBit(b, i);
      }
    }
  }

  lemma WholeBytes(a: MAC, b: MAC, whole: nat)
    requires whole <= 6
    ensures a[..whole] == b[..whole] <==> SamePrefix(a, b, 8 * whole)
  {
    hide Bit;
    if SamePrefix(a, b, 8 * whole) {
      forall k | 0 <= k < whole ensures a[k] == b[k] {
        forall j: nat | j < 8 ensures Bit(a[k], j) <==> Bit(b[k], j) {
          var i := 8 * k + 7 - j;
          assert i / 8 == k && i % 8 == 7 - j;
          assert MACBit(a, i) <==> MACBit(b, i);
        }
        SameByte(a[k], b[k]);
      }
    }
    if a[..whole] == b[..whole] {
      forall i: nat | i < 8 * whole ensures MACBit(a, i) <==> MACBit(b, i) {
        assert a[i / 8] == a[..whole][i / 8] == b[..whole][i / 8] == b[i / 8];
      }
    }
  }

  lemma SameByte(a: Byte, b: Byte)
    requires forall j: nat | j < 8 :: Bit(a, j) <==> Bit(b, j)
    ensures a == b
  {
    forall j: nat ensures Bit(a, j) <==> Bit(b, j) {
      if j >= 8 {
        assert Pow2(8) == 256;
        HighBits(a, 8, j);
        HighBits(b, 8, j);
      }
    }
    SameBits(a, b);
  }

  /** The bits a high mask keeps. */
  lemma LeadingBits(a: Byte, b: Byte, rem: nat)
    requires 0 < rem < 8
    ensures And(a, HighMask(8 - rem)) == And(b, HighMask(8 - rem)) <==> SameHigh(a, b, rem)
  {
    hide Bit, And, HighMask;
    var mask := HighMask(8 - rem);
    forall j: nat ensures Bit(And(a, mask), j) <==> Bit(a, j) && 8 - rem <= j < 8 { BitAnd(a, mask, j); MaskBits(8 - rem, j); }
    forall j: nat ensures Bit(And(b, mask), j) <==> Bit(b, j) && 8 - rem <= j < 8 { BitAnd(b, mask, j); MaskBits(8 - rem, j); }
    if SameHigh(a, b, rem) {
      SameBits(And(a, mask), And(b, mask));
    } else if And(a, mask) == And(b, mask) {
      forall j: nat | 8 - rem <= j < 8 ensures Bit(a, j) <==> Bit(b, j) {
        assert Bit(And(a, mask), j) <==> Bit(And(b, mask), j);
      }
    }
  }

  /** A high mask is ones from the shift up to the byte's end. */
  lemma {:induction false} MaskBits(shift: nat, j: nat)
    requires shift <= 8
    ensures Bit(HighMask(shift), j) <==> shift <= j < 8
  {
    OnesFrom(8, shift, j);
  }

  lemma {:induction false} OnesFrom(n: nat, shift: nat, j: nat)
    requires shift <= n
    ensures Pow2(shift) <= Pow2(n) && (Bit(Pow2(n) - Pow2(shift), j) <==> shift <= j < n)
    decreases n
  {
    if n == shift {
      BitOfZero(j);
    } else if shift > 0 {
      OnesFrom(n - 1, shift - 1, if j == 0 then 0 else j - 1);
      assert (Pow2(n) - Pow2(shift)) / 2 == Pow2(n - 1) - Pow2(shift - 1);
    } else {
      OnesFrom(n - 1, 0, if j == 0 then 0 else j - 1);
      assert (Pow2(n) - 1) / 2 == Pow2(n - 1) - 1 && (Pow2(n) - 1) % 2 == 1;
    }
  }

  /** equalFoldASCII. */
  method EqualFoldASCII(a: seq<Byte>, b: seq<Byte>) returns (same: bool)
    ensures same <==> SameFolded(a, b)
  {
    if |a| != |b| { return false; }
    for i := 0 to |a|
      invariant forall k | 0 <= k < i :: Lower(a[k]) == Lower(b[k])
    {
      var x, y := a[i], b[i];
      if 65 <= x <= 90 { x := x + 32; }
      if 65 <= y <= 90 { y := y + 32; }
      if x != y { return false; }
    }
    return true;
  }

  method MatchText(c: CompiledPredicate, ghost regexps: Regexps, v: seq<Byte>) returns (ok: bool)
    requires RegexReady(c, regexps) && (c.p.op.MatchExact? || c.p.op.MatchRegex?)
    ensures ok <==> AcceptsText(c.p, regexps, v)
  {
    if c.p.op.MatchRegex? { return c.re(v); }
    if c.p.foldASCII {
      ok := EqualFoldASCII(v, c.p.value);
    } else {
      ok := v == c.p.value;
    }
  }

  /** matchPredicate. */
  method MatchPredicate(c: CompiledPredicate, ghost regexps: Regexps, d: Device) returns (ok: bool)
    requires RegexReady(c, regexps)
    ensures ok <==> Holds(c.p, regexps, d)
  {
    hide InPrefix, AcceptsText, And, Values;
    match c.p.op {
      case MatchProtocol => return And(d.protocols, c.p.protocol) != 0;
      case MatchMACPrefix =>
        for i := 0 to |d.observedMACs|
          invariant forall k | 0 <= k < i :: !InPrefix(d.observedMACs[k], c.p.macPrefix)
        {
          var found := MACPrefixMatch(d.observedMACs[i], c.p.macPrefix);
          if found { return true; }
        }
        return false;
      case MatchIPPrefix =>
        for i := 0 to |d.addresses|
          invariant forall k | 0 <= k < i :: !c.p.ipPrefix.value(d.addresses[k])
        {
          if c.p.ipPrefix.value(d.addresses[i]) { return true; }
        }
        return false;
      case MatchCapabilityAll => return And(d.capabilities, c.p.capability) == c.p.capability;
      case MatchUnknown => return false;
      case _ =>
        var values := Values(d, c.p.field);
        for i := 0 to |values|
          invariant forall k | 0 <= k < i :: !AcceptsText(c.p, regexps, values[k])
        {
          var found := MatchText(c, regexps, values[i]);
          if found { return true; }
        }
        return false;
    }
  }

  method AllPredicates(cs: seq<CompiledPredicate>, ghost ps: seq<Predicate>, ghost regexps: Regexps, d: Device) returns (ok: bool)
    requires CompiledFrom(cs, ps, regexps)
    ensures ok <==> forall p | p in ps :: Holds(p, regexps, d)
  {
    hide Holds, RegexReady;
    for i := 0 to |cs|
      invariant forall k | 0 <= k < i :: Holds(cs[k].p, regexps, d)
    {
      assert cs[i] in cs;
      var found := MatchPredicate(cs[i], regexps, d);
      if !found { return false; }
    }
    return true;
  }

  method AnyPredicates(cs: seq<CompiledPredicate>, ghost ps: seq<Predicate>, ghost regexps: Regexps, d: Device) returns (ok: bool)
    requires CompiledFrom(cs, ps, regexps)
    ensures ok <==> exists p :: p in ps && Holds(p, regexps, d)
  {
    hide Holds, RegexReady;
    for i := 0 to |cs|
      invariant forall k | 0 <= k < i :: !Holds(cs[k].p, regexps, d)
    {
      assert cs[i] in cs;
      var found := MatchPredicate(cs[i], regexps, d);
      if found { return true; }
    }
    return false;
  }

  method SetField(fields: nat, field: nat) returns (r: nat)
    ensures forall f: nat :: Bit(r, f) <==> Bit(fields, f) || f == field
  {
    r := Or(fields, Pow2(field));
    forall f: nat ensures Bit(r, f) <==> Bit(fields, f) || f == field {
      BitOr(fields, Pow2(field), f);
      BitPow2(field, f);
    }
  }

  /** populatedTextFields. */
  method PopulatedTextFields(d: Device) returns (fields: nat)
    ensures forall f: nat :: Bit(fields, f) <==> Populated(d, f)
  {
    hide Bit;
    fields := 0;
    forall f: nat ensures !Bit(0, f) { BitOfZero(f); }
    for field := SYSTEM_NAME to SOFTWARE + 1
      invariant forall f: nat :: Bit(fields, f) <==> SYSTEM_NAME <= f < field && Values(d, f) != []
    {
      if |Values(d, field)| != 0 { fields := SetField(fields, field); }
    }
    for i := 0 to |d.services|
      invariant forall f: nat :: Bit(fields, f) <==>
        if IsService(f) then exists k :: 0 <= k < i && ServiceValue(d.services[k], f) != [] else IsText(f) && Values(d, f) != []
    {
      if |d.services[i].instance| != 0 { fields := SetField(fields, SERVICE_INSTANCE); }
      if |d.services[i].typ| != 0 { fields := SetField(fields, SERVICE_TYPE); }
      if |d.services[i].txt| != 0 { fields := SetField(fields, SERVICE_TXT); }
    }
  }

  // ---------- classification ----------

  /** The checks a candidate rule goes through. */
  method Accepts(c: CompiledRule, available: nat, ghost rules: seq<Rule>, ghost regexps: Regexps, d: Device) returns (ok: bool)
    requires RuleCompiled(c, rules, regexps) && forall f: nat :: Bit(available, f) <==> Populated(d, f)
    ensures ok <==> Eligible(rules[c.order], regexps, d)
  {
    hide CompiledFrom, Holds, Bit, And, Populated;
    ghost var r := rules[c.order];
    RequiredCovered(c.required, r.all, available, d);
    AnyKept(c, rules, regexps);
    if And(c.required, available) != c.required { return false; }
    ok := AllPredicates(c.all, r.all, regexps, d);
    if !ok { return false; }
    var none := AnyPredicates(c.none, r.none, regexps, d);
    if none { return false; }
    if |c.any| > 0 {
      ok := AnyPredicates(c.any, r.any, regexps, d);
    }
  }

  lemma AnyKept(c: CompiledRule, rules: seq<Rule>, regexps: Regexps)
    requires RuleCompiled(c, rules, regexps)
    ensures |c.any| == |rules[c.order].any|
  {
  }

  /** The mask test asks for text in every text field a rule's All speaks of. */
  lemma RequiredCovered(required: nat, ps: seq<Predicate>, available: nat, d: Device)
    requires RequiredOf(required, ps) && forall f: nat :: Bit(available, f) <==> Populated(d, f)
    ensures And(required, available) == required <==> forall p | p in ps && IsText(p.field) :: Populated(d, p.field)
  {
    hide Bit, Populated;
    AndCovers(required, available);
    if Covered(required, available) {
      forall p | p in ps && IsText(p.field) ensures Populated(d, p.field) {
        assert Mentions(ps, p.field);
        assert Bit(required, p.field);
      }
    } else {
      var f: nat :| Bit(required, f) && !Bit(available, f);
      var p :| p in ps && p.field == f;
      assert !Populated(d, p.field);
    }
  }

  /** A rule the protocol table leaves out is not eligible. */
  lemma ImpossibleRule(c: CompiledRule, rules: seq<Rule>, regexps: Regexps, d: Device)
    requires RuleCompiled(c, rules, regexps) && !Possible(c, And(d.protocols, 15))
    ensures !Eligible(rules[c.order], regexps, d)
  {
    hide And, Bit;
    var k :| k in c.all && k.p.op.MatchProtocol? && And(And(d.protocols, 15), k.p.protocol) == 0;
    assert RegexReady(k, regexps);
    FourProtocols(d.protocols, k.p.protocol);
    assert k.p in rules[c.order].all && !Holds(k.p, regexps, d);
  }

  lemma FourProtocols(observed: Byte, wanted: Byte)
    requires StrayProtocols(wanted) == 0
    ensures And(And(observed, 15), wanted) == 0 <==> And(observed, wanted) == 0
  {
    hide And;
    AndMeets(wanted, 0xF0);
    AndMeets(observed, wanted);
    AndMeets(And(observed, 15), wanted);
    forall i: nat ensures Bit(And(observed, 15), i) <==> Bit(observed, i) && Bit(15, i) { BitAnd(observed, 15, i); }
    forall i: nat | Bit(wanted, i) ensures Bit(15, i) {
      if i >= 8 {
        assert Pow2(8) == 256;
        HighBits(wanted, 8, i);
      } else {
        MaskBits(4, i);
        assert HighMask(4) == 0xF0;
        LowBits(i);
      }
    }
  }

  lemma LowBits(i: nat)
    ensures Bit(15, i) <==> i < 4
  {
    assert Pow2(4) == 16;
    if i >= 4 { HighBits(15, 4, i); } else { assert Bit(15, 0) && Bit(7, 0) && Bit(3, 0) && Bit(1, 0); }
  }

  /** Bits of a candidate word below the one looked at have been looked at, or were never set. */
  ghost predicate Rejected(c: Classifier, rules: seq<Rule>, regexps: Regexps, d: Device, n: nat) {
    forall i: nat | i < n && i < |c.rules| :: c.rules[i].order < |rules| && !Eligible(rules[c.rules[i].order], regexps, d)
  }

  /** The bits of a word from position seen up. */
  ghost predicate Unseen(candidates: nat, word: nat, seen: nat) {
    forall b: nat :: Bit(candidates, b) <==> Bit(word, b) && b >= seen
  }

  lemma NothingUnseen(word: nat, seen: nat)
    requires Unseen(0, word, seen)
    ensures forall b: nat | b >= seen :: !Bit(word, b)
  {
    hide Bit;
    forall b: nat | b >= seen ensures !Bit(word, b) { BitOfZero(b); }
  }

  lemma Unseen0(word: nat)
    ensures Unseen(word, word, 0)
  {
  }

  /** One candidate word, lowest bit first: the first rule it accepts. */
  method ScanWord(c: Classifier, mask: seq<nat>, word: nat, available: nat, ghost rules: seq<Rule>, ghost regexps: Regexps, d: Device)
    returns (found: bool, i: nat)
    requires Ready(c, rules, regexps) && word < 4 && WordsFor(mask, c.rules, And(d.protocols, 15))
    requires forall f: nat :: Bit(available, f) <==> Populated(d, f)
    requires Rejected(c, rules, regexps, d, 64 * word)
    ensures found ==> i < |c.rules| && c.rules[i].order < |rules| && Eligible(rules[c.rules[i].order], regexps, d) && Rejected(c, rules, regexps, d, i)
    ensures !found ==> Rejected(c, rules, regexps, d, 64 * word + 64)
  {
    hide Eligible, Possible, And, Bit, Populated, RuleCompiled, Unseen, Ready, WordsFor, Rejected;
    Words(mask, c.rules, And(d.protocols, 15));
    Unseen0(mask[word]);
    var candidates: nat := mask[word];
    ghost var seen: nat := 0;
    found, i := false, 0;
    while candidates != 0
      invariant candidates < Pow2(64) && seen <= 64 && Rejected(c, rules, regexps, d, 64 * word + seen)
      invariant Unseen(candidates, mask[word], seen)
      decreases candidates
    {
      var z := TrailingZeros(candidates);
      LowestCandidate(candidates, mask[word], seen);
      Skipped(c, rules, regexps, d, mask, word, seen, z);
      i := word * 64 + z;
      if i >= |c.rules| {
        NoMoreRules(c, rules, regexps, d, i, 64 * word + 64);
        return false, i;
      }
      RuleAt(c, rules, regexps, i);
      found := Accepts(c.rules[i], available, rules, regexps, d);
      if found { return; }
      OneMore(c, rules, regexps, d, i);
      NextCandidates(candidates, mask[word], seen);
      candidates := And(candidates, candidates - 1);
      seen := z + 1;
    }
    found := false;
    NothingUnseen(mask[word], seen);
    Skipped(c, rules, regexps, d, mask, word, seen, 64);
  }

  lemma Words(mask: seq<nat>, cs: seq<CompiledRule>, protocols: nat)
    requires WordsFor(mask, cs, protocols)
    ensures |mask| == 4 && forall w | 0 <= w < 4 :: mask[w] < Pow2(64)
  {
  }

  lemma RuleAt(c: Classifier, rules: seq<Rule>, regexps: Regexps, i: nat)
    requires Ready(c, rules, regexps) && i < |c.rules|
    ensures RuleCompiled(c.rules[i], rules, regexps) && c.rules[i].order < |rules|
  {
    hide WordsFor, Sorted, CompiledFrom, RequiredOf;
    assert c.rules[i] in c.rules;
  }

  lemma NoMoreRules(c: Classifier, rules: seq<Rule>, regexps: Regexps, d: Device, i: nat, n: nat)
    requires Rejected(c, rules, regexps, d, i) && i >= |c.rules|
    ensures Rejected(c, rules, regexps, d, n)
  {
  }

  lemma OneMore(c: Classifier, rules: seq<Rule>, regexps: Regexps, d: Device, i: nat)
    requires Rejected(c, rules, regexps, d, i) && i < |c.rules| && c.rules[i].order < |rules| && !Eligible(rules[c.rules[i].order], regexps, d)
    ensures Rejected(c, rules, regexps, d, i + 1)
  {
    hide Eligible;
  }

  /** Classify: the best eligible rule of the rules as written, if there is one. */
  method Classify(c: Classifier, ghost rules: seq<Rule>, ghost regexps: Regexps, d: Device)
    returns (class_: seq<Byte>, rule: seq<Byte>, ok: bool, ghost index: nat)
    requires Ready(c, rules, regexps)
    ensures ok <==> exists i: nat :: i < |rules| && Eligible(rules[i], regexps, d)
    ensures ok ==> Best(rules, regexps, d, index) && class_ == rules[index].class_ && rule == rules[index].name
  {
    hide Eligible, Possible, And, Bit, Populated, RuleCompiled, Sorted, HasOrder;
    index := 0;
    var available := PopulatedTextFields(d);
    AndLowMask(d.protocols, 4);
    assert Pow2(4) == 16;
    var mask := c.protocolCandidates[And(d.protocols, 15)];
    for word := 0 to 4
      invariant Rejected(c, rules, regexps, d, 64 * word)
    {
      var found, i := ScanWord(c, mask, word, available, rules, regexps, d);
      if found {
        FirstIsBest(c, rules, regexps, d, i);
        return c.rules[i].class_, c.rules[i].name, true, c.rules[i].order;
      }
    }
    NoneEligible(c, rules, regexps, d);
    return [], [], false, 0;
  }

  lemma LowestCandidate(candidates: nat, mask: nat, seen: nat)
    requires 0 < candidates < Pow2(64) && Unseen(candidates, mask, seen)
    ensures var z := TrailingZeros(candidates);
            seen <= z < 64 && Bit(mask, z) && forall b: nat | seen <= b < z :: !Bit(mask, b)
  {
    hide Bit;
    var z := TrailingZeros(candidates);
    LowestBit(candidates, z);
    if z >= 64 { HighBits(candidates, 64, z); }
    forall b: nat | seen <= b < z ensures !Bit(mask, b) { LowestBit(candidates, b); }
  }

  lemma NextCandidates(candidates: nat, mask: nat, seen: nat)
    requires candidates > 0 && Unseen(candidates, mask, seen)
    ensures And(candidates, candidates - 1) < candidates
    ensures Unseen(And(candidates, candidates - 1), mask, TrailingZeros(candidates) + 1)
  {
    hide Bit, And;
    ClearLowest(candidates, 0);
    forall b: nat ensures Bit(And(candidates, candidates - 1), b) <==> Bit(mask, b) && b >= TrailingZeros(candidates) + 1 {
      ClearLowest(candidates, b);
      LowestBit(candidates, b);
    }
  }

  /** Rules whose bit is clear are not eligible. */
  lemma Skipped(c: Classifier, rules: seq<Rule>, regexps: Regexps, d: Device, mask: seq<nat>, word: nat, seen: nat, z: nat)
    requires Ready(c, rules, regexps) && word < 4 && seen <= 64 && z <= 64 && WordsFor(mask, c.rules, And(d.protocols, 15))
    requires Rejected(c, rules, regexps, d, 64 * word + seen) && forall b: nat | seen <= b < z :: !Bit(mask[word], b)
    ensures Rejected(c, rules, regexps, d, 64 * word + if z > seen then z else seen)
  {
    hide Eligible, Possible, And, Bit, RuleCompiled;
    forall i: nat | 64 * word + seen <= i < 64 * word + z && i < |c.rules|
      ensures c.rules[i].order < |rules| && !Eligible(rules[c.rules[i].order], regexps, d)
    {
      assert i / 64 == word && i % 64 == i - 64 * word;
      assert !Bit(mask[i / 64], i % 64);
      assert c.rules[i] in c.rules && RuleCompiled(c.rules[i], rules, regexps);
      OrderInRange(c.rules[i], rules, regexps);
      ImpossibleRule(c.rules[i], rules, regexps, d);
    }
  }

  lemma OrderInRange(c: CompiledRule, rules: seq<Rule>, regexps: Regexps)
    requires RuleCompiled(c, rules, regexps)
    ensures c.order < |rules| && c.name == rules[c.order].name && c.class_ == rules[c.order].class_
    ensures c.priority == rules[c.order].priority && c.specificity == Specificity(rules[c.order])
  {
  }

  /** The first eligible rule of the sorted ones is the best of the rules as written. */
  lemma FirstIsBest(c: Classifier, rules: seq<Rule>, regexps: Regexps, d: Device, i: nat)
    requires Ready(c, rules, regexps) && i < |c.rules| && c.rules[i].order < |rules|
    requires Eligible(rules[c.rules[i].order], regexps, d) && Rejected(c, rules, regexps, d, i)
    ensures Best(rules, regexps, d, c.rules[i].order)
    ensures c.rules[i].class_ == rules[c.rules[i].order].class_ && c.rules[i].name == rules[c.rules[i].order].name
  {
    hide Eligible, RuleCompiled, WordsFor;
    assert c.rules[i] in c.rules;
    OrderInRange(c.rules[i], rules, regexps);
    forall j: nat | j < |rules| && j != c.rules[i].order && Eligible(rules[j], regexps, d) ensures Before(rules, c.rules[i].order, j) {
      assert HasOrder(c.rules, j);
      var k :| 0 <= k < |c.rules| && c.rules[k].order == j;
      assert c.rules[k] in c.rules;
      OrderInRange(c.rules[k], rules, regexps);
      assert k > i;
    }
  }

  lemma NoneEligible(c: Classifier, rules: seq<Rule>, regexps: Regexps, d: Device)
    requires Ready(c, rules, regexps) && Rejected(c, rules, regexps, d, 256)
    ensures forall j: nat | j < |rules| :: !Eligible(rules[j], regexps, d)
  {
    hide Eligible, RuleCompiled, WordsFor;
    forall j: nat | j < |rules| ensures !Eligible(rules[j], regexps, d) {
      assert HasOrder(c.rules, j);
      var k :| 0 <= k < |c.rules| && c.rules[k].order == j;
    }
  }

  // ---------- when the field mask matters ----------

  /** A predicate of All on a service field, on a device with no text in that field. */
  ghost predicate Blocked(r: Rule, d: Device) {
    exists p :: p in r.all && IsService(p.field) && !Populated(d, p.field)
  }

  /** For a rule that a plain scan accepts, the mask rejects it if and only if All speaks of a
      service field the device has no text in; the six named text fields never matter. */
  lemma MaskMatters(r: Rule, regexps: Regexps, d: Device)
    requires Satisfies(r, regexps, d) && forall p | p in r.all :: ValidPredicate(p, regexps)
    ensures Eligible(r, regexps, d) <==> !Blocked(r, d)
  {
    hide AcceptsText, InPrefix;
    forall p | p in r.all && IsText(p.field) && !IsService(p.field) && (p.op.MatchExact? || p.op.MatchRegex?) ensures Populated(d, p.field) {
      assert Holds(p, regexps, d);
    }
    if Blocked(r, d) {
      var p :| p in r.all && IsService(p.field) && !Populated(d, p.field);
      assert IsText(p.field);
    }
  }

  /** The mask can reject what a plain scan accepts only through a predicate that accepts the empty
      text, so rules without such predicates are classified as by a plain scan. */
  lemma EmptyTextOnly(r: Rule, regexps: Regexps, d: Device)
    requires Satisfies(r, regexps, d) && Blocked(r, d) && forall p | p in r.all :: ValidPredicate(p, regexps)
    ensures exists p :: p in r.all && IsService(p.field) && AcceptsText(p, regexps, [])
  {
    var p :| p in r.all && IsService(p.field) && !Populated(d, p.field);
    assert Holds(p, regexps, d);
    var v :| v in Values(d, p.field) && AcceptsText(p, regexps, v);
    var i :| 0 <= i < |d.services| && ServiceValue(d.services[i], p.field) == v;
    assert d.services[i] in d.services;
    assert v == [];
  }

  /** What a scan of the rules that ignores the mask would return. */
  ghost predicate PlainBest(rules: seq<Rule>, regexps: Regexps, d: Device, i: nat) {
    && i < |rules| && Satisfies(rules[i], regexps, d)
    && forall j: nat | j < |rules| && j != i && Satisfies(rules[j], regexps, d) :: Before(rules, i, j)
  }

  /** Classification agrees with the plain scan exactly when the winner of the scan is not blocked. */
  lemma AgreesWithPlainScan(rules: seq<Rule>, regexps: Regexps, d: Device, i: nat)
    requires Acceptable(rules, regexps) && PlainBest(rules, regexps, d, i)
    ensures Best(rules, regexps, d, i) <==> !Blocked(rules[i], d)
  {
    hide Satisfies, AllPopulated, Blocked, ValidPredicate;
    assert ValidRule(rules[i], regexps);
    PartsValid(rules[i], regexps);
    MaskMatters(rules[i], regexps, d);
  }

  lemma PartsValid(r: Rule, regexps: Regexps)
    requires ValidRule(r, regexps)
    ensures forall p | p in r.all :: ValidPredicate(p, regexps)
  {
    hide ValidPredicate;
    PartsSplit(r, regexps);
  }

  /** A rule for services without an instance name, and a device with one: the plain scan accepts,
      the mask does not. */
  lemma MaskRejects() returns (r: Rule, d: Device, regexps: Regexps)
    ensures ValidRule(r, regexps) && Satisfies(r, regexps, d) && !Eligible(r, regexps, d)
  {
    var p := Predicate(SERVICE_INSTANCE, MatchExact, [], [], 0, MACPrefix([0, 0, 0, 0, 0, 0], 0), None, 0, false);
    r := Rule([110], [99], 0, [p], [], []);
    d := Device(8, [], [], 0, [], [], [], [], [], [], [Service([], [95], [])]);
    regexps := _ => None;
    assert Parts(r) == [p];
    assert Values(d, SERVICE_INSTANCE)[0] == [];
    assert [] in Values(d, SERVICE_INSTANCE) && AcceptsText(p, regexps, []);
    assert Holds(p, regexps, d);
    assert p in r.all && !Populated(d, SERVICE_INSTANCE);
  }
}
