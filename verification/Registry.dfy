/** The logger registry: rules by dotted prefix, pushed into the loggers that are already in use. */
module Registry {
  import opened Basics
  import opened Records

  /** Sinks are shared objects, known here by identity. */
  type Sinks = seq<nat>

  datatype Config = Config(runtimeMin: LogLevel, sinks: Sinks)

  datatype Rule = Rule(prefix: string, runtimeMin: Option<LogLevel>, sinks: Option<Sinks>)

  // ----- Which rule decides

  /** The empty prefix, the name itself, or a leading part of it that is followed by a dot. */
  predicate Matches(name: string, prefix: string) {
    || prefix == ""
    || name == prefix
    || (|name| > |prefix| && prefix <= name && name[|prefix|] == '.')
  }

  /** A name may be cut at its ends and in front of a dot. */
  predicate Boundary(name: string, k: nat)
    requires k <= |name|
  {
    k == 0 || k == |name| || name[k] == '.'
  }

  /** The rule for the longest leading part of a name, up to k characters, that has one. */
  function Lookup(table: map<string, Rule>, name: string, k: nat): Option<Rule>
    requires k <= |name|
  {
    if Boundary(name, k) && name[..k] in table then Some(table[name[..k]])
    else if k == 0 then None
    else Lookup(table, name, k - 1)
  }

  function Refined(defaults: Config, rule: Option<Rule>): Config {
    match rule
    case None => defaults
    case Some(r) =>
      Config(if r.runtimeMin.Some? then r.runtimeMin.value else defaults.runtimeMin,
             if r.sinks.Some? then r.sinks.value else defaults.sinks)
  }

  function Effective(table: map<string, Rule>, defaults: Config, name: string): Config {
    Refined(defaults, Lookup(table, name, |name|))
  }

  lemma MatchesAtBoundary(name: string, prefix: string)
    ensures Matches(name, prefix) <==> prefix <= name && Boundary(name, |prefix|)
  {
    if prefix <= name && |prefix| == |name| { assert prefix == name; }
  }

  lemma {:induction false} LookupNone(table: map<string, Rule>, name: string, k: nat)
    requires k <= |name| && forall p :: p in table && Matches(name, p) ==> |p| > k
    ensures Lookup(table, name, k) == None
  {
    MatchesAtBoundary(name, name[..k]);
    if k > 0 { LookupNone(table, name, k - 1); }
  }

  lemma {:induction false} LookupSome(table: map<string, Rule>, name: string, k: nat, p: string)
    requires k <= |name| && p in table && Matches(name, p) && |p| <= k
    requires forall q :: q in table && Matches(name, q) && |q| <= k ==> |q| <= |p|
    ensures Lookup(table, name, k) == Some(table[p])
  {
    MatchesAtBoundary(name, p);
    MatchesAtBoundary(name, name[..k]);
    if |p| < k {
      LookupSome(table, name, k - 1, p);
    } else {
      assert name[..k] == p;
    }
  }

  /** No other prefix of the same length matches, so the longest matching prefix is unique. */
  lemma EqualLengthsAreEqual(name: string, p: string, q: string)
    requires Matches(name, p) && Matches(name, q) && |p| == |q|
    ensures p == q
  {
    MatchesAtBoundary(name, p);
    MatchesAtBoundary(name, q);
  }

  /** A child logger takes over its parent's configuration, unless a rule matches the child more closely. */
  lemma ChildInherits(table: map<string, Rule>, defaults: Config, name: string, child: string)
    requires forall p :: p in table && Matches(name + "." + child, p) ==> |p| <= |name|
    ensures Effective(table, defaults, name + "." + child) == Effective(table, defaults, name)
  {
    var full := name + "." + child;
    assert full[..|name|] == name && full[|name|] == '.';
    SkipUnmatched(table, full, |full|, |name|);
    SameBelow(table, full, name, |name|);
  }

  lemma {:induction false} SkipUnmatched(table: map<string, Rule>, name: string, k: nat, down: nat)
    requires down <= k <= |name| && forall p :: p in table && Matches(name, p) ==> |p| <= down
    ensures Lookup(table, name, k) == Lookup(table, name, down)
  {
    if down < k {
      MatchesAtBoundary(name, name[..k]);
      SkipUnmatched(table, name, k - 1, down);
    }
  }

  lemma {:induction false} SameBelow(table: map<string, Rule>, full: string, name: string, k: nat)
    requires k <= |name| < |full| && full[..|name|] == name && full[|name|] == '.'
    ensures Lookup(table, full, k) == Lookup(table, name, k)
  {
    assert full[..k] == name[..k];
    assert k < |name| ==> full[k] == full[..|name|][k];
    if k > 0 { SameBelow(table, full, name, k - 1); }
  }

  // ----- The list of rules is a map

  ghost predicate UniquePrefixes(rules: seq<Rule>) {
    forall i, j :: 0 <= i < j < |rules| ==> rules[i].prefix != rules[j].prefix
  }

  function TableOf(rules: seq<Rule>): map<string, Rule> {
    if rules == [] then map[]
    else
      var last := rules[|rules| - 1];
      TableOf(rules[..|rules| - 1])[last.prefix := last]
  }

  lemma {:induction false} TableHoldsTheRules(rules: seq<Rule>)
    requires UniquePrefixes(rules)
    ensures forall i :: 0 <= i < |rules| ==>
            rules[i].prefix in TableOf(rules) && TableOf(rules)[rules[i].prefix] == rules[i]
    ensures forall p :: p in TableOf(rules) ==> TableOf(rules)[p] in rules && TableOf(rules)[p].prefix == p
  {
    if rules != [] {
      var before := rules[..|rules| - 1];
      TableHoldsTheRules(before);
      forall i | 0 <= i < |rules|
        ensures rules[i].prefix in TableOf(rules) && TableOf(rules)[rules[i].prefix] == rules[i]
      {
        if i < |before| { assert before[i] == rules[i]; }
      }
      forall p | p in TableOf(rules) ensures TableOf(rules)[p] in rules && TableOf(rules)[p].prefix == p {
        if p != rules[|rules| - 1].prefix { assert TableOf(before)[p] in before; }
      }
    }
  }

  /** A table is determined by the rules in it. */
  lemma TableIs(rules: seq<Rule>, table: map<string, Rule>)
    requires UniquePrefixes(rules)
    requires forall i :: 0 <= i < |rules| ==> rules[i].prefix in table && table[rules[i].prefix] == rules[i]
    requires forall p :: p in table ==> table[p] in rules && table[p].prefix == p
    ensures TableOf(rules) == table
  {
    TableHoldsTheRules(rules);
    forall p ensures p in table <==> p in TableOf(rules) {
      if p in table {
        var i :| 0 <= i < |rules| && rules[i] == table[p];
      }
    }
    forall p | p in table ensures TableOf(rules)[p] == table[p] {
      var i :| 0 <= i < |rules| && rules[i] == TableOf(rules)[p];
    }
  }

  /** The order in which the rules were added does not matter. */
  lemma OrderIsIrrelevant(a: seq<Rule>, b: seq<Rule>, defaults: Config, name: string)
    requires UniquePrefixes(a) && UniquePrefixes(b) && forall r :: r in a <==> r in b
    ensures Effective(TableOf(a), defaults, name) == Effective(TableOf(b), defaults, name)
  {
    TableHoldsTheRules(b);
    forall i | 0 <= i < |a| ensures a[i].prefix in TableOf(b) && TableOf(b)[a[i].prefix] == a[i] {
      assert a[i] in b;
    }
    TableIs(a, TableOf(b));
  }

  lemma ReplacedRule(rules: seq<Rule>, i: nat, rule: Rule)
    requires UniquePrefixes(rules) && i < |rules| && rules[i].prefix == rule.prefix
    ensures UniquePrefixes(rules[i := rule])
    ensures TableOf(rules[i := rule]) == TableOf(rules)[rule.prefix := rule]
  {
    var replaced, table := rules[i := rule], TableOf(rules)[rule.prefix := rule];
    TableHoldsTheRules(rules);
    forall p | p in table ensures table[p] in replaced && table[p].prefix == p {
      if p == rule.prefix {
        assert replaced[i] == rule;
      } else {
        var j :| 0 <= j < |rules| && rules[j] == TableOf(rules)[p];
        assert replaced[j] == rules[j];
      }
    }
    TableIs(replaced, table);
  }

  lemma AddedRule(rules: seq<Rule>, rule: Rule)
    requires UniquePrefixes(rules) && forall j :: 0 <= j < |rules| ==> rules[j].prefix != rule.prefix
    ensures UniquePrefixes(rules + [rule]) && TableOf(rules + [rule]) == TableOf(rules)[rule.prefix := rule]
  {
    assert (rules + [rule])[..|rules|] == rules;
  }

  // ----- The state of a registry, and what each operation does to it

  datatype State = State(table: map<string, Rule>, defaults: Config, loggers: map<string, Config>)

  datatype Op =
    | UpsertRule(rule: Rule)
    | RemoveRule(prefix: string)
    | SetDefaultRuntimeMin(level: LogLevel)
    | SetDefaultSinks(sinks: Sinks)
    | GetOrCreate(name: string, requested: LogLevel)
    | SetLoggerRuntimeMin(name: string, level: LogLevel)
    | ReplaceLoggerSinks(name: string, sinks: Sinks)

  function Refreshed(s: State): State {
    s.(loggers := map name | name in s.loggers :: Effective(s.table, s.defaults, name))
  }

  /** A level asked for counts only if it is not Info and the effective level is the default one. */
  function Created(s: State, name: string, requested: LogLevel): Config {
    var config := Effective(s.table, s.defaults, name);
    if config.runtimeMin == s.defaults.runtimeMin && requested != Info then config.(runtimeMin := requested) else config
  }

  function Apply(s: State, op: Op): State {
    match op
    case UpsertRule(rule) => Refreshed(s.(table := s.table[rule.prefix := rule]))
    case RemoveRule(prefix) => Refreshed(s.(table := s.table - {prefix}))
    case SetDefaultRuntimeMin(level) => Refreshed(s.(defaults := s.defaults.(runtimeMin := level)))
    case SetDefaultSinks(sinks) => Refreshed(s.(defaults := s.defaults.(sinks := sinks)))
    case GetOrCreate(name, requested) =>
      if name in s.loggers then s else s.(loggers := s.loggers[name := Created(s, name, requested)])
    case SetLoggerRuntimeMin(name, level) =>
      if name in s.loggers then s.(loggers := s.loggers[name := s.loggers[name].(runtimeMin := level)]) else s
    case ReplaceLoggerSinks(name, sinks) =>
      if name in s.loggers then s.(loggers := s.loggers[name := s.loggers[name].(sinks := sinks)]) else s
  }

  // ----- The classes

  class Logger {
    const name: string
    var runtimeMin: LogLevel
    var sinks: Sinks

    constructor (name: string, config: Config)
      ensures this.name == name && runtimeMin == config.runtimeMin && sinks == config.sinks
    {
      this.name, runtimeMin, sinks := name, config.runtimeMin, config.sinks;
    }

    method SetRuntimeMin(level: LogLevel)
      modifies this`runtimeMin
      ensures runtimeMin == level
    {
      runtimeMin := level;
    }

    method SetSinks(sinks: Sinks)
      modifies this`sinks
      ensures this.sinks == sinks
    {
      this.sinks := sinks;
    }
  }

  class LoggerRegistry {
    var loggers: map<string, Logger>
    var defaultSinks: Sinks
    var defaultRuntimeMin: LogLevel
    var rules: seq<Rule>

    /** No two rules share a prefix, and every logger is registered under its own name only. */
    ghost predicate Valid()
      reads this
    {
      UniquePrefixes(rules) && forall name :: name in loggers ==> loggers[name].name == name
    }

    ghost function Contents(): State
      reads this, loggers.Values
    {
      State(TableOf(rules), Config(defaultRuntimeMin, defaultSinks),
            map name | name in loggers :: Config(loggers[name].runtimeMin, loggers[name].sinks))
    }

    constructor ()
      ensures Valid() && Contents() == State(map[], Config(Info, []), map[])
    {
      loggers, rules, defaultSinks, defaultRuntimeMin := map[], [], [], Info;
    }

    /** One pass over the rules, in whatever order they are, finds the rule of the longest matching prefix. */
    method ComputeEffectiveConfigLocked(name: string) returns (config: Config)
      requires Valid()
      ensures config == Effective(TableOf(rules), Config(defaultRuntimeMin, defaultSinks), name)
      ensures Says(rules, Config(defaultRuntimeMin, defaultSinks), name, config)
    {
      config := Config(defaultRuntimeMin, defaultSinks);
      var bestRule := None;
      var i := 0;
      while i < |rules|
        invariant i <= |rules|
        invariant bestRule.None? ==> forall j :: 0 <= j < i ==> !Matches(name, rules[j].prefix)
        invariant bestRule.Some? ==>
          && bestRule.value in rules && Matches(name, bestRule.value.prefix)
          && forall j :: 0 <= j < i && Matches(name, rules[j].prefix) ==> |rules[j].prefix| <= |bestRule.value.prefix|
      {
        var rule := rules[i];
        if Matches(name, rule.prefix) && (bestRule.None? || |rule.prefix| > |bestRule.value.prefix|) {
          bestRule := Some(rule);
        }
        i := i + 1;
      }
      BestIsLookup(rules, name, bestRule);
      if bestRule.Some? {
        if bestRule.value.runtimeMin.Some? {
          config := config.(runtimeMin := bestRule.value.runtimeMin.value);
        }
        if bestRule.value.sinks.Some? {
          config := config.(sinks := bestRule.value.sinks.value);
        }
      }
      EffectiveExactly(rules, Config(defaultRuntimeMin, defaultSinks), name, config);
    }

    method ApplyConfigUpdatesLocked()
      requires Valid()
      modifies loggers.Values
      ensures Contents() == Refreshed(old(Contents()))
    {
      var names := loggers.Keys;
      while names != {}
        invariant names <= loggers.Keys
        invariant forall n :: n in loggers && n !in names ==>
          Config(loggers[n].runtimeMin, loggers[n].sinks)
          == Effective(TableOf(rules), Config(defaultRuntimeMin, defaultSinks), n)
        decreases |names|
      {
        var name :| name in names;
        var config := ComputeEffectiveConfigLocked(name);
        loggers[name].SetRuntimeMin(config.runtimeMin);
        loggers[name].SetSinks(config.sinks);
        names := names - {name};
      }
    }

    method UpsertRule(rule: Rule)
      requires Valid()
      modifies this`rules, loggers.Values
      ensures Valid() && Contents() == Apply(old(Contents()), Op.UpsertRule(rule))
    {
      var i := 0;
      while i < |rules|
        invariant i <= |rules| && rules == old(rules)
        invariant forall j :: 0 <= j < i ==> rules[j].prefix != rule.prefix
      {
        if rules[i].prefix == rule.prefix {
          ReplacedRule(rules, i, rule);
          rules := rules[i := rule];
          ApplyConfigUpdatesLocked();
          return;
        }
        i := i + 1;
      }
      AddedRule(rules, rule);
      rules := rules + [rule];
      ApplyConfigUpdatesLocked();
    }

    method RemoveRule(prefix: string)
      requires Valid()
      modifies this`rules, loggers.Values
      ensures Valid() && Contents() == Apply(old(Contents()), Op.RemoveRule(prefix))
    {
      rules := WithoutPrefix(rules, prefix);
      ApplyConfigUpdatesLocked();
    }

    method SetDefaultRuntimeMin(level: LogLevel)
      requires Valid()
      modifies this`defaultRuntimeMin, loggers.Values
      ensures Valid() && Contents() == Apply(old(Contents()), Op.SetDefaultRuntimeMin(level))
    {
      defaultRuntimeMin := level;
      ApplyConfigUpdatesLocked();
    }

    method SetDefaultSinks(sinks: Sinks)
      requires Valid()
      modifies this`defaultSinks, loggers.Values
      ensures Valid() && Contents() == Apply(old(Contents()), Op.SetDefaultSinks(sinks))
    {
      defaultSinks := sinks;
      ApplyConfigUpdatesLocked();
    }

    method Register(name: string, config: Config) returns (logger: Logger)
      requires Valid() && name !in loggers
      modifies this`loggers
      ensures Valid() && fresh(logger) && loggers == old(loggers)[name := logger]
      ensures Contents() == var s := old(Contents()); s.(loggers := s.loggers[name := config])
    {
      logger := new Logger(name, config);
      ghost var before := Contents().loggers;
      loggers := loggers[name := logger];
      assert Contents().loggers == before[name := config];
    }

    /** Asking twice for a name gives the same logger. */
    method GetOrCreate(name: string, requested: LogLevel) returns (logger: Logger)
      requires Valid()
      modifies this`loggers
      ensures Valid() && Contents() == Apply(old(Contents()), Op.GetOrCreate(name, requested))
      ensures loggers == old(loggers)[name := logger]
      ensures name in old(loggers) ==> logger == old(loggers)[name]
      ensures name !in old(loggers) ==> fresh(logger)
    {
      if name in loggers {
        return loggers[name];
      }
      var config := ComputeEffectiveConfigLocked(name);
      if config.runtimeMin == defaultRuntimeMin && requested != Info {
        config := config.(runtimeMin := requested);
      }
      logger := Register(name, config);
    }

    method SetLoggerRuntimeMin(name: string, level: LogLevel)
      requires Valid()
      modifies loggers.Values
      ensures Valid() && Contents() == Apply(old(Contents()), Op.SetLoggerRuntimeMin(name, level))
    {
      if name in loggers {
        loggers[name].SetRuntimeMin(level);
      }
    }

    method ReplaceLoggerSinks(name: string, sinks: Sinks)
      requires Valid()
      modifies loggers.Values
      ensures Valid() && Contents() == Apply(old(Contents()), Op.ReplaceLoggerSinks(name, sinks))
    {
      if name in loggers {
        loggers[name].SetSinks(sinks);
      }
    }
  }

  /** These are some rules, but for those with a given prefix. */
  ghost predicate KeptOf(kept: seq<Rule>, rules: seq<Rule>, prefix: string) {
    && UniquePrefixes(kept)
    && (forall r :: r in kept ==> r in rules)
    && TableOf(kept) == TableOf(rules) - {prefix}
  }

  lemma PrefixIsNew(rules: seq<Rule>, i: nat)
    requires UniquePrefixes(rules) && i < |rules|
    ensures rules[..i + 1] == rules[..i] + [rules[i]] && UniquePrefixes(rules[..i])
    ensures forall r :: r in rules[..i] ==> r.prefix != rules[i].prefix
  {
  }

  lemma SkipsOne(kept: seq<Rule>, rules: seq<Rule>, rule: Rule)
    requires KeptOf(kept, rules, rule.prefix)
    ensures KeptOf(kept, rules + [rule], rule.prefix)
  {
    assert (rules + [rule])[..|rules|] == rules;
    assert TableOf(rules)[rule.prefix := rule] - {rule.prefix} == TableOf(rules) - {rule.prefix};
  }

  lemma KeepsOne(kept: seq<Rule>, rules: seq<Rule>, rule: Rule, prefix: string)
    requires KeptOf(kept, rules, prefix) && rule.prefix != prefix
    requires forall r :: r in rules ==> r.prefix != rule.prefix
    ensures KeptOf(kept + [rule], rules + [rule], prefix)
  {
    assert (rules + [rule])[..|rules|] == rules && (kept + [rule])[..|kept|] == kept;
    forall j | 0 <= j < |kept| ensures kept[j].prefix != rule.prefix { assert kept[j] in rules; }
    assert UniquePrefixes(kept + [rule]);
    assert TableOf(rules)[rule.prefix := rule] - {prefix} == (TableOf(rules) - {prefix})[rule.prefix := rule];
  }

  lemma KeepsOneMore(kept: seq<Rule>, rules: seq<Rule>, i: nat, prefix: string)
    requires UniquePrefixes(rules) && i < |rules| && KeptOf(kept, rules[..i], prefix)
    ensures KeptOf(if rules[i].prefix != prefix then kept + [rules[i]] else kept, rules[..i + 1], prefix)
  {
    PrefixIsNew(rules, i);
    if rules[i].prefix != prefix {
      KeepsOne(kept, rules[..i], rules[i], prefix);
    } else {
      SkipsOne(kept, rules[..i], rules[i]);
    }
  }

  /** The rules that a removal keeps, in their order. */
  method WithoutPrefix(rules: seq<Rule>, prefix: string) returns (kept: seq<Rule>)
    requires UniquePrefixes(rules)
    ensures UniquePrefixes(kept) && TableOf(kept) == TableOf(rules) - {prefix}
  {
    kept := [];
    var i := 0;
    while i < |rules|
      invariant i <= |rules| && KeptOf(kept, rules[..i], prefix)
    {
      KeepsOneMore(kept, rules, i, prefix);
      if rules[i].prefix != prefix {
        kept := kept + [rules[i]];
      }
      i := i + 1;
    }
    assert rules[..i] == rules;
  }

  lemma BestIsLookup(rules: seq<Rule>, name: string, best: Option<Rule>)
    requires UniquePrefixes(rules)
    requires best.None? ==> forall j :: 0 <= j < |rules| ==> !Matches(name, rules[j].prefix)
    requires best.Some? ==>
      && best.value in rules && Matches(name, best.value.prefix)
      && forall j :: 0 <= j < |rules| && Matches(name, rules[j].prefix) ==> |rules[j].prefix| <= |best.value.prefix|
    ensures Lookup(TableOf(rules), name, |name|) == best
  {
    TableHoldsTheRules(rules);
    forall p | p in TableOf(rules) ensures exists j :: 0 <= j < |rules| && rules[j].prefix == p {
      var j :| 0 <= j < |rules| && rules[j] == TableOf(rules)[p];
    }
    if best.None? {
      LookupNone(TableOf(rules), name, |name|);
    } else {
      MatchesAtBoundary(name, best.value.prefix);
      LookupSome(TableOf(rules), name, |name|, best.value.prefix);
    }
  }

  /** No rule that matches the name has a longer prefix. */
  ghost predicate Closest(table: map<string, Rule>, name: string, p: string) {
    p in table && Matches(name, p) && forall q :: q in table && Matches(name, q) ==> |q| <= |p|
  }

  /** The level and the sinks that a rule names, and the default ones where it names none. */
  ghost predicate Follows(config: Config, rule: Rule, defaults: Config) {
    && (rule.runtimeMin.Some? ==> config.runtimeMin == rule.runtimeMin.value)
    && (rule.runtimeMin.None? ==> config.runtimeMin == defaults.runtimeMin)
    && (rule.sinks.Some? ==> config.sinks == rule.sinks.value)
    && (rule.sinks.None? ==> config.sinks == defaults.sinks)
  }

  /** What the rules say about a name: the closest one decides, and without one the defaults stand. */
  ghost predicate Says(rules: seq<Rule>, defaults: Config, name: string, config: Config) {
    && (forall r :: Decides(rules, name, r) ==> Follows(config, r, defaults))
    && ((forall r :: r in rules ==> !Matches(name, r.prefix)) ==> config == defaults)
  }

  ghost predicate Decides(rules: seq<Rule>, name: string, r: Rule) {
    r in rules && Matches(name, r.prefix)
    && forall q :: q in rules && Matches(name, q.prefix) ==> |q.prefix| <= |r.prefix|
  }

  lemma ClosestDecides(table: map<string, Rule>, defaults: Config, name: string, p: string)
    requires Closest(table, name, p)
    ensures Follows(Effective(table, defaults, name), table[p], defaults)
  {
    MatchesAtBoundary(name, p);
    LookupSome(table, name, |name|, p);
  }

  lemma {:induction false} ClosestUpTo(rules: seq<Rule>, name: string, n: nat) returns (best: Option<Rule>)
    requires n <= |rules|
    ensures best.None? ==> forall j :: 0 <= j < n ==> !Matches(name, rules[j].prefix)
    ensures best.Some? ==>
      && best.value in rules && Matches(name, best.value.prefix)
      && forall j :: 0 <= j < n && Matches(name, rules[j].prefix) ==> |rules[j].prefix| <= |best.value.prefix|
  {
    best := None;
    if n > 0 {
      best := ClosestUpTo(rules, name, n - 1);
      var r := rules[n - 1];
      if Matches(name, r.prefix) && (best.None? || |r.prefix| > |best.value.prefix|) { best := Some(r); }
    }
  }

  /** In a list of rules with different prefixes, a configuration is the effective one of a name if and only if
      it is what the rules say: each setting is that of the matching rule with the longest prefix, if it has
      one, and otherwise the default. */
  lemma {:induction false} EffectiveExactly(rules: seq<Rule>, defaults: Config, name: string, config: Config)
    requires UniquePrefixes(rules)
    ensures config == Effective(TableOf(rules), defaults, name) <==> Says(rules, defaults, name, config)
  {
    var best := ClosestUpTo(rules, name, |rules|);
    BestIsLookup(rules, name, best);
    if best.None? {
      assert forall r :: r in rules ==> !Matches(name, r.prefix);
    } else {
      assert Decides(rules, name, best.value);
      forall r | Decides(rules, name, r) ensures r == best.value {
        EqualLengthsAreEqual(name, r.prefix, best.value.prefix);
      }
    }
  }

  // ----- Whole runs

  function Run(ops: seq<Op>): State {
    if ops == [] then State(map[], Config(Info, []), map[])
    else Apply(Run(ops[..|ops| - 1]), ops[|ops| - 1])
  }

  /** Operations that change the rules or the defaults. */
  predicate IsChange(op: Op) {
    op.UpsertRule? || op.RemoveRule? || op.SetDefaultRuntimeMin? || op.SetDefaultSinks?
  }

  ghost predicate InSync(s: State, name: string) {
    name in s.loggers ==> s.loggers[name] == Effective(s.table, s.defaults, name)
  }

  /** A new logger follows its rules unless another level than Info is asked for, its effective level is the
      default one, whether by default or by a rule that names it, and the two differ. */
  lemma NewLoggerFollowsRules(s: State, name: string, requested: LogLevel)
    requires name !in s.loggers
    ensures InSync(Apply(s, GetOrCreate(name, requested)), name) <==>
              || requested == Info
              || Effective(s.table, s.defaults, name).runtimeMin != s.defaults.runtimeMin
              || requested == s.defaults.runtimeMin
  {
    var after := Apply(s, GetOrCreate(name, requested));
    assert after.loggers[name] == Created(s, name, requested);
  }

  /** A rule that names the default level does not hold against the level asked for. */
  lemma RuleGivesWay()
    ensures var s := Run([UpsertRule(Rule("net", Some(Info), None)), GetOrCreate("net.http", Debug)]);
      && "net" in s.table && s.table["net"].runtimeMin == Some(Info)
      && Effective(s.table, s.defaults, "net.http").runtimeMin == Info
      && "net.http" in s.loggers && s.loggers["net.http"].runtimeMin == Debug
  {
    var upsert, create := UpsertRule(Rule("net", Some(Info), None)), GetOrCreate("net.http", Debug);
    OneMoreOp([], upsert);
    OneMoreOp([upsert], create);
    assert [] + [upsert] == [upsert] && [upsert] + [create] == [upsert, create];
    LookupSome(Run([upsert]).table, "net.http", 8, "net");
  }

  lemma OneMoreOp(ops: seq<Op>, op: Op)
    ensures Run(ops + [op]) == Apply(Run(ops), op)
  {
    assert (ops + [op])[..|ops|] == ops;
  }

  /** Operations that give one logger a level or sinks other than those its rules give it. */
  predicate Overrides(s: State, op: Op, name: string) {
    var config := Effective(s.table, s.defaults, name);
    match op
    case SetLoggerRuntimeMin(n, level) => n == name && name in s.loggers && level != config.runtimeMin
    case ReplaceLoggerSinks(n, sinks) => n == name && name in s.loggers && sinks != config.sinks
    case GetOrCreate(n, requested) =>
      n == name && name !in s.loggers && requested != Info
      && config.runtimeMin == s.defaults.runtimeMin && requested != s.defaults.runtimeMin
    case _ => false
  }

  /** Exactly these operations take a logger away from its rules. */
  lemma OnlyOverridesBreak(s: State, op: Op, name: string)
    requires InSync(s, name)
    ensures InSync(Apply(s, op), name) <==> !Overrides(s, op, name)
  {
    match op {
      case UpsertRule(_) => case RemoveRule(_) => case SetDefaultRuntimeMin(_) => case SetDefaultSinks(_) =>
      case SetLoggerRuntimeMin(_, _) => case ReplaceLoggerSinks(_, _) =>
      case GetOrCreate(n, requested) =>
        if n == name && name !in s.loggers { NewLoggerFollowsRules(s, name, requested); }
    }
  }

  /** How many operations there were up to the last change of rules or defaults. */
  function LastChange(ops: seq<Op>): (n: nat)
    ensures n <= |ops|
  {
    if ops == [] then 0
    else if IsChange(ops[|ops| - 1]) then |ops|
    else LastChange(ops[..|ops| - 1])
  }

  ghost predicate OverriddenSince(ops: seq<Op>, name: string) {
    exists i :: LastChange(ops) <= i < |ops| && Overrides(Run(ops[..i]), ops[i], name)
  }

  /** After any run a registered logger has the level and sinks that the longest matching prefix gives it,
      unless it was given others since the last change of rules or defaults. A change reaches every logger. */
  lemma {:induction false} LoggersFollowTheRules(ops: seq<Op>, name: string)
    requires !OverriddenSince(ops, name)
    ensures InSync(Run(ops), name)
  {
    if ops != [] && !IsChange(ops[|ops| - 1]) {
      var before := ops[..|ops| - 1];
      forall i | LastChange(before) <= i < |before| ensures !Overrides(Run(before[..i]), before[i], name) {
        assert before[..i] == ops[..i] && !Overrides(Run(ops[..i]), ops[i], name);
      }
      LoggersFollowTheRules(before, name);
      assert !Overrides(Run(before), ops[|ops| - 1], name);
      OnlyOverridesBreak(Run(before), ops[|ops| - 1], name);
    }
  }

  // ----- What a logger has exactly

  /** The level a logger has of its own: the last it was given since the last change, by a call or at birth. */
  function OwnLevel(ops: seq<Op>, name: string): Option<LogLevel> {
    if ops == [] || IsChange(ops[|ops| - 1]) then None
    else
      var s, op := Run(ops[..|ops| - 1]), ops[|ops| - 1];
      if op.SetLoggerRuntimeMin? && op.name == name && name in s.loggers then Some(op.level)
      else if op.GetOrCreate? && op.name == name && name !in s.loggers && op.requested != Info
              && Effective(s.table, s.defaults, name).runtimeMin == s.defaults.runtimeMin then Some(op.requested)
      else OwnLevel(ops[..|ops| - 1], name)
  }

  function OwnSinks(ops: seq<Op>, name: string): Option<Sinks> {
    if ops == [] || IsChange(ops[|ops| - 1]) then None
    else
      var s, op := Run(ops[..|ops| - 1]), ops[|ops| - 1];
      if op.ReplaceLoggerSinks? && op.name == name && name in s.loggers then Some(op.sinks)
      else OwnSinks(ops[..|ops| - 1], name)
  }

  function Overlaid(config: Config, level: Option<LogLevel>, sinks: Option<Sinks>): Config {
    Config(if level.Some? then level.value else config.runtimeMin, if sinks.Some? then sinks.value else config.sinks)
  }

  /** After any run a registered logger has exactly what its rules give it, overlaid with what it was given
      of its own since the last change; and a name that is not registered has nothing of its own. */
  lemma {:induction false} LoggersHaveExactly(ops: seq<Op>, name: string)
    ensures var s := Run(ops);
      if name in s.loggers
      then s.loggers[name] == Overlaid(Effective(s.table, s.defaults, name), OwnLevel(ops, name), OwnSinks(ops, name))
      else OwnLevel(ops, name) == None && OwnSinks(ops, name) == None
  {
    if ops != [] {
      LoggersHaveExactly(ops[..|ops| - 1], name);
      if !IsChange(ops[|ops| - 1]) { SettingsStay(Run(ops[..|ops| - 1]), ops[|ops| - 1]); }
    }
  }

  lemma SettingsStay(s: State, op: Op)
    requires !IsChange(op)
    ensures Apply(s, op).table == s.table && Apply(s, op).defaults == s.defaults
  {
  }

  /** The rule in force for a prefix: the one last given for it, unless it was removed since. */
  function RuleFor(ops: seq<Op>, prefix: string): Option<Rule> {
    if ops == [] then None
    else
      var op := ops[|ops| - 1];
      if op.UpsertRule? && op.rule.prefix == prefix then Some(op.rule)
      else if op.RemoveRule? && op.prefix == prefix then None
      else RuleFor(ops[..|ops| - 1], prefix)
  }

  lemma {:induction false} TableIsHistory(ops: seq<Op>, prefix: string)
    ensures prefix in Run(ops).table <==> RuleFor(ops, prefix).Some?
    ensures prefix in Run(ops).table ==> Some(Run(ops).table[prefix]) == RuleFor(ops, prefix)
  {
    if ops != [] { TableIsHistory(ops[..|ops| - 1], prefix); }
  }

  /** The default level in force: the one last set, and Info at first. */
  function DefaultLevel(ops: seq<Op>): LogLevel {
    if ops == [] then Info
    else if ops[|ops| - 1].SetDefaultRuntimeMin? then ops[|ops| - 1].level
    else DefaultLevel(ops[..|ops| - 1])
  }

  /** The default sinks in force: those last set, and none at first. */
  function DefaultSinks(ops: seq<Op>): Sinks {
    if ops == [] then []
    else if ops[|ops| - 1].SetDefaultSinks? then ops[|ops| - 1].sinks
    else DefaultSinks(ops[..|ops| - 1])
  }

  lemma {:induction false} DefaultsAreHistory(ops: seq<Op>)
    ensures Run(ops).defaults == Config(DefaultLevel(ops), DefaultSinks(ops))
  {
    if ops != [] { DefaultsAreHistory(ops[..|ops| - 1]); }
  }

  /** What a logger has after any operations, in terms of the operations alone: if it was given nothing of its
      own since the last change, and the rule in force for the longest of its prefixes that has one is r, it
      has r's level and sinks, or the default ones in force where r names none. */
  lemma {:induction false} LoggerFollowsHistory(ops: seq<Op>, name: string, p: string)
    requires name in Run(ops).loggers && !OverriddenSince(ops, name)
    requires Matches(name, p) && RuleFor(ops, p).Some?
    requires forall q :: Matches(name, q) && RuleFor(ops, q).Some? ==> |q| <= |p|
    ensures Follows(Run(ops).loggers[name], RuleFor(ops, p).value, Config(DefaultLevel(ops), DefaultSinks(ops)))
  {
    var s := Run(ops);
    LoggersFollowTheRules(ops, name);
    DefaultsAreHistory(ops);
    TableIsHistory(ops, p);
    forall q | q in s.table && Matches(name, q) ensures |q| <= |p| {
      TableIsHistory(ops, q);
    }
    ClosestDecides(s.table, s.defaults, name, p);
  }

  lemma UnderOneRule(rule: Rule, defaults: Config, name: string)
    ensures var config := Effective(map[][rule.prefix := rule], defaults, name);
      if Matches(name, rule.prefix) then Follows(config, rule, defaults) else config == defaults
  {
    var table := map[][rule.prefix := rule];
    if Matches(name, rule.prefix) {
      ClosestDecides(table, defaults, name, rule.prefix);
    } else {
      LookupNone(table, name, |name|);
    }
  }

  lemma FirstTwo(a: Op, b: Op)
    ensures Run([a, b]) == Apply(Apply(Run([]), a), b)
  {
    OneMoreOp([], a);
    OneMoreOp([a], b);
    assert [] + [a] == [a] && [a] + [b] == [a, b];
  }

  /** A rule reaches a logger that exists already and one that is created later, and no logger that it does
      not match. */
  lemma RuleReachesLoggers(rule: Rule, name: string)
    requires rule.runtimeMin.Some? && rule.sinks.Some?
    ensures var config := if Matches(name, rule.prefix) then Config(rule.runtimeMin.value, rule.sinks.value)
                          else Config(Info, []);
      && Run([GetOrCreate(name, Info), UpsertRule(rule)]).loggers == map[name := config]
      && Run([UpsertRule(rule), GetOrCreate(name, Info)]).loggers == map[name := config]
  {
    FirstTwo(GetOrCreate(name, Info), UpsertRule(rule));
    FirstTwo(UpsertRule(rule), GetOrCreate(name, Info));
    UnderOneRule(rule, Config(Info, []), name);
    assert Run([]).loggers == map[];
  }

  /** A logger under "net" has the level and the sinks of the rule for "net", and "network" is not under it. */
  lemma NetRule()
    ensures var rule := Rule("net", Some(Debug), Some([1]));
      && Run([GetOrCreate("net.http", Info), UpsertRule(rule)]).loggers == map["net.http" := Config(Debug, [1])]
      && Run([UpsertRule(rule), GetOrCreate("net.http", Info)]).loggers == map["net.http" := Config(Debug, [1])]
      && Run([UpsertRule(rule), GetOrCreate("network", Info)]).loggers == map["network" := Config(Info, [])]
  {
    RuleReachesLoggers(Rule("net", Some(Debug), Some([1])), "net.http");
    RuleReachesLoggers(Rule("net", Some(Debug), Some([1])), "network");
  }
}
