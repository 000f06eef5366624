/**
 Match rules of HyperRoutes: what they mean, how the operator writes them into an engine config
 (hyper-operator/internal/routes/routes.go) and how the engine compiles them
 (internal/config/parser.go, internal/config/routing.go).
 */
module RouteRules {
  import opened Basics
  import opened Text
  import opened Selectors
  import opened Router

  /** One match of a HyperRoute. */
  datatype MatchRule = MatchRule(
    traffic: TrafficField, sources: seq<Written>, destinations: seq<Written>,
    pathPrefix: string, pathRegexPattern: string, headers: map<string, string>)

  datatype HeaderText = HeaderText(exact: string, regexPattern: string)

  /** One match as it stands in an engine config. */
  datatype RawMatch = RawMatch(
    traffic: TrafficField, sources: seq<Written>, destinations: seq<Written>,
    pathPrefix: string, pathRegexPattern: string, headers: map<string, HeaderText>)

  /*** What a rule means ***/

  predicate RuleTraffic(field: TrafficField, traffic: Traffic) {
    field == Omitted || field == Class(AnyTraffic) || field == Class(traffic)
  }

  predicate HeaderWanted(exact: string, value: string) {
    exact == "*" || exact == "" || exact == value
  }

  /** Every listed header is there, whatever the case of its name, with the listed value. */
  predicate RuleHeaders(rules: map<string, string>, headers: map<string, string>) {
    forall k | k in rules :: Lower(k) in headers && HeaderWanted(rules[k], headers[Lower(k)])
  }

  /** The path, taking an empty pattern as none. */
  predicate RulePath(lib: Library, prefix: string, pattern: string, path: string) {
    prefix <= path && (pattern != "" ==> lib.matches(pattern, path))
  }

  /** A caller without a workload is external, unless the call is known to come from inside. */
  ghost predicate RuleSource(list: seq<Written>, call: Call)
    requires forall w | w in list :: w.Written?
  {
    list == [] ||
    SomeSource(SelectorsOf(list), call.clientAddr, call.source, call.source == None && call.traffic != EastWest)
  }

  ghost predicate RuleDestination(list: seq<Written>, call: Call)
    requires forall w | w in list :: w.Written?
  {
    list == [] || SomeDestination(SelectorsOf(list), call.destinationAddr, call.host, call.destinationServices)
  }

  /** The rule matches the request, trying its selectors one by one. */
  ghost predicate RuleMatches(lib: Library, rule: MatchRule, call: Call)
    requires (forall w | w in rule.sources :: w.Written?) && forall w | w in rule.destinations :: w.Written?
  {
    && RuleTraffic(rule.traffic, call.traffic) && RulePath(lib, rule.pathPrefix, rule.pathRegexPattern, call.path)
    && RuleSource(rule.sources, call) && RuleDestination(rule.destinations, call)
    && RuleHeaders(rule.headers, call.headers)
  }

  ghost predicate ValidRule(lib: Library, rule: MatchRule, workloads: bool) {
    && !rule.traffic.Unrecognised?
    && (forall w | w in rule.sources :: Accepted(w, Source, workloads))
    && (forall w | w in rule.destinations :: Accepted(w, Destination, workloads))
    && (rule.pathRegexPattern != "" ==> lib.valid(rule.pathRegexPattern))
  }

  /*** Header names ***/

  /** `lowered` has the lower-cased names, each with the value of one of the names it stands for. */
  ghost predicate IsLowered<V(!new)>(headers: map<string, V>, lowered: map<string, V>) {
    && (forall k | k in headers :: Lower(k) in lowered)
    && (forall j | j in lowered :: exists k | k in headers :: Lower(k) == j && headers[k] == lowered[j])
  }

  method LowerNames<V(!new)>(headers: map<string, V>) returns (lowered: map<string, V>)
    ensures IsLowered(headers, lowered)
  {
    hide Lower;
    lowered := map[];
    var todo := headers.Keys;
    while todo != {}
      invariant todo <= headers.Keys
      invariant forall k | k in headers && k !in todo :: Lower(k) in lowered
      invariant forall j | j in lowered :: exists k | k in headers :: Lower(k) == j && headers[k] == lowered[j]
    {
      var k :| k in todo;
      todo := todo - {k};
      ghost var before := lowered;
      lowered := lowered[Lower(k) := headers[k]];
      forall j | j in lowered ensures exists i | i in headers :: Lower(i) == j && headers[i] == lowered[j] {
        if j == Lower(k) {
          assert k in headers && Lower(k) == j && headers[k] == lowered[j];
        } else {
          assert j in before && lowered[j] == before[j];
        }
      }
    }
  }

  /** Lowering names that are lower-case already changes nothing. */
  lemma LoweringAgain<V(!new)>(headers: map<string, V>, lowered: map<string, V>)
    requires IsLowered(headers, lowered) && forall k | k in headers :: IsLower(k)
    ensures lowered == headers
  {
    forall k | k in headers ensures k in lowered && lowered[k] == headers[k] {
      assert Lower(k) == k;
    }
    forall j | j in lowered ensures j in headers {
      var k :| k in headers && Lower(k) == j && headers[k] == lowered[j];
      assert Lower(k) == k;
    }
  }

  lemma LoweredIsLower<V(!new)>(headers: map<string, V>, lowered: map<string, V>)
    requires IsLowered(headers, lowered)
    ensures forall j | j in lowered :: IsLower(j)
  {
    forall j | j in lowered ensures IsLower(j) {
      var k :| k in headers && Lower(k) == j && headers[k] == lowered[j];
      LowerIsLower(k);
    }
  }

  /** What a listed value asks for: `*` asks for no more than presence. */
  function Wanted(exact: string): string {
    if exact == "*" then "" else exact
  }

  /** Names that differ only in case ask for the same. */
  ghost predicate NamesAgree(rules: map<string, string>) {
    forall k, l | k in rules && l in rules && Lower(k) == Lower(l) :: Wanted(rules[k]) == Wanted(rules[l])
  }

  ghost predicate LoweredHeaders(lowered: map<string, string>, headers: map<string, string>) {
    forall j | j in lowered :: j in headers && HeaderWanted(lowered[j], headers[j])
  }

  /** Folding names never loses a request the rule matches. */
  lemma LoweringWidens(rules: map<string, string>, lowered: map<string, string>, headers: map<string, string>)
    requires IsLowered(rules, lowered) && RuleHeaders(rules, headers)
    ensures LoweredHeaders(lowered, headers)
  {
    hide Lower;
    forall j | j in lowered ensures j in headers && HeaderWanted(lowered[j], headers[j]) {
      var k :| k in rules && Lower(k) == j && rules[k] == lowered[j];
    }
  }

  /** If names that collide ask for the same, folding them changes nothing. */
  lemma LoweringKeepsMeaning(rules: map<string, string>, lowered: map<string, string>, headers: map<string, string>)
    requires IsLowered(rules, lowered) && NamesAgree(rules)
    ensures LoweredHeaders(lowered, headers) <==> RuleHeaders(rules, headers)
  {
    hide Lower;
    if RuleHeaders(rules, headers) {
      LoweringWidens(rules, lowered, headers);
    }
    if LoweredHeaders(lowered, headers) {
      forall k | k in rules ensures Lower(k) in headers && HeaderWanted(rules[k], headers[Lower(k)]) {
        var j := Lower(k);
        var l :| l in rules && Lower(l) == j && rules[l] == lowered[j];
        assert Wanted(rules[k]) == Wanted(rules[l]);
      }
    }
  }

  ghost function FoldedNames(rules: map<string, string>): set<string> {
    set l | l in rules :: Lower(l)
  }

  /** A choice, for every lower-cased name, of one name it stands for; `k` is chosen for its own. */
  ghost function Choice(rules: map<string, string>, k: string): map<string, string>
    requires k in rules
  {
    map j | j in FoldedNames(rules) ::
      if j == Lower(k) then rules[k] else var l :| l in rules && Lower(l) == j; rules[l]
  }

  lemma ChoiceIsLowered(rules: map<string, string>, k: string)
    requires k in rules
    ensures IsLowered(rules, Choice(rules, k)) && Choice(rules, k)[Lower(k)] == rules[k]
  {
    hide Lower;
    var lowered := Choice(rules, k);
    forall j | j in lowered ensures exists l | l in rules :: Lower(l) == j && rules[l] == lowered[j] {
      if j == Lower(k) {
        assert k in rules && Lower(k) == j && rules[k] == lowered[j];
      } else {
        var l :| l in rules && Lower(l) == j;
      }
    }
  }

  /** A value that `kept` accepts and `lost` does not. */
  function Separating(kept: string, lost: string): (value: string)
    requires Wanted(kept) != Wanted(lost) && Wanted(lost) != ""
    ensures HeaderWanted(kept, value) && !HeaderWanted(lost, value)
  {
    if Wanted(kept) == "" then
      var value := lost + "x";
      assert |value| != |lost|;
      value
    else kept
  }

  /** Keeping the value of one of two colliding names can match a request the other name excludes. */
  lemma KeptHidesLost(rules: map<string, string>, kept: string, lost: string)
      returns (lowered: map<string, string>, headers: map<string, string>)
    requires kept in rules && lost in rules && Lower(kept) == Lower(lost)
    requires Wanted(rules[kept]) != Wanted(rules[lost]) && Wanted(rules[lost]) != ""
    ensures IsLowered(rules, lowered) && LoweredHeaders(lowered, headers) && !RuleHeaders(rules, headers)
  {
    hide Lower, Choice, Wanted, HeaderWanted;
    ChoiceIsLowered(rules, kept);
    lowered := Choice(rules, kept);
    var value := Separating(rules[kept], rules[lost]);
    headers := lowered[Lower(kept) := value];
    forall j | j in lowered ensures j in headers && HeaderWanted(lowered[j], headers[j]) {
      Reflexive(lowered[j]);
    }
    assert Lower(lost) in headers && headers[Lower(lost)] == value;
  }

  lemma Reflexive(exact: string)
    ensures HeaderWanted(exact, exact)
  {
  }

  /** If colliding names ask for different values, some way to fold them matches a request the rule does not. */
  lemma CollidingNamesWiden(rules: map<string, string>)
      returns (lowered: map<string, string>, headers: map<string, string>)
    requires !NamesAgree(rules)
    ensures IsLowered(rules, lowered) && LoweredHeaders(lowered, headers) && !RuleHeaders(rules, headers)
  {
    hide Lower, IsLowered, LoweredHeaders, RuleHeaders;
    var a, b :| a in rules && b in rules && Lower(a) == Lower(b) && Wanted(rules[a]) != Wanted(rules[b]);
    if Wanted(rules[b]) != "" {
      lowered, headers := KeptHidesLost(rules, a, b);
    } else {
      lowered, headers := KeptHidesLost(rules, b, a);
    }
  }

  /*** The operator writes ***/

  function EngineTraffic(t: TrafficField): Option<TrafficField> {
    match t
    case Omitted => Some(Omitted)
    case Class(c) => Some(if c == AnyTraffic then Omitted else t)
    case Unrecognised => None
  }

  function Exactly(lowered: map<string, string>): map<string, HeaderText> {
    map k | k in lowered :: HeaderText(lowered[k], "")
  }

  ghost predicate IsWritten(rule: MatchRule, raw: RawMatch, lowered: map<string, string>) {
    && EngineTraffic(rule.traffic) == Some(raw.traffic)
    && raw.sources == rule.sources && raw.destinations == rule.destinations
    && raw.pathPrefix == rule.pathPrefix && raw.pathRegexPattern == rule.pathRegexPattern
    && IsLowered(rule.headers, lowered) && raw.headers == Exactly(lowered)
  }

  /** A rule is written out exactly when it is valid. */
  method CompileMatch(lib: Library, rule: MatchRule, workloads: bool)
      returns (r: Option<RawMatch>, ghost lowered: map<string, string>)
    ensures r.Some? <==> ValidRule(lib, rule, workloads)
    ensures r.Some? ==> IsWritten(rule, r.value, lowered)
  {
    hide Tables, Accepted, IsLowered;
    var traffic := EngineTraffic(rule.traffic);
    var sources := Compile(rule.sources, Source, workloads);
    var destinations := Compile(rule.destinations, Destination, workloads);
    var bad := rule.pathRegexPattern != "" && !lib.valid(rule.pathRegexPattern);
    if traffic.None? || sources.Rejected? || destinations.Rejected? || bad {
      return None, map[];
    }
    var headers := LowerNames(rule.headers);
    lowered := headers;
    r := Some(RawMatch(traffic.value, rule.sources, rule.destinations, rule.pathPrefix, rule.pathRegexPattern,
                       Exactly(headers)));
  }

  /*** The engine reads ***/

  function Parsed(t: TrafficField): Option<Traffic> {
    match t
    case Omitted => Some(AnyTraffic)
    case Class(c) => Some(c)
    case Unrecognised => None
  }

  function CompiledRule(h: HeaderText): HeaderRule {
    HeaderRule(h.exact, if h.regexPattern == "" then None else Some(h.regexPattern))
  }

  ghost predicate SetFor(list: seq<Written>, s: Option<Set>) {
    && (forall w | w in list :: w.Written?)
    && (s.None? <==> list == [])
    && (s.Some? ==> Tables(s.value, SelectorsOf(list)))
  }

  ghost predicate IsRead(raw: RawMatch, m: MatchConfig, lowered: map<string, HeaderText>) {
    && m.traffic == raw.traffic && m.sources == raw.sources && m.destinations == raw.destinations
    && Parsed(raw.traffic) == Some(m.compiledTraffic)
    && SetFor(raw.sources, m.compiledSources) && SetFor(raw.destinations, m.compiledDestinations)
    && m.pathPrefix == raw.pathPrefix
    && m.compiledPathRegex == (if raw.pathRegexPattern == "" then None else Some(raw.pathRegexPattern))
    && IsLowered(raw.headers, lowered) && m.headers == map k | k in lowered :: CompiledRule(lowered[k])
  }

  ghost predicate Readable(lib: Library, raw: RawMatch, workloads: bool) {
    && !raw.traffic.Unrecognised?
    && (forall w | w in raw.sources :: Accepted(w, Source, workloads))
    && (forall w | w in raw.destinations :: Accepted(w, Destination, workloads))
    && (raw.pathRegexPattern != "" ==> lib.valid(raw.pathRegexPattern))
    && (forall k | k in raw.headers :: raw.headers[k].regexPattern != "" ==> lib.valid(raw.headers[k].regexPattern))
  }

  lemma AcceptedAreWritten(list: seq<Written>, side: Side, workloads: bool)
    requires forall w | w in list :: Accepted(w, side, workloads)
    ensures forall w | w in list :: w.Written?
  {
  }

  function SetOf(c: Compiled): Option<Set> {
    if c.Compiled? then Some(c.set') else None
  }

  /** Compiles one match of a config; anything unreadable rejects the whole config. */
  method ParseMatch(lib: Library, raw: RawMatch, workloads: bool)
      returns (r: Option<MatchConfig>, ghost lowered: map<string, HeaderText>)
    ensures Readable(lib, raw, workloads) ==> r.Some?
    ensures r.Some? ==> IsRead(raw, r.value, lowered)
    ensures r.Some? ==>
              && (forall w | w in raw.sources :: Accepted(w, Source, workloads))
              && (forall w | w in raw.destinations :: Accepted(w, Destination, workloads))
              && (raw.pathRegexPattern != "" ==> lib.valid(raw.pathRegexPattern))
              && (forall k | k in lowered :: lowered[k].regexPattern != "" ==> lib.valid(lowered[k].regexPattern))
  {
    hide Tables, Accepted, IsLowered;
    var traffic := Parsed(raw.traffic);
    if traffic.None? {
      return None, map[];
    }
    var sources := Compile(raw.sources, Source, workloads);
    if sources.Rejected? {
      return None, map[];
    }
    var destinations := Compile(raw.destinations, Destination, workloads);
    if destinations.Rejected? {
      return None, map[];
    }
    if raw.pathRegexPattern != "" && !lib.valid(raw.pathRegexPattern) {
      return None, map[];
    }
    var headers := LowerNames(raw.headers);
    lowered := headers;
    var todo := headers.Keys;
    while todo != {}
      invariant todo <= headers.Keys
      invariant forall k | k in headers && k !in todo ::
                  headers[k].regexPattern != "" ==> lib.valid(headers[k].regexPattern)
    {
      var k :| k in todo;
      todo := todo - {k};
      if headers[k].regexPattern != "" && !lib.valid(headers[k].regexPattern) {
        LoweredValue(raw.headers, headers, k);
        return None, map[];
      }
    }
    AcceptedAreWritten(raw.sources, Source, workloads);
    AcceptedAreWritten(raw.destinations, Destination, workloads);
    r := Some(MatchConfig(
                raw.traffic, raw.sources, raw.destinations, traffic.value, SetOf(sources), SetOf(destinations),
                raw.pathPrefix, if raw.pathRegexPattern == "" then None else Some(raw.pathRegexPattern),
                map k | k in headers :: CompiledRule(headers[k])));
  }

  lemma LoweredValue<V(!new)>(headers: map<string, V>, lowered: map<string, V>, j: string)
    requires IsLowered(headers, lowered) && j in lowered
    ensures exists k | k in headers :: headers[k] == lowered[j]
  {
  }

  /*** Written, then read ***/

  /** What the operator accepts, the engine accepts. */
  lemma WrittenIsReadable(lib: Library, rule: MatchRule, raw: RawMatch, lowered: map<string, string>, workloads: bool)
    requires ValidRule(lib, rule, workloads) && IsWritten(rule, raw, lowered)
    ensures Readable(lib, raw, workloads)
  {
    hide Accepted, IsLowered;
  }

  lemma ReadHeaders(lib: Library, rules: map<string, string>, lowered: map<string, string>,
                    again: map<string, HeaderText>, compiled: map<string, HeaderRule>, headers: map<string, string>)
    requires IsLowered(rules, lowered) && IsLowered(Exactly(lowered), again)
    requires compiled == map k | k in again :: CompiledRule(again[k])
    ensures HeadersMatch(lib, compiled, headers) <==> LoweredHeaders(lowered, headers)
  {
    LoweredIsLower(rules, lowered);
    LoweringAgain(Exactly(lowered), again);
    hide IsLowered;
    assert compiled.Keys == lowered.Keys;
    assert forall k | k in lowered :: compiled[k] == HeaderRule(lowered[k], None);
  }

  lemma ReadSource(list: seq<Written>, s: Option<Set>, call: Call)
    requires SetFor(list, s)
    ensures SourceMatches(s, call.clientAddr, call.source, ExternalAllowed(call)) <==> RuleSource(list, call)
  {
    hide Tables, SomeSource;
    if s.Some? {
      SourceSetIsItsList(s.value, SelectorsOf(list), call.clientAddr, call.source, ExternalAllowed(call));
    }
  }

  lemma ReadDestination(list: seq<Written>, s: Option<Set>, call: Call)
    requires SetFor(list, s)
    ensures DestinationMatches(s, call.destinationAddr, call.host, call.destinationServices)
       <==> RuleDestination(list, call)
  {
    hide Tables, SomeDestination;
    if s.Some? {
      DestinationSetIsItsList(s.value, SelectorsOf(list), call.destinationAddr, call.host, call.destinationServices);
    }
  }

  /** A compiled match matches whatever its rule matches; the converse needs header names not to collide. */
  lemma CompilationKeepsMeaning(
    lib: Library, rule: MatchRule, raw: RawMatch, lowered: map<string, string>, m: MatchConfig,
    again: map<string, HeaderText>, call: Call)
    requires IsWritten(rule, raw, lowered) && IsRead(raw, m, again)
    ensures RuleMatches(lib, rule, call) ==> EntryMatches(lib, m, call)
    ensures NamesAgree(rule.headers) ==> (EntryMatches(lib, m, call) <==> RuleMatches(lib, rule, call))
  {
    hide IsLowered, NamesAgree, SourceMatches, DestinationMatches, RuleSource, RuleDestination, HeadersMatch,
      LoweredHeaders, RuleHeaders;
    assert TrafficMatches(m, call.traffic) <==> RuleTraffic(rule.traffic, call.traffic);
    ReadSource(rule.sources, m.compiledSources, call);
    ReadDestination(rule.destinations, m.compiledDestinations, call);
    ReadHeaders(lib, rule.headers, lowered, again, m.headers, call.headers);
    if RuleHeaders(rule.headers, call.headers) {
      LoweringWidens(rule.headers, lowered, call.headers);
    }
    if NamesAgree(rule.headers) {
      LoweringKeepsMeaning(rule.headers, lowered, call.headers);
    }
  }
}
