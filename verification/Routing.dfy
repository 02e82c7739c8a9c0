/** The server configuration for all managed policies: MultiJSONConfig of
    internal/bridge/config.go and ConfigFromProfile of internal/daemon/daemon.go. */
module Routing {
  import opened Text
  import opened Ports
  import opened Lines
  import opened RoundTrip
  import opened Edits
  import opened Managed
  import Editor

  // ---------- data ----------

  /** A parsed VLESS node: whether Validate and the transport settings accept it, and the text
      of its level parameter. */
  datatype Server = Server(link: string, valid: bool, level: string, transport: bool)

  datatype PolicyConfig = PolicyConfig(name: string, server: Server, host: string, port: int)

  datatype Inbound = Inbound(tag: string, listen: string, port: int)

  datatype Outbound = Outbound(tag: string, server: Server)

  datatype Rule = Rule(inboundTags: seq<string>, outboundTag: string)

  datatype Timeouts = Timeouts(idle: int, uplinkOnly: int, downlinkOnly: int)

  datatype Config = Config(inbounds: seq<Inbound>, outbounds: seq<Outbound>, rules: seq<Rule>,
                           levels: map<string, Timeouts>)

  /** The error names the first policy that is refused. */
  datatype Result = Built(config: Config) | Empty | Refused(index: nat) | Duplicate(index: nat)

  const LEVEL_TIMEOUTS := Timeouts(3600, 10, 10)

  // ---------- one policy ----------

  /** The user level: strconv.ParseUint to 32 bits, 0 when absent */
  function Level(server: Server): Option<nat> {
    if server.level == [] then Some(0)
    else if !AllDigits(server.level) || DecimalValue(server.level) > 0xFFFF_FFFF then None
    else Some(DecimalValue(server.level))
  }

  function Host(p: PolicyConfig): string {
    if p.host == [] then LOCAL_HOST else p.host
  }

  /** policyConfigParts accepts. */
  predicate PolicyOk(p: PolicyConfig) {
    p.server.valid && IsPort(p.port) && Level(p.server).Some? && p.server.transport
  }

  // ---------- which policies are acceptable ----------

  function Zeros(k: nat): string {
    seq(k, i requires 0 <= i < k => '0')
  }

  /** The level parameter stands for this number: absent for 0, else its decimal digits, perhaps
      behind zeros. */
  ghost predicate IsLevel(text: string, n: nat) {
    n <= 4294967295 && if text == [] then n == 0 else exists k: nat | k <= |text| :: text == Zeros(k) + Itoa(n)
  }

  /** What the bridge should ask of a policy. */
  ghost predicate Acceptable(p: PolicyConfig) {
    p.server.valid && p.server.transport && 1 <= p.port <= 65535 && exists n: nat :: IsLevel(p.server.level, n)
  }

  lemma {:induction false} ZerosInFront(k: nat, s: string)
    requires AllDigits(s)
    ensures AllDigits(Zeros(k) + s) && DecimalValue(Zeros(k) + s) == DecimalValue(s)
    decreases k + |s|
  {
    var t := Zeros(k) + s;
    if s != [] {
      assert t[..|t| - 1] == Zeros(k) + s[..|s| - 1];
      ZerosInFront(k, s[..|s| - 1]);
    } else if k > 0 {
      assert t[..|t| - 1] == Zeros(k - 1) + s;
      ZerosInFront(k - 1, s);
    }
  }

  /** Digits that do not start with a zero are those of their value. */
  lemma {:induction false} DigitsOfValue(s: string)
    requires s != [] && AllDigits(s) && s[0] != '0'
    ensures DecimalValue(s) > 0 && Itoa(DecimalValue(s)) == s
  {
    var head, d := s[..|s| - 1], s[|s| - 1] as int - '0' as int;
    assert IsDigit(s[|s| - 1]) && DigitChar(d) == s[|s| - 1] && s == head + [DigitChar(d)];
    if head == [] {
      assert DecimalValue(head) == 0;
    } else {
      DigitsOfValue(head);
      assert DecimalValue(s) / 10 == DecimalValue(head) && DecimalValue(s) % 10 == d;
    }
  }

  lemma ZerosCons(k: nat)
    ensures Zeros(k + 1) == "0" + Zeros(k) && Zeros(1) == "0"
  {
  }

  lemma OneMoreZero(s: string, k: nat)
    requires s != [] && s[0] == '0' && AllDigits(s[1..]) && s[1..] == Zeros(k) + Itoa(DecimalValue(s[1..]))
    ensures AllDigits(s) && s == Zeros(k + 1) + Itoa(DecimalValue(s))
  {
    hide Itoa, DecimalValue, AllDigits, Zeros;
    ZerosCons(k);
    assert s == "0" + s[1..];
    ZerosInFront(1, s[1..]);
    var number := Itoa(DecimalValue(s));
    assert "0" + (Zeros(k) + number) == "0" + Zeros(k) + number;
  }

  lemma OneZero()
    ensures Itoa(DecimalValue("0")) == "0"
  {
    assert "0"[..0] == [];
  }

  lemma {:induction false} DigitsAreZeros(s: string) returns (k: nat)
    requires s != [] && AllDigits(s)
    ensures k <= |s| && s == Zeros(k) + Itoa(DecimalValue(s))
  {
    hide Itoa, DecimalValue;
    if s[0] != '0' {
      DigitsOfValue(s);
      k := 0;
    } else if |s| == 1 {
      assert s == "0";
      OneZero();
      k := 0;
    } else {
      k := DigitsAreZeros(s[1..]);
      OneMoreZero(s, k);
      k := k + 1;
    }
  }

  lemma LevelMeans(server: Server, n: nat)
    ensures Level(server) == Some(n) <==> IsLevel(server.level, n)
  {
    var text := server.level;
    if text != [] {
      hide Itoa;
      if AllDigits(text) {
        var k := DigitsAreZeros(text);
      }
      if k: nat :| k <= |text| && text == Zeros(k) + Itoa(n) {
        ZerosInFront(k, Itoa(n));
      }
      hide DecimalValue, Zeros;
    }
  }

  lemma OkMeans(p: PolicyConfig)
    ensures PolicyOk(p) <==> Acceptable(p)
  {
    hide Level, IsLevel;
    if Level(p.server).Some? {
      LevelMeans(p.server, Level(p.server).value);
    }
    if n: nat :| IsLevel(p.server.level, n) {
      LevelMeans(p.server, n);
    }
  }

  ghost predicate AllAcceptable(ps: seq<PolicyConfig>) {
    forall i | 0 <= i < |ps| :: Acceptable(ps[i])
  }

  lemma AllMean(ps: seq<PolicyConfig>)
    ensures AllOk(ps) <==> AllAcceptable(ps)
  {
    hide PolicyOk, Acceptable;
    forall i | 0 <= i < |ps| ensures PolicyOk(ps[i]) <==> Acceptable(ps[i]) {
      OkMeans(ps[i]);
    }
  }

  /** The level table has exactly the levels of the policies. */
  ghost predicate LevelsInUse(levels: map<string, Timeouts>, ps: seq<PolicyConfig>) {
    forall l :: l in levels <==> exists i, n: nat :: 0 <= i < |ps| && IsLevel(ps[i].server.level, n) && l == Itoa(n)
  }

  lemma LevelsMean(levels: map<string, Timeouts>, ps: seq<PolicyConfig>)
    requires AllOk(ps) && Levels(levels, ps)
    ensures LevelsInUse(levels, ps)
  {
    hide Level, IsLevel, Itoa;
    forall i, n: nat | 0 <= i < |ps| && IsLevel(ps[i].server.level, n)
      ensures PolicyOk(ps[i]) && Level(ps[i].server).value == n
    {
      LevelMeans(ps[i].server, n);
    }
    forall l | l in levels
      ensures exists i, n: nat :: 0 <= i < |ps| && IsLevel(ps[i].server.level, n) && l == Itoa(n)
    {
      assert HasLevel(ps, l);
      var i :| 0 <= i < |ps| && Itoa(Level(ps[i].server).value) == l;
      LevelMeans(ps[i].server, Level(ps[i].server).value);
    }
  }

  /** taggedName */
  function Tagged(prefix: string, port: nat, index: nat): string {
    prefix + ("-" + (Itoa(port) + ['-'] + Itoa(index + 1)))
  }

  function InTag(p: PolicyConfig, i: nat): string
    requires PolicyOk(p)
  {
    Tagged("surge-in", p.port, i)
  }

  function OutTag(p: PolicyConfig, i: nat): string
    requires PolicyOk(p)
  {
    Tagged("vless-out", p.port, i)
  }

  /** The key under which a listener is remembered. */
  function Listener(p: PolicyConfig): string
    requires IsPort(p.port)
  {
    Host(p) + ":" + Itoa(p.port)
  }

  function InboundOf(p: PolicyConfig, i: nat): Inbound
    requires PolicyOk(p)
  {
    Inbound(InTag(p, i), Host(p), p.port)
  }

  function OutboundOf(p: PolicyConfig, i: nat): Outbound
    requires PolicyOk(p)
  {
    Outbound(OutTag(p, i), p.server)
  }

  function RuleOf(p: PolicyConfig, i: nat): Rule
    requires PolicyOk(p)
  {
    Rule([InTag(p, i)], OutTag(p, i))
  }

  // ---------- the configuration ----------

  predicate AllOk(ps: seq<PolicyConfig>) {
    forall i | 0 <= i < |ps| :: PolicyOk(ps[i])
  }

  predicate SameListener(p: PolicyConfig, q: PolicyConfig) {
    Host(p) == Host(q) && p.port == q.port
  }

  predicate DistinctListeners(ps: seq<PolicyConfig>) {
    forall i, j | 0 <= i < j < |ps| :: !SameListener(ps[i], ps[j])
  }

  /** Inbound, outbound and rule i are those of policy i. */
  predicate PartsAt(c: Config, ps: seq<PolicyConfig>, i: nat)
    requires i < |ps| && PolicyOk(ps[i]) && |c.inbounds| == |c.outbounds| == |c.rules| == |ps|
  {
    && c.inbounds[i] == InboundOf(ps[i], i) && c.outbounds[i] == OutboundOf(ps[i], i)
    && c.rules[i] == RuleOf(ps[i], i)
  }

  /** Some policy has the level with this text. */
  predicate HasLevel(ps: seq<PolicyConfig>, l: string)
    requires AllOk(ps)
  {
    exists i :: 0 <= i < |ps| && Itoa(Level(ps[i].server).value) == l
  }

  /** The levels in use, and only those, have the timeouts. */
  predicate Levels(levels: map<string, Timeouts>, ps: seq<PolicyConfig>)
    requires AllOk(ps)
  {
    && (forall i | 0 <= i < |ps| :: Itoa(Level(ps[i].server).value) in levels)
    && (forall l | l in levels :: levels[l] == LEVEL_TIMEOUTS && HasLevel(ps, l))
  }

  /** The configuration holds one inbound, one outbound and one rule for each policy. */
  predicate Configures(c: Config, ps: seq<PolicyConfig>)
    requires AllOk(ps)
  {
    && |c.inbounds| == |c.outbounds| == |c.rules| == |ps|
    && (forall i | 0 <= i < |ps| :: PartsAt(c, ps, i))
    && Levels(c.levels, ps)
  }

  lemma CutAt(a: string, x: string, b: string, y: string, c: char)
    requires a + [c] + x == b + [c] + y && c !in a && c !in b
    ensures a == b && x == y
  {
    IndexAt(a, c, x);
    IndexAt(b, c, y);
    var s := a + [c] + x;
    assert s[..|a|] == a && s[..|b|] == b && s[|a| + 1..] == x && s[|b| + 1..] == y;
  }

  lemma TagSuffix(port: nat, i: nat, port': nat, i': nat)
    requires Itoa(port) + ['-'] + Itoa(i) == Itoa(port') + ['-'] + Itoa(i')
    ensures port == port' && i == i'
  {
    assert '-' !in Itoa(port) && '-' !in Itoa(port');
    CutAt(Itoa(port), Itoa(i), Itoa(port'), Itoa(i'), '-');
    ItoaInjective(port, port');
    ItoaInjective(i, i');
  }

  /** Tags of different policies differ, whatever their ports. */
  lemma TaggedInjective(prefix: string, port: nat, i: nat, port': nat, i': nat)
    requires Tagged(prefix, port, i) == Tagged(prefix, port', i')
    ensures port == port' && i == i'
  {
    var s, s' := Itoa(port) + ['-'] + Itoa(i + 1), Itoa(port') + ['-'] + Itoa(i' + 1);
    assert Tagged(prefix, port, i)[|prefix| + 1..] == s && Tagged(prefix, port', i')[|prefix| + 1..] == s';
    hide Itoa;
    TagSuffix(port, i + 1, port', i' + 1);
  }

  lemma DigitsAtEnd(a: string, x: string, b: string, y: string)
    requires a + [':'] + x == b + [':'] + y && AllDigits(x) && AllDigits(y)
    ensures a == b && x == y
  {
    var s := a + [':'] + x;
    assert s[|a|] == ':' && s[|b|] == ':';
    forall k | |a| < k < |s| ensures IsDigit(s[k]) {
      assert s[k] == x[k - |a| - 1];
    }
    forall k | |b| < k < |s| ensures IsDigit(s[k]) {
      assert s[k] == y[k - |b| - 1];
    }
    assert s[..|a|] == a && s[..|b|] == b && s[|a| + 1..] == x && s[|b| + 1..] == y;
  }

  /** The listener key identifies host and port, also for hosts that contain colons. */
  lemma ListenerInjective(p: PolicyConfig, q: PolicyConfig)
    requires IsPort(p.port) && IsPort(q.port)
    ensures Listener(p) == Listener(q) <==> SameListener(p, q)
  {
    if Listener(p) == Listener(q) {
      DigitsAtEnd(Host(p), Itoa(p.port), Host(q), Itoa(q.port));
      ItoaInjective(p.port, q.port);
    }
    hide Itoa, Host;
  }

  /** The first i policies go together, and the next one is not acceptable. */
  ghost predicate RefusedAt(ps: seq<PolicyConfig>, i: nat) {
    i < |ps| && AllAcceptable(ps[..i]) && DistinctListeners(ps[..i]) && !Acceptable(ps[i])
  }

  /** The first i policies go together, and the next one listens where one of them does. */
  ghost predicate DuplicateAt(ps: seq<PolicyConfig>, i: nat) {
    && i < |ps| && AllAcceptable(ps[..i + 1]) && DistinctListeners(ps[..i])
    && exists j :: 0 <= j < i && SameListener(ps[j], ps[i])
  }

  /** What MultiJSONConfig should answer: a configuration exactly for policies that are all acceptable
      and listen apart, else the first offender. */
  ghost predicate Answers(r: Result, ps: seq<PolicyConfig>) {
    && (r.Empty? <==> ps == [])
    && (r.Built? <==> ps != [] && AllAcceptable(ps) && DistinctListeners(ps))
    && (r.Built? ==> AllOk(ps) && Configures(r.config, ps) && LevelsInUse(r.config.levels, ps))
    && (r.Refused? ==> RefusedAt(ps, r.index))
    && (r.Duplicate? ==> DuplicateAt(ps, r.index))
  }

  /** MultiJSONConfig: the lists, the level map and the listeners seen grow together. */
  method MultiJsonConfig(ps: seq<PolicyConfig>) returns (r: Result)
    ensures Answers(r, ps)
  {
    if |ps| == 0 {
      return Empty;
    }
    NothingSeen(ps);
    hide *;
    var c := Config([], [], [], map[]);
    var seen: map<string, bool> := map[];
    for i := 0 to |ps|
      invariant AllOk(ps[..i]) && DistinctListeners(ps[..i]) && Configures(c, ps[..i])
      invariant Remembers(seen, ps, i)
    {
      if !PolicyOk(ps[i]) {
        NotAllOk(ps, i);
        return Refused(i);
      }
      OkPort(ps[i]);
      var key := Listener(ps[i]);
      if key in seen {
        ghost var j := SeenBefore(seen, ps, i);
        DuplicateAnswers(ps, j, i);
        return Duplicate(i);
      }
      ListenerNew(seen, ps, i);
      c := AddPolicy(c, ps, i);
      seen := seen[key := true];
    }
    BuiltForAll(c, ps);
    return Built(c);
  }

  lemma BuiltForAll(c: Config, ps: seq<PolicyConfig>)
    requires AllOk(ps[..|ps|]) && DistinctListeners(ps[..|ps|]) && Configures(c, ps[..|ps|]) && ps != []
    ensures Answers(Built(c), ps)
  {
    hide PartsAt, PolicyOk, Levels, LevelsInUse, DistinctListeners, AllAcceptable;
    assert ps[..|ps|] == ps;
    AllMean(ps);
    LevelsMean(c.levels, ps);
  }

  lemma OkPort(p: PolicyConfig)
    requires PolicyOk(p)
    ensures IsPort(p.port)
  {
  }

  lemma AllOkSnoc(ps: seq<PolicyConfig>, i: nat)
    requires i < |ps| && PolicyOk(ps[i]) && AllOk(ps[..i])
    ensures AllOk(ps[..i + 1])
  {
    hide PolicyOk;
    assert ps[..i + 1] == ps[..i] + [ps[i]];
  }

  lemma NotAllOk(ps: seq<PolicyConfig>, i: nat)
    requires i < |ps| && !PolicyOk(ps[i]) && AllOk(ps[..i]) && DistinctListeners(ps[..i])
    ensures Answers(Refused(i), ps)
  {
    AllMean(ps[..i]);
    OkMeans(ps[i]);
    hide PolicyOk, Acceptable, DistinctListeners;
  }

  /** seenPorts holds the listeners of the first i policies. */
  ghost predicate Remembers(seen: map<string, bool>, ps: seq<PolicyConfig>, i: nat)
    requires i <= |ps|
  {
    && (forall j | 0 <= j < i :: IsPort(ps[j].port) && Listener(ps[j]) in seen)
    && (forall k | k in seen :: exists j :: 0 <= j < i && IsPort(ps[j].port) && Listener(ps[j]) == k)
  }

  lemma NothingSeen(ps: seq<PolicyConfig>)
    ensures Remembers(map[], ps, 0) && DistinctListeners(ps[..0]) && AllOk(ps[..0])
    ensures Configures(Config([], [], [], map[]), ps[..0])
  {
  }

  lemma SeenBefore(seen: map<string, bool>, ps: seq<PolicyConfig>, i: nat) returns (j: nat)
    requires i < |ps| && IsPort(ps[i].port) && Remembers(seen, ps, i) && Listener(ps[i]) in seen
    ensures j < i && SameListener(ps[j], ps[i])
  {
    hide Listener, SameListener, IsPort;
    j :| 0 <= j < i && IsPort(ps[j].port) && Listener(ps[j]) == Listener(ps[i]);
    ListenerInjective(ps[j], ps[i]);
  }

  lemma DuplicateAnswers(ps: seq<PolicyConfig>, j: nat, i: nat)
    requires j < i < |ps| && PolicyOk(ps[i]) && AllOk(ps[..i]) && DistinctListeners(ps[..i])
    requires SameListener(ps[j], ps[i])
    ensures Answers(Duplicate(i), ps)
  {
    hide SameListener, AllOk, AllAcceptable, PolicyOk, Acceptable;
    AllOkSnoc(ps, i);
    AllMean(ps[..i + 1]);
  }

  lemma ListenerNew(seen: map<string, bool>, ps: seq<PolicyConfig>, i: nat)
    requires i < |ps| && IsPort(ps[i].port) && DistinctListeners(ps[..i])
    requires Remembers(seen, ps, i) && Listener(ps[i]) !in seen
    ensures DistinctListeners(ps[..i + 1])
    ensures Remembers(seen[Listener(ps[i]) := true], ps, i + 1)
  {
    hide SameListener, Listener, IsPort;
    var now, next := ps[..i], ps[..i + 1];
    forall j, k | 0 <= j < k < i + 1 ensures !SameListener(next[j], next[k]) {
      if k == i {
        ListenerInjective(ps[j], ps[i]);
      } else {
        assert !SameListener(now[j], now[k]);
      }
    }
  }

  lemma LevelAdded(levels: map<string, Timeouts>, ps: seq<PolicyConfig>, i: nat, key: string)
    requires i < |ps| && PolicyOk(ps[i]) && AllOk(ps[..i]) && Levels(levels, ps[..i])
    requires key == Itoa(Level(ps[i].server).value)
    ensures AllOk(ps[..i + 1]) && Levels(levels[key := LEVEL_TIMEOUTS], ps[..i + 1])
  {
    AllOkSnoc(ps, i);
    hide PolicyOk, Itoa, Level;
    var now, next := ps[..i], ps[..i + 1];
    forall k | 0 <= k < i + 1
      ensures Itoa(Level(next[k].server).value) in levels[key := LEVEL_TIMEOUTS]
    {
      assert k < i ==> now[k] == next[k];
    }
    forall l | l in levels || l == key ensures HasLevel(next, l) {
      if l == key {
        assert next[i] == ps[i];
      } else {
        assert HasLevel(now, l);
        var j :| 0 <= j < |now| && Itoa(Level(now[j].server).value) == l;
        assert next[j] == now[j];
      }
    }
  }

  /** The appends of one turn of the loop. */
  method AddPolicy(c: Config, ps: seq<PolicyConfig>, i: nat) returns (r: Config)
    requires i < |ps| && PolicyOk(ps[i]) && AllOk(ps[..i]) && Configures(c, ps[..i])
    ensures AllOk(ps[..i + 1]) && Configures(r, ps[..i + 1])
  {
    var level := Level(ps[i].server).value;
    LevelAdded(c.levels, ps, i, Itoa(level));
    r := Config(c.inbounds + [InboundOf(ps[i], i)], c.outbounds + [OutboundOf(ps[i], i)],
                c.rules + [RuleOf(ps[i], i)], c.levels[Itoa(level) := LEVEL_TIMEOUTS]);
    var next := ps[..i + 1];
    assert next[i] == ps[i];
    hide PolicyOk, InboundOf, OutboundOf, RuleOf, Itoa, Levels, PartsAt;
    forall k | 0 <= k < i + 1 ensures PartsAt(r, next, k) {
      PartsKept(c, r, ps, i, k);
    }
  }

  lemma PartsKept(c: Config, r: Config, ps: seq<PolicyConfig>, i: nat, k: nat)
    requires k <= i < |ps| && PolicyOk(ps[i]) && AllOk(ps[..i]) && Configures(c, ps[..i])
    requires |r.inbounds| == |r.outbounds| == |r.rules| == i + 1
    requires r.inbounds == c.inbounds + [InboundOf(ps[i], i)] && r.outbounds == c.outbounds + [OutboundOf(ps[i], i)]
    requires r.rules == c.rules + [RuleOf(ps[i], i)]
    ensures PolicyOk(ps[..i + 1][k]) && PartsAt(r, ps[..i + 1], k)
  {
    var now, next := ps[..i], ps[..i + 1];
    assert next[k] == ps[k];
    if k < i {
      assert now[k] == ps[k] && PolicyOk(now[k]) && PartsAt(c, now, k);
    }
    hide PolicyOk, InboundOf, OutboundOf, RuleOf, Levels;
  }

  // ---------- what a connection reaches ----------

  /** The inbound that listens there. */
  function FindInbound(inbounds: seq<Inbound>, host: string, port: int): Option<string> {
    if inbounds == [] then None
    else if inbounds[0].listen == host && inbounds[0].port == port then Some(inbounds[0].tag)
    else FindInbound(inbounds[1..], host, port)
  }

  /** The first rule that names the inbound. */
  function FindRule(rules: seq<Rule>, tag: string): Option<string> {
    if rules == [] then None
    else if tag in rules[0].inboundTags then Some(rules[0].outboundTag)
    else FindRule(rules[1..], tag)
  }

  function FindOutbound(outbounds: seq<Outbound>, tag: string): Option<Server> {
    if outbounds == [] then None
    else if outbounds[0].tag == tag then Some(outbounds[0].server)
    else FindOutbound(outbounds[1..], tag)
  }

  /** The server that a connection to host and port is sent to. */
  function Route(c: Config, host: string, port: int): Option<Server> {
    match FindInbound(c.inbounds, host, port)
    case None => None
    case Some(tag) =>
      match FindRule(c.rules, tag)
      case None => None
      case Some(out) => FindOutbound(c.outbounds, out)
  }

  lemma {:induction false} InboundAt(inbounds: seq<Inbound>, i: nat)
    requires i < |inbounds|
    requires forall j | 0 <= j < i :: inbounds[j].listen != inbounds[i].listen || inbounds[j].port != inbounds[i].port
    ensures FindInbound(inbounds, inbounds[i].listen, inbounds[i].port) == Some(inbounds[i].tag)
  {
    if i > 0 {
      assert inbounds[1..][i - 1] == inbounds[i];
      InboundAt(inbounds[1..], i - 1);
    }
  }

  lemma {:induction false} NoInbound(inbounds: seq<Inbound>, host: string, port: int)
    requires forall j | 0 <= j < |inbounds| :: inbounds[j].listen != host || inbounds[j].port != port
    ensures FindInbound(inbounds, host, port) == None
  {
    if inbounds != [] {
      NoInbound(inbounds[1..], host, port);
    }
  }

  lemma {:induction false} RuleAt(rules: seq<Rule>, i: nat, tag: string)
    requires i < |rules| && tag in rules[i].inboundTags
    requires forall j | 0 <= j < i :: tag !in rules[j].inboundTags
    ensures FindRule(rules, tag) == Some(rules[i].outboundTag)
  {
    if i > 0 {
      assert rules[1..][i - 1] == rules[i];
      RuleAt(rules[1..], i - 1, tag);
    }
  }

  lemma {:induction false} OutboundAt(outbounds: seq<Outbound>, i: nat)
    requires i < |outbounds| && forall j | 0 <= j < i :: outbounds[j].tag != outbounds[i].tag
    ensures FindOutbound(outbounds, outbounds[i].tag) == Some(outbounds[i].server)
  {
    if i > 0 {
      assert outbounds[1..][i - 1] == outbounds[i];
      OutboundAt(outbounds[1..], i - 1);
    }
  }

  lemma TagsDiffer(ps: seq<PolicyConfig>, i: nat, j: nat)
    requires AllOk(ps) && i < |ps| && j < |ps| && i != j
    ensures InTag(ps[i], i) != InTag(ps[j], j) && OutTag(ps[i], i) != OutTag(ps[j], j)
  {
    if InTag(ps[i], i) == InTag(ps[j], j) {
      TaggedInjective("surge-in", ps[i].port, i, ps[j].port, j);
    }
    if OutTag(ps[i], i) == OutTag(ps[j], j) {
      TaggedInjective("vless-out", ps[i].port, i, ps[j].port, j);
    }
    hide Tagged;
  }

  lemma HostsAre(ps: seq<PolicyConfig>)
    ensures forall i | 0 <= i < |ps| :: Host(ps[i]) == if ps[i].host == [] then "127.0.0.1" else ps[i].host
  {
  }

  /** A built configuration has pairwise distinct tags and listeners, every connection on the
      listener of a policy reaches the server of that policy and no other, and nothing else
      is listened on. */
  lemma RoutesExactly(c: Config, ps: seq<PolicyConfig>)
    requires AllOk(ps) && DistinctListeners(ps) && Configures(c, ps)
    ensures forall i, j | 0 <= i < j < |ps| ::
      && c.inbounds[i].tag != c.inbounds[j].tag && c.outbounds[i].tag != c.outbounds[j].tag
      && (c.inbounds[i].listen != c.inbounds[j].listen || c.inbounds[i].port != c.inbounds[j].port)
    ensures forall i | 0 <= i < |ps| ::
      Route(c, if ps[i].host == [] then "127.0.0.1" else ps[i].host, ps[i].port) == Some(ps[i].server)
    ensures forall host, port :: Route(c, host, port).Some? ==>
      exists i :: 0 <= i < |ps| && (if ps[i].host == [] then "127.0.0.1" else ps[i].host) == host && ps[i].port == port
  {
    HostsAre(ps);
    hide Route, PolicyOk, InTag, OutTag, Host, Levels;
    forall i, j | 0 <= i < j < |ps|
      ensures c.inbounds[i].tag != c.inbounds[j].tag && c.outbounds[i].tag != c.outbounds[j].tag
      ensures c.inbounds[i].listen != c.inbounds[j].listen || c.inbounds[i].port != c.inbounds[j].port
    {
      assert PartsAt(c, ps, i) && PartsAt(c, ps, j);
      TagsDiffer(ps, i, j);
      assert !SameListener(ps[i], ps[j]);
    }
    forall i | 0 <= i < |ps| ensures Route(c, Host(ps[i]), ps[i].port) == Some(ps[i].server) {
      RouteOne(c, ps, i);
    }
    forall host, port | Route(c, host, port).Some?
      ensures exists i :: 0 <= i < |ps| && Host(ps[i]) == host && ps[i].port == port
    {
      RouteListens(c, ps, host, port);
    }
  }

  lemma RouteOne(c: Config, ps: seq<PolicyConfig>, i: nat)
    requires AllOk(ps) && DistinctListeners(ps) && Configures(c, ps) && i < |ps|
    ensures Route(c, Host(ps[i]), ps[i].port) == Some(ps[i].server)
  {
    hide PolicyOk, InTag, OutTag, Host, FindInbound, FindRule, FindOutbound, Levels;
    assert PartsAt(c, ps, i);
    forall j | 0 <= j < i
      ensures c.inbounds[j].listen != c.inbounds[i].listen || c.inbounds[j].port != c.inbounds[i].port
      ensures c.inbounds[i].tag !in c.rules[j].inboundTags && c.outbounds[j].tag != c.outbounds[i].tag
    {
      assert PartsAt(c, ps, j);
      TagsDiffer(ps, i, j);
      assert !SameListener(ps[j], ps[i]);
    }
    InboundAt(c.inbounds, i);
    RuleAt(c.rules, i, c.inbounds[i].tag);
    OutboundAt(c.outbounds, i);
  }

  lemma RouteListens(c: Config, ps: seq<PolicyConfig>, host: string, port: int)
    requires AllOk(ps) && Configures(c, ps) && Route(c, host, port).Some?
    ensures exists i :: 0 <= i < |ps| && Host(ps[i]) == host && ps[i].port == port
  {
    hide PolicyOk, InTag, OutTag, Host, FindInbound, FindRule, FindOutbound;
    if forall j | 0 <= j < |c.inbounds| :: c.inbounds[j].listen != host || c.inbounds[j].port != port {
      NoInbound(c.inbounds, host, port);
    } else {
      var j :| 0 <= j < |c.inbounds| && c.inbounds[j].listen == host && c.inbounds[j].port == port;
      assert PartsAt(c, ps, j);
    }
  }

  // ---------- from the profile ----------

  /** What the daemon remembers of a policy. */
  datatype Watched = Watched(name: string, host: string, port: int, linkHash: string)

  datatype FromProfile = Configured(configs: seq<PolicyConfig>, policies: seq<Watched>)
                       | NoProfile(error: Error) | BadLink(name: string)

  function OrLocal(host: string): string {
    if host == [] then LOCAL_HOST else host
  }

  /** The two lists describe the managed policies in order. */
  predicate Aligned(managed: seq<Lines.Policy>, configs: seq<PolicyConfig>, policies: seq<Watched>,
                    parse: string -> Option<Server>, hash: string -> string)
  {
    && |configs| == |policies| == |managed|
    && forall i | 0 <= i < |managed| ::
         && parse(managed[i].link).Some?
         && configs[i] == PolicyConfig(managed[i].name, parse(managed[i].link).value,
                                       OrLocal(managed[i].localHost), managed[i].localPort)
         && policies[i] == Watched(managed[i].name, OrLocal(managed[i].localHost), managed[i].localPort,
                                  hash(managed[i].link))
  }

  /** ConfigFromProfile: two lists filled side by side.  `parse` and `hash` stand for vless.Parse
      and PolicyLinkHash. */
  method ConfigFromProfile(text: string, parse: string -> Option<Server>, hash: string -> string)
    returns (r: FromProfile)
    ensures Read(text).Unreadable? <==> r.NoProfile?
    ensures r.NoProfile? ==> r.error == Read(text).error
    ensures r.Configured? ==> Aligned(Read(text).policies, r.configs, r.policies, parse, hash)
    ensures r.BadLink? ==> exists i ::
      && 0 <= i < |Read(text).policies| && parse(Read(text).policies[i].link).None?
      && r.name == Read(text).policies[i].name && forall j | 0 <= j < i :: parse(Read(text).policies[j].link).Some?
  {
    hide Read;
    var reading := Editor.ManagedPolicies(text);
    if reading.Unreadable? {
      return NoProfile(reading.error);
    }
    var managed := reading.policies;
    var configs, policies := [], [];
    for i := 0 to |managed|
      invariant Aligned(managed[..i], configs, policies, parse, hash)
    {
      assert managed[..i + 1] == managed[..i] + [managed[i]];
      var server := parse(managed[i].link);
      if server.None? {
        assert forall j | 0 <= j < i :: parse(managed[..i][j].link).Some? && managed[..i][j] == managed[j];
        return BadLink(managed[i].name);
      }
      var host := managed[i].localHost;
      if host == [] {
        host := LOCAL_HOST;
      }
      policies := policies + [Watched(managed[i].name, host, managed[i].localPort, hash(managed[i].link))];
      configs := configs + [PolicyConfig(managed[i].name, server.value, host, managed[i].localPort)];
    }
    assert managed[..|managed|] == managed;
    return Configured(configs, policies);
  }

  /** A profile that satisfies the invariant of runs never meets the duplicate-listener error,
      and each managed port leads to the server of its own link. */
  lemma ManagedRoutes(text: string, profile: string, es: seq<Entry>, configs: seq<PolicyConfig>,
                      policies: seq<Watched>, parse: string -> Option<Server>, hash: string -> string)
    requires Manages(text, profile, es) && es != []
    requires Read(text).Policies? && Aligned(Read(text).policies, configs, policies, parse, hash)
    ensures |configs| == |es| && DistinctListeners(configs)
    ensures AllOk(configs) ==> forall c, i | Configures(c, configs) && 0 <= i < |es| ::
      Route(c, LOCAL_HOST, es[i].port) == parse(es[i].link)
  {
    ReadManaged(text, profile, es);
    DistinctPorts(text, profile, es);
    hide Read, Manages, Route, Configures, PolicyOk;
    AlignedEntries(es, configs, policies, parse, hash);
    if AllOk(configs) {
      forall c, i | Configures(c, configs) && 0 <= i < |es|
        ensures Route(c, LOCAL_HOST, es[i].port) == parse(es[i].link)
      {
        assert configs[i].port == es[i].port;
        RouteOne(c, configs, i);
      }
    }
  }

  lemma AlignedEntries(es: seq<Entry>, configs: seq<PolicyConfig>, policies: seq<Watched>,
                       parse: string -> Option<Server>, hash: string -> string)
    requires Aligned(PoliciesOf(es), configs, policies, parse, hash)
    ensures |configs| == |es|
    ensures forall i | 0 <= i < |es| ::
      && configs[i].port == es[i].port && Host(configs[i]) == LOCAL_HOST
      && parse(es[i].link) == Some(configs[i].server)
  {
    assert forall i | 0 <= i < |es| :: PoliciesOf(es)[i] == PolicyOf(es[i]);
  }

  lemma DistinctPorts(text: string, profile: string, es: seq<Entry>)
    requires Manages(text, profile, es)
    ensures forall i, j | 0 <= i < j < |es| :: es[i].port != es[j].port
  {
  }
}
