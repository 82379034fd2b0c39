/** The DCGM exposition, printed by the mock exporter (apps/mocks/main.py,
    `dcgm_metrics`) and parsed by the normalizer (apps/ingestion/normalizers/dcgm.py):
    a subset of the Prometheus text-based exposition format 0.0.4, section "Text format
    details".  Values are fixed-point numbers; digits are ASCII. */
module Dcgm {
  import opened Wrappers
  import opened Text
  import Devices

  // ----- characters -----

  predicate IsLetter(c: char) { 'a' <= c <= 'z' || 'A' <= c <= 'Z' }
  predicate IsNameStart(c: char) { IsLetter(c) || c == '_' || c == ':' }
  predicate IsNameChar(c: char) { IsNameStart(c) || IsDigit(c) }
  predicate IsLabelStart(c: char) { IsLetter(c) || c == '_' }
  predicate IsLabelChar(c: char) { IsLabelStart(c) || IsDigit(c) }
  predicate IsSpace(c: char) {
    || '\t' <= c <= '\r' || '\U{1C}' <= c <= ' ' || c == '\U{85}' || c == '\U{A0}' || c == '\U{1680}'
    || '\U{2000}' <= c <= '\U{200A}' || '\U{2028}' <= c <= '\U{2029}'
    || c == '\U{202F}' || c == '\U{205F}' || c == '\U{3000}'
  }
  /** Where `splitlines` breaks. */
  predicate IsBreak(c: char) {
    '\n' <= c <= '\r' || '\U{1C}' <= c <= '\U{1E}' || c == '\U{85}' || '\U{2028}' <= c <= '\U{2029}'
  }

  /** It ends neither a label value nor the labels nor the line. */
  predicate IsIdChar(c: char) { c != '"' && c != '}' && !IsBreak(c) }

  predicate NotSpace(c: char) { !IsSpace(c) }
  predicate NotBrace(c: char) { c != '}' }
  predicate NotQuote(c: char) { c != '"' }

  predicate All(s: string, p: char -> bool) {
    forall i :: 0 <= i < |s| ==> p(s[i])
  }

  /** How many characters from the start satisfy `p`. */
  function Span(s: string, p: char -> bool): (n: nat)
    ensures n <= |s| && All(s[..n], p) && (n < |s| ==> !p(s[n]))
  {
    if s != [] && p(s[0]) then
      var n := Span(s[1..], p);
      assert forall i :: 0 < i < n + 1 ==> s[i] == s[1..][i - 1];
      n + 1
    else 0
  }

  lemma {:induction false} SpanOf(a: string, b: string, p: char -> bool)
    requires All(a, p) && (b != [] ==> !p(b[0]))
    ensures Span(a + b, p) == |a|
  {
    if a == [] {
      assert a + b == b;
    } else {
      assert forall i :: 0 <= i < |a| - 1 ==> a[1..][i] == a[i + 1];
      SpanOf(a[1..], b, p);
      assert (a + b)[1..] == a[1..] + b;
    }
  }

  // ----- numbers -----

  function Unsigned(v: string): (u: string)
  {
    if v != [] && (v[0] == '-' || v[0] == '+') then v[1..] else v
  }

  /** The parts of a number: sign, digits before and after the point, exponent text. */
  datatype Parts = Parts(negative: bool, whole: string, fraction: string, exponent: string)

  function PartsOf(v: string): (p: Parts)
    ensures AllDigits(p.whole) && AllDigits(p.fraction)
  {
    AfterSign(v != [] && v[0] == '-', Unsigned(v))
  }

  function AfterSign(negative: bool, u: string): (p: Parts)
    ensures AllDigits(p.whole) && AllDigits(p.fraction)
  {
    AfterWhole(negative, u[..Span(u, IsDigit)], u[Span(u, IsDigit)..])
  }

  function AfterWhole(negative: bool, whole: string, rest: string): (p: Parts)
    requires AllDigits(whole)
    ensures AllDigits(p.whole) && AllDigits(p.fraction)
  {
    if rest != [] && rest[0] == '.' then
      var m := Span(rest[1..], IsDigit);
      Parts(negative, whole, rest[1..][..m], rest[1..][m..])
    else Parts(negative, whole, [], rest)
  }

  /** The value group of the line grammar. */
  predicate IsValue(v: string) {
    var p := PartsOf(v);
    && (p.whole != [] || p.fraction != [])
    && (p.exponent == []
        || (p.exponent[0] in {'e', 'E'} && Unsigned(p.exponent[1..]) != [] && AllDigits(Unsigned(p.exponent[1..]))))
  }

  function Pow10(k: nat): (p: nat)
    ensures p > 0
  {
    if k == 0 then 1 else 10 * Pow10(k - 1)
  }

  /** The digits as one number, over ten to the number of digits after the point. */
  function Magnitude(p: Parts): (x: real)
    requires AllDigits(p.whole) && AllDigits(p.fraction)
  {
    Ratio(Number(p.whole + p.fraction), |p.fraction|)
  }

  function Ratio(n: int, decimals: nat): (x: real) { n as real / Pow10(decimals) as real }

  /** float(v) */
  function ParseNumber(v: string): (x: real)
    requires IsValue(v)
  {
    var p := PartsOf(v);
    var x := if p.negative then -Magnitude(p) else Magnitude(p);
    if p.exponent == [] then x
    else
      var e := p.exponent[1..];
      if e[0] == '-' then x / Pow10(Number(Unsigned(e))) as real else x * Pow10(Number(Unsigned(e))) as real
  }

  // ----- the line grammar -----

  /** A match of the line grammar: name, labels and value. */
  datatype Match = Match(name: string, labels: Option<string>, value: string)

  /** The grammar, as the regular expression states it. */
  ghost predicate Matches(line: string, m: Match) {
    && m.name != [] && IsNameStart(m.name[0]) && All(m.name, IsNameChar)
    && (m.labels.Some? ==> All(m.labels.value, NotBrace))
    && IsValue(m.value)
    && exists gap, trail :: gap != [] && All(gap, IsSpace) && All(trail, IsSpace) && line == Layout(m, gap, trail)
  }

  function Layout(m: Match, gap: string, trail: string): (line: string)
  {
    m.name + (Group(m.labels) + (gap + (m.value + trail)))
  }

  function Group(labels: Option<string>): (s: string)
  {
    if labels.Some? then "{" + labels.value + "}" else []
  }

  /** The matcher: the name and the gap are taken greedily, the value runs to the next space. */
  function MatchLine(line: string): (m: Option<Match>)
  {
    if line == [] || !IsNameStart(line[0]) then None
    else
      var n := Span(line, IsNameChar);
      MatchLabels(line[..n], line[n..])
  }

  function MatchLabels(name: string, rest: string): (m: Option<Match>)
  {
    if rest != [] && rest[0] == '{' then
      var k := Span(rest[1..], NotBrace);
      if k + 1 == |rest| then None else MatchValue(name, Some(rest[1..k + 1]), rest[k + 2..])
    else MatchValue(name, None, rest)
  }

  function MatchValue(name: string, labels: Option<string>, rest: string): (m: Option<Match>)
  {
    var w := Span(rest, IsSpace);
    var k := Span(rest[w..], NotSpace);
    var value, trail := rest[w..][..k], rest[w..][k..];
    if w > 0 && IsValue(value) && All(trail, IsSpace) then Some(Match(name, labels, value)) else None
  }

  lemma DigitsHaveNoSpace(s: string)
    requires AllDigits(s)
    ensures All(s, NotSpace)
  {
  }

  lemma SignHasNoSpace(v: string)
    requires All(Unsigned(v), NotSpace)
    ensures All(v, NotSpace)
  {
    var u := Unsigned(v);
    assert forall i :: 0 <= i < |v| ==> v[i] in {'-', '+'} || v[i] == u[i - (|v| - |u|)];
  }

  lemma AfterWholeHasNoSpace(negative: bool, whole: string, rest: string)
    requires AllDigits(whole)
    requires var e := AfterWhole(negative, whole, rest).exponent; e == [] || All(e, NotSpace)
    ensures All(rest, NotSpace)
  {
    hide IsSpace;
    var p := AfterWhole(negative, whole, rest);
    if rest != [] && rest[0] == '.' {
      assert rest == "." + (p.fraction + p.exponent);
      DigitsHaveNoSpace(p.fraction);
      AllAppend(p.fraction, p.exponent, NotSpace);
      PointIsNoSpace();
      AllAppend(".", p.fraction + p.exponent, NotSpace);
    }
  }

  lemma PointIsNoSpace()
    ensures All(".", NotSpace)
  {
  }

  lemma NumberHasNoSpace(v: string)
    requires IsValue(v)
    ensures v != [] && All(v, NotSpace)
  {
    hide Span, IsSpace, AfterWhole;
    var u := Unsigned(v);
    var n := Span(u, IsDigit);
    var e := PartsOf(v).exponent;
    if e != [] { ExponentHasNoSpace(e); }
    AfterWholeHasNoSpace(v != [] && v[0] == '-', u[..n], u[n..]);
    DigitsHaveNoSpace(u[..n]);
    AllAppend(u[..n], u[n..], NotSpace);
    assert u == u[..n] + u[n..];
    SignHasNoSpace(v);
    NoNumberIsEmpty(v);
  }

  lemma NoNumberIsEmpty(v: string)
    requires IsValue(v)
    ensures v != []
  {
  }

  lemma ExponentHasNoSpace(e: string)
    requires e != [] && e[0] in {'e', 'E'} && AllDigits(Unsigned(e[1..]))
    ensures All(e, NotSpace)
  {
    var d := Unsigned(e[1..]);
    assert forall i :: 0 < i < |e| ==> e[i] in {'-', '+'} || e[i] == d[i - (|e| - |d|)];
  }

  /** MAIN: the matcher is the grammar: it finds a match exactly when there is one, and
      no line has two. */
  lemma MatcherIsGrammar(line: string, m: Match)
    ensures MatchLine(line) == Some(m) <==> Matches(line, m)
  {
    if Matches(line, m) { MatcherComplete(line, m); }
    if MatchLine(line) == Some(m) { MatcherSound(line, m); }
  }

  lemma MatcherComplete(line: string, m: Match)
    requires Matches(line, m)
    ensures MatchLine(line) == Some(m)
  {
    hide IsValue, IsSpace, PartsOf, MatchLabels, Span, IsNameStart, IsNameChar, Group;
    var gap, trail :| gap != [] && All(gap, IsSpace) && All(trail, IsSpace) && line == Layout(m, gap, trail);
    var rest := Group(m.labels) + (gap + (m.value + trail));
    MatchLabelsComplete(m, gap, trail);
    SpanOf(m.name, rest, IsNameChar);
    assert line[0] == m.name[0];
    assert line[..|m.name|] == m.name && line[|m.name|..] == rest;
  }

  lemma MatchLabelsComplete(m: Match, gap: string, trail: string)
    requires IsValue(m.value) && (m.labels.Some? ==> All(m.labels.value, NotBrace))
    requires gap != [] && All(gap, IsSpace) && All(trail, IsSpace)
    ensures var rest := Group(m.labels) + (gap + (m.value + trail));
            rest != [] && !IsNameChar(rest[0]) && MatchLabels(m.name, rest) == Some(m)
  {
    hide IsValue, IsSpace, PartsOf, MatchValue, Span, NotSpace;
    NumberHasNoSpace(m.value);
    var tail := gap + (m.value + trail);
    MatchValueComplete(m, gap, trail);
    SpaceIsNoName(gap[0]);
    assert tail[0] == gap[0];
    if m.labels.Some? {
      var l := m.labels.value;
      var rest := Group(m.labels) + tail;
      assert rest[0] == '{' && rest[1..] == l + ("}" + tail);
      SpanOf(l, "}" + tail, NotBrace);
      assert rest[1..|l| + 1] == l && rest[|l| + 2..] == tail;
    } else {
      assert Group(m.labels) + tail == tail;
    }
  }

  lemma SpaceIsNoName(c: char)
    requires IsSpace(c)
    ensures !IsNameChar(c) && c != '{'
  {
  }

  lemma MatchValueComplete(m: Match, gap: string, trail: string)
    requires IsValue(m.value) && m.value != [] && All(m.value, NotSpace)
    requires gap != [] && All(gap, IsSpace) && All(trail, IsSpace)
    ensures MatchValue(m.name, m.labels, gap + (m.value + trail)) == Some(m)
  {
    hide IsValue, IsSpace;
    var rest := gap + (m.value + trail);
    assert NotSpace((m.value + trail)[0]);
    SpanOf(gap, m.value + trail, IsSpace);
    assert rest[|gap|..] == m.value + trail;
    SpanOf(m.value, trail, NotSpace);
    assert (m.value + trail)[..|m.value|] == m.value && (m.value + trail)[|m.value|..] == trail;
  }

  lemma MatchValueSound(name: string, labels: Option<string>, rest: string, m: Match)
    requires MatchValue(name, labels, rest) == Some(m)
    ensures m.name == name && m.labels == labels && IsValue(m.value)
    ensures exists gap, trail ::
        gap != [] && All(gap, IsSpace) && All(trail, IsSpace) && rest == gap + (m.value + trail)
  {
    hide IsValue, IsSpace;
    var w := Span(rest, IsSpace);
    var k := Span(rest[w..], NotSpace);
    var gap, trail := rest[..w], rest[w..][k..];
    assert rest == gap + (m.value + trail);
  }

  lemma MatchLabelsSound(name: string, rest: string, m: Match)
    requires MatchLabels(name, rest) == Some(m)
    ensures m.name == name && IsValue(m.value) && (m.labels.Some? ==> All(m.labels.value, NotBrace))
    ensures exists gap, trail :: gap != [] && All(gap, IsSpace) && All(trail, IsSpace)
              && rest == Group(m.labels) + (gap + (m.value + trail))
  {
    hide IsValue, IsSpace, MatchValue;
    if rest != [] && rest[0] == '{' {
      var k := Span(rest[1..], NotBrace);
      var l, tail := rest[1..k + 1], rest[k + 2..];
      assert l == rest[1..][..k] && rest[k + 1] == rest[1..][k];
      MatchValueSound(name, Some(l), tail, m);
      var gap, trail :| gap != [] && All(gap, IsSpace) && All(trail, IsSpace) && tail == gap + (m.value + trail);
      assert rest == Group(m.labels) + (gap + (m.value + trail));
    } else {
      MatchValueSound(name, None, rest, m);
      var gap, trail :| gap != [] && All(gap, IsSpace) && All(trail, IsSpace) && rest == gap + (m.value + trail);
      assert rest == Group(m.labels) + (gap + (m.value + trail));
    }
  }

  lemma MatcherSound(line: string, m: Match)
    requires MatchLine(line) == Some(m)
    ensures Matches(line, m)
  {
    hide IsValue, IsSpace, MatchLabels, Group;
    var n := Span(line, IsNameChar);
    var rest := line[n..];
    MatchLabelsSound(line[..n], rest, m);
    var gap, trail :| gap != [] && All(gap, IsSpace) && All(trail, IsSpace)
        && rest == Group(m.labels) + (gap + (m.value + trail));
    assert line == line[..n] + rest;
    assert line == Layout(m, gap, trail);
  }

  // ----- labels -----

  type Labels = seq<(string, string)>

  /** A label at the start of `s`: its name, its value and how much of `s` it takes. */
  function LabelAt(s: string): (r: Option<(string, string, nat)>)
    ensures r.Some? ==> 0 < r.value.2 <= |s|
  {
    if s == [] || !IsLabelStart(s[0]) then None
    else
      var n := Span(s, IsLabelChar);
      if n + 1 < |s| && s[n] == '=' && s[n + 1] == '"' then
        var k := Span(s[n + 2..], NotQuote);
        if n + 2 + k < |s| then Some((s[..n], s[n + 2..][..k], n + 3 + k)) else None
      else None
  }

  /** `findall`: the labels from left to right, skipping what is none. */
  function FindLabels(s: string): (r: Labels)
    decreases |s|
  {
    if s == [] then []
    else match LabelAt(s)
      case Some((name, value, n)) => [(name, value)] + FindLabels(s[n..])
      case None => FindLabels(s[1..])
  }

  /** Lookup in `dict(labels)`, where the last of equal names wins; "" when missing. */
  function Get(labels: Labels, name: string): (v: string)
  {
    if labels == [] then []
    else if labels[|labels| - 1].0 == name then labels[|labels| - 1].1
    else Get(labels[..|labels| - 1], name)
  }

  /** `labels.get("gpu") or labels.get("UUID") or labels.get("device")` */
  function GpuId(labels: Labels): (id: string)
  {
    if Get(labels, "gpu") != [] then Get(labels, "gpu")
    else if Get(labels, "UUID") != [] then Get(labels, "UUID")
    else Get(labels, "device")
  }

  // ----- events -----

  datatype Metric = GpuTemp | GpuPower | GpuUtil | GpuMemUsed | GpuXid

  datatype Event = Event(deviceId: string, hall: string, rack: string, metric: Metric, value: real, critical: bool)

  function MetricOf(name: string): (m: Option<Metric>)
  {
    if name == "DCGM_FI_DEV_GPU_TEMP" then Some(GpuTemp)
    else if name == "DCGM_FI_DEV_POWER_USAGE" then Some(GpuPower)
    else if name == "DCGM_FI_DEV_GPU_UTIL" then Some(GpuUtil)
    else if name == "DCGM_FI_DEV_FB_USED" then Some(GpuMemUsed)
    else if name == "DCGM_FI_DEV_XID_ERRORS" then Some(GpuXid)
    else None
  }

  function HallRack(id: string): (r: (string, string))
  {
    var parts := Split(id, '-');
    if |parts| >= 4 && parts[1] != [] && parts[1][0] == 'h' && parts[2] != [] && parts[2][0] == 'r' then
      (parts[0] + "-" + parts[1], parts[0] + "-" + parts[1] + "-" + parts[2])
    else ("unknown", "unknown")
  }

  function Strip(s: string): (r: string)
  {
    StripRight(s[Span(s, IsSpace)..])
  }

  function StripRight(s: string): (r: string)
  {
    if s != [] && IsSpace(s[|s| - 1]) then StripRight(s[..|s| - 1]) else s
  }

  function EventOf(id: string, metric: Metric, value: real): (e: Event)
  {
    Event(id, HallRack(id).0, HallRack(id).1, metric, value, metric == GpuXid && value > 0.0)
  }

  /** The body of the loop of `poll`. */
  function ParseLine(raw: string): (e: Option<Event>)
  {
    var line := Strip(raw);
    if line == [] || line[0] == '#' then None
    else match MatchLine(line)
      case None => None
      case Some(m) =>
        var metric := MetricOf(m.name);
        var id := GpuId(if m.labels.Some? then FindLabels(m.labels.value) else []);
        if metric.None? || id == [] || !IsValue(m.value) then None
        else Some(EventOf(id, metric.value, ParseNumber(m.value)))
  }

  function ParseLines(lines: seq<string>): (es: seq<Event>)
  {
    if lines == [] then []
    else
      var es := ParseLines(lines[..|lines| - 1]);
      match ParseLine(lines[|lines| - 1]) { case None => es case Some(e) => es + [e] }
  }

  /** Python's `splitlines`, with \r\n as one break. */
  function SplitLines(s: string): (lines: seq<string>)
    decreases |s|
  {
    if s == [] then []
    else
      var n := Span(s, NotBreak);
      if n == |s| then [s]
      else [s[..n]] + SplitLines(s[if s[n] == '\r' && n + 1 < |s| && s[n + 1] == '\n' then n + 2 else n + 1..])
  }

  predicate NotBreak(c: char) { !IsBreak(c) }

  method Poll(body: string) returns (events: seq<Event>)
    ensures events == ParseLines(SplitLines(body))
  {
    events := [];
    var lines := SplitLines(body);
    for i := 0 to |lines|
      invariant events == ParseLines(lines[..i])
    {
      assert lines[..i + 1][..i] == lines[..i];
      var e := ParseLine(lines[i]);
      if e.Some? { events := events + [e.value]; }
    }
    assert lines[..|lines|] == lines;
  }

  // ----- the printer -----

  /** A number with `decimals` digits after the point, given in units of the last one. */
  function Fixed(v: int, decimals: nat): (s: string)
  {
    (if v < 0 then "-" else []) + (Decimal(Quot(Abs(v), Pow10(decimals)))
        + PointAndDigits(Rem(Abs(v), Pow10(decimals)), decimals))
  }

  function PointAndDigits(n: nat, decimals: nat): (s: string)
  {
    if decimals == 0 then [] else "." + Padded(n, decimals)
  }

  function Abs(v: int): (a: nat) { if v < 0 then -v else v }
  function Quot(a: nat, p: nat): (q: nat) requires p > 0 { a / p }
  function Rem(a: nat, p: nat): (r: nat) requires p > 0 { a % p }

  /** The last `k` digits of a number. */
  function Padded(n: nat, k: nat): (s: string)
    ensures |s| == k && AllDigits(s)
  {
    if k == 0 then [] else Padded(n / 10, k - 1) + [DigitChar(n % 10)]
  }

  datatype GpuDevice = GpuDevice(id: string, model: string)

  /** The readings the mock takes for one GPU: hundredths, hundredths, tenths and MiB. */
  datatype Reading = Reading(temp: int, power: int, util: int, used: int)

  function LabelText(name: string, value: string): (s: string) { name + "=" + "\"" + value + "\"" }

  function Sample(name: string, labels: string, value: string): (line: string)
  {
    name + "{" + labels + "} " + value
  }

  datatype Family = Family(name: string, help: string, kind: string, withModel: bool, metric: Metric, decimals: nat)

  function Value(f: Family, r: Reading): (v: int)
  {
    match f.metric
    case GpuTemp => r.temp
    case GpuPower => r.power
    case GpuUtil => r.util
    case GpuMemUsed => r.used
    case GpuXid => 0
  }

  /** The five metric families, in the order they are printed. */
  const FAMILIES: seq<Family> := [
    Family("DCGM_FI_DEV_GPU_TEMP", "GPU temperature (in C).", "gauge", true, GpuTemp, 2),
    Family("DCGM_FI_DEV_POWER_USAGE", "GPU power usage in watts.", "gauge", true, GpuPower, 2),
    Family("DCGM_FI_DEV_GPU_UTIL", "GPU utilization (in %).", "gauge", true, GpuUtil, 1),
    Family("DCGM_FI_DEV_XID_ERRORS", "Count of XID errors observed.", "counter", false, GpuXid, 0),
    Family("DCGM_FI_DEV_FB_USED", "GPU framebuffer (mem) used in MiB.", "gauge", false, GpuMemUsed, 0)]

  function SampleLine(f: Family, g: GpuDevice, r: Reading): (line: string)
  {
    Sample(f.name, LabelText("gpu", g.id) + if f.withModel then "," + LabelText("modelName", g.model) else [],
           Fixed(Value(f, r), f.decimals))
  }

  function Header(f: Family): (lines: seq<string>)
  {
    ["# HELP " + f.name + " " + f.help, "# TYPE " + f.name + " " + f.kind]
  }

  function Samples(f: Family, gpus: seq<GpuDevice>, read: GpuDevice -> Reading): (lines: seq<string>)
  {
    if gpus == [] then []
    else Samples(f, gpus[..|gpus| - 1], read) + [SampleLine(f, gpus[|gpus| - 1], read(gpus[|gpus| - 1]))]
  }

  function Lines(families: seq<Family>, gpus: seq<GpuDevice>, read: GpuDevice -> Reading): (lines: seq<string>)
  {
    if families == [] then []
    else
      var f := families[|families| - 1];
      Lines(families[..|families| - 1], gpus, read) + Header(f) + Samples(f, gpus, read)
  }

  /** "\n".join(lines) + "\n" */
  function Body(lines: seq<string>): (s: string)
  {
    if lines == [] then [] else lines[0] + "\n" + Body(lines[1..])
  }

  method DcgmMetrics(gpus: seq<GpuDevice>, read: GpuDevice -> Reading) returns (body: string)
    ensures body == Body(Lines(FAMILIES, gpus, read))
  {
    hide FAMILIES, Header, Samples;
    var lines: seq<string> := [];
    for i := 0 to |FAMILIES|
      invariant lines == Lines(FAMILIES[..i], gpus, read)
    {
      assert FAMILIES[..i + 1][..i] == FAMILIES[..i];
      var samples := SampleLines(FAMILIES[i], gpus, read);
      lines := lines + Header(FAMILIES[i]) + samples;
    }
    assert FAMILIES[..|FAMILIES|] == FAMILIES;
    body := Body(lines);
  }

  /** The loop over GPUs that prints one family. */
  method SampleLines(f: Family, gpus: seq<GpuDevice>, read: GpuDevice -> Reading) returns (lines: seq<string>)
    ensures lines == Samples(f, gpus, read)
  {
    hide SampleLine;
    lines := [];
    for k := 0 to |gpus|
      invariant lines == Samples(f, gpus[..k], read)
    {
      assert gpus[..k + 1][..k] == gpus[..k];
      lines := lines + [SampleLine(f, gpus[k], read(gpus[k]))];
    }
    assert gpus[..|gpus|] == gpus;
  }

  // ----- what should come back -----

  /** Every reading in printed order, with the GPU's id and the exact printed value. */
  function FamilyEvents(f: Family, gpus: seq<GpuDevice>, read: GpuDevice -> Reading): (es: seq<Event>)
  {
    if gpus == [] then []
    else
      var g := gpus[|gpus| - 1];
      FamilyEvents(f, gpus[..|gpus| - 1], read)
      + [EventOf(g.id, f.metric, Ratio(Value(f, read(g)), f.decimals))]
  }

  function Events(families: seq<Family>, gpus: seq<GpuDevice>, read: GpuDevice -> Reading): (es: seq<Event>)
  {
    if families == [] then []
    else Events(families[..|families| - 1], gpus, read) + FamilyEvents(families[|families| - 1], gpus, read)
  }

  predicate PlainId(s: string) { s != [] && All(s, IsIdChar) }

  predicate PlainGpu(g: GpuDevice) { PlainId(g.id) && All(g.model, IsIdChar) }

  // ----- reading back a number -----

  lemma TenTimes(x: int, p: int)
    ensures 10 * (x * p) == x * (10 * p)
  {
  }

  lemma {:induction false} NumberAppend(a: string, b: string)
    requires AllDigits(a) && AllDigits(b)
    ensures AllDigits(a + b) && Number(a + b) == Number(a) * Pow10(|b|) + Number(b)
  {
    var s := a + b;
    if b == [] {
      assert s == a;
    } else {
      var n := |b| - 1;
      NumberAppend(a, b[..n]);
      assert s[..|s| - 1] == a + b[..n] && s[|s| - 1] == b[n];
      var x, p := Number(a), Pow10(n);
      assert Pow10(n + 1) == 10 * p;
      assert Number(s) == 10 * Number(a + b[..n]) + DigitValue(b[n]);
      assert Number(b) == 10 * Number(b[..n]) + DigitValue(b[n]);
      hide Number, Pow10;
      TenTimes(x, p);
    }
  }

  lemma {:induction false} NumberOfPadded(n: nat, k: nat)
    requires n < Pow10(k)
    ensures Number(Padded(n, k)) == n
  {
    if k > 0 {
      NumberOfPadded(n / 10, k - 1);
      var s := Padded(n, k);
      assert s[..k - 1] == Padded(n / 10, k - 1);
    }
  }

  lemma {:induction false} AfterWholeOf(negative: bool, whole: string, n: nat, k: nat)
    requires AllDigits(whole)
    ensures AfterWhole(negative, whole, PointAndDigits(n, k)) == Parts(negative, whole, Padded(n, k), [])
  {
    hide Padded;
    var f, tail := Padded(n, k), PointAndDigits(n, k);
    if k > 0 {
      assert tail[1..] == f && f == f + [];
      SpanOf(f, [], IsDigit);
    } else {
      assert f == [];
    }
  }

  lemma {:induction false} PartsOfUnsigned(d: string, n: nat, k: nat, negative: bool)
    requires d != [] && AllDigits(d)
    ensures PartsOf((if negative then "-" else []) + (d + PointAndDigits(n, k))) == Parts(negative, d, Padded(n, k), [])
  {
    hide Padded, AfterWhole, Span;
    var tail := PointAndDigits(n, k);
    var u := d + tail;
    var s := (if negative then "-" else []) + u;
    AfterWholeOf(negative, d, n, k);
    SpanOf(d, tail, IsDigit);
    assert u[..|d|] == d && u[|d|..] == tail;
    UnsignedOf(negative, d, tail);
    assert s != [] && (s[0] == '-' <==> negative) by { assert u[0] == d[0]; }
  }

  lemma UnsignedOf(negative: bool, d: string, tail: string)
    requires d != [] && AllDigits(d)
    ensures Unsigned((if negative then "-" else []) + (d + tail)) == d + tail
  {
    var u := d + tail;
    assert u[0] == d[0];
    if negative { assert ("-" + u)[1..] == u; } else { assert [] + u == u; }
  }

  lemma QuotRem(a: nat, p: nat)
    requires p > 0
    ensures Quot(a, p) * p + Rem(a, p) == a && Rem(a, p) < p
  {
  }

  lemma NegatedQuotient(x: real, p: real)
    requires p > 0.0
    ensures -(x / p) == (-x) / p
  {
  }

  lemma NegatedRatio(a: int, k: nat)
    ensures -Ratio(a, k) == Ratio(-a, k)
  {
    NegatedQuotient(a as real, Pow10(k) as real);
  }

  /** MAIN: a printed fixed-point number reads back as the number printed. */
  lemma FixedRoundTrip(v: int, k: nat)
    ensures IsValue(Fixed(v, k)) && ParseNumber(Fixed(v, k)) == Ratio(v, k)
  {
    hide PartsOf, Number, Pow10, Quot, Rem, Decimal, Padded, Ratio;
    var p := Pow10(k);
    var q, r := Quot(Abs(v), p), Rem(Abs(v), p);
    PartsOfUnsigned(Decimal(q), r, k, v < 0);
    QuotRem(Abs(v), p);
    DecimalRoundTrip(q);
    NumberOfPadded(r, k);
    NumberAppend(Decimal(q), Padded(r, k));
    NegatedRatio(Abs(v), k);
  }

  // ----- reading back a line -----

  lemma IdCharIsPlain(c: char)
    requires IsIdChar(c)
    ensures NotBrace(c) && NotQuote(c) && NotBreak(c)
  {
  }

  lemma LabelAtText(name: string, value: string, rest: string)
    requires name != [] && IsLabelStart(name[0]) && All(name, IsLabelChar) && All(value, NotQuote)
    ensures LabelAt(LabelText(name, value) + rest) == Some((name, value, |LabelText(name, value)|))
  {
    var s, t := LabelText(name, value) + rest, "=" + "\"" + value + "\"" + rest;
    assert s == name + t && t[0] == '=' && t[1] == '"';
    SpanOf(name, t, IsLabelChar);
    var n := |name|;
    assert s[..n] == name && s[n] == t[0] && s[n + 1] == t[1];
    assert s[n + 2..] == value + ("\"" + rest);
    SpanOf(value, "\"" + rest, NotQuote);
    assert s[n + 2..][..|value|] == value;
  }

  lemma {:induction false} LabelsRead(name: string, value: string, rest: string)
    requires name != [] && IsLabelStart(name[0]) && All(name, IsLabelChar) && All(value, NotQuote)
    ensures FindLabels(LabelText(name, value) + rest) == [(name, value)] + FindLabels(rest)
  {
    LabelAtText(name, value, rest);
    hide LabelAt, LabelText;
    assert (LabelText(name, value) + rest)[|LabelText(name, value)|..] == rest;
  }

  lemma {:induction false} FindAfterComma(s: string)
    ensures FindLabels("," + s) == FindLabels(s)
  {
    assert ("," + s)[1..] == s;
  }

  function LabelsOf(f: Family, g: GpuDevice): (s: string)
  {
    LabelText("gpu", g.id) + if f.withModel then "," + LabelText("modelName", g.model) else []
  }

  lemma GetFirst(id: string, model: string)
    ensures Get([("gpu", id)], "gpu") == id && Get([("gpu", id), ("modelName", model)], "gpu") == id
  {
    var one, two := [("gpu", id)], [("gpu", id), ("modelName", model)];
    assert two[..1] == one;
  }

  lemma LabelsAreRead(f: Family, g: GpuDevice)
    requires All(g.id, NotQuote) && All(g.model, NotQuote)
    ensures FindLabels(LabelsOf(f, g)) == [("gpu", g.id)] + if f.withModel then [("modelName", g.model)] else []
  {
    hide FindLabels, LabelText;
    var second := LabelText("modelName", g.model);
    FindNothing();
    if f.withModel {
      LabelsRead("modelName", g.model, []);
      assert second + [] == second;
      FindAfterComma(second);
      LabelsRead("gpu", g.id, "," + second);
    } else {
      LabelsRead("gpu", g.id, []);
    }
  }

  lemma GpuIdRead(f: Family, g: GpuDevice)
    requires PlainGpu(g)
    ensures GpuId(FindLabels(LabelsOf(f, g))) == g.id && All(LabelsOf(f, g), NotBrace)
  {
    hide FindLabels, Get, IsIdChar;
    forall i | 0 <= i < |g.id| ensures NotQuote(g.id[i]) && NotBrace(g.id[i]) { IdCharIsPlain(g.id[i]); }
    forall i | 0 <= i < |g.model| ensures NotQuote(g.model[i]) && NotBrace(g.model[i]) { IdCharIsPlain(g.model[i]); }
    GetFirst(g.id, g.model);
    LabelsAreRead(f, g);
    assert [("gpu", g.id)] + [] == [("gpu", g.id)];
    assert [("gpu", g.id)] + [("modelName", g.model)] == [("gpu", g.id), ("modelName", g.model)];
  }

  lemma FindNothing()
    ensures FindLabels([]) == []
  {
  }

  ghost predicate GoodFamily(f: Family) {
    && f.name != [] && All(f.name, IsNameChar) && IsNameStart(f.name[0]) && MetricOf(f.name) == Some(f.metric)
    && All(f.help, NotBreak) && All(f.kind, NotBreak)
  }

  lemma FamiliesAreGood()
    ensures forall i :: 0 <= i < |FAMILIES| ==> GoodFamily(FAMILIES[i])
  {
    hide All, GoodFamily;
    forall i | 0 <= i < |FAMILIES| ensures GoodFamily(FAMILIES[i]) { FamilyIsGood(i); }
  }

  lemma FamilyIsGood(i: nat)
    requires i < 5
    ensures GoodFamily(FAMILIES[i])
  {
    hide All, MetricOf;
    FamilyMetric(i);
    NamesAreNames(i);
    TextsUnbroken(i);
  }

  lemma FamilyMetric(i: nat)
    requires i < 5
    ensures MetricOf(FAMILIES[i].name) == Some(FAMILIES[i].metric)
  {
    assert |FAMILIES[0].name| == 20 && |FAMILIES[1].name| == 23 && |FAMILIES[2].name| == 20;
    assert |FAMILIES[3].name| == 22 && |FAMILIES[4].name| == 19;
    assert FAMILIES[2].name[16] != FAMILIES[0].name[16];
  }

  lemma NamesAreNames(i: nat)
    requires i < 5
    ensures var n := FAMILIES[i].name; n != [] && All(n, IsNameChar) && IsNameStart(n[0])
  {
    match i
    case 0 => TempIsName();
    case 1 => PowerIsName();
    case 2 => UtilIsName();
    case 3 => XidIsName();
    case _ => UsedIsName();
  }

  lemma TempIsName() ensures All("DCGM_FI_DEV_GPU_TEMP", IsNameChar) {}
  lemma PowerIsName() ensures All("DCGM_FI_DEV_POWER_USAGE", IsNameChar) {}
  lemma UtilIsName() ensures All("DCGM_FI_DEV_GPU_UTIL", IsNameChar) {}
  lemma XidIsName() ensures All("DCGM_FI_DEV_XID_ERRORS", IsNameChar) {}
  lemma UsedIsName() ensures All("DCGM_FI_DEV_FB_USED", IsNameChar) {}

  lemma TextsUnbroken(i: nat)
    requires i < 5
    ensures All(FAMILIES[i].help, NotBreak) && All(FAMILIES[i].kind, NotBreak)
  {
    KindsUnbroken();
    hide All;
    match i
    case 0 => TempUnbroken();
    case 1 => PowerUnbroken();
    case 2 => UtilUnbroken();
    case 3 => XidUnbroken();
    case _ => UsedUnbroken();
  }

  lemma KindsUnbroken() ensures All("gauge", NotBreak) && All("counter", NotBreak) {}
  lemma TempUnbroken() ensures All("GPU temperature (in C).", NotBreak) {}
  lemma PowerUnbroken() ensures All("GPU power usage in watts.", NotBreak) {}
  lemma UtilUnbroken() ensures All("GPU utilization (in %).", NotBreak) {}
  lemma XidUnbroken() ensures All("Count of XID errors observed.", NotBreak) {}
  lemma UsedUnbroken() ensures All("GPU framebuffer (mem) used in MiB.", NotBreak) {}

  lemma StripOfTight(s: string)
    requires s != [] && !IsSpace(s[0]) && !IsSpace(s[|s| - 1])
    ensures Strip(s) == s
  {
    SpanOf([], s, IsSpace);
    assert [] + s == s && s[0..] == s;
  }

  lemma NameCharIsPlain(c: char)
    requires IsNameChar(c)
    ensures !IsSpace(c) && !IsBreak(c) && c != '#'
  {
  }

  lemma SampleLayout(name: string, labels: string, value: string)
    requires name != [] && value != []
    ensures Sample(name, labels, value) == Layout(Match(name, Some(labels), value), " ", "")
    ensures var line := Sample(name, labels, value);
        line != [] && line[0] == name[0] && line[|line| - 1] == value[|value| - 1]
  {
  }

  lemma SampleMatches(name: string, labels: string, value: string)
    requires name != [] && All(name, IsNameChar) && IsNameStart(name[0]) && All(labels, NotBrace) && IsValue(value)
    ensures var line := Sample(name, labels, value);
            MatchLine(line) == Some(Match(name, Some(labels), value)) && Strip(line) == line && line != []
                && line[0] != '#'
  {
    hide IsValue, IsSpace, MatchLine, Strip, Layout, Sample, PartsOf;
    var line := Sample(name, labels, value);
    NumberHasNoSpace(value);
    SampleLayout(name, labels, value);
    OneSpace();
    MatcherComplete(line, Match(name, Some(labels), value));
    NameCharIsPlain(line[0]);
    assert NotSpace(value[|value| - 1]);
    StripOfTight(line);
  }

  lemma {:induction false} ParseMatched(line: string, m: Match, labels: string, metric: Metric, id: string)
    requires Strip(line) == line && line != [] && line[0] != '#' && MatchLine(line) == Some(m)
    requires m.labels == Some(labels) && MetricOf(m.name) == Some(metric) && GpuId(FindLabels(labels)) == id
        && id != [] && IsValue(m.value)
    ensures ParseLine(line) == Some(EventOf(id, metric, ParseNumber(m.value)))
  {
    hide IsValue, ParseNumber, FindLabels, MatchLine, MetricOf, GpuId, Strip, EventOf;
  }

  /** A printed sample reads back as its event. */
  lemma SampleRead(f: Family, g: GpuDevice, r: Reading)
    requires GoodFamily(f) && PlainGpu(g)
    ensures ParseLine(SampleLine(f, g, r)) == Some(EventOf(g.id, f.metric, Ratio(Value(f, r), f.decimals)))
  {
    hide IsValue, ParseNumber, Fixed, FindLabels, HallRack, MatchLine, Ratio, MetricOf, Value, GpuId, Sample, Strip,
        ParseLine, EventOf, LabelText;
    GpuIdRead(f, g);
    var labels, value := LabelsOf(f, g), Fixed(Value(f, r), f.decimals);
    FixedRoundTrip(Value(f, r), f.decimals);
    SampleMatches(f.name, labels, value);
    ParseMatched(SampleLine(f, g, r), Match(f.name, Some(labels), value), labels, f.metric, g.id);
  }

  lemma OneSpace()
    ensures All(" ", IsSpace) && All("", IsSpace)
  {
  }

  lemma {:induction false} StripKeepsHead(s: string, c: char)
    requires !IsSpace(c)
    ensures StripRight([c] + s) != [] && StripRight([c] + s)[0] == c
    decreases |s|
  {
    if s != [] && IsSpace(s[|s| - 1]) {
      assert ([c] + s)[..|s|] == [c] + s[..|s| - 1];
      StripKeepsHead(s[..|s| - 1], c);
    }
  }

  /** HELP and TYPE lines are skipped. */
  lemma CommentSkipped(s: string)
    ensures ParseLine("#" + s) == None
  {
    var line := "#" + s;
    SpanOf([], line, IsSpace);
    assert [] + line == line && line[0..] == line;
    StripKeepsHead(s, '#');
  }

  // ----- reading back the body -----

  lemma {:induction false} ParseLinesAppend(a: seq<string>, b: seq<string>)
    ensures ParseLines(a + b) == ParseLines(a) + ParseLines(b)
  {
    hide ParseLine;
    if b == [] {
      assert a + b == a;
    } else {
      var ab, pre := a + b, b[..|b| - 1];
      ParseLinesAppend(a, pre);
      assert ab[..|ab| - 1] == a + pre && ab[|ab| - 1] == b[|b| - 1];
    }
  }

  lemma {:induction false} SamplesRead(f: Family, gpus: seq<GpuDevice>, read: GpuDevice -> Reading)
    requires GoodFamily(f) && forall i :: 0 <= i < |gpus| ==> PlainGpu(gpus[i])
    ensures ParseLines(Samples(f, gpus, read)) == FamilyEvents(f, gpus, read)
  {
    hide GoodFamily, PlainGpu, ParseLine, SampleLine, EventOf;
    if gpus != [] {
      var pre, g := gpus[..|gpus| - 1], gpus[|gpus| - 1];
      SamplesRead(f, pre, read);
      SampleRead(f, g, read(g));
      var lines := Samples(f, gpus, read);
      assert lines[..|lines| - 1] == Samples(f, pre, read);
    }
  }

  lemma HeaderSkipped(f: Family)
    ensures ParseLines(Header(f)) == []
  {
    var help, kind := " HELP " + f.name + " " + f.help, " TYPE " + f.name + " " + f.kind;
    CommentSkipped(help);
    CommentSkipped(kind);
    hide ParseLine;
    var lines := Header(f);
    assert lines[0] == "#" + help && lines[1] == "#" + kind;
    assert lines[..1] == [lines[0]] && [lines[0]][..0] == [];
    assert ParseLines([]) == [];
    assert ParseLines([lines[0]]) == [];
  }

  lemma {:induction false} LinesRead(families: seq<Family>, gpus: seq<GpuDevice>, read: GpuDevice -> Reading)
    requires forall i :: 0 <= i < |families| ==> GoodFamily(families[i])
    requires forall i :: 0 <= i < |gpus| ==> PlainGpu(gpus[i])
    ensures ParseLines(Lines(families, gpus, read)) == Events(families, gpus, read)
  {
    hide GoodFamily, PlainGpu, ParseLine, Samples, Header, FamilyEvents, ParseLines;
    if families != [] {
      var pre, f := families[..|families| - 1], families[|families| - 1];
      LinesRead(pre, gpus, read);
      HeaderSkipped(f);
      SamplesRead(f, gpus, read);
      ParseLinesAppend(Lines(pre, gpus, read), Header(f));
      ParseLinesAppend(Lines(pre, gpus, read) + Header(f), Samples(f, gpus, read));
    } else {
      NoLines();
    }
  }

  lemma NoLines()
    ensures ParseLines([]) == []
  {
  }

  ghost predicate Unbroken(lines: seq<string>) {
    forall i :: 0 <= i < |lines| ==> All(lines[i], NotBreak)
  }

  lemma {:induction false} SplitLinesStep(line: string, rest: string)
    requires All(line, NotBreak)
    ensures SplitLines(line + "\n" + rest) == [line] + SplitLines(rest)
  {
    var s := line + "\n" + rest;
    assert s == line + ("\n" + rest);
    SpanOf(line, "\n" + rest, NotBreak);
    assert s[..|line|] == line && s[|line|] == '\n' && s[|line| + 1..] == rest;
  }

  /** Splitting a body into lines gives back the lines. */
  lemma {:induction false} SplitLinesOfBody(lines: seq<string>)
    requires Unbroken(lines)
    ensures SplitLines(Body(lines)) == lines
  {
    if lines != [] {
      var line, rest := lines[0], Body(lines[1..]);
      SplitLinesOfBody(lines[1..]);
      SplitLinesStep(line, rest);
      hide SplitLines;
      assert lines == [line] + lines[1..];
    }
  }

  lemma AllAppend(a: string, b: string, p: char -> bool)
    requires All(a, p) && All(b, p)
    ensures All(a + b, p)
  {
  }

  lemma FixedUnbroken(v: int, k: nat)
    ensures All(Fixed(v, k), NotBreak)
  {
    FixedRoundTrip(v, k);
    NumberHasNoSpace(Fixed(v, k));
    hide Fixed;
    forall i | 0 <= i < |Fixed(v, k)| ensures NotBreak(Fixed(v, k)[i]) {
      assert NotSpace(Fixed(v, k)[i]);
    }
  }

  lemma SampleUnbroken(f: Family, g: GpuDevice, r: Reading)
    requires GoodFamily(f) && PlainGpu(g)
    ensures All(SampleLine(f, g, r), NotBreak)
  {
    hide Fixed, MetricOf, Value;
    var value := Fixed(Value(f, r), f.decimals);
    FixedUnbroken(Value(f, r), f.decimals);
    forall i | 0 <= i < |g.id| ensures NotBreak(g.id[i]) { IdCharIsPlain(g.id[i]); }
    forall i | 0 <= i < |g.model| ensures NotBreak(g.model[i]) { IdCharIsPlain(g.model[i]); }
    forall i | 0 <= i < |f.name| ensures NotBreak(f.name[i]) { NameCharIsPlain(f.name[i]); }
    assert All(LabelsOf(f, g), NotBreak);
    AllAppend(f.name, "{", NotBreak);
    AllAppend(f.name + "{", LabelsOf(f, g), NotBreak);
    AllAppend(f.name + "{" + LabelsOf(f, g), "} ", NotBreak);
    AllAppend(f.name + "{" + LabelsOf(f, g) + "} ", value, NotBreak);
  }

  lemma HeaderUnbroken(f: Family)
    requires GoodFamily(f)
    ensures Unbroken(Header(f))
  {
    forall i | 0 <= i < |f.name| ensures NotBreak(f.name[i]) { NameCharIsPlain(f.name[i]); }
  }

  lemma {:induction false} SamplesUnbroken(f: Family, gpus: seq<GpuDevice>, read: GpuDevice -> Reading)
    requires GoodFamily(f) && forall i :: 0 <= i < |gpus| ==> PlainGpu(gpus[i])
    ensures Unbroken(Samples(f, gpus, read))
  {
    if gpus != [] {
      SamplesUnbroken(f, gpus[..|gpus| - 1], read);
      SampleUnbroken(f, gpus[|gpus| - 1], read(gpus[|gpus| - 1]));
    }
  }

  lemma {:induction false} LinesUnbroken(families: seq<Family>, gpus: seq<GpuDevice>, read: GpuDevice -> Reading)
    requires forall i :: 0 <= i < |families| ==> GoodFamily(families[i])
    requires forall i :: 0 <= i < |gpus| ==> PlainGpu(gpus[i])
    ensures Unbroken(Lines(families, gpus, read))
  {
    hide GoodFamily, PlainGpu, Header, Samples, All;
    if families != [] {
      var f := families[|families| - 1];
      LinesUnbroken(families[..|families| - 1], gpus, read);
      HeaderUnbroken(f);
      SamplesUnbroken(f, gpus, read);
    }
  }

  /** MAIN: parsing what the mock prints gives back every reading, in order, with the
      same metric, the same GPU id and the exact value. */
  lemma {:induction false} ExpositionRoundTrip(gpus: seq<GpuDevice>, read: GpuDevice -> Reading)
    requires forall i :: 0 <= i < |gpus| ==> PlainGpu(gpus[i])
    ensures ParseLines(SplitLines(Body(Lines(FAMILIES, gpus, read)))) == Events(FAMILIES, gpus, read)
  {
    hide GoodFamily, PlainGpu;
    FamiliesAreGood();
    LinesUnbroken(FAMILIES, gpus, read);
    SplitLinesOfBody(Lines(FAMILIES, gpus, read));
    LinesRead(FAMILIES, gpus, read);
  }

  // ----- what is read, place by place -----

  lemma {:induction false} FamilyEventsAt(f: Family, gpus: seq<GpuDevice>, read: GpuDevice -> Reading)
    ensures |FamilyEvents(f, gpus, read)| == |gpus|
    ensures forall i :: 0 <= i < |gpus| ==>
              FamilyEvents(f, gpus, read)[i] == EventOf(gpus[i].id, f.metric,
                  Ratio(Value(f, read(gpus[i])), f.decimals))
  {
    hide EventOf, Ratio, Value;
    if gpus != [] { FamilyEventsAt(f, gpus[..|gpus| - 1], read); }
  }

  lemma {:induction false} EventsOfFamilies(gpus: seq<GpuDevice>, read: GpuDevice -> Reading)
    ensures Events(FAMILIES, gpus, read)
         == FamilyEvents(FAMILIES[0], gpus, read) + FamilyEvents(FAMILIES[1], gpus, read)
             + FamilyEvents(FAMILIES[2], gpus, read)
            + FamilyEvents(FAMILIES[3], gpus, read) + FamilyEvents(FAMILIES[4], gpus, read)
  {
    hide FamilyEvents;
    var fs := FAMILIES;
    assert fs[..4][..3] == fs[..3] && fs[..3][..2] == fs[..2] && fs[..2][..1] == fs[..1] && fs[..1][..0] == [];
    assert Events([], gpus, read) == [];
    assert Events(fs[..1], gpus, read) == [] + FamilyEvents(fs[0], gpus, read);
    assert Events(fs[..2], gpus, read) == Events(fs[..1], gpus, read) + FamilyEvents(fs[1], gpus, read);
    assert Events(fs[..3], gpus, read) == Events(fs[..2], gpus, read) + FamilyEvents(fs[2], gpus, read);
    assert Events(fs[..4], gpus, read) == Events(fs[..3], gpus, read) + FamilyEvents(fs[3], gpus, read);
  }

  /** The event carries this reading of this GPU. */
  predicate Reads(e: Event, g: GpuDevice, metric: Metric, value: real) {
    e.deviceId == g.id && e.metric == metric && e.value == value
    && (e.critical <==> metric == GpuXid && value > 0.0)
  }

  lemma EventReads(g: GpuDevice, metric: Metric, v: int, decimals: nat)
    ensures Reads(EventOf(g.id, metric, Ratio(v, decimals)), g, metric, Ratio(v, decimals))
    ensures Ratio(v, 2) == v as real / 100.0 && Ratio(v, 1) == v as real / 10.0 && Ratio(v, 0) == v as real
  {
    hide HallRack;
    assert Pow10(1) == 10 && Pow10(2) == 100;
  }

  /** MAIN: polling what the mock prints gives, in this order and nothing else, the
      temperatures and powers in hundredths, the utilisations in tenths, the XID counts of
      zero, and the used memory, each for all GPUs in turn. */
  lemma {:induction false} ReadingsInOrder(gpus: seq<GpuDevice>, read: GpuDevice -> Reading)
    requires forall i :: 0 <= i < |gpus| ==> PlainGpu(gpus[i])
    ensures
      (var es, n := ParseLines(SplitLines(Body(Lines(FAMILIES, gpus, read)))), |gpus|;
       && |es| == 5 * n
       && (forall i :: 0 <= i < n ==> Reads(es[i], gpus[i], GpuTemp, read(gpus[i]).temp as real / 100.0))
       && (forall i :: 0 <= i < n ==> Reads(es[n + i], gpus[i], GpuPower, read(gpus[i]).power as real / 100.0))
       && (forall i :: 0 <= i < n ==> Reads(es[2 * n + i], gpus[i], GpuUtil, read(gpus[i]).util as real / 10.0))
       && (forall i :: 0 <= i < n ==> Reads(es[3 * n + i], gpus[i], GpuXid, 0.0))
       && (forall i :: 0 <= i < n ==> Reads(es[4 * n + i], gpus[i], GpuMemUsed, read(gpus[i]).used as real)))
  {
    ExpositionRoundTrip(gpus, read);
    EventsOfFamilies(gpus, read);
    hide PlainGpu, ParseLines, SplitLines, Body, Lines, Events, FamilyEvents, EventOf, Ratio, Reads, Value;
    var a, b, c := FamilyEvents(FAMILIES[0], gpus, read), FamilyEvents(FAMILIES[1], gpus, read),
        FamilyEvents(FAMILIES[2], gpus, read);
    var d, e := FamilyEvents(FAMILIES[3], gpus, read), FamilyEvents(FAMILIES[4], gpus, read);
    FamilyReads(0, gpus, read);
    FamilyReads(1, gpus, read);
    FamilyReads(2, gpus, read);
    FamilyReads(3, gpus, read);
    FamilyReads(4, gpus, read);
    hide FAMILIES;
    FiveParts(a, b, c, d, e, |gpus|);
  }

  /** One family's events, in numbers. */
  lemma {:induction false} FamilyReads(k: nat, gpus: seq<GpuDevice>, read: GpuDevice -> Reading)
    requires k < 5
    ensures var es := FamilyEvents(FAMILIES[k], gpus, read);
            && |es| == |gpus|
            && forall i :: 0 <= i < |gpus| ==>
                 && (k == 0 ==> Reads(es[i], gpus[i], GpuTemp, read(gpus[i]).temp as real / 100.0))
                 && (k == 1 ==> Reads(es[i], gpus[i], GpuPower, read(gpus[i]).power as real / 100.0))
                 && (k == 2 ==> Reads(es[i], gpus[i], GpuUtil, read(gpus[i]).util as real / 10.0))
                 && (k == 3 ==> Reads(es[i], gpus[i], GpuXid, 0.0))
                 && (k == 4 ==> Reads(es[i], gpus[i], GpuMemUsed, read(gpus[i]).used as real))
  {
    hide FamilyEvents, EventOf, Ratio, Reads;
    var f := FAMILIES[k];
    FamilyEventsAt(f, gpus, read);
    forall i | 0 <= i < |gpus|
      ensures FamilyEvents(f, gpus, read)[i] == EventOf(gpus[i].id, f.metric,
          Ratio(Value(f, read(gpus[i])), f.decimals))
      ensures Reads(EventOf(gpus[i].id, f.metric, Ratio(Value(f, read(gpus[i])), f.decimals)), gpus[i], f.metric,
                    Ratio(Value(f, read(gpus[i])), f.decimals))
    {
      EventReads(gpus[i], f.metric, Value(f, read(gpus[i])), f.decimals);
    }
    forall i | 0 <= i < |gpus| { EventReads(gpus[i], f.metric, Value(f, read(gpus[i])), f.decimals); }
  }

  lemma FiveParts<T>(a: seq<T>, b: seq<T>, c: seq<T>, d: seq<T>, e: seq<T>, n: nat)
    requires |a| == |b| == |c| == |d| == |e| == n
    ensures var all := a + b + c + d + e;
            && |all| == 5 * n
            && forall i :: 0 <= i < n ==>
                 all[i] == a[i] && all[n + i] == b[i] && all[2 * n + i] == c[i] && all[3 * n + i] == d[i]
                     && all[4 * n + i] == e[i]
  {
  }

  /** The lines of the five families, as they are printed. */
  lemma PrintedLines(g: GpuDevice, r: Reading)
    ensures
      (var id, both := "{gpu=\"" + g.id + "\"", "{gpu=\"" + g.id + "\",modelName=\"" + g.model + "\"";
       && SampleLine(FAMILIES[0], g, r) == "DCGM_FI_DEV_GPU_TEMP" + both + "} " + Fixed(r.temp, 2)
       && SampleLine(FAMILIES[1], g, r) == "DCGM_FI_DEV_POWER_USAGE" + both + "} " + Fixed(r.power, 2)
       && SampleLine(FAMILIES[2], g, r) == "DCGM_FI_DEV_GPU_UTIL" + both + "} " + Fixed(r.util, 1)
       && SampleLine(FAMILIES[3], g, r) == "DCGM_FI_DEV_XID_ERRORS" + id + "} " + Fixed(0, 0)
       && SampleLine(FAMILIES[4], g, r) == "DCGM_FI_DEV_FB_USED" + id + "} " + Fixed(r.used, 0))
  {
    hide Fixed;
    LabelPrinted(g);
    hide LabelText;
    forall i | 0 <= i < 5 { SamplePrinted(FAMILIES[i], g, r); }
  }

  lemma LabelPrinted(g: GpuDevice)
    ensures "{" + LabelText("gpu", g.id) == "{gpu=\"" + g.id + "\""
    ensures "{" + (LabelText("gpu", g.id) + ("," + LabelText("modelName", g.model)))
         == "{gpu=\"" + g.id + "\",modelName=\"" + g.model + "\""
  {
  }

  lemma SamplePrinted(f: Family, g: GpuDevice, r: Reading)
    ensures SampleLine(f, g, r)
         == f.name + (if f.withModel then "{" + (LabelText("gpu", g.id) + ("," + LabelText("modelName", g.model)))
                      else "{" + LabelText("gpu", g.id))
            + "} " + Fixed(Value(f, r), f.decimals)
  {
    hide Fixed, LabelText, Value;
  }

  /** A fixed-point number: a sign if it is negative, a whole part without leading zeros, and
      exactly as many digits after the point as asked for. */
  lemma FixedShape(v: int, k: nat) returns (whole: nat, digits: string)
    ensures |digits| == k && AllDigits(digits)
    ensures Fixed(v, k) == (if v < 0 then "-" else []) + (Decimal(whole) + if k == 0 then [] else "." + digits)
  {
    hide Decimal, Pow10, Quot, Rem, Padded;
    whole, digits := Quot(Abs(v), Pow10(k)), Padded(Rem(Abs(v), Pow10(k)), k);
  }

  // ----- what any number gives -----

  /** The written form of a number: an optional sign, digits, perhaps a point and digits, and
      perhaps an exponent with its own optional sign; some digit stands before or after the
      point. */
  datatype Numeral = Numeral(sign: string, whole: string, point: bool, fraction: string,
      exponent: Option<(char, string, string)>)

  predicate IsNumeral(n: Numeral) {
    && n.sign in {"", "-", "+"} && AllDigits(n.whole) && AllDigits(n.fraction)
    && (if n.point then n.whole != [] || n.fraction != [] else n.whole != [] && n.fraction == [])
    && (n.exponent.Some? ==>
          var (mark, sign, digits) := n.exponent.value;
          mark in {'e', 'E'} && sign in {"", "-", "+"} && digits != [] && AllDigits(digits))
  }

  function Exponent(n: Numeral): (s: string)
  {
    match n.exponent case None => [] case Some((mark, sign, digits)) => [mark] + (sign + digits)
  }

  function Tail(n: Numeral): (s: string)
  {
    (if n.point then "." + n.fraction else []) + Exponent(n)
  }

  function Written(n: Numeral): (s: string)
  {
    n.sign + (n.whole + Tail(n))
  }

  lemma UnsignedWritten(sign: string, u: string)
    requires sign in {"", "-", "+"} && u != [] && u[0] != '-' && u[0] != '+'
    ensures Unsigned(sign + u) == u && (sign + u != [] && (sign + u)[0] == '-' <==> sign == "-")
  {
    if sign == [] { assert sign + u == u; } else { assert (sign + u)[1..] == u && (sign + u)[0] == sign[0]; }
  }

  lemma ExponentStarts(n: Numeral)
    requires IsNumeral(n)
    ensures Exponent(n) != [] ==> Exponent(n)[0] in {'e', 'E'} && !IsDigit(Exponent(n)[0])
  {
  }

  lemma PartsOfWritten(n: Numeral)
    requires IsNumeral(n)
    ensures PartsOf(Written(n)) == Parts(n.sign == "-", n.whole, n.fraction, Exponent(n))
  {
    var u := n.whole + Tail(n);
    ExponentStarts(n);
    assert u != [] && u[0] != '-' && u[0] != '+';
    UnsignedWritten(n.sign, u);
    TailParts(n);
    hide Exponent;
    SpanOfDigits(n.whole, Tail(n));
  }

  lemma {:induction false} SpanOfDigits(d: string, rest: string)
    requires AllDigits(d) && (rest != [] ==> !IsDigit(rest[0]))
    ensures Span(d + rest, IsDigit) == |d| && (d + rest)[..|d|] == d && (d + rest)[|d|..] == rest
  {
    SpanOf(d, rest, IsDigit);
  }

  lemma TailParts(n: Numeral)
    requires IsNumeral(n)
    ensures Tail(n) != [] ==> !IsDigit(Tail(n)[0])
    ensures forall negative :: AfterWhole(negative, n.whole, Tail(n)) == Parts(negative, n.whole, n.fraction,
        Exponent(n))
  {
    ExponentStarts(n);
    hide Exponent;
    if n.point {
      assert Tail(n) == "." + (n.fraction + Exponent(n));
      assert Tail(n)[1..] == n.fraction + Exponent(n);
      SpanOfDigits(n.fraction, Exponent(n));
    } else {
      assert Tail(n) == Exponent(n);
    }
  }

  /** MAIN: every number in the written form is a value of the line grammar, and reads as its
      digits over the power of ten of its fraction, times or over that of its exponent. */
  lemma NumeralReads(n: Numeral)
    requires IsNumeral(n)
    ensures IsValue(Written(n))
    ensures
      (var digits := Number(n.whole + n.fraction) as real / Pow10(|n.fraction|) as real;
       var signed := if n.sign == "-" then -digits else digits;
       ParseNumber(Written(n))
       == match n.exponent
          case None => signed
          case Some((_, sign, power)) =>
            if sign == "-" then signed / Pow10(Number(power)) as real else signed * Pow10(Number(power)) as real)
  {
    hide PartsOf, Number, Pow10, Written, Unsigned, Exponent, Magnitude;
    PartsOfWritten(n);
    ExponentReads(n);
    var p := Parts(n.sign == "-", n.whole, n.fraction, Exponent(n));
    MagnitudeMeans(p);
    NumberOfParts(Written(n), p);
  }

  lemma MagnitudeMeans(p: Parts)
    requires AllDigits(p.whole) && AllDigits(p.fraction)
    ensures Magnitude(p) == Number(p.whole + p.fraction) as real / Pow10(|p.fraction|) as real
  {
  }

  lemma NumberOfParts(v: string, p: Parts)
    requires PartsOf(v) == p && (p.whole != [] || p.fraction != [])
    requires p.exponent == [] || (p.exponent[0] in {'e', 'E'} && Unsigned(p.exponent[1..]) != []
        && AllDigits(Unsigned(p.exponent[1..])))
    ensures IsValue(v)
    ensures var x := if p.negative then -Magnitude(p) else Magnitude(p);
            ParseNumber(v)
            == if p.exponent == [] then x
               else if p.exponent[1..] != [] && p.exponent[1..][0] == '-'
               then x / Pow10(Number(Unsigned(p.exponent[1..]))) as real
               else x * Pow10(Number(Unsigned(p.exponent[1..]))) as real
  {
    hide PartsOf, Number, Pow10, Magnitude;
  }

  lemma ExponentReads(n: Numeral)
    requires IsNumeral(n)
    ensures n.exponent.None? ==> Exponent(n) == []
    ensures n.exponent.Some? ==>
              var (mark, sign, power) := n.exponent.value;
              && Exponent(n) != [] && Exponent(n)[0] in {'e', 'E'} && power != [] && AllDigits(power)
              && Unsigned(Exponent(n)[1..]) == power && Exponent(n)[1..] != []
                  && (Exponent(n)[1..][0] == '-' <==> sign == "-")
  {
    if n.exponent.Some? {
      var (mark, sign, power) := n.exponent.value;
      assert Exponent(n)[1..] == sign + power;
      UnsignedWritten(sign, power);
    }
  }

  /** MAIN: and the values of the grammar are exactly the numbers in the written form. */
  lemma ValueIsNumeral(v: string) returns (n: Numeral)
    requires IsValue(v)
    ensures IsNumeral(n) && v == Written(n)
  {
    hide Unsigned, AllDigits;
    var p, u := PartsOf(v), Unsigned(v);
    var sign := SignOf(v);
    var point := UnsignedParts(v != [] && v[0] == '-', u);
    var exponent := ExponentOf(p.exponent);
    n := Numeral(sign, p.whole, point, p.fraction, exponent);
  }

  lemma SignOf(v: string) returns (sign: string)
    ensures sign in {"", "-", "+"} && v == sign + Unsigned(v)
  {
    sign := if v != [] && (v[0] == '-' || v[0] == '+') then [v[0]] else [];
    if sign != [] { assert v == [v[0]] + v[1..]; } else { assert v == [] + v; }
  }

  lemma Cut(s: string, n: nat)
    requires n <= |s|
    ensures s == s[..n] + s[n..]
  {
  }

  lemma CutAfterFirst(s: string, c: char, m: nat)
    requires s != [] && s[0] == c && m < |s|
    ensures s == ([c] + s[1..][..m]) + s[1..][m..]
  {
  }

  lemma AfterWholeParts(negative: bool, whole: string, rest: string) returns (point: bool)
    requires AllDigits(whole)
    ensures var p := AfterWhole(negative, whole, rest);
            && p.whole == whole && rest == (if point then "." + p.fraction else []) + p.exponent
            && (!point ==> p.fraction == [])
  {
    hide AllDigits;
    point := rest != [] && rest[0] == '.';
    if point {
      CutAfterFirst(rest, '.', Span(rest[1..], IsDigit));
    } else {
      assert [] + rest == rest;
    }
  }

  lemma UnsignedParts(negative: bool, u: string) returns (point: bool)
    ensures var p := AfterSign(negative, u);
            && u == p.whole + ((if point then "." + p.fraction else []) + p.exponent)
            && (!point ==> p.fraction == [])
  {
    hide AfterWhole, AllDigits;
    var n := Span(u, IsDigit);
    Cut(u, n);
    assert AllDigits(u[..n]) by { DigitsSpanned(u); }
    point := AfterWholeParts(negative, u[..n], u[n..]);
  }

  lemma {:induction false} DigitsSpanned(u: string)
    ensures AllDigits(u[..Span(u, IsDigit)])
  {
  }

  lemma ExponentOf(e: string) returns (exponent: Option<(char, string, string)>)
    requires e == [] || (e[0] in {'e', 'E'} && Unsigned(e[1..]) != [] && AllDigits(Unsigned(e[1..])))
    ensures exponent.None? <==> e == []
    ensures exponent.Some? ==>
              var (mark, sign, digits) := exponent.value;
              && mark in {'e', 'E'} && sign in {"", "-", "+"} && digits != [] && AllDigits(digits)
              && e == [mark] + (sign + digits)
  {
    exponent := None;
    if e != [] {
      var sign := SignOf(e[1..]);
      assert e == [e[0]] + e[1..];
      exponent := Some((e[0], sign, Unsigned(e[1..])));
    }
  }

  // ----- what any line gives -----

  /** A label list: the value of a name is that of its last label. */
  lemma {:induction false} GetIsLast(labels: Labels, name: string, i: nat)
    requires i < |labels| && labels[i].0 == name && forall j :: i < j < |labels| ==> labels[j].0 != name
    ensures Get(labels, name) == labels[i].1
  {
    if i < |labels| - 1 { GetIsLast(labels[..|labels| - 1], name, i); }
  }

  /** And empty when there is none. */
  lemma {:induction false} GetMissing(labels: Labels, name: string)
    requires forall i :: 0 <= i < |labels| ==> labels[i].0 != name
    ensures Get(labels, name) == ""
  {
    if labels != [] { GetMissing(labels[..|labels| - 1], name); }
  }

  /** MAIN: what a line gives that matches the grammar when its outer white space is off: an
      event if its name is one of the five and one of the labels gpu, UUID and device is not
      empty; the first of them names the GPU, and only an XID count above zero is critical. */
  lemma MatchedLineGives(raw: string, m: Match)
    requires Matches(Strip(raw), m)
    ensures IsValue(m.value)
    ensures
      (var labels := if m.labels.Some? then FindLabels(m.labels.value) else [];
       var id := if Get(labels, "gpu") != "" then Get(labels, "gpu")
                 else if Get(labels, "UUID") != "" then Get(labels, "UUID") else Get(labels, "device");
       var value := ParseNumber(m.value);
       ParseLine(raw)
       == match MetricOf(m.name)
          case None => None
          case Some(metric) =>
            if id == "" then None
            else Some(Event(id, HallRack(id).0, HallRack(id).1, metric, value, metric == GpuXid && value > 0.0)))
  {
    hide Strip, MatchLine, FindLabels, Get, HallRack, ParseNumber, IsValue, MetricOf, Layout;
    MatcherIsGrammar(Strip(raw), m);
    MatchStarts(Strip(raw), m);
  }

  /** A line that does not match gives nothing. */
  lemma UnmatchedLineGivesNothing(raw: string)
    requires forall m :: !Matches(Strip(raw), m)
    ensures ParseLine(raw) == None
  {
    hide Strip, MatchLine, Matches;
    if MatchLine(Strip(raw)).Some? { MatcherIsGrammar(Strip(raw), MatchLine(Strip(raw)).value); }
  }

  lemma MatchStarts(line: string, m: Match)
    requires Matches(line, m)
    ensures line != [] && line[0] != '#' && IsValue(m.value)
  {
    hide IsValue;
    assert line[0] == m.name[0];
  }

  /** The metric names, and nothing else. */
  lemma MetricNames(name: string)
    ensures MetricOf(name) == Some(GpuTemp) <==> name == "DCGM_FI_DEV_GPU_TEMP"
    ensures MetricOf(name) == Some(GpuPower) <==> name == "DCGM_FI_DEV_POWER_USAGE"
    ensures MetricOf(name) == Some(GpuUtil) <==> name == "DCGM_FI_DEV_GPU_UTIL"
    ensures MetricOf(name) == Some(GpuMemUsed) <==> name == "DCGM_FI_DEV_FB_USED"
    ensures MetricOf(name) == Some(GpuXid) <==> name == "DCGM_FI_DEV_XID_ERRORS"
  {
    assert "DCGM_FI_DEV_GPU_TEMP"[12] == 'G' && "DCGM_FI_DEV_POWER_USAGE"[12] == 'P'
        && "DCGM_FI_DEV_GPU_UTIL"[12] == 'G';
    assert "DCGM_FI_DEV_FB_USED"[12] == 'F' && "DCGM_FI_DEV_XID_ERRORS"[12] == 'X';
    assert "DCGM_FI_DEV_GPU_TEMP"[16] == 'T' && "DCGM_FI_DEV_GPU_UTIL"[16] == 'U';
  }

  /** Stripping takes off white space on both sides, and all of it. */
  lemma StripMeans(s: string) returns (left: string, right: string)
    ensures s == left + Strip(s) + right && All(left, IsSpace) && All(right, IsSpace)
    ensures Strip(s) != [] ==> !IsSpace(Strip(s)[0]) && !IsSpace(Strip(s)[|Strip(s)| - 1])
  {
    hide IsSpace, StripRight, All;
    var n := Span(s, IsSpace);
    left := s[..n];
    Cut(s, n);
    right := StripRightMeans(s[n..]);
    SameStart(s[n..], Strip(s), right);
    Together(left, Strip(s), right, s[n..]);
  }

  lemma SameStart(s: string, r: string, right: string)
    requires s == r + right
    ensures r != [] ==> s != [] && s[0] == r[0]
  {
  }

  lemma Together(a: string, b: string, c: string, bc: string)
    requires bc == b + c
    ensures a + bc == a + b + c
  {
  }

  lemma {:induction false} StripRightMeans(s: string) returns (right: string)
    ensures s == StripRight(s) + right && All(right, IsSpace)
    ensures StripRight(s) != [] ==> !IsSpace(StripRight(s)[|StripRight(s)| - 1])
  {
    hide IsSpace;
    right := [];
    if s != [] && IsSpace(s[|s| - 1]) {
      var r := StripRightMeans(s[..|s| - 1]);
      right := r + [s[|s| - 1]];
      assert s == s[..|s| - 1] + [s[|s| - 1]];
    }
  }

  /** A line ends at any break character; a break at the very end starts no further line. */
  lemma {:induction false} SplitLinesMeans(line: string, b: char, rest: string)
    requires All(line, NotBreak) && IsBreak(b) && !(b == '\r' && rest != [] && rest[0] == '\n')
    ensures SplitLines(line + [b] + rest) == [line] + SplitLines(rest)
  {
    var s := line + [b] + rest;
    assert s == line + ([b] + rest);
    SpanOf(line, [b] + rest, NotBreak);
    hide NotBreak, IsBreak;
    assert s[..|line|] == line && s[|line|] == b && s[|line| + 1..] == rest;
    assert |line| + 1 < |s| ==> s[|line| + 1] == rest[0];
  }

  /** A carriage return and its newline are one break. */
  lemma {:induction false} ReturnNewlineIsOneBreak(line: string, rest: string)
    requires All(line, NotBreak)
    ensures SplitLines(line + "\r\n" + rest) == [line] + SplitLines(rest)
  {
    var s := line + "\r\n" + rest;
    assert s == line + ("\r\n" + rest);
    SpanOf(line, "\r\n" + rest, NotBreak);
    hide NotBreak, IsBreak;
    assert s[..|line|] == line && s[|line|] == '\r' && s[|line| + 1] == '\n' && s[|line| + 2..] == rest;
  }

  lemma {:induction false} LastLine(line: string)
    requires All(line, NotBreak)
    ensures SplitLines(line) == if line == [] then [] else [line]
  {
    SpanOf(line, [], NotBreak);
    assert line + [] == line;
  }

  /** The characters of names: of metrics, and of labels. */
  lemma NameCharacters(c: char)
    ensures IsNameStart(c) <==> 'a' <= c <= 'z' || 'A' <= c <= 'Z' || c == '_' || c == ':'
    ensures IsNameChar(c) <==> IsNameStart(c) || '0' <= c <= '9'
    ensures IsLabelStart(c) <==> IsNameStart(c) && c != ':'
    ensures IsLabelChar(c) <==> IsNameChar(c) && c != ':'
  {
  }

  /** Python's white space. */
  lemma Spaces(c: char)
    ensures IsSpace(c) <==>
              c in {'\t', '\n', '\U{0B}', '\U{0C}', '\r', '\U{1C}', '\U{1D}', '\U{1E}', '\U{1F}', ' ', '\U{85}',
                  '\U{A0}',
                    '\U{1680}', '\U{2000}', '\U{2001}', '\U{2002}', '\U{2003}', '\U{2004}', '\U{2005}', '\U{2006}',
                    '\U{2007}', '\U{2008}', '\U{2009}', '\U{200A}', '\U{2028}', '\U{2029}', '\U{202F}', '\U{205F}',
                    '\U{3000}'}
  {
  }

  /** The characters at which Python's `splitlines` breaks. */
  lemma Breaks(c: char)
    ensures IsBreak(c) <==>
              c in {'\n', '\U{0B}', '\U{0C}', '\r', '\U{1C}', '\U{1D}', '\U{1E}', '\U{85}', '\U{2028}', '\U{2029}'}
  {
  }

  /** The labels printed one after the other, with commas. */
  function Joined(labels: Labels): (s: string)
  {
    if labels == [] then []
    else LabelText(labels[0].0, labels[0].1) + if |labels| == 1 then [] else "," + Joined(labels[1..])
  }

  /** Any list of labels with proper names, and values without quotes, reads back. */
  lemma {:induction false} LabelListRead(labels: Labels)
    requires forall i :: 0 <= i < |labels| ==>
               labels[i].0 != [] && IsLabelStart(labels[i].0[0]) && All(labels[i].0, IsLabelChar)
                   && All(labels[i].1, NotQuote)
    ensures FindLabels(Joined(labels)) == labels
  {
    hide FindLabels, LabelText, IsLabelStart, IsLabelChar, NotQuote;
    FindNothing();
    if labels != [] {
      var first, rest := labels[0], labels[1..];
      assert labels == [first] + rest;
      if |labels| == 1 {
        LabelsRead(first.0, first.1, []);
        assert Joined(labels) == LabelText(first.0, first.1) + [];
      } else {
        assert forall i :: 0 <= i < |rest| ==> rest[i] == labels[i + 1];
        LabelListRead(rest);
        LabelsRead(first.0, first.1, "," + Joined(rest));
        FindAfterComma(Joined(rest));
      }
    }
  }

  // ----- hall and rack -----

  lemma {:induction false} SplitSite(site: string)
    ensures Split(site, '-') == [site] <==> '-' !in site
    ensures |Split(site, '-')| == 1 <==> '-' !in site
  {
    if site != [] {
      SplitSite(site[1..]);
      assert site == [site[0]] + site[1..];
    }
  }

  /** MAIN: the parser recovers the hall and the rack the topology put a GPU in exactly
      when the site id has no dash. */
  lemma HallRackRecoveredIff(site: string, h: nat, r: nat, s: nat, g: nat)
    ensures HallRack(Devices.IdAt(site, Devices.AtGpu(h, r, s, g))) == (Devices.HallId(site, h),
        Devices.RackId(site, h, r))
       <==> '-' !in site
  {
    hide Split, Decimal, Decimal2;
    var id := Devices.IdAt(site, Devices.AtGpu(h, r, s, g));
    var parts, segments := Split(site, '-'), Devices.Segments(Devices.AtGpu(h, r, s, g));
    Devices.SplitId(site, Devices.AtGpu(h, r, s, g));
    SplitSite(site);
    var all := parts + segments;
    assert Split(id, '-') == all;
    if '-' !in site {
      assert all[0] == site && all[1] == segments[0] && all[2] == segments[1];
      var hall, rack := all[0] + "-" + all[1], all[0] + "-" + all[1] + "-" + all[2];
      assert hall == Devices.HallId(site, h);
      assert rack == Devices.RackId(site, h, r);
    } else {
      // The right hall has at least two dashes, the parser's answer at most one.
      Devices.SplitHallId(site, h);
      assert |Split(Devices.HallId(site, h), '-')| >= 3;
      ParsedHallShort(id);
    }
  }

  lemma ParsedHallShort(id: string)
    ensures |Split(HallRack(id).0, '-')| <= 2
  {
    var parts := Split(id, '-');
    PartsDashFree(id);
    SplitPlain("unknown", '-');
    SplitPlain(parts[0], '-');
    if |parts| >= 4 { SplitSegment(parts[0], parts[1]); }
  }

  lemma {:induction false} PartsDashFree(s: string)
    ensures forall i :: 0 <= i < |Split(s, '-')| ==> '-' !in Split(s, '-')[i]
  {
    if s != [] { PartsDashFree(s[1..]); }
  }

  /** For any id: hall and rack are its first two and three parts, if it has four or more
      with the right initials, and unknown otherwise. */
  lemma HallRackMeans(site: string, hall: string, rack: string, rest: string)
    requires '-' !in site && '-' !in hall && '-' !in rack
    ensures var id := site + "-" + ("h" + hall) + "-" + ("r" + rack) + "-" + rest;
            HallRack(id) == (site + "-" + ("h" + hall), site + "-" + ("h" + hall) + "-" + ("r" + rack))
  {
    hide Split;
    var a, b := site + "-" + ("h" + hall), site + "-" + ("h" + hall) + "-" + ("r" + rack);
    SplitPlain(site, '-');
    SplitSegment(site, "h" + hall);
    SplitSegment(a, "r" + rack);
    SplitAround(b, '-', rest);
    assert b + ['-'] + rest == b + "-" + rest;
    var parts := Split(b, '-') + Split(rest, '-');
    assert parts[0] == site && parts[1] == "h" + hall && parts[2] == "r" + rack;
  }

  /** And only such ids have a known hall. */
  lemma HallKnownMeans(id: string) returns (site: string, hall: string, rack: string, rest: string)
    requires HallRack(id) != ("unknown", "unknown")
    ensures '-' !in site && '-' !in hall && '-' !in rack
    ensures id == site + "-" + ("h" + hall) + "-" + ("r" + rack) + "-" + rest
  {
    var parts := Split(id, '-');
    PartsDashFree(id);
    site, hall, rack := parts[0], parts[1][1..], parts[2][1..];
    var after1 := FirstPart(id);
    var after2 := FirstPart(after1);
    rest := FirstPart(after2);
    assert parts[1] == "h" + hall && parts[2] == "r" + rack;
    assert Split(after1, '-') == parts[1..] && Split(after2, '-') == parts[2..];
  }

  lemma {:induction false} FirstPart(s: string) returns (rest: string)
    requires |Split(s, '-')| >= 2
    ensures s == Split(s, '-')[0] + "-" + rest && Split(rest, '-') == Split(s, '-')[1..]
  {
    if s[0] == '-' {
      rest := s[1..];
    } else {
      rest := FirstPart(s[1..]);
      assert s == [s[0]] + s[1..];
    }
  }

  // ----- the mock's topology -----

  /** The place comes before server (h, r, s) in the builder's order. */
  predicate Before(p: Devices.Place, h: nat, r: nat, s: nat) {
    p.AtGpu? && (p.h < h || (p.h == h && (p.r < r || (p.r == r && p.s < s))))
  }

  predicate InSite(p: Devices.Place, halls: nat, racks: nat, servers: nat, dense: (nat, nat, nat) -> bool) {
    p.AtGpu? && p.h < halls && p.r < racks && p.s < servers && p.g < 2 && dense(p.h, p.r, p.s)
  }

  /** The builder's order. */
  predicate Earlier(p: Devices.Place, q: Devices.Place) {
    p.AtGpu? && q.AtGpu? && (Before(p, q.h, q.r, q.s) || (p.h == q.h && p.r == q.r && p.s == q.s && p.g < q.g))
  }

  ghost predicate InOrder(places: seq<Devices.Place>) {
    forall i, j :: 0 <= i < j < |places| ==> Earlier(places[i], places[j])
  }

  ghost predicate Inventory(site: string, gpus: seq<GpuDevice>, places: seq<Devices.Place>) {
    && |gpus| == |places|
    && forall i :: 0 <= i < |gpus| ==>
        places[i].AtGpu? && gpus[i] == GpuDevice(Devices.IdAt(site, places[i]), "NVIDIA-H100-80GB")
  }

  /** The GPUs of `build_topology`, in its order, with where they are: two on each server
      that `dense` picks. */
  method BuildTopologyGpus(site: string, halls: nat, racks: nat, servers: nat, dense: (nat, nat, nat) -> bool)
    returns (gpus: seq<GpuDevice>, places: seq<Devices.Place>)
    ensures Inventory(site, gpus, places) && InOrder(places)
    ensures forall p :: p in places <==> InSite(p, halls, racks, servers, dense)
  {
    hide Devices.IdAt;
    gpus, places := [], [];
    for h := 0 to halls
      invariant Inventory(site, gpus, places) && InOrder(places)
      invariant forall p :: p in places <==> InSite(p, halls, racks, servers, dense) && Before(p, h, 0, 0)
    {
      for r := 0 to racks
        invariant Inventory(site, gpus, places) && InOrder(places)
        invariant forall p :: p in places <==> InSite(p, halls, racks, servers, dense) && Before(p, h, r, 0)
      {
        for s := 0 to servers
          invariant Inventory(site, gpus, places) && InOrder(places)
          invariant forall p :: p in places <==> InSite(p, halls, racks, servers, dense) && Before(p, h, r, s)
        {
          if dense(h, r, s) {
            var first, second := Devices.AtGpu(h, r, s, 0), Devices.AtGpu(h, r, s, 1);
            gpus := gpus + [GpuDevice(Devices.IdAt(site, first), "NVIDIA-H100-80GB"),
                            GpuDevice(Devices.IdAt(site, second), "NVIDIA-H100-80GB")];
            PairAdded(places, h, r, s);
            places := places + [first, second];
          }
        }
      }
    }
  }

  lemma PairAdded(places: seq<Devices.Place>, h: nat, r: nat, s: nat)
    requires InOrder(places) && forall p :: p in places ==> Before(p, h, r, s)
    ensures InOrder(places + [Devices.AtGpu(h, r, s, 0), Devices.AtGpu(h, r, s, 1)])
  {
    assert forall i :: 0 <= i < |places| ==> places[i] in places;
  }

  lemma DigitsArePlain(s: string)
    requires AllDigits(s)
    ensures All(s, IsIdChar)
  {
  }

  lemma SegmentAdded(prefix: string, tag: string, digits: string)
    requires PlainId(prefix) && All(tag, IsIdChar) && AllDigits(digits)
    ensures PlainId(prefix + "-" + (tag + digits))
  {
    hide IsIdChar;
    assert All("-", IsIdChar) by { DashIsPlain(); }
    DigitsArePlain(digits);
    AllAppend(tag, digits, IsIdChar);
    AllAppend(prefix, "-", IsIdChar);
    AllAppend(prefix + "-", tag + digits, IsIdChar);
  }

  lemma DashIsPlain()
    ensures All("-", IsIdChar) && All("h", IsIdChar) && All("r", IsIdChar) && All("srv", IsIdChar)
        && All("gpu", IsIdChar)
  {
  }

  lemma GpuIdsArePlain(site: string, h: nat, r: nat, s: nat, g: nat)
    requires PlainId(site)
    ensures PlainId(Devices.IdAt(site, Devices.AtGpu(h, r, s, g)))
  {
    hide PlainId, Decimal, Decimal2, All;
    DashIsPlain();
    SegmentAdded(site, "h", Decimal(h + 1));
    SegmentAdded(Devices.HallId(site, h), "r", Decimal2(r + 1));
    SegmentAdded(Devices.RackId(site, h, r), "srv", Decimal2(s + 1));
    SegmentAdded(Devices.ServerId(Devices.RackId(site, h, r), s), "gpu", Decimal(g + 1));
  }

  lemma PlainTogether(g: GpuDevice)
    requires PlainId(g.id) && PlainId(g.model)
    ensures PlainGpu(g)
  {
  }

  lemma ModelIsPlain()
    ensures PlainId("NVIDIA-H100-80GB")
  {
  }

  lemma {:induction false} FamilyEventsFrom(f: Family, gpus: seq<GpuDevice>, read: GpuDevice -> Reading)
    ensures forall e :: e in FamilyEvents(f, gpus, read) ==>
              exists i :: 0 <= i < |gpus| && e == EventOf(gpus[i].id, f.metric,
                  Ratio(Value(f, read(gpus[i])), f.decimals))
  {
    hide EventOf, Ratio, Value;
    if gpus != [] {
      var n := |gpus| - 1;
      FamilyEventsFrom(f, gpus[..n], read);
      forall e | e in FamilyEvents(f, gpus, read)
        ensures exists i ::
            0 <= i < |gpus| && e == EventOf(gpus[i].id, f.metric, Ratio(Value(f, read(gpus[i])), f.decimals))
      {
        if e in FamilyEvents(f, gpus[..n], read) {
          var i :| 0 <= i < n && e == EventOf(gpus[..n][i].id, f.metric,
              Ratio(Value(f, read(gpus[..n][i])), f.decimals));
          assert gpus[..n][i] == gpus[i];
        } else {
          assert e == EventOf(gpus[n].id, f.metric, Ratio(Value(f, read(gpus[n])), f.decimals));
        }
      }
    }
  }

  lemma {:induction false} EventsFrom(families: seq<Family>, gpus: seq<GpuDevice>, read: GpuDevice -> Reading)
    ensures forall e :: e in Events(families, gpus, read) ==>
              exists i :: 0 <= i < |gpus| && e.deviceId == gpus[i].id && e.hall == HallRack(gpus[i].id).0
                  && e.rack == HallRack(gpus[i].id).1
  {
    hide HallRack, FamilyEvents, Ratio, Value;
    if families != [] {
      EventsFrom(families[..|families| - 1], gpus, read);
      FamilyEventsFrom(families[|families| - 1], gpus, read);
    }
  }

  /** MAIN: for a site whose id is plain and has no dash, the whole exposition of the topology
      comes back, and every event names the hall and the rack of its GPU. */
  lemma {:induction false} TopologyRoundTrip(site: string, gpus: seq<GpuDevice>, places: seq<Devices.Place>,
                                             read: GpuDevice -> Reading)
    requires PlainId(site) && '-' !in site && Inventory(site, gpus, places)
    ensures
      (var es := ParseLines(SplitLines(Body(Lines(FAMILIES, gpus, read))));
       && es == Events(FAMILIES, gpus, read)
       && forall e :: e in es ==>
            exists i :: 0 <= i < |gpus| && e.deviceId == gpus[i].id
              && e.hall == Devices.HallId(site, places[i].h)
                  && e.rack == Devices.RackId(site, places[i].h, places[i].r))
  {
    hide PlainGpu, HallRack, Lines, Events, Body, SplitLines, ParseLines, Devices.IdAt, Devices.HallId, Devices.RackId;
    forall i | 0 <= i < |gpus|
      ensures PlainGpu(gpus[i])
      ensures HallRack(gpus[i].id) == (Devices.HallId(site, places[i].h),
          Devices.RackId(site, places[i].h, places[i].r))
    {
      var p := places[i];
      GpuIdsArePlain(site, p.h, p.r, p.s, p.g);
      ModelIsPlain();
      assert PlainGpu(gpus[i]) by { PlainTogether(gpus[i]); }
      HallRackRecoveredIff(site, p.h, p.r, p.s, p.g);
    }
    ExpositionRoundTrip(gpus, read);
    EventsFrom(FAMILIES, gpus, read);
  }
}
