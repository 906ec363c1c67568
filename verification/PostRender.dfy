/**
 The Helm post-renderer, on parsed documents: the egress gate and the hostname annotation in every pod template, and for
 a stopped release, nothing left to run and its hostname on the parking page.
 */
module PostRender {
  import opened Access
  import opened Json
  import opened Numerals
  import opened Options

  /** `Raised` is a Python exception, which ends the render without output. */
  datatype Outcome<+T> = Done(value: T) | Raised

  const CONTAINER_NAME := "caelus-egress-gate"
  const PARKING_SUFFIX := "-caelus-parking"

  datatype Stopped = Stopped(release: string, hostname: Option<string>, parkingHost: string, parkingPort: int)

  /** What becomes of a document of a stopped release. */
  datatype Fate = Drop | Keep(doc: Value, changed: bool)

  /** Where a document keeps its pod template: it is one, or in its spec, or in its job template's. */
  datatype Where = Self | InSpec | InJob

  // ---------- Reading loosely typed documents ----------

  predicate Falsy(v: Value) {
    v == Null || v == Bool(false) || v == Number(0) || v == Text("") || v == List([]) || v == Dict(map[])
  }

  function OrEmpty(v: Value): Value {
    if Falsy(v) then Dict(map[]) else v
  }

  function Get(d: Value, key: string): Value
    requires d.Dict?
  {
    if key in d.entries then d.entries[key] else Null
  }

  function Put(d: Value, key: string, v: Value): (r: Value)
    requires d.Dict?
    ensures r.Dict? && key in r.entries && r.entries[key] == v
  {
    Dict(d.entries[key := v])
  }

  function Kind(doc: Value): string {
    if doc.Dict? && Get(doc, "kind").Text? then Get(doc, "kind").text else ""
  }

  // ---------- The pod template ----------

  predicate IsTemplate(t: Value) {
    t.Dict? && Get(t, "spec").Dict? && "containers" in Get(t, "spec").entries
  }

  /** The spec a workload's template is in. */
  function TemplateSpec(doc: Value, at: Where): Value
    requires doc.Dict? && !at.Self?
  {
    var spec := OrEmpty(Get(doc, "spec"));
    if at.InSpec? || !spec.Dict? then spec
    else
      var job := OrEmpty(Get(spec, "jobTemplate"));
      if job.Dict? then OrEmpty(Get(job, "spec")) else job
  }

  function PodTemplate(doc: Value): Outcome<Option<Where>> {
    if !doc.Dict? then Done(None)
    else if Kind(doc) == "Pod" then Done(if IsTemplate(doc) then Some(Self) else None)
    else
      var spec := OrEmpty(Get(doc, "spec"));
      if !spec.Dict? then Raised
      else
        var at := if "jobTemplate" in spec.entries then InJob else InSpec;
        var holder := TemplateSpec(doc, at);
        if !holder.Dict? then Raised
        else Done(if IsTemplate(Get(holder, "template")) then Some(at) else None)
  }

  function TemplateAt(doc: Value, at: Where): Value
    requires PodTemplate(doc) == Done(Some(at))
  {
    if at.Self? then doc else Get(TemplateSpec(doc, at), "template")
  }

  function PutTemplate(doc: Value, at: Where, t: Value): Value
    requires PodTemplate(doc) == Done(Some(at))
  {
    match at
    case Self => t
    case InSpec => Put(doc, "spec", Put(Get(doc, "spec"), "template", t))
    case InJob =>
      var spec := Get(doc, "spec");
      var job := Get(spec, "jobTemplate");
      Put(doc, "spec", Put(spec, "jobTemplate", Put(job, "spec", Put(Get(job, "spec"), "template", t))))
  }

  // ---------- Rewriting it ----------

  function Others(containers: seq<Value>): seq<Value>
    requires forall i | 0 <= i < |containers| :: containers[i].Dict?
  {
    if containers == [] then []
    else
      var last := containers[|containers| - 1];
      Others(containers[..|containers| - 1]) + if Get(last, "name") == Text(CONTAINER_NAME) then [] else [last]
  }

  predicate AllDicts(vs: seq<Value>) {
    forall i | 0 <= i < |vs| :: vs[i].Dict?
  }

  function Inject(pod: Value, gate: Value): Outcome<Value>
    requires pod.Dict?
  {
    var had := Get(pod, "initContainers");
    var containers := if Falsy(had) then List([]) else had;
    if !containers.List? || !AllDicts(containers.items) then Raised
    else Done(Put(pod, "initContainers", List([gate] + Others(containers.items))))
  }

  function Texts(annotations: map<string, string>): map<string, Value> {
    map k | k in annotations :: Text(annotations[k])
  }

  function Annotate(template: Value, annotations: map<string, string>): Outcome<Value>
    requires template.Dict?
  {
    var metadata := OrEmpty(Get(template, "metadata"));
    if !metadata.Dict? then Raised
    else
      var had := OrEmpty(Get(metadata, "annotations"));
      if !had.Dict? then Raised
      else Done(Put(template, "metadata", Put(metadata, "annotations", Dict(had.entries + Texts(annotations)))))
  }

  function RewriteTemplate(t: Value, gate: Value, annotations: map<string, string>): Outcome<Value>
    requires IsTemplate(t)
  {
    var pod := Inject(Get(t, "spec"), gate);
    if pod.Raised? then Raised
    else if annotations == map[] then Done(Put(t, "spec", pod.value))
    else Annotate(Put(t, "spec", pod.value), annotations)
  }

  /** The document afterwards, and whether it has a pod template. */
  function Rewrite(doc: Value, gate: Value, annotations: map<string, string>): Outcome<(Value, bool)> {
    match PodTemplate(doc)
    case Raised => Raised
    case Done(None) => Done((doc, false))
    case Done(Some(at)) =>
      var t := RewriteTemplate(TemplateAt(doc, at), gate, annotations);
      if t.Raised? then Raised else Done((PutTemplate(doc, at, t.value), true))
  }

  // ---------- Stopping ----------

  function ServiceName(s: Stopped): string {
    s.release + PARKING_SUFFIX
  }

  function ParkingService(s: Stopped): Value {
    Dict(map[
      "apiVersion" := Text("v1"),
      "kind" := Text("Service"),
      "metadata" := Dict(map["name" := Text(ServiceName(s))]),
      "spec" := Dict(map[
        "type" := Text("ExternalName"),
        "externalName" := Text(s.parkingHost),
        "ports" := List([Dict(map["name" := Text("http"), "port" := Number(s.parkingPort), "protocol" := Text("TCP")])])
      ])
    ])
  }

  function Backend(s: Stopped): Value {
    Dict(map["service" := Dict(map[
      "name" := Text(ServiceName(s)),
      "port" := Dict(map["number" := Number(s.parkingPort)])
    ])])
  }

  predicate HasHostname(s: Stopped) {
    s.hostname.Some? && s.hostname.value != ""
  }

  /** The rule is for the deployment's own hostname, in whatever case. */
  predicate ForHost(rule: Value, s: Stopped)
    requires HasHostname(s)
  {
    rule.Dict? && Get(rule, "host").Text? && Fold(Get(rule, "host").text) == Fold(s.hostname.value)
  }

  function Paths(rule: Value): Outcome<seq<Value>>
    requires rule.Dict?
  {
    var http := OrEmpty(Get(rule, "http"));
    if !http.Dict? then Raised
    else
      var paths := Get(http, "paths");
      if Falsy(paths) then Done([])
      else if paths.List? && AllDicts(paths.items) then Done(paths.items)
      else Raised
  }

  function Rerouted(paths: seq<Value>, s: Stopped): (r: seq<Value>)
    requires AllDicts(paths)
  {
    seq(|paths|, i requires 0 <= i < |paths| => Put(paths[i], "backend", Backend(s)))
  }

  function RerouteRule(rule: Value, s: Stopped): Outcome<(Value, bool)>
    requires HasHostname(s)
  {
    if !ForHost(rule, s) then Done((rule, false))
    else
      var paths := Paths(rule);
      if paths.Raised? then Raised
      else if paths.value == [] then Done((rule, false))
      else Done((Put(rule, "http", Put(Get(rule, "http"), "paths", List(Rerouted(paths.value, s)))), true))
  }

  function RerouteRules(rules: seq<Value>, s: Stopped): (r: Outcome<(seq<Value>, bool)>)
    requires HasHostname(s)
    ensures r.Done? ==> |r.value.0| == |rules| && (!r.value.1 ==> r.value.0 == rules)
  {
    if rules == [] then Done(([], false))
    else
      var before := RerouteRules(rules[..|rules| - 1], s);
      var last := RerouteRule(rules[|rules| - 1], s);
      if before.Raised? || last.Raised? then Raised
      else Done((before.value.0 + [last.value.0], before.value.1 || last.value.1))
  }

  /** The rules to go through, Null when there are none to find or only text. */
  function RulesOf(doc: Value): Outcome<Value>
    requires doc.Dict?
  {
    var spec := OrEmpty(Get(doc, "spec"));
    if !spec.Dict? then Raised
    else
      var rules := Get(spec, "rules");
      if Falsy(rules) || rules.Dict? || rules.Text? then Done(Null)
      else if rules.List? then Done(rules)
      else Raised
  }

  function RerouteIngress(doc: Value, s: Stopped): Outcome<(Value, bool)>
    requires doc.Dict?
  {
    if !HasHostname(s) then Done((doc, false))
    else
      var rules := RulesOf(doc);
      if rules.Raised? then Raised
      else if !rules.value.List? then Done((doc, false))
      else
        var r := RerouteRules(rules.value.items, s);
        if r.Raised? then Raised
        else if !r.value.1 then Done((doc, false))
        else Done((Put(doc, "spec", Put(Get(doc, "spec"), "rules", List(r.value.0))), true))
  }

  function SetInSpec(doc: Value, key: string, v: Value): Outcome<Value>
    requires doc.Dict?
  {
    if "spec" !in doc.entries then Done(Put(doc, "spec", Dict(map[key := v])))
    else if doc.entries["spec"].Dict? then Done(Put(doc, "spec", Put(doc.entries["spec"], key, v)))
    else Raised
  }

  function Stop(doc: Value, s: Stopped): Outcome<Fate> {
    var kind := Kind(doc);
    if kind in {"Deployment", "StatefulSet"} then Stilled(SetInSpec(doc, "replicas", Number(0)))
    else if kind in {"Job", "CronJob"} then Stilled(SetInSpec(doc, "suspend", Bool(true)))
    else if kind in {"HorizontalPodAutoscaler", "Pod"} then Done(Drop)
    else if kind == "Ingress" then
      var r := RerouteIngress(doc, s);
      if r.Raised? then Raised else Done(Keep(r.value.0, r.value.1))
    else Done(Keep(doc, false))
  }

  function Stilled(r: Outcome<Value>): Outcome<Fate> {
    if r.Raised? then Raised else Done(Keep(r.value, true))
  }

  // ---------- Rewriting again ----------

  predicate IsGate(gate: Value) {
    gate.Dict? && Get(gate, "name") == Text(CONTAINER_NAME)
  }

  lemma {:induction false} OthersAreDicts(cs: seq<Value>)
    requires AllDicts(cs)
    ensures AllDicts(Others(cs))
    ensures forall i | 0 <= i < |Others(cs)| :: Get(Others(cs)[i], "name") != Text(CONTAINER_NAME)
  {
    if cs != [] { OthersAreDicts(cs[..|cs| - 1]); }
  }

  lemma {:induction false} OthersKept(gate: Value, cs: seq<Value>)
    requires IsGate(gate) && AllDicts(cs)
    requires forall i | 0 <= i < |cs| :: Get(cs[i], "name") != Text(CONTAINER_NAME)
    ensures Others([gate] + cs) == cs
  {
    var all := [gate] + cs;
    if cs != [] {
      OthersKept(gate, cs[..|cs| - 1]);
      assert all[..|cs|] == [gate] + cs[..|cs| - 1];
    } else {
      assert all[..0] == [];
    }
  }

  lemma PutAgain(d: Value, key: string, v: Value)
    requires d.Dict?
    ensures Get(Put(d, key, v), key) == v && Put(Put(d, key, v), key, v) == Put(d, key, v)
    ensures forall other | other != key :: Get(Put(d, key, v), other) == Get(d, other)
  {
    assert d.entries[key := v][key := v] == d.entries[key := v];
  }

  lemma PutBack(d: Value, key: string)
    requires d.Dict? && key in d.entries
    ensures Put(d, key, Get(d, key)) == d
  {
    assert d.entries[key := d.entries[key]] == d.entries;
  }

  lemma InjectTwice(pod: Value, gate: Value)
    requires pod.Dict? && IsGate(gate) && Inject(pod, gate).Done?
    ensures var p := Inject(pod, gate).value;
      p.Dict? && ("containers" in pod.entries ==> "containers" in p.entries) && Inject(p, gate) == Done(p)
  {
    var had := Get(pod, "initContainers");
    var cs := if Falsy(had) then [] else had.items;
    OthersAreDicts(cs);
    OthersKept(gate, Others(cs));
    PutAgain(pod, "initContainers", List([gate] + Others(cs)));
  }

  lemma AnnotateTwice(t: Value, annotations: map<string, string>)
    requires t.Dict? && annotations != map[] && Annotate(t, annotations).Done?
    ensures var u := Annotate(t, annotations).value;
      && u.Dict? && Annotate(u, annotations) == Done(u)
      && forall other | other != "metadata" :: Get(u, other) == Get(t, other)
  {
    var metadata := OrEmpty(Get(t, "metadata"));
    var written := OrEmpty(Get(metadata, "annotations")).entries + Texts(annotations);
    PutAgain(metadata, "annotations", Dict(written));
    PutAgain(t, "metadata", Put(metadata, "annotations", Dict(written)));
    var k :| k in annotations;
    assert k in written && "annotations" in Put(metadata, "annotations", Dict(written)).entries;
    assert written + Texts(annotations) == written;
  }

  lemma TemplateTwice(t: Value, gate: Value, annotations: map<string, string>)
    requires IsTemplate(t) && IsGate(gate) && RewriteTemplate(t, gate, annotations).Done?
    ensures var u := RewriteTemplate(t, gate, annotations).value;
      && IsTemplate(u) && Kind(u) == Kind(t)
      && RewriteTemplate(u, gate, annotations) == Done(u)
  {
    hide Inject, Annotate, Put;
    InjectTwice(Get(t, "spec"), gate);
    var pod := Inject(Get(t, "spec"), gate).value;
    PutAgain(t, "spec", pod);
    var u := RewriteTemplate(t, gate, annotations).value;
    if annotations != map[] {
      AnnotateTwice(Put(t, "spec", pod), annotations);
      PutBack(u, "spec");
    }
  }

  /** A template put in a document's place is the one found there. */
  lemma PutThenFind(doc: Value, at: Where, t: Value)
    requires PodTemplate(doc) == Done(Some(at)) && IsTemplate(t) && (at.Self? ==> Kind(t) == "Pod")
    ensures var d := PutTemplate(doc, at, t);
      && d.Dict? && PodTemplate(d) == Done(Some(at)) && TemplateAt(d, at) == t && Kind(d) == Kind(doc)
      && PutTemplate(d, at, t) == d
  {
    match at
    case Self =>
    case InSpec => PutInSpec(doc, t);
    case InJob => PutInJob(doc, t);
  }

  /** Where there is a template, there is what it hangs from. */
  lemma HeldBy(doc: Value, at: Where)
    requires PodTemplate(doc) == Done(Some(at)) && !at.Self?
    ensures Get(doc, "spec").Dict? && !Falsy(Get(doc, "spec"))
    ensures at.InJob? ==>
              var job := Get(Get(doc, "spec"), "jobTemplate");
              "jobTemplate" in Get(doc, "spec").entries && job.Dict? && !Falsy(job) && Get(job, "spec").Dict?
    ensures TemplateSpec(doc, at).Dict? && "template" in TemplateSpec(doc, at).entries
  {
  }

  lemma PutInSpec(doc: Value, t: Value)
    requires PodTemplate(doc) == Done(Some(InSpec)) && IsTemplate(t)
    ensures var d := PutTemplate(doc, InSpec, t);
      && d.Dict? && PodTemplate(d) == Done(Some(InSpec)) && TemplateAt(d, InSpec) == t && Kind(d) == Kind(doc)
      && PutTemplate(d, InSpec, t) == d
  {
    hide IsTemplate;
    HeldBy(doc, InSpec);
    PutAgain(Get(doc, "spec"), "template", t);
    var spec := Put(Get(doc, "spec"), "template", t);
    PutAgain(doc, "spec", spec);
    assert spec.entries != map[] by { assert "template" in spec.entries; }
  }

  lemma PutInJob(doc: Value, t: Value)
    requires PodTemplate(doc) == Done(Some(InJob)) && IsTemplate(t)
    ensures var d := PutTemplate(doc, InJob, t);
      && d.Dict? && PodTemplate(d) == Done(Some(InJob)) && TemplateAt(d, InJob) == t && Kind(d) == Kind(doc)
      && PutTemplate(d, InJob, t) == d
  {
    hide IsTemplate;
    HeldBy(doc, InJob);
    var job := Get(Get(doc, "spec"), "jobTemplate");
    PutAgain(Get(job, "spec"), "template", t);
    var inner := Put(Get(job, "spec"), "template", t);
    PutAgain(job, "spec", inner);
    var job' := Put(job, "spec", inner);
    PutAgain(Get(doc, "spec"), "jobTemplate", job');
    var spec := Put(Get(doc, "spec"), "jobTemplate", job');
    PutAgain(doc, "spec", spec);
    assert "template" in inner.entries && "spec" in job'.entries && "jobTemplate" in spec.entries;
  }

  lemma RewriteTwice(doc: Value, gate: Value, annotations: map<string, string>)
    requires IsGate(gate) && Rewrite(doc, gate, annotations).Done?
    ensures var (d, changed) := Rewrite(doc, gate, annotations).value;
      Rewrite(d, gate, annotations) == Done((d, changed)) && (!changed ==> d == doc)
  {
    if PodTemplate(doc).value.Some? {
      var at := PodTemplate(doc).value.value;
      var t := TemplateAt(doc, at);
      TemplateTwice(t, gate, annotations);
      PutThenFind(doc, at, RewriteTemplate(t, gate, annotations).value);
    }
  }

  // ---------- Stopping again ----------

  lemma RuleTwice(rule: Value, s: Stopped)
    requires HasHostname(s) && RerouteRule(rule, s).Done?
    ensures RerouteRule(RerouteRule(rule, s).value.0, s) == RerouteRule(rule, s)
  {
    var r := RerouteRule(rule, s).value.0;
    if RerouteRule(rule, s).value.1 {
      var paths := Paths(rule).value;
      forall i | 0 <= i < |paths| ensures Rerouted(Rerouted(paths, s), s)[i] == Rerouted(paths, s)[i] {
        PutAgain(paths[i], "backend", Backend(s));
      }
      assert Rerouted(Rerouted(paths, s), s) == Rerouted(paths, s);
      PutAgain(Get(rule, "http"), "paths", List(Rerouted(paths, s)));
      PutAgain(rule, "http", Get(r, "http"));
    }
  }

  lemma {:induction false} RulesTwice(rules: seq<Value>, s: Stopped)
    requires HasHostname(s) && RerouteRules(rules, s).Done?
    ensures RerouteRules(RerouteRules(rules, s).value.0, s) == RerouteRules(rules, s)
  {
    if rules != [] {
      var n := |rules| - 1;
      RulesTwice(rules[..n], s);
      RuleTwice(rules[n], s);
      var r := RerouteRules(rules, s).value.0;
      assert r[..n] == RerouteRules(rules[..n], s).value.0;
    }
  }

  lemma SetTwice(doc: Value, key: string, v: Value)
    requires doc.Dict? && SetInSpec(doc, key, v).Done?
    ensures var d := SetInSpec(doc, key, v).value;
      d.Dict? && SetInSpec(d, key, v) == Done(d) && Kind(d) == Kind(doc)
  {
    var spec := if "spec" in doc.entries then Put(Get(doc, "spec"), key, v) else Dict(map[key := v]);
    if "spec" in doc.entries { PutAgain(Get(doc, "spec"), key, v); }
    assert map[key := v][key := v] == map[key := v];
    PutAgain(doc, "spec", spec);
  }

  lemma RerouteTwice(doc: Value, s: Stopped)
    requires doc.Dict? && RerouteIngress(doc, s).Done?
    ensures var d := RerouteIngress(doc, s).value.0;
      d.Dict? && RerouteIngress(d, s) == RerouteIngress(doc, s) && Kind(d) == Kind(doc)
  {
    hide RerouteRules, Put;
    if RerouteIngress(doc, s).value.1 {
      var rules := RulesOf(doc).value.items;
      RulesTwice(rules, s);
      var r := RerouteRules(rules, s).value.0;
      PutAgain(Get(doc, "spec"), "rules", List(r));
      PutAgain(doc, "spec", Put(Get(doc, "spec"), "rules", List(r)));
    }
  }

  lemma StopTwice(doc: Value, s: Stopped)
    requires Stop(doc, s).Done? && Stop(doc, s).value.Keep?
    ensures Stop(Stop(doc, s).value.doc, s) == Stop(doc, s)
  {
    hide RerouteIngress, SetInSpec;
    if Kind(doc) in {"Deployment", "StatefulSet"} { SetTwice(doc, "replicas", Number(0)); }
    if Kind(doc) in {"Job", "CronJob"} { SetTwice(doc, "suspend", Bool(true)); }
    if Kind(doc) == "Ingress" { RerouteTwice(doc, s); }
  }

  // ---------- The two together ----------

  lemma SetLeavesTemplate(doc: Value, key: string, v: Value)
    requires doc.Dict? && Kind(doc) != "Pod" && key != "template" && key != "jobTemplate"
    requires SetInSpec(doc, key, v).Done?
    ensures var d := SetInSpec(doc, key, v).value;
      d.Dict? && PodTemplate(d) == PodTemplate(doc)
      && (PodTemplate(doc).Done? && PodTemplate(doc).value.Some? ==>
            TemplateAt(d, PodTemplate(doc).value.value) == TemplateAt(doc, PodTemplate(doc).value.value))
  {
    var spec := if "spec" in doc.entries then Put(Get(doc, "spec"), key, v) else Dict(map[key := v]);
    if "spec" in doc.entries { PutAgain(Get(doc, "spec"), key, v); }
    PutAgain(doc, "spec", spec);
  }

  lemma PutsCommute(d: Value, key: string, v: Value, other: string, w: Value)
    requires d.Dict? && key != other
    ensures Put(Put(d, key, v), other, w) == Put(Put(d, other, w), key, v)
  {
    assert d.entries[key := v][other := w] == d.entries[other := w][key := v];
  }

  /** Setting a field of the spec and rewriting the template do not get in each other's way. */
  lemma SetAndPut(doc: Value, key: string, v: Value, at: Where, t: Value)
    requires doc.Dict? && Kind(doc) != "Pod" && key != "template" && key != "jobTemplate"
    requires SetInSpec(doc, key, v).Done? && PodTemplate(doc) == Done(Some(at)) && IsTemplate(t)
    ensures PodTemplate(SetInSpec(doc, key, v).value) == Done(Some(at))
    ensures SetInSpec(PutTemplate(doc, at, t), key, v) == Done(PutTemplate(SetInSpec(doc, key, v).value, at, t))
  {
    hide IsTemplate;
    SetLeavesTemplate(doc, key, v);
    HeldBy(doc, at);
    var spec := Get(doc, "spec");
    var held := if at.InSpec? then "template" else "jobTemplate";
    var job := Get(spec, "jobTemplate");
    var w := if at.InSpec? then t else Put(job, "spec", Put(Get(job, "spec"), "template", t));
    PutsCommute(spec, key, v, held, w);
    PutAgain(spec, key, v);
    PutOver(doc, "spec", Put(spec, key, v), Put(Put(spec, key, v), held, w));
    PutOver(doc, "spec", Put(spec, held, w), Put(Put(spec, held, w), key, v));
  }

  lemma PutOver(d: Value, key: string, v: Value, w: Value)
    requires d.Dict?
    ensures Put(Put(d, key, v), key, w) == Put(d, key, w)
  {
    assert d.entries[key := v][key := w] == d.entries[key := w];
  }

  lemma PutLeavesRules(doc: Value, at: Where, t: Value)
    requires doc.Dict? && Kind(doc) != "Pod" && PodTemplate(doc) == Done(Some(at)) && IsTemplate(t)
    ensures PutTemplate(doc, at, t).Dict? && RulesOf(PutTemplate(doc, at, t)) == RulesOf(doc)
    ensures "spec" in doc.entries && doc.entries["spec"].Dict?
  {
    hide IsTemplate;
    HeldBy(doc, at);
    var spec := Get(doc, "spec");
    var held := if at.InSpec? then "template" else "jobTemplate";
    var job := Get(spec, "jobTemplate");
    var w := if at.InSpec? then t else Put(job, "spec", Put(Get(job, "spec"), "template", t));
    PutAgain(spec, held, w);
    PutAgain(doc, "spec", Put(spec, held, w));
  }

  /** What the renderer does: rewrite, then stop. */
  function RewriteThenStop(doc: Value, gate: Value, annotations: map<string, string>, s: Stopped): Outcome<Fate> {
    var r := Rewrite(doc, gate, annotations);
    if r.Raised? then Raised
    else
      var f := Stop(r.value.0, s);
      if f.Raised? || f.value.Drop? then f else Done(Keep(f.value.doc, r.value.1 || f.value.changed))
  }

  function StopThenRewrite(doc: Value, gate: Value, annotations: map<string, string>, s: Stopped): Outcome<Fate> {
    var f := Stop(doc, s);
    if f.Raised? || f.value.Drop? then f
    else
      var r := Rewrite(f.value.doc, gate, annotations);
      if r.Raised? then Raised else Done(Keep(r.value.0, r.value.1 || f.value.changed))
  }

  lemma SetCommutes(doc: Value, key: string, v: Value, gate: Value, annotations: map<string, string>)
    requires doc.Dict? && Kind(doc) != "Pod" && key != "template" && key != "jobTemplate" && IsGate(gate)
    ensures var given, r := SetInSpec(doc, key, v), Rewrite(doc, gate, annotations);
      if given.Raised? then r.Raised? || r == Done((doc, false))
      else if r.Raised? then Rewrite(given.value, gate, annotations).Raised?
      else
        && r.value.0.Dict? && Kind(r.value.0) == Kind(doc) && SetInSpec(r.value.0, key, v).Done?
        && Rewrite(given.value, gate, annotations) == Done((SetInSpec(r.value.0, key, v).value, r.value.1))
  {
    hide RewriteTemplate;
    var given, at := SetInSpec(doc, key, v), PodTemplate(doc);
    if at.Done? && at.value.Some? {
      HeldBy(doc, at.value.value);
      SetLeavesTemplate(doc, key, v);
      var t := TemplateAt(doc, at.value.value);
      var u := RewriteTemplate(t, gate, annotations);
      if u.Done? {
        TemplateTwice(t, gate, annotations);
        SetAndPut(doc, key, v, at.value.value, u.value);
        PutThenFind(doc, at.value.value, u.value);
      }
    } else if given.Done? {
      SetLeavesTemplate(doc, key, v);
    }
  }

  lemma StillCommutes(doc: Value, key: string, v: Value, gate: Value, annotations: map<string, string>, s: Stopped)
    requires IsGate(gate) && key != "template" && key != "jobTemplate"
    requires Kind(doc) in {"Deployment", "StatefulSet", "Job", "CronJob"}
    requires forall d: Value | d.Dict? && Kind(d) == Kind(doc) :: Stop(d, s) == Stilled(SetInSpec(d, key, v))
    ensures RewriteThenStop(doc, gate, annotations, s) == StopThenRewrite(doc, gate, annotations, s)
  {
    hide Rewrite, SetInSpec, Stop;
    SetCommutes(doc, key, v, gate, annotations);
  }

  lemma IngressCommutes(doc: Value, gate: Value, annotations: map<string, string>, s: Stopped)
    requires IsGate(gate) && Kind(doc) == "Ingress"
    ensures RewriteThenStop(doc, gate, annotations, s) == StopThenRewrite(doc, gate, annotations, s)
  {
    hide RewriteTemplate, RerouteRules, PodTemplate;
    RewriteLeavesRules(doc, gate, annotations);
    if HasHostname(s) && RulesOf(doc).Done? && RulesOf(doc).value.List? {
      var r := RerouteRules(RulesOf(doc).value.items, s);
      if r.Done? && r.value.1 { SetCommutes(doc, "rules", List(r.value.0), gate, annotations); }
    }
  }

  lemma RewriteLeavesRules(doc: Value, gate: Value, annotations: map<string, string>)
    requires doc.Dict? && Kind(doc) != "Pod" && IsGate(gate)
    ensures Rewrite(doc, gate, annotations).Done? ==>
              var d := Rewrite(doc, gate, annotations).value.0;
              d.Dict? && RulesOf(d) == RulesOf(doc) && Kind(d) == Kind(doc)
  {
    hide RewriteTemplate;
    var at := PodTemplate(doc);
    if at.Done? && at.value.Some? {
      var t := TemplateAt(doc, at.value.value);
      var u := RewriteTemplate(t, gate, annotations);
      if u.Done? {
        TemplateTwice(t, gate, annotations);
        PutLeavesRules(doc, at.value.value, u.value);
        PutThenFind(doc, at.value.value, u.value);
      }
    }
  }

  /**
   The two steps commute on every document the stopped step keeps, exceptions included. One it drops is gone either way,
   but for this: rewriting comes first, so a Pod or autoscaler that cannot be rewritten still fails the render.
   */
  lemma StepsCommute(doc: Value, gate: Value, annotations: map<string, string>, s: Stopped)
    requires IsGate(gate)
    ensures RewriteThenStop(doc, gate, annotations, s) ==
            if Stop(doc, s) == Done(Drop) && Rewrite(doc, gate, annotations).Raised? then Raised
            else StopThenRewrite(doc, gate, annotations, s)
  {
    var kind := Kind(doc);
    if kind in {"Deployment", "StatefulSet"} {
      StillCommutes(doc, "replicas", Number(0), gate, annotations, s);
    } else if kind in {"Job", "CronJob"} {
      StillCommutes(doc, "suspend", Bool(true), gate, annotations, s);
    } else if kind == "Ingress" {
      IngressCommutes(doc, gate, annotations, s);
    } else {
      RewriteKeepsKind(doc, gate, annotations);
    }
  }

  lemma RewriteKeepsKind(doc: Value, gate: Value, annotations: map<string, string>)
    requires IsGate(gate)
    ensures var r := Rewrite(doc, gate, annotations); r.Done? ==> Kind(r.value.0) == Kind(doc)
  {
    hide RewriteTemplate;
    var at := PodTemplate(doc);
    if at.Done? && at.value.Some? {
      var u := RewriteTemplate(TemplateAt(doc, at.value.value), gate, annotations);
      if u.Done? {
        TemplateTwice(TemplateAt(doc, at.value.value), gate, annotations);
        PutThenFind(doc, at.value.value, u.value);
      }
    }
  }

  // ---------- What a stopped release runs ----------

  function InSpecOf(doc: Value, key: string): Value
    requires doc.Dict?
  {
    if Get(doc, "spec").Dict? then Get(Get(doc, "spec"), key) else Null
  }

  const LIST_SUFFIX := "List"

  predicate IsListKind(kind: string) {
    |kind| >= |LIST_SUFFIX| && kind[|kind| - |LIST_SUFFIX|..] == LIST_SUFFIX
  }

  /** The documents a `List`, or a list of one kind, has applied in its place. */
  function ListItems(doc: Value, kind: string): seq<Value> {
    if IsListKind(kind) && doc.Dict? && Get(doc, "items").List? then Get(doc, "items").items else []
  }

  /** What an item of a list of kind `kind` is applied as: untyped items of, say, a `DeploymentList` are Deployments. */
  function ItemKind(item: Value, kind: string): string
    requires IsListKind(kind)
  {
    if item.Dict? && "kind" !in item.entries && "apiVersion" !in item.entries then kind[..|kind| - |LIST_SUFFIX|]
    else Kind(item)
  }

  /** Whether applying the document, as one of that kind, lets Kubernetes start a pod. */
  predicate StartsAs(doc: Value, kind: string)
    decreases doc
  {
    doc.Dict? &&
    match kind
    case "Pod" => true
    case "DaemonSet" => true
    case "Deployment" => InSpecOf(doc, "replicas") != Number(0)
    case "StatefulSet" => InSpecOf(doc, "replicas") != Number(0)
    case "ReplicaSet" => InSpecOf(doc, "replicas") != Number(0)
    case "ReplicationController" => InSpecOf(doc, "replicas") != Number(0)
    case "Job" => InSpecOf(doc, "suspend") != Bool(true)
    case "CronJob" => InSpecOf(doc, "suspend") != Bool(true)
    case _ => exists i | 0 <= i < |ListItems(doc, kind)| ::
                StartsAs(ListItems(doc, kind)[i], ItemKind(ListItems(doc, kind)[i], kind))
  }

  predicate StartsPods(doc: Value) {
    StartsAs(doc, Kind(doc))
  }

  /** The workloads the stopped step knows. */
  const STOPPABLE := {"Deployment", "StatefulSet", "Job", "CronJob", "Pod", "HorizontalPodAutoscaler"}

  /** Kubernetes' other workloads. */
  const UNKNOWN := {"DaemonSet", "ReplicaSet", "ReplicationController"}

  lemma SetIsThere(doc: Value, key: string, v: Value)
    requires doc.Dict? && SetInSpec(doc, key, v).Done?
    ensures var d := SetInSpec(doc, key, v).value;
      && d.Dict? && Kind(d) == Kind(doc) && InSpecOf(d, key) == v
      && forall other | other != "spec" :: Get(d, other) == Get(doc, other)
  {
    if "spec" in doc.entries {
      PutAgain(Get(doc, "spec"), key, v);
      PutAgain(doc, "spec", Put(Get(doc, "spec"), key, v));
    } else {
      PutAgain(doc, "spec", Dict(map[key := v]));
    }
  }

  /** It is a list, and one of the documents in it starts a pod. */
  predicate ListStartsPods(doc: Value) {
    exists i | 0 <= i < |ListItems(doc, Kind(doc))| ::
      StartsAs(ListItems(doc, Kind(doc))[i], ItemKind(ListItems(doc, Kind(doc))[i], Kind(doc)))
  }

  /**
   What is left of a stopped release starts a pod exactly when it is a workload the step does not know, a DaemonSet, a
   bare ReplicaSet or a ReplicationController, or a list with a document in it that starts one, of whatever kind: those
   pass through as they are.
   */
  lemma StoppedStartsNothingKnown(doc: Value, s: Stopped)
    requires Stop(doc, s).Done? && Stop(doc, s).value.Keep?
    ensures var d := Stop(doc, s).value.doc;
      && Kind(d) == Kind(doc) && Kind(doc) !in {"Pod", "HorizontalPodAutoscaler"}
      && (StartsPods(d) <==> (Kind(doc) in UNKNOWN && StartsPods(doc)) || ListStartsPods(doc))
      && (Kind(doc) !in STOPPABLE && Kind(doc) != "Ingress" ==> d == doc)
      && (ListStartsPods(doc) ==> d == doc)
  {
    var kind := Kind(doc);
    WorkloadsAreNoLists(kind);
    if kind in {"Deployment", "StatefulSet"} {
      SetIsThere(doc, "replicas", Number(0));
    } else if kind in {"Job", "CronJob"} {
      SetIsThere(doc, "suspend", Bool(true));
    } else if kind == "Ingress" {
      RerouteTwice(doc, s);
    }
  }

  lemma WorkloadsAreNoLists(kind: string)
    ensures kind in STOPPABLE + UNKNOWN + {"Ingress"} ==> !IsListKind(kind)
  {
    assert LIST_SUFFIX[3] == 't';
    if IsListKind(kind) {
      assert kind[|kind| - 4..][3] == 't' && kind[|kind| - 4..][0] == 'L';
    }
  }

  const THREE_REPLICAS :=
    Dict(map["kind" := Text("Deployment"), "spec" := Dict(map["replicas" := Number(3)])])

  /** A Deployment on its own is stopped; the same in a `List` is kept as it is, and runs. */
  lemma StoppedListRuns(s: Stopped)
    ensures StartsPods(THREE_REPLICAS)
    ensures Stop(THREE_REPLICAS, s).Done? && Stop(THREE_REPLICAS, s).value.Keep?
    ensures !StartsPods(Stop(THREE_REPLICAS, s).value.doc)
    ensures var doc := Dict(map["kind" := Text("List"), "items" := List([THREE_REPLICAS])]);
      Stop(doc, s) == Done(Keep(doc, false)) && StartsPods(doc)
  {
    var doc := Dict(map["kind" := Text("List"), "items" := List([THREE_REPLICAS])]);
    assert Kind(THREE_REPLICAS) == "Deployment" && InSpecOf(THREE_REPLICAS, "replicas") == Number(3);
    SetIsThere(THREE_REPLICAS, "replicas", Number(0));
    assert "List"[0..] == LIST_SUFFIX;
    assert ListItems(doc, "List")[0] == THREE_REPLICAS;
  }

  // ---------- Where its hostname goes ----------

  /** A rule is the deployment's own when its host is the hostname, but for the case of letters. */
  lemma ForHostExactly(rule: Value, s: Stopped)
    requires s.hostname.Some? && s.hostname.value != ""
    ensures ForHost(rule, s) <==>
      && rule.Dict? && "host" in rule.entries && rule.entries["host"].Text?
      && EqualFold(rule.entries["host"].text, s.hostname.value)
  {
  }

  /** Every path of `after` leads to the parking service, and is in all else as in `before`. */
  ghost predicate AllParked(before: seq<Value>, after: seq<Value>, s: Stopped) {
    && AllDicts(before) && AllDicts(after) && |after| == |before|
    && forall i | 0 <= i < |after| ::
         && Get(after[i], "backend") == Backend(s)
         && forall key | key != "backend" :: Get(after[i], key) == Get(before[i], key)
  }

  ghost predicate RuleParked(before: Value, after: Value, s: Stopped)
    requires HasHostname(s)
  {
    if !ForHost(before, s) then after == before
    else
      && ForHost(after, s)
      && (Get(before, "http").Dict? && Get(Get(before, "http"), "paths").List? ==>
            && Get(after, "http").Dict? && Get(Get(after, "http"), "paths").List?
            && AllParked(Get(Get(before, "http"), "paths").items, Get(Get(after, "http"), "paths").items, s))
      && (forall key | key != "http" :: Get(after, key) == Get(before, key))
      && forall key | key != "paths" && Get(before, "http").Dict? ::
           Get(after, "http").Dict? && Get(Get(after, "http"), key) == Get(Get(before, "http"), key)
  }

  lemma RuleIsParked(rule: Value, s: Stopped)
    requires HasHostname(s) && RerouteRule(rule, s).Done?
    ensures RuleParked(rule, RerouteRule(rule, s).value.0, s)
  {
    if ForHost(rule, s) {
      var paths := Paths(rule).value;
      var r := RerouteRule(rule, s).value.0;
      if paths != [] {
        PutAgain(Get(rule, "http"), "paths", List(Rerouted(paths, s)));
        PutAgain(rule, "http", Get(r, "http"));
        forall i | 0 <= i < |paths| ensures Rerouted(paths, s)[i] == Put(paths[i], "backend", Backend(s)) {
          PutAgain(paths[i], "backend", Backend(s));
        }
      }
    }
  }

  lemma {:induction false} RulesAreParked(rules: seq<Value>, s: Stopped, i: nat)
    requires HasHostname(s) && RerouteRules(rules, s).Done? && i < |rules|
    ensures RuleParked(rules[i], RerouteRules(rules, s).value.0[i], s)
    decreases |rules|
  {
    hide RuleParked, RerouteRule;
    var n := |rules| - 1;
    if i == n {
      RuleIsParked(rules[n], s);
    } else {
      RulesAreParked(rules[..n], s, i);
    }
  }

  /**
   A stopped Ingress sends every path of its rules for the deployment's own hostname to the parking service. Every other
   rule, and every other field of the document, its spec, a rerouted rule, its `http` and each of its paths, is as it
   was.
   */
  lemma StoppedIngressIsParked(doc: Value, s: Stopped)
    requires Kind(doc) == "Ingress" && s.hostname.Some? && s.hostname.value != "" && Stop(doc, s).Done?
    ensures Stop(doc, s).value.Keep?
    ensures var d := Stop(doc, s).value.doc;
      && d.Dict?
      && (forall key | key != "spec" :: Get(d, key) == Get(doc, key))
      && (forall key | key != "rules" :: InSpecOf(d, key) == InSpecOf(doc, key))
      && if !InSpecOf(doc, "rules").List? then d == doc
         else
           && InSpecOf(d, "rules").List? && |InSpecOf(d, "rules").items| == |InSpecOf(doc, "rules").items|
           && forall i | 0 <= i < |InSpecOf(d, "rules").items| ::
                RuleParked(InSpecOf(doc, "rules").items[i], InSpecOf(d, "rules").items[i], s)
  {
    hide RuleParked;
    if InSpecOf(doc, "rules").List? && RulesOf(doc).value.List? {
      var rules := RulesOf(doc).value.items;
      var r := RerouteRules(rules, s).value.0;
      forall i | 0 <= i < |rules| ensures RuleParked(rules[i], r[i], s) { RulesAreParked(rules, s, i); }
      PutAgain(Get(doc, "spec"), "rules", List(r));
      PutAgain(doc, "spec", Put(Get(doc, "spec"), "rules", List(r)));
    }
  }

  /** What Python takes for neither a mapping nor nothing. */
  ghost predicate Odd(v: Value) {
    !v.Dict? && v !in {Null, Bool(false), Number(0), Text(""), List([])}
  }

  /** Neither a list of mappings nor nothing. */
  ghost predicate NoList(v: Value) {
    if v.List? then !AllDicts(v.items) else if v.Dict? then v.entries != map[] else Odd(v)
  }

  /** A rule for the hostname whose `http` is no mapping, or whose paths are no list of mappings. */
  ghost predicate RuleRaises(rule: Value, s: Stopped)
    requires HasHostname(s)
  {
    && ForHost(rule, s)
    && (Odd(Get(rule, "http")) || (Get(rule, "http").Dict? && NoList(Get(Get(rule, "http"), "paths"))))
  }

  lemma {:induction false} RulesRaise(rules: seq<Value>, s: Stopped)
    requires HasHostname(s)
    ensures RerouteRules(rules, s).Raised? <==> exists i | 0 <= i < |rules| :: RuleRaises(rules[i], s)
  {
    if rules != [] {
      var n := |rules| - 1;
      RulesRaise(rules[..n], s);
      assert RerouteRule(rules[n], s).Raised? <==> RuleRaises(rules[n], s);
      assert forall i | 0 <= i < n :: rules[..n][i] == rules[i];
    }
  }

  /** Stopping an Ingress raises exactly when its spec, its rules or a rule for the hostname is not as it should be. */
  lemma IngressRaisesExactly(doc: Value, s: Stopped)
    requires Kind(doc) == "Ingress"
    ensures Stop(doc, s).Raised? <==>
      && s.hostname.Some? && s.hostname.value != ""
      && (|| Odd(Get(doc, "spec"))
          || InSpecOf(doc, "rules") == Bool(true)
          || (InSpecOf(doc, "rules").Number? && InSpecOf(doc, "rules") != Number(0))
          || (InSpecOf(doc, "rules").List?
              && exists i | 0 <= i < |InSpecOf(doc, "rules").items| :: RuleRaises(InSpecOf(doc, "rules").items[i], s)))
  {
    hide RuleRaises, RerouteRules;
    if HasHostname(s) && InSpecOf(doc, "rules").List? {
      RulesRaise(InSpecOf(doc, "rules").items, s);
    }
  }

  /** On the way to the pod template something is no mapping. */
  ghost predicate PlaceRaises(doc: Value) {
    && doc.Dict? && Kind(doc) != "Pod"
    && var spec := Get(doc, "spec");
       || Odd(spec)
       || (spec.Dict? && "jobTemplate" in spec.entries
           && var job := Get(spec, "jobTemplate"); Odd(job) || (job.Dict? && Odd(Get(job, "spec"))))
  }

  /** Its init containers are no list of mappings, or there are annotations and no mapping to write them to. */
  ghost predicate TemplateRaises(t: Value, annotations: map<string, string>)
    requires IsTemplate(t)
  {
    || NoList(Get(Get(t, "spec"), "initContainers"))
    || (annotations != map[]
        && (Odd(Get(t, "metadata"))
            || (Get(t, "metadata").Dict? && Odd(Get(Get(t, "metadata"), "annotations")))))
  }

  /** Rewriting raises exactly then. */
  lemma RewriteRaisesExactly(doc: Value, gate: Value, annotations: map<string, string>)
    ensures Rewrite(doc, gate, annotations).Raised? <==>
      || PlaceRaises(doc)
      || (PodTemplate(doc).Done? && PodTemplate(doc).value.Some?
          && TemplateRaises(TemplateAt(doc, PodTemplate(doc).value.value), annotations))
  {
    hide TemplateSpec, IsTemplate;
    PlaceRaisesExactly(doc);
    if PodTemplate(doc).Done? && PodTemplate(doc).value.Some? {
      TemplateRaisesExactly(TemplateAt(doc, PodTemplate(doc).value.value), gate, annotations);
    }
  }

  lemma PlaceRaisesExactly(doc: Value)
    ensures PodTemplate(doc).Raised? <==> PlaceRaises(doc)
  {
  }

  lemma TemplateRaisesExactly(t: Value, gate: Value, annotations: map<string, string>)
    requires IsTemplate(t)
    ensures RewriteTemplate(t, gate, annotations).Raised? <==> TemplateRaises(t, annotations)
  {
    hide Others;
    var pod := Inject(Get(t, "spec"), gate);
    if pod.Done? { PutAgain(t, "spec", pod.value); }
  }

  // ---------- What rewriting leaves alone ----------

  /** `after` are those of `before` not named as the gate is, in their order; `at` says where each was. */
  ghost predicate AreOthers(before: seq<Value>, after: seq<Value>, at: seq<nat>) {
    && |at| == |after|
    && (forall k | 0 <= k < |at| :: at[k] < |before| && after[k] == before[at[k]])
    && (forall k, l | 0 <= k < l < |at| :: at[k] < at[l])
    && forall i | 0 <= i < |before| ::
         before[i].Dict? && (i in at <==> Get(before[i], "name") != Text("caelus-egress-gate"))
  }

  ghost predicate KeepsOthers(before: seq<Value>, after: seq<Value>) {
    exists at: seq<nat> :: AreOthers(before, after, at)
  }

  lemma {:induction false} OthersInOrder(cs: seq<Value>) returns (at: seq<nat>)
    requires AllDicts(cs)
    ensures AreOthers(cs, Others(cs), at)
  {
    if cs == [] {
      at := [];
    } else {
      hide AreOthers;
      var n := |cs| - 1;
      var before := OthersInOrder(cs[..n]);
      OneMoreOther(cs, Others(cs[..n]), before);
      at := if Get(cs[n], "name") == Text(CONTAINER_NAME) then before else before + [n];
    }
  }

  lemma OneMoreOther(cs: seq<Value>, others: seq<Value>, at: seq<nat>)
    requires cs != [] && AllDicts(cs) && AreOthers(cs[..|cs| - 1], others, at)
    ensures var n := |cs| - 1;
      if Get(cs[n], "name") == Text(CONTAINER_NAME) then AreOthers(cs, others, at)
      else AreOthers(cs, others + [cs[n]], at + [n])
  {
    hide Get;
    var n := |cs| - 1;
    assert forall i | 0 <= i < n :: cs[..n][i] == cs[i];
    assert forall i :: i in at + [n] <==> i in at || i == n;
  }

  /** The template gains the gate, first among its init containers, and the annotations; nothing else of it changes. */
  ghost predicate Rewritten(t: Value, u: Value, gate: Value, annotations: map<string, string>) {
    && IsTemplate(t) && IsTemplate(u)
    && Get(Get(u, "spec"), "initContainers").List?
    && (var gated := Get(Get(u, "spec"), "initContainers").items;
        && |gated| > 0 && gated[0] == gate
        && (forall i | 0 < i < |gated| :: gated[i].Dict? && Get(gated[i], "name") != Text(CONTAINER_NAME))
        && (Get(Get(t, "spec"), "initContainers").List? ==>
              KeepsOthers(Get(Get(t, "spec"), "initContainers").items, gated[1..])))
    && (forall key | key != "initContainers" :: Get(Get(u, "spec"), key) == Get(Get(t, "spec"), key))
    && (forall key | key != "spec" && key != "metadata" :: Get(u, key) == Get(t, key))
    && (annotations == map[] ==> Get(u, "metadata") == Get(t, "metadata"))
    && (annotations != map[] ==>
         && Get(u, "metadata").Dict? && Get(Get(u, "metadata"), "annotations").Dict?
         && (forall k | k in annotations :: Get(Get(Get(u, "metadata"), "annotations"), k) == Text(annotations[k]))
         && (forall key | Get(t, "metadata").Dict? && key != "annotations" ::
               Get(Get(u, "metadata"), key) == Get(Get(t, "metadata"), key))
         && (forall k | Get(t, "metadata").Dict? && Get(Get(t, "metadata"), "annotations").Dict? && k !in annotations ::
               Get(Get(Get(u, "metadata"), "annotations"), k) == Get(Get(Get(t, "metadata"), "annotations"), k)))
  }

  lemma InjectedSpec(pod: Value, gate: Value)
    requires pod.Dict? && IsGate(gate) && Inject(pod, gate).Done?
    ensures var p := Inject(pod, gate).value;
      && p.Dict? && Get(p, "initContainers").List?
      && (var gated := Get(p, "initContainers").items;
          && |gated| > 0 && gated[0] == gate
          && (forall i | 0 < i < |gated| :: gated[i].Dict? && Get(gated[i], "name") != Text(CONTAINER_NAME))
          && (Get(pod, "initContainers").List? ==> KeepsOthers(Get(pod, "initContainers").items, gated[1..])))
      && (forall key | key != "initContainers" :: Get(p, key) == Get(pod, key))
  {
    var had := Get(pod, "initContainers");
    var cs := if Falsy(had) then [] else had.items;
    OthersAreDicts(cs);
    var at := OthersInOrder(cs);
    PutAgain(pod, "initContainers", List([gate] + Others(cs)));
    assert ([gate] + Others(cs))[1..] == Others(cs);
    if had.List? { assert had.items == cs && AreOthers(cs, Others(cs), at); }
  }

  lemma Annotated(t: Value, annotations: map<string, string>)
    requires t.Dict? && Annotate(t, annotations).Done?
    ensures var u := Annotate(t, annotations).value;
      && u.Dict? && Get(u, "metadata").Dict? && Get(Get(u, "metadata"), "annotations").Dict?
      && (forall key | key != "metadata" :: Get(u, key) == Get(t, key))
      && (forall k | k in annotations :: Get(Get(Get(u, "metadata"), "annotations"), k) == Text(annotations[k]))
      && (forall key | Get(t, "metadata").Dict? && key != "annotations" ::
            Get(Get(u, "metadata"), key) == Get(Get(t, "metadata"), key))
      && (forall k | Get(t, "metadata").Dict? && Get(Get(t, "metadata"), "annotations").Dict? && k !in annotations ::
            Get(Get(Get(u, "metadata"), "annotations"), k) == Get(Get(Get(t, "metadata"), "annotations"), k))
  {
    var metadata := OrEmpty(Get(t, "metadata"));
    var written := OrEmpty(Get(metadata, "annotations")).entries + Texts(annotations);
    PutAgain(metadata, "annotations", Dict(written));
    PutAgain(t, "metadata", Put(metadata, "annotations", Dict(written)));
  }

  lemma TemplateIsRewritten(t: Value, gate: Value, annotations: map<string, string>)
    requires IsTemplate(t) && IsGate(gate) && RewriteTemplate(t, gate, annotations).Done?
    ensures Rewritten(t, RewriteTemplate(t, gate, annotations).value, gate, annotations)
  {
    hide Inject, Annotate, Put;
    TemplateTwice(t, gate, annotations);
    InjectedSpec(Get(t, "spec"), gate);
    var pod := Inject(Get(t, "spec"), gate).value;
    PutAgain(t, "spec", pod);
    if annotations != map[] { Annotated(Put(t, "spec", pod), annotations); }
  }

  /** A document with no pod template is untouched; in any other, only the template changes. */
  lemma RewriteFrame(doc: Value, gate: Value, annotations: map<string, string>)
    requires IsGate(gate) && Rewrite(doc, gate, annotations).Done?
    ensures var (d, changed) := Rewrite(doc, gate, annotations).value;
      if PodTemplate(doc) == Done(None) then d == doc && !changed
      else
        && changed && PodTemplate(doc).Done? && PodTemplate(d) == PodTemplate(doc)
        && var at := PodTemplate(doc).value.value;
           && Rewritten(TemplateAt(doc, at), TemplateAt(d, at), gate, annotations)
           && d == PutTemplate(doc, at, TemplateAt(d, at))
  {
    hide RewriteTemplate, Rewritten;
    if PodTemplate(doc).value.Some? {
      var at := PodTemplate(doc).value.value;
      var t := TemplateAt(doc, at);
      TemplateTwice(t, gate, annotations);
      TemplateIsRewritten(t, gate, annotations);
      PutThenFind(doc, at, RewriteTemplate(t, gate, annotations).value);
    }
  }

  // ---------- Which pods get the gate ----------

  const WORKLOADS :=
    {"Pod", "DaemonSet", "Deployment", "StatefulSet", "ReplicaSet", "ReplicationController", "Job", "CronJob"}

  /** Where Kubernetes takes the pod template of a workload from. */
  function Place(kind: string): Where {
    if kind == "Pod" then Self else if kind == "CronJob" then InJob else InSpec
  }

  /** The template Kubernetes runs pods of, if it is there and has containers. */
  function RunTemplate(doc: Value, kind: string): (t: Option<Value>)
    ensures t.Some? ==> IsTemplate(t.value)
  {
    var t :=
      if !doc.Dict? || kind == "Pod" then doc
      else if kind != "CronJob" then InSpecOf(doc, "template")
      else
        var job := InSpecOf(doc, "jobTemplate");
        if job.Dict? then InSpecOf(job, "template") else Null;
    if t.Dict? && Get(t, "spec").Dict? && "containers" in Get(t, "spec").entries then Some(t) else None
  }

  /** The gate is the first of its init containers. */
  predicate Gated(t: Value, gate: Value)
    requires IsTemplate(t)
  {
    var init := Get(Get(t, "spec"), "initContainers");
    init.List? && |init.items| > 0 && init.items[0] == gate
  }

  /** The renderer looks where Kubernetes does, but that it takes any workload with a `jobTemplate` for a CronJob. */
  predicate FoundWhereRun(doc: Value)
    requires doc.Dict?
  {
    Kind(doc) in {"Pod", "CronJob"} || !Get(doc, "spec").Dict? || "jobTemplate" !in Get(doc, "spec").entries
  }

  /** The template found is the one run, exactly then. */
  lemma TemplateFoundExactly(doc: Value)
    requires Kind(doc) in WORKLOADS && RunTemplate(doc, Kind(doc)).Some?
    ensures doc.Dict? && (PodTemplate(doc) == Done(Some(Place(Kind(doc)))) <==> FoundWhereRun(doc))
  {
  }

  /** Nothing without containers is taken for one. */
  lemma FoundHasContainers(doc: Value, at: Where)
    requires PodTemplate(doc) == Done(Some(at))
    ensures var t := TemplateAt(doc, at);
      t.Dict? && Get(t, "spec").Dict? && "containers" in Get(t, "spec").entries
  {
  }

  lemma FoundIsRun(doc: Value)
    requires Kind(doc) in WORKLOADS && PodTemplate(doc) == Done(Some(Place(Kind(doc))))
    ensures RunTemplate(doc, Kind(doc)) == Some(TemplateAt(doc, Place(Kind(doc))))
  {
    if Kind(doc) != "Pod" { HeldBy(doc, Place(Kind(doc))); }
  }

  /** A template put for a job leaves the one beside it. */
  lemma JobBeside(doc: Value, t: Value)
    requires PodTemplate(doc) == Done(Some(InJob)) && IsTemplate(t)
    ensures var d := PutTemplate(doc, InJob, t); d.Dict? && InSpecOf(d, "template") == InSpecOf(doc, "template")
  {
    hide IsTemplate;
    HeldBy(doc, InJob);
    var spec := Get(doc, "spec");
    var job := Get(spec, "jobTemplate");
    var job' := Put(job, "spec", Put(Get(job, "spec"), "template", t));
    PutAgain(spec, "jobTemplate", job');
    PutAgain(doc, "spec", Put(spec, "jobTemplate", job'));
  }

  lemma ItemsUntouched(doc: Value, at: Where, t: Value)
    requires PodTemplate(doc) == Done(Some(at)) && !at.Self?
    ensures PutTemplate(doc, at, t).Dict? && Get(PutTemplate(doc, at, t), "items") == Get(doc, "items")
  {
  }

  /** Whatever starts pods is a workload, or a list. */
  lemma StartersAreWorkloads(doc: Value)
    requires StartsPods(doc)
    ensures doc.Dict? && (Kind(doc) in WORKLOADS || IsListKind(Kind(doc)))
  {
  }

  lemma WorkloadGate(doc: Value, gate: Value, annotations: map<string, string>)
    requires IsGate(gate) && Rewrite(doc, gate, annotations).Done?
    requires Kind(doc) in WORKLOADS && RunTemplate(doc, Kind(doc)).Some?
    ensures var d, kind := Rewrite(doc, gate, annotations).value.0, Kind(doc);
      && RunTemplate(d, kind).Some?
      && if FoundWhereRun(doc) then Gated(RunTemplate(d, kind).value, gate)
         else RunTemplate(d, kind) == RunTemplate(doc, kind)
  {
    hide Rewrite, PodTemplate, RunTemplate, IsTemplate;
    var d := Rewrite(doc, gate, annotations).value.0;
    RewriteFrame(doc, gate, annotations);
    RewriteKeepsKind(doc, gate, annotations);
    TemplateFoundExactly(doc);
    if FoundWhereRun(doc) {
      FoundIsRun(doc);
      FoundIsRun(d);
    } else {
      EscapeUnchanged(doc, d);
    }
  }

  lemma EscapeUnchanged(doc: Value, d: Value)
    requires Kind(doc) in WORKLOADS && !FoundWhereRun(doc) && PodTemplate(doc).Done?
    requires if PodTemplate(doc).value.None? then d == doc
             else
               var at := PodTemplate(doc).value.value;
               && PodTemplate(d) == PodTemplate(doc)
               && d == PutTemplate(doc, at, TemplateAt(d, at))
    ensures RunTemplate(d, Kind(doc)) == RunTemplate(doc, Kind(doc))
  {
    if PodTemplate(doc).value.Some? {
      assert PodTemplate(doc).value.value == InJob;
      JobBeside(doc, TemplateAt(d, InJob));
    }
  }

  /**
   Exactly which pods get the gate: every workload's whose template is looked for where Kubernetes takes it from, and no
   other's; a workload that is no CronJob but has a `jobTemplate`, and every document inside a list, keep the pod
   template they came with.
   */
  lemma GatedExactly(doc: Value, gate: Value, annotations: map<string, string>)
    requires IsGate(gate) && Rewrite(doc, gate, annotations).Done? && StartsPods(doc)
    ensures var d, kind := Rewrite(doc, gate, annotations).value.0, Kind(doc);
      && doc.Dict? && d.Dict? && Kind(d) == kind && (kind in WORKLOADS || IsListKind(kind))
      && (kind in WORKLOADS && RunTemplate(doc, kind).Some? ==>
           && RunTemplate(d, kind).Some?
           && if FoundWhereRun(doc) then Gated(RunTemplate(d, kind).value, gate)
              else RunTemplate(d, kind) == RunTemplate(doc, kind))
      && (kind !in WORKLOADS ==> ListItems(d, kind) == ListItems(doc, kind))
  {
    hide Rewrite, RunTemplate, FoundWhereRun, PodTemplate, PutTemplate;
    var d := Rewrite(doc, gate, annotations).value.0;
    StartersAreWorkloads(doc);
    RewriteKeepsKind(doc, gate, annotations);
    RewriteFrame(doc, gate, annotations);
    if Kind(doc) in WORKLOADS {
      if RunTemplate(doc, Kind(doc)).Some? { WorkloadGate(doc, gate, annotations); }
      assert d.Dict?;
    } else if PodTemplate(doc) != Done(None) {
      ListsHoldNoPod(doc);
      ItemsUntouched(doc, PodTemplate(doc).value.value, TemplateAt(d, PodTemplate(doc).value.value));
    }
  }

  lemma ListsHoldNoPod(doc: Value)
    requires Kind(doc) != "Pod"
    ensures PodTemplate(doc) != Done(Some(Self))
  {
  }

  const TEMPLATE := Dict(map["spec" := Dict(map["containers" := List([])])])
  const ODD_SPEC := Dict(map["template" := TEMPLATE, "jobTemplate" := Null])
  const PLAIN_SPEC := Dict(map["template" := TEMPLATE])
  const ODD := Dict(map["kind" := Text("Deployment"), "spec" := ODD_SPEC])
  const PLAIN := Dict(map["kind" := Text("Deployment"), "spec" := PLAIN_SPEC])
  const LISTED := Dict(map["kind" := Text("List"), "items" := List([PLAIN])])

  /** A Deployment with an empty `jobTemplate` escapes. */
  lemma OddEscapes(gate: Value)
    requires IsGate(gate)
    ensures StartsPods(ODD) && Rewrite(ODD, gate, map[]) == Done((ODD, false))
    ensures RunTemplate(ODD, "Deployment") == Some(TEMPLATE) && !Gated(TEMPLATE, gate)
  {
    assert Kind(ODD) == "Deployment" && Get(ODD, "spec") == ODD_SPEC;
    assert TemplateSpec(ODD, InJob) == Dict(map[]);
  }

  /** One without it gets the gate. */
  lemma PlainIsRewritten(gate: Value)
    requires IsGate(gate)
    ensures StartsPods(PLAIN) && Rewrite(PLAIN, gate, map[]).Done? && Rewrite(PLAIN, gate, map[]).value.1
  {
    hide ListItems;
    assert Kind(PLAIN) == "Deployment" && Get(PLAIN, "spec") == PLAIN_SPEC;
    assert PodTemplate(PLAIN) == Done(Some(InSpec)) && TemplateAt(PLAIN, InSpec) == TEMPLATE;
  }

  /** But not in a `List`. */
  lemma ListedEscapes(gate: Value)
    requires IsGate(gate)
    ensures StartsPods(LISTED) && Rewrite(LISTED, gate, map[]) == Done((LISTED, false))
  {
    hide RewriteTemplate;
    PlainIsRewritten(gate);
    assert Kind(LISTED) == "List" && PodTemplate(LISTED) == Done(None);
    assert "List"[0..] == LIST_SUFFIX;
    assert ListItems(LISTED, "List")[0] == PLAIN;
  }
}
